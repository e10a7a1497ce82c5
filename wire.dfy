/*
 * The numeric fields the benchmark programs exchange: a client request
 * carries `x` and `y` (and, from the virtual-circuit client, their `sum`),
 * and a server reply carries `sum`.
 */
module Wire {
  import opened RvStatus

  /** The `tibrv_u32` fields of a message; a field the message does not hold is absent. */
  datatype Payload = Payload(x: Option<nat>, y: Option<nat>, sum: Option<nat>)

  /** A message just created by `tibrvMsg_Create`. */
  const EMPTY: Payload := Payload(None, None, None)
}
