/*
 * The command line of the two benchmark clients, which share one copy of
 * `getParameters`: transport flags plus `-interval` and `-status`, a help
 * check, and the request count as the first argument left over.
 */
module BenchArgs {
  import opened RvStatus
  import opened Argv

  const DEFAULT_REQUESTS: nat := 10000

  /** Help check, no minimum argument count, the transport flags plus `-interval` and `-status`. */
  const CLIENT_TABLE: ScanTable := ScanTable(TRANSPORT_FLAGS + {"-interval", "-status"}, 0, true)

  /** `getParameters`: the stripped program name and the scan of the flags. */
  method GetParameters(args: seq<string>) returns (programName: string, r: Scan)
    requires |args| >= 1
    ensures programName == StripProgramName(args[0], CLIENT_SEPARATORS)
    ensures r == Scanner(args, CLIENT_TABLE)
  {
    programName := StripProgramName(args[0], CLIENT_SEPARATORS);
    r := RunScanner(args, CLIENT_TABLE);
  }

  /** The program settings `main` reads after the scan. */
  datatype Config = Config(requests: nat, statusFrq: nat, interval: real)

  /**
   * The settings: `-status` through `atol` and the cast to `tibrv_u32`
   * (default 0, no status lines), `-interval` through `atof` (default 0, the
   * burst mode), and the request count from the first argument left over.
   */
  function Configure(args: seq<string>, next: nat, values: map<string, string>,
                     atoi: string -> int, atol: string -> int, atof: string -> real): (c: Config)
    ensures c.requests < U32_MODULUS && c.statusFrq < U32_MODULUS
    ensures c.requests == RequestCount(args, next, atoi)
    ensures "-status" !in values ==> c.statusFrq == 0
    ensures "-status" in values && 0 <= atol(values["-status"]) < U32_MODULUS ==> c.statusFrq == atol(values["-status"])
    ensures c.interval == if "-interval" in values then atof(values["-interval"]) else 0.0
  {
    Config(RequestCount(args, next, atoi),
           if "-status" in values then ToU32(atol(values["-status"])) else 0,
           if "-interval" in values then atof(values["-interval"]) else 0.0)
  }

  /**
   * The request count `main` derives from the scan: the first argument left
   * after the flags, through `atoi` and the conversion to `tibrv_u32`, or the
   * default when no argument is left.
   */
  function RequestCount(args: seq<string>, next: nat, atoi: string -> int): (n: nat)
    ensures n < U32_MODULUS
    ensures next >= |args| ==> n == DEFAULT_REQUESTS
    ensures next < |args| && 0 <= atoi(args[next]) < U32_MODULUS ==> n == atoi(args[next])
  {
    if next < |args| then ToU32(atoi(args[next])) else DEFAULT_REQUESTS
  }
}
