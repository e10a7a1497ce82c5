/*
 * `tibrvdqlisten_old`: a member of a distributed queue listening on every
 * subject named on the command line. Its message callback is the one of
 * `Certified`, its listener loop the one of `Listen.CreateListeners`; its
 * scanner takes the queue's numeric settings as well.
 */
module DqListen {
  import opened RvStatus
  import opened Argv

  const MIN_PARMS: nat := 2
  const DEFAULT_CMNAME: string := "RVCMSUB"

  /** The flags `get_InitParms` accepts: the transport flags, the queue name and the five queue settings. */
  const DQ_FLAGS: set<string> :=
    TRANSPORT_FLAGS + {"-cmname", "-workerWeight", "-workerTasks", "-schedulerWeight", "-heartbeat", "-activation"}

  /** `get_InitParms`: at least two arguments, the nine flags, no help check. */
  const DQ_TABLE: ScanTable := ScanTable(DQ_FLAGS, MIN_PARMS, false)

  /** The scanner as the program runs it. */
  method GetInitParms(args: seq<string>) returns (r: Scan)
    ensures r == Scanner(args, DQ_TABLE)
  {
    r := RunScanner(args, DQ_TABLE);
  }

  /** An unknown flag is rejected even when it names a setting of another program. */
  lemma ScannerRejectsUnknown()
    ensures Scanner(["tibrvdqlisten", "-ledger", "f", "a.b"], DQ_TABLE) == Usage(UnknownFlag("-ledger"))
    ensures Scanner(["tibrvdqlisten"], DQ_TABLE) == Usage(TooFewArguments)
  {
    assert "-ledger" !in DQ_FLAGS;
  }

  /** The queue member's settings. */
  datatype Config = Config(cmname: string, workerWeight: nat, workerTasks: nat, schedulerWeight: nat,
                           heartbeat: real, activation: real)

  /**
   * The settings from the scanned values: each number through `atoi` and
   * the cast to `tibrv_u32` (`tibrv_u16` for the scheduler weight), the two
   * times through `atof`; absent flags keep the defaults 1, 1, 1, 1.0, 3.5
   * and `"RVCMSUB"`.
   */
  function Configure(values: map<string, string>, atoi: string -> int, atof: string -> real): (c: Config)
    ensures c.workerWeight < U32_MODULUS && c.workerTasks < U32_MODULUS && c.schedulerWeight < U16_MODULUS
    ensures "-cmname" !in values ==> c.cmname == DEFAULT_CMNAME
    ensures "-workerWeight" !in values ==> c.workerWeight == 1
    ensures "-workerTasks" !in values ==> c.workerTasks == 1
    ensures "-schedulerWeight" !in values ==> c.schedulerWeight == 1
    ensures "-heartbeat" !in values ==> c.heartbeat == 1.0
    ensures "-activation" !in values ==> c.activation == 3.5
    ensures "-workerWeight" in values && 0 <= atoi(values["-workerWeight"]) < U32_MODULUS ==>
      c.workerWeight == atoi(values["-workerWeight"])
    ensures "-workerTasks" in values && 0 <= atoi(values["-workerTasks"]) < U32_MODULUS ==>
      c.workerTasks == atoi(values["-workerTasks"])
    ensures "-schedulerWeight" in values && 0 <= atoi(values["-schedulerWeight"]) < U16_MODULUS ==>
      c.schedulerWeight == atoi(values["-schedulerWeight"])
  {
    Config(
      if "-cmname" in values then values["-cmname"] else DEFAULT_CMNAME,
      if "-workerWeight" in values then ToU32(atoi(values["-workerWeight"])) else 1,
      if "-workerTasks" in values then ToU32(atoi(values["-workerTasks"])) else 1,
      if "-schedulerWeight" in values then ToU16(atoi(values["-schedulerWeight"])) else 1,
      if "-heartbeat" in values then atof(values["-heartbeat"]) else 1.0,
      if "-activation" in values then atof(values["-activation"]) else 3.5)
  }

  /**
   * After a successful scan, each numeric setting is its last value on the
   * command line, wrapped to its width: the worker weight and task count
   * modulo 2^32, the scheduler weight modulo 2^16 (so 65536 becomes 0).
   */
  lemma NumbersFromArgs(args: seq<string>, atoi: string -> int, atof: string -> real)
    requires |args| >= 1 && Scanner(args, DQ_TABLE).Scanned?
    ensures var r := Scanner(args, DQ_TABLE);
      var c := Configure(r.values, atoi, atof);
      1 <= r.next <= |args| && (r.next - 1) % 2 == 0 &&
      (match LastValue(Pairs(args, 1, r.next), "-workerWeight")
        case None => c.workerWeight == 1
        case Some(v) => c.workerWeight == atoi(v) % U32_MODULUS) &&
      (match LastValue(Pairs(args, 1, r.next), "-workerTasks")
        case None => c.workerTasks == 1
        case Some(v) => c.workerTasks == atoi(v) % U32_MODULUS) &&
      (match LastValue(Pairs(args, 1, r.next), "-schedulerWeight")
        case None => c.schedulerWeight == 1
        case Some(v) => c.schedulerWeight == atoi(v) % U16_MODULUS)
  {
    ScannedValue(args, DQ_TABLE, "-workerWeight");
    ScannedValue(args, DQ_TABLE, "-workerTasks");
    ScannedValue(args, DQ_TABLE, "-schedulerWeight");
  }

  /**
   * The statuses of the setup steps of `main`: open, transport, queue
   * member; then, after the listener loop, the two scheduler advisory
   * listeners. Each failure exits with status 1.
   */
  datatype SetupSteps = SetupSteps(open: Status, createTransport: Status, createQueueMember: Status)

  function Setup(s: SetupSteps): (flow: Flow)
    ensures flow == Continue || flow == Exit(1)
    ensures flow == Continue <==> s.open == Ok && s.createTransport == Ok && s.createQueueMember == Ok
  {
    var steps := [s.open, s.createTransport, s.createQueueMember];
    assert AllOk(steps) <==> steps[0] == Ok && steps[1] == Ok && steps[2] == Ok;
    SetupFlow(steps)
  }

  /** The advisory listeners for the scheduler becoming active and inactive: each failure exits with status 1. */
  function Advisories(active: Status, inactive: Status): (flow: Flow)
    ensures flow == Continue || flow == Exit(1)
    ensures flow == Continue <==> active == Ok && inactive == Ok
  {
    var steps := [active, inactive];
    assert AllOk(steps) <==> steps[0] == Ok && steps[1] == Ok;
    SetupFlow(steps)
  }
}
