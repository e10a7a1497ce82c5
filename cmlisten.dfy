/*
 * `tibrvcmlisten`: a certified-delivery listener on every subject named on
 * the command line, plus advisory listeners. Its message callback is the
 * one of `Certified`, its listener loop the one of `Listen.CreateListeners`.
 */
module CmListen {
  import opened RvStatus
  import opened Argv

  const MIN_PARMS: nat := 2
  const DEFAULT_CMNAME: string := "RVCMSUB"

  /** `get_InitParms`: at least two arguments, the transport flags plus `-ledger` and `-cmname`, no help check. */
  const CM_TABLE: ScanTable := ScanTable(TRANSPORT_FLAGS + {"-ledger", "-cmname"}, MIN_PARMS, false)

  /** The scanner as the program runs it. */
  method GetInitParms(args: seq<string>) returns (r: Scan)
    ensures r == Scanner(args, CM_TABLE)
  {
    r := RunScanner(args, CM_TABLE);
  }

  /** The certified-delivery settings: the correspondent name and the ledger file, if any. */
  datatype Config = Config(cmname: string, ledger: Option<string>)

  function Configure(values: map<string, string>): Config
  {
    Config(if "-cmname" in values then values["-cmname"] else DEFAULT_CMNAME, Lookup(values, "-ledger"))
  }

  /**
   * After a successful scan, the correspondent name is the value of the last
   * `-cmname`, `"RVCMSUB"` when there is none, and the ledger the value of
   * the last `-ledger`; the subjects are the arguments from the returned
   * index on.
   */
  lemma ConfigureFromArgs(args: seq<string>)
    requires |args| >= 1 && Scanner(args, CM_TABLE).Scanned?
    ensures var r := Scanner(args, CM_TABLE);
      var c := Configure(r.values);
      |args| >= MIN_PARMS && 1 <= r.next <= |args| && (r.next - 1) % 2 == 0 &&
      c.cmname == (match LastValue(Pairs(args, 1, r.next), "-cmname") case Some(v) => v case None => DEFAULT_CMNAME) &&
      c.ledger == LastValue(Pairs(args, 1, r.next), "-ledger")
  {
    ScannedValue(args, CM_TABLE, "-cmname");
    ScannedValue(args, CM_TABLE, "-ledger");
  }

  /** The statuses of the setup steps of `main`: open, transport, certified transport; each failure exits with status 1. */
  datatype SetupSteps = SetupSteps(open: Status, createTransport: Status, createCmTransport: Status)

  function Setup(s: SetupSteps): (flow: Flow)
    ensures flow == Continue || flow == Exit(1)
    ensures flow == Continue <==> s.open == Ok && s.createTransport == Ok && s.createCmTransport == Ok
  {
    var steps := [s.open, s.createTransport, s.createCmTransport];
    assert AllOk(steps) <==> steps[0] == Ok && steps[1] == Ok && steps[2] == Ok;
    SetupFlow(steps)
  }

  /**
   * The advisory listeners: `_RV.*.RVCM.>`, whose status is overwritten
   * unread, then `_RV.*.SYSTEM.>`, whose failure exits with status 5.
   */
  function Advisories(rvcm: Status, system: Status): (flow: Flow)
    ensures flow == Continue || flow == Exit(5)
  {
    var err := rvcm;
    var err' := system;
    if err' != Ok then Exit(5) else Continue
  }

  /** Only the second advisory listener decides: the process exits with status 5 exactly when it fails. */
  lemma AdvisoryExitDependsOnSecondOnly(rvcm: Status, rvcm': Status, system: Status)
    ensures Advisories(rvcm, system) == Exit(5) <==> system != Ok
    ensures Advisories(rvcm, system) == Advisories(rvcm', system)
  {
  }
}
