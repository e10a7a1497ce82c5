/*
 * `tibrvftmon`: watches the fault-tolerance group `TIBRVFT_TIME_EXAMPLE` and
 * prints a line each time the library reports a new number of active
 * members, saying whether a member was activated or deactivated by comparing
 * with the number it was told the time before.
 */
module FtMon {
  import opened RvStatus
  import opened Argv

  const GROUP_NAME: string := "TIBRVFT_TIME_EXAMPLE"

  /** `get_InitParms`: no minimum count, no help check, the transport flags; it returns nothing, so the arguments after the flags are ignored. */
  const FTMON_TABLE: ScanTable := ScanTable(TRANSPORT_FLAGS, 0, false)

  /** The scanner as the program runs it; only the transport values and the `usage()` outcome matter to `main`. */
  method GetInitParms(args: seq<string>) returns (r: Scan)
    ensures r == Scanner(args, FTMON_TABLE)
  {
    r := RunScanner(args, FTMON_TABLE);
  }

  /** The scan stops at the first argument without a dash, so an unknown flag after it is never looked at. */
  lemma PositionalArgumentsIgnored()
    ensures Scanner(["tibrvftmon", "-network", "n", "extra", "-bogus", "v"], FTMON_TABLE) == Scanned(3, map["-network" := "n"])
    ensures Scanner(["tibrvftmon", "-bogus", "v"], FTMON_TABLE) == Usage(UnknownFlag("-bogus"))
    ensures Scanner(["tibrvftmon"], FTMON_TABLE) == Scanned(1, map[])
  {
    assert !StartsWithDash("extra");
    assert "-network" in TRANSPORT_FLAGS && "-bogus" !in TRANSPORT_FLAGS;
  }

  /** The statuses of the setup steps of `main`: open, transport, monitor; each failure exits with status 1. */
  datatype SetupSteps = SetupSteps(open: Status, createTransport: Status, createMonitor: Status)

  function Setup(s: SetupSteps): (flow: Flow)
    ensures flow == Continue || flow == Exit(1)
    ensures flow == Continue <==> s.open == Ok && s.createTransport == Ok && s.createMonitor == Ok
  {
    var steps := [s.open, s.createTransport, s.createMonitor];
    assert AllOk(steps) <==> steps[0] == Ok && steps[1] == Ok && steps[2] == Ok;
    SetupFlow(steps)
  }

  /** What a report line says happened. */
  datatype Change = Activated | Deactivated

  /** A line printed by `monCB`: the group, its number of active members, and the change. */
  datatype Report = Report(group: string, active: nat, change: Change)

  /** The change reported for a new count: a deactivation exactly when the count dropped; an unchanged count reads as an activation. */
  function ChangeFor(previous: nat, active: nat): (c: Change)
    ensures c == Deactivated <==> previous > active
  {
    if previous > active then Deactivated else Activated
  }

  /** The changes reported for a series of counts, starting from the previous count `previous`. */
  function Changes(previous: nat, counts: seq<nat>): (r: seq<Change>)
    ensures |r| == |counts|
    decreases |counts|
  {
    if counts == [] then []
    else [ChangeFor(previous, counts[0])] + Changes(counts[0], counts[1..])
  }

  /** The `i`-th change compares count `i` with the one before it, or with `previous` for the first. */
  lemma {:induction false} ChangeAt(previous: nat, counts: seq<nat>, i: nat)
    requires i < |counts|
    ensures Changes(previous, counts)[i] == ChangeFor(if i == 0 then previous else counts[i - 1], counts[i])
    decreases |counts|
  {
    if i > 0 {
      var rest := counts[1..];
      ChangeAt(counts[0], rest, i - 1);
      assert Changes(previous, counts)[i] == Changes(counts[0], rest)[i - 1];
      if i > 1 {
        assert rest[i - 2] == counts[i - 1];
      }
    }
  }

  /**
   * From the start, when the previous count is 0: the first report is an
   * activation, and every later one is a deactivation exactly when the
   * count fell below the one before it.
   */
  lemma ChangesCompareNeighbours(previous: nat, counts: seq<nat>)
    ensures forall k :: 0 < k < |counts| ==> (Changes(previous, counts)[k] == Deactivated <==> counts[k - 1] > counts[k])
    ensures |counts| > 0 ==> (Changes(previous, counts)[0] == Deactivated <==> previous > counts[0])
    ensures |counts| > 0 && previous == 0 ==> Changes(previous, counts)[0] == Activated
  {
    forall k | 0 <= k < |counts| {
      ChangeAt(previous, counts, k);
    }
  }

  /** A count that never falls is reported as activations only. */
  lemma NondecreasingIsActivations(previous: nat, counts: seq<nat>)
    requires |counts| > 0 ==> previous <= counts[0]
    requires forall k :: 0 < k < |counts| ==> counts[k - 1] <= counts[k]
    ensures forall k :: 0 <= k < |counts| ==> Changes(previous, counts)[k] == Activated
  {
    forall k | 0 <= k < |counts|
      ensures Changes(previous, counts)[k] == Activated
    {
      ChangeAt(previous, counts, k);
    }
  }

  /** The function-static `oldNumActives` of `monCB`, which persists from one call to the next. */
  class GroupMonitor {
    var oldNumActives: nat

    /** The static starts at 0. */
    constructor ()
      ensures oldNumActives == 0
    {
      oldNumActives := 0;
    }

    /** `monCB`: reports the change against the previous count, then remembers the new count. */
    method MonCB(groupName: string, numActiveMembers: nat) returns (report: Report)
      modifies this
      ensures report == Report(groupName, numActiveMembers, ChangeFor(old(oldNumActives), numActiveMembers))
      ensures oldNumActives == numActiveMembers
    {
      report := Report(groupName, numActiveMembers,
                       if oldNumActives > numActiveMembers then Deactivated else Activated);
      oldNumActives := numActiveMembers;
    }

    /**
     * The dispatch loop of `main` as the monitor sees it: one `monCB` call
     * per count the library reports, in order. The reports carry exactly the
     * changes of the series from the remembered count on, and the last count
     * is remembered.
     */
    method Monitor(counts: seq<nat>) returns (reports: seq<Report>)
      modifies this
      ensures |reports| == |counts|
      ensures forall k :: 0 <= k < |counts| ==>
        reports[k] == Report(GROUP_NAME, counts[k], Changes(old(oldNumActives), counts)[k])
      ensures oldNumActives == if counts == [] then old(oldNumActives) else counts[|counts| - 1]
    {
      reports := [];
      var i := 0;
      while i < |counts|
        invariant 0 <= i <= |counts| && |reports| == i
        invariant oldNumActives == if i == 0 then old(oldNumActives) else counts[i - 1]
        invariant forall k :: 0 <= k < i ==> reports[k] == Report(GROUP_NAME, counts[k], Changes(old(oldNumActives), counts)[k])
        decreases |counts| - i
      {
        ChangeAt(old(oldNumActives), counts, i);
        var report := MonCB(GROUP_NAME, counts[i]);
        reports := reports + [report];
        i := i + 1;
      }
    }
  }
}
