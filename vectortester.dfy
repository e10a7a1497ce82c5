/*
 * `tibrvvectorlistentester`: builds 90 messages whose subjects cycle through
 * a table of nine, then sends the whole batch with one vector send,
 * `sendCount` times or until a send fails. A bad flag, or a failure while
 * opening the library, creating the transport or building the batch, exits
 * with status 1; once the batch is built the process exits with status 0
 * whatever the sends return.
 */
module VectorTester {
  import opened RvStatus
  import opened Argv

  /** Declared by the program but never checked by its scanner. */
  const MIN_PARMS: nat := 3

  /** The batch size: the messages built and sent together. */
  const BATCH: nat := 90

  /**
   * `get_InitParms`: the pair loop of the family with one more flag.
   * `-messages` advances the index by one only, leaving it on the value, so
   * the value is looked at again as if it were a flag: a value without a
   * dash ends the loop. Its `++i >= argc` test can never fire, since the
   * loop guard already saw an argument after the flag.
   */
  function TesterScanFrom(args: seq<string>, i: nat, values: map<string, string>): Scan
    decreases |args| - i
  {
    if i + 2 <= |args| && StartsWithDash(args[i]) then
      if args[i] in TRANSPORT_FLAGS then TesterScanFrom(args, i + 2, values[args[i] := args[i + 1]])
      else if args[i] == "-messages" then
        if i + 1 >= |args| then Usage(MissingValue("-messages"))
        else TesterScanFrom(args, i + 1, values[args[i] := args[i + 1]])
      else Usage(UnknownFlag(args[i]))
    else Scanned(i, values)
  }

  /** The scanner as the program runs it; there is no minimum-count check and its result is not used by `main`. */
  method GetInitParms(args: seq<string>) returns (r: Scan)
    ensures r == TesterScanFrom(args, 1, map[])
  {
    var values: map<string, string> := map[];
    var i := 1;
    while i + 2 <= |args| && StartsWithDash(args[i])
      invariant TesterScanFrom(args, i, values) == TesterScanFrom(args, 1, map[])
      decreases |args| - i
    {
      if args[i] == "-service" || args[i] == "-network" || args[i] == "-daemon" {
        values := values[args[i] := args[i + 1]];
        i := i + 2;
      } else if args[i] == "-messages" {
        var flag := args[i];
        i := i + 1;
        if i >= |args| {
          return Usage(MissingValue(flag));
        }
        values := values[flag := args[i]];
      } else {
        return Usage(UnknownFlag(args[i]));
      }
    }
    r := Scanned(i, values);
  }

  /** The `usage()` call after `++i >= argc` is unreachable: the only reason the scanner ever fails is an unknown flag. */
  lemma {:induction false} NoMissingValue(args: seq<string>, i: nat, values: map<string, string>)
    ensures TesterScanFrom(args, i, values).Usage? ==> TesterScanFrom(args, i, values).reason.UnknownFlag?
    decreases |args| - i
  {
    if i + 2 <= |args| && StartsWithDash(args[i]) {
      if args[i] in TRANSPORT_FLAGS {
        NoMissingValue(args, i + 2, values[args[i] := args[i + 1]]);
      } else if args[i] == "-messages" {
        NoMissingValue(args, i + 1, values[args[i] := args[i + 1]]);
      }
    }
  }

  /**
   * The `-messages` quirk: the scan moves one step, onto the value, and
   * records it as the count text. A value without a dash then ends the scan
   * there, so every later argument is ignored; a value with a dash is
   * scanned next as if it were a flag.
   */
  lemma MessagesQuirk(args: seq<string>, i: nat, values: map<string, string>)
    requires i + 2 <= |args| && args[i] == "-messages"
    ensures !StartsWithDash(args[i + 1]) ==>
      TesterScanFrom(args, i, values) == Scanned(i + 1, values["-messages" := args[i + 1]])
    ensures StartsWithDash(args[i + 1]) ==>
      TesterScanFrom(args, i, values) == TesterScanFrom(args, i + 1, values["-messages" := args[i + 1]])
  {
    assert StartsWithDash(args[i]);
    assert "-messages" !in TRANSPORT_FLAGS;
  }

  /** Two command lines that show the quirk, and the empty one. No argument count is required. */
  lemma MessagesQuirkExamples()
    ensures TesterScanFrom(["t", "-messages", "5", "-service", "7500"], 1, map[]) == Scanned(2, map["-messages" := "5"])
    ensures TesterScanFrom(["t", "-messages", "-service", "7500"], 1, map[]) ==
            Scanned(4, map["-messages" := "-service", "-service" := "7500"])
    ensures TesterScanFrom(["t"], 1, map[]) == Scanned(1, map[])
  {
    assert !StartsWithDash("5");
    assert StartsWithDash("-service") && "-service" in TRANSPORT_FLAGS;
    assert "-messages" !in TRANSPORT_FLAGS;
  }

  /** `sendCount`: the last `-messages` value through `strtoul` and the cast to `tibrv_u32`, 1 when absent. */
  function SendCount(values: map<string, string>, strtoul: string -> int): (n: nat)
    ensures n < U32_MODULUS
    ensures "-messages" !in values ==> n == 1
    ensures "-messages" in values && 0 <= strtoul(values["-messages"]) < U32_MODULUS ==> n == strtoul(values["-messages"])
  {
    if "-messages" in values then ToU32(strtoul(values["-messages"])) else 1
  }

  /** The subjects in the order the batch cycles through them. */
  const SUBJECTS: seq<string> := ["a.2", "a.3", "b.1", "b.2", "b.3", "a.1", "a.4", "b.4", "c.1"]

  /** The `switch (i % 9)` of `main`, with its `default` case. */
  function SubjectFor(i: nat): (s: string)
    ensures s == SUBJECTS[i % 9]
  {
    var index := i % 9;
    if index == 0 then "a.2"
    else if index == 1 then "a.3"
    else if index == 2 then "b.1"
    else if index == 3 then "b.2"
    else if index == 4 then "b.3"
    else if index == 5 then "a.1"
    else if index == 6 then "a.4"
    else if index == 7 then "b.4"
    else if index == 8 then "c.1"
    else "hello"
  }

  /** The `default` subject `"hello"` is never chosen. */
  lemma DefaultUnreachable(i: nat)
    ensures SubjectFor(i) != "hello"
  {
    assert "hello" !in SUBJECTS;
  }

  /** The first `n` entries of a nine-entry table taken in turn, as message `i` takes entry `i % 9`. */
  function Cycle(table: seq<string>, n: nat): (r: seq<string>)
    requires |table| == 9
    ensures |r| == n
  {
    if n == 0 then [] else Cycle(table, n - 1) + [table[(n - 1) % 9]]
  }

  /** Message `i` of the cycle takes entry `i % 9` of the table. */
  lemma {:induction false} CycleAt(table: seq<string>, n: nat)
    requires |table| == 9
    ensures forall i :: 0 <= i < n ==> Cycle(table, n)[i] == table[i % 9]
  {
    if n > 0 {
      CycleAt(table, n - 1);
      assert Cycle(table, n) == Cycle(table, n - 1) + [table[(n - 1) % 9]];
    }
  }

  lemma ModNine(m: nat, k: nat)
    requires k < 9
    ensures (9 * m + k) % 9 == k
  {
  }

  /** Nine entries further on, the cycle has gone once more through the table. */
  lemma CycleRound(table: seq<string>, m: nat)
    requires |table| == 9
    ensures Cycle(table, 9 * m + 9) == Cycle(table, 9 * m) + table
  {
    var whole := Cycle(table, 9 * m + 9);
    var prev := Cycle(table, 9 * m);
    CycleAt(table, 9 * m + 9);
    CycleAt(table, 9 * m);
    forall i | 0 <= i < 9 * m + 9
      ensures whole[i] == (prev + table)[i]
    {
      if i >= 9 * m {
        ModNine(m, i - 9 * m);
      }
    }
  }

  /** Over `9 * m` messages, each entry is used `m` times as often as it occurs in the table. */
  lemma {:induction false} EachEntryEquallyOften(table: seq<string>, m: nat, s: string)
    requires |table| == 9
    ensures multiset(Cycle(table, 9 * m))[s] == m * multiset(table)[s]
  {
    if m > 0 {
      EachEntryEquallyOften(table, m - 1, s);
      CycleRound(table, m - 1);
      var prev := Cycle(table, 9 * (m - 1));
      assert 9 * (m - 1) + 9 == 9 * m;
      assert Cycle(table, 9 * m) == prev + table;
      assert multiset(Cycle(table, 9 * m))[s] == multiset(prev)[s] + multiset(table)[s];
      assert (m - 1) * multiset(table)[s] + multiset(table)[s] == m * multiset(table)[s];
    }
  }

  /** Each subject of the table occurs once in it, and nothing else does. */
  lemma SubjectsDistinct(s: string)
    ensures multiset(SUBJECTS)[s] == if s in SUBJECTS then 1 else 0
  {
  }

  /** The batch of 90 uses each of the nine subjects exactly 10 times, and no other subject. */
  lemma BatchUsesEachSubjectTenTimes(s: string)
    ensures multiset(Cycle(SUBJECTS, BATCH))[s] == if s in SUBJECTS then 10 else 0
  {
    EachEntryEquallyOften(SUBJECTS, 10, s);
    SubjectsDistinct(s);
  }

  /**
   * The two loops that build the batch: create 90 messages, then set the
   * subject of each; the first failure of either exits with status 1.
   * `message[k]` stands for the send subject of message `k`.
   */
  method BuildBatch(message: array<string>, create: nat -> Status, setSubject: nat -> Status) returns (flow: Flow)
    requires message.Length >= BATCH
    modifies message
    ensures flow == Continue || flow == Exit(1)
    ensures flow == Continue <==> FirstFailure(create, 0, BATCH) == BATCH && FirstFailure(setSubject, 0, BATCH) == BATCH
    ensures flow == Continue ==> message[..BATCH] == Cycle(SUBJECTS, BATCH)
  {
    var i := 0;
    while i < BATCH
      invariant 0 <= i <= BATCH
      invariant FirstFailure(create, 0, BATCH) == FirstFailure(create, i, BATCH)
      decreases BATCH - i
    {
      if create(i) != Ok {
        return Exit(1);
      }
      i := i + 1;
    }
    i := 0;
    while i < BATCH
      invariant 0 <= i <= BATCH
      invariant FirstFailure(setSubject, 0, BATCH) == FirstFailure(setSubject, i, BATCH)
      invariant message[..i] == Cycle(SUBJECTS, i)
      decreases BATCH - i
    {
      if setSubject(i) != Ok {
        return Exit(1);
      }
      message[i] := SubjectFor(i);
      assert message[..i + 1] == message[..i] + [message[i]];
      i := i + 1;
    }
    flow := Continue;
  }

  /** The send loop: the batch is sent until `sendCount` sends succeeded or one failed; `sent` counts the successes. */
  method SendBatches(sendCount: nat, sendv: nat -> Status) returns (sent: nat)
    ensures sent == FirstFailure(sendv, 0, sendCount)
    ensures sent <= sendCount && forall k :: 0 <= k < sent ==> sendv(k) == Ok
    ensures sent < sendCount ==> sendv(sent) != Ok
  {
    sent := 0;
    while sent < sendCount
      invariant sent <= sendCount
      invariant FirstFailure(sendv, 0, sendCount) == FirstFailure(sendv, sent, sendCount)
      decreases sendCount - sent
    {
      if sendv(sent) != Ok {
        break;
      }
      sent := sent + 1;
    }
  }

  /** The statuses of `tibrv_Open` and `tibrvTransport_Create`; the description's status is not looked at. */
  datatype SetupSteps = SetupSteps(open: Status, createTransport: Status)

  /** Setup: each failing step exits with status 1. */
  function Setup(s: SetupSteps): (flow: Flow)
    ensures flow == Continue || flow == Exit(1)
    ensures flow == Continue <==> s.open == Ok && s.createTransport == Ok
  {
    var steps := [s.open, s.createTransport];
    assert AllOk(steps) <==> steps[0] == Ok && steps[1] == Ok;
    SetupFlow(steps)
  }

  /**
   * `main`: the scan (whose `usage()` exits with status 1), the setup, the
   * batch, then the sends; from there on the exit status is 0 however many
   * sends succeeded. `sent` is the number of successful sends.
   */
  method Run(args: seq<string>, strtoul: string -> int, steps: SetupSteps, message: array<string>,
             create: nat -> Status, setSubject: nat -> Status, sendv: nat -> Status) returns (flow: Flow, sent: nat)
    requires message.Length >= BATCH
    modifies message
    ensures flow == Exit(0) || flow == Exit(1)
    ensures var r := TesterScanFrom(args, 1, map[]);
      flow == Exit(0) <==>
        r.Scanned? && Setup(steps) == Continue &&
        FirstFailure(create, 0, BATCH) == BATCH && FirstFailure(setSubject, 0, BATCH) == BATCH
    ensures var r := TesterScanFrom(args, 1, map[]);
      flow == Exit(0) ==>
        r.Scanned? && sent == FirstFailure(sendv, 0, SendCount(r.values, strtoul)) &&
        message[..BATCH] == Cycle(SUBJECTS, BATCH)
    ensures flow == Exit(1) ==> sent == 0
  {
    sent := 0;
    var r := GetInitParms(args);
    if r.Usage? {
      return Exit(1), 0;
    }
    var sendCount := SendCount(r.values, strtoul);
    flow := Setup(steps);
    if flow.Exit? {
      return;
    }
    flow := BuildBatch(message, create, setSubject);
    if flow.Exit? {
      return;
    }
    sent := SendBatches(sendCount, sendv);
    flow := Exit(0);
  }
}
