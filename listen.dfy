/*
 * `tibrvlisten`: listens on every subject named on the command line and
 * prints one line per message received, naming the reply subject when the
 * message carries one. A listener that cannot be created ends the process
 * with status 2.
 */
module Listen {
  import opened RvStatus
  import opened Argv

  const MIN_PARMS: nat := 2

  /** `get_InitParms`: at least two arguments, the transport flags, no help check. */
  const LISTEN_TABLE: ScanTable := ScanTable(TRANSPORT_FLAGS, MIN_PARMS, false)

  /** The scanner as the program runs it. */
  method GetInitParms(args: seq<string>) returns (r: Scan)
    ensures r == Scanner(args, LISTEN_TABLE)
  {
    r := RunScanner(args, LISTEN_TABLE);
  }

  /** A dash argument in last position has no value after it, so the scanner leaves it as a subject. */
  lemma TrailingDashIsSubject()
    ensures Scanner(["tibrvlisten", "-service"], LISTEN_TABLE) == Scanned(1, map[])
    ensures Scanner(["tibrvlisten", "-daemon", "7500", "-x"], LISTEN_TABLE) == Scanned(3, map["-daemon" := "7500"])
  {
    assert StartsWithDash("-x") && !("-x" in TRANSPORT_FLAGS);
  }

  /** With fewer than two arguments, or an unknown flag that has a value after it, the scanner calls `usage()`. */
  lemma ScannerRejects()
    ensures Scanner(["tibrvlisten"], LISTEN_TABLE) == Usage(TooFewArguments)
    ensures Scanner(["tibrvlisten", "-x", "a.b"], LISTEN_TABLE) == Usage(UnknownFlag("-x"))
  {
    assert "-x" !in TRANSPORT_FLAGS;
  }

  /** The statuses of the setup steps of `main`; the parameter call is made only by the IPM build of the library. */
  datatype SetupSteps = SetupSteps(ipm: bool, setParameters: Status, open: Status, createTransport: Status)

  /** Setup: each failing step exits with status 1. */
  function Setup(s: SetupSteps): (flow: Flow)
    ensures flow == Continue || flow == Exit(1)
    ensures flow == Continue <==> (s.ipm ==> s.setParameters == Ok) && s.open == Ok && s.createTransport == Ok
  {
    if s.ipm && s.setParameters != Ok then Exit(1)
    else
      var steps := [s.open, s.createTransport];
      assert AllOk(steps) <==> steps[0] == Ok && steps[1] == Ok;
      SetupFlow(steps)
  }

  /**
   * The listener loop of `main`: one listener per subject, in order; the
   * first failure exits with status 2. `create(k)` is the status of the
   * listener for `subjects[k]`; the result lists the subjects listened to.
   */
  method CreateListeners(subjects: seq<string>, create: nat -> Status) returns (listening: seq<string>, flow: Flow)
    ensures flow == Continue || flow == Exit(2)
    ensures listening == subjects[..FirstFailure(create, 0, |subjects|)]
    ensures flow == Continue <==> |listening| == |subjects|
  {
    listening := [];
    var i := 0;
    while i < |subjects|
      invariant 0 <= i <= |subjects| && listening == subjects[..i]
      invariant FirstFailure(create, 0, |subjects|) == FirstFailure(create, i, |subjects|)
      decreases |subjects| - i
    {
      if create(i) != Ok {
        return listening, Exit(2);
      }
      listening := listening + [subjects[i]];
      i := i + 1;
    }
    assert subjects[..i] == subjects;
    flow := Continue;
  }

  /** A message as the callback sees it: its subject, its reply subject if any, and its text. */
  datatype Message = Message(sendSubject: string, replySubject: Option<string>, text: string)

  /** The line `my_callback` prints, without the two time stamps in front. */
  function Format(m: Message): string
  {
    "subject=" + m.sendSubject +
    (if m.replySubject.Some? then ", reply=" + m.replySubject.value else "") +
    ", message=" + m.text
  }

  /** The line names a reply subject: `, reply=` follows the send subject. */
  predicate ShowsReply(line: string, sendSubject: string)
  {
    var p := |"subject=" + sendSubject|;
    p + 8 <= |line| && line[p..p + 8] == ", reply="
  }

  /** The printed line names a reply subject exactly when the message has one. */
  lemma FormatShowsReplyIffPresent(m: Message)
    ensures ShowsReply(Format(m), m.sendSubject) <==> m.replySubject.Some?
    ensures m.replySubject.Some? ==> ", reply=" + m.replySubject.value <= Format(m)[|"subject=" + m.sendSubject|..]
  {
    var head := "subject=" + m.sendSubject;
    var line := Format(m);
    var p := |head|;
    if m.replySubject.Some? {
      var mid := ", reply=" + m.replySubject.value;
      assert line == head + mid + (", message=" + m.text);
      assert line[p..] == mid + (", message=" + m.text);
      assert line[p..p + 8] == mid[..8];
    } else {
      assert line == head + (", message=" + m.text);
      assert line[p + 2] == 'm';
    }
  }

  /** A round of `tibrvQueue_Dispatch`: a message delivered to the callback, or a status other than `Ok`. */
  datatype Round = Delivered(m: Message) | Stopped(rc: Status)

  /** The lines printed over the rounds from `i` on, up to the first round that stops the loop. */
  function Lines(rounds: seq<Round>, i: nat): seq<string>
    decreases |rounds| - i
  {
    if i >= |rounds| || rounds[i].Stopped? then []
    else [Format(rounds[i].m)] + Lines(rounds, i + 1)
  }

  /**
   * The dispatch loop of `main`: dispatches until a status other than `Ok`,
   * then returns 0. `code` is `None` while every round so far delivered a
   * message, in which case the loop is still running.
   */
  method DispatchLoop(rounds: seq<Round>) returns (printed: seq<string>, code: Option<int>)
    requires forall k :: 0 <= k < |rounds| && rounds[k].Stopped? ==> rounds[k].rc != Ok
    ensures printed == Lines(rounds, 0)
    ensures code.None? <==> forall k :: 0 <= k < |rounds| ==> rounds[k].Delivered?
    ensures code.Some? ==> code.value == 0 && |printed| < |rounds| && rounds[|printed|].Stopped?
  {
    printed := [];
    var i := 0;
    while i < |rounds|
      invariant 0 <= i <= |rounds| && |printed| == i
      invariant forall k :: 0 <= k < i ==> rounds[k].Delivered?
      invariant printed + Lines(rounds, i) == Lines(rounds, 0)
      decreases |rounds| - i
    {
      match rounds[i] {
        case Stopped(_) =>
          return printed, Some(0);
        case Delivered(m) =>
          printed := printed + [Format(m)];
      }
      i := i + 1;
    }
    code := None;
  }
}
