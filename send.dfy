/*
 * `tibrvsend`: publishes each message text given on the command line, in
 * order, as the string field `DATA` of one reused message on the subject
 * given before them, stopping at the first text that fails. The process
 * exits with status 0 once publishing is over, whether or not a text failed.
 */
module Send {
  import opened RvStatus
  import opened Argv

  const FIELD_NAME: string := "DATA"
  const MIN_PARMS: nat := 3

  /** `get_InitParms`: at least three arguments, the transport flags, no help check. */
  const SEND_TABLE: ScanTable := ScanTable(TRANSPORT_FLAGS, MIN_PARMS, false)

  /** The scanner as the program runs it. */
  method GetInitParms(args: seq<string>) returns (r: Scan)
    ensures r == Scanner(args, SEND_TABLE)
  {
    r := RunScanner(args, SEND_TABLE);
  }

  /**
   * Three arguments are required, but the flags may use them all up: the
   * scan then ends at `argc`, no subject is left and nothing is published.
   */
  lemma FlagsMayLeaveNoSubject()
    ensures Scanner(["tibrvsend", "a.b"], SEND_TABLE) == Usage(TooFewArguments)
    ensures Scanner(["tibrvsend", "-service", "7500"], SEND_TABLE) == Scanned(3, map["-service" := "7500"])
    ensures Subject(["tibrvsend", "-service", "7500"], 3).None?
  {
    assert "-service" in TRANSPORT_FLAGS;
  }

  /** The statuses of the setup steps; the parameter call is made only by the IPM build of the library. */
  datatype SetupSteps = SetupSteps(ipm: bool, setParameters: Status, open: Status, createTransport: Status, createMessage: Status)

  /** Setup: each failing step exits with status 1. */
  function Setup(s: SetupSteps): (flow: Flow)
    ensures flow == Continue || flow == Exit(1)
    ensures flow == Continue <==>
      (s.ipm ==> s.setParameters == Ok) && s.open == Ok && s.createTransport == Ok && s.createMessage == Ok
  {
    if s.ipm && s.setParameters != Ok then Exit(1)
    else
      var steps := [s.open, s.createTransport, s.createMessage];
      assert AllOk(steps) <==> steps[0] == Ok && steps[1] == Ok && steps[2] == Ok;
      SetupFlow(steps)
  }

  /** The subject and the message texts: the first argument after the flags, and every argument after it. */
  function Subject(args: seq<string>, next: nat): Option<string>
  {
    if next < |args| then Some(args[next]) else None
  }

  function Texts(args: seq<string>, next: nat): seq<string>
  {
    if next + 1 <= |args| then args[next + 1..] else []
  }

  /** The statuses of the calls that publish one text: update the field, set the subject, send. */
  datatype PublishSteps = PublishSteps(update: Status, setSubject: Status, send: Status)

  /** The status of publishing one text: the first call that failed, or `Ok`. */
  function StepStatus(p: PublishSteps): (rc: Status)
    ensures rc == Ok <==> p.update == Ok && p.setSubject == Ok && p.send == Ok
  {
    if p.update != Ok then p.update
    else if p.setSubject != Ok then p.setSubject
    else p.send
  }

  /** A message on the wire: its subject and the text in its `DATA` field. */
  datatype Publication = Publication(subject: string, data: string)

  /** What is published from text `i` on: each text in turn, up to the first that fails. */
  function Sent(subject: string, texts: seq<string>, steps: nat -> PublishSteps, i: nat): seq<Publication>
    decreases |texts| - i
  {
    if i >= |texts| || StepStatus(steps(i)) != Ok then []
    else [Publication(subject, texts[i])] + Sent(subject, texts, steps, i + 1)
  }

  /**
   * What is published is the texts in their order, each on the subject,
   * from text `i` up to the first one whose publishing failed; every text
   * before that one succeeded.
   */
  lemma {:induction false} SentIsPrefixUpToFailure(subject: string, texts: seq<string>, steps: nat -> PublishSteps, i: nat)
    requires i <= |texts|
    ensures var r := Sent(subject, texts, steps, i);
      i + |r| <= |texts| &&
      (forall k :: 0 <= k < |r| ==> r[k] == Publication(subject, texts[i + k]) && StepStatus(steps(i + k)) == Ok) &&
      (i + |r| < |texts| ==> StepStatus(steps(i + |r|)) != Ok)
    decreases |texts| - i
  {
    if i < |texts| && StepStatus(steps(i)) == Ok {
      SentIsPrefixUpToFailure(subject, texts, steps, i + 1);
      var rest := Sent(subject, texts, steps, i + 1);
      var r := Sent(subject, texts, steps, i);
      assert r == [Publication(subject, texts[i])] + rest;
      forall k | 0 <= k < |r|
        ensures r[k] == Publication(subject, texts[i + k]) && StepStatus(steps(i + k)) == Ok
      {
        if k > 0 {
          assert r[k] == rest[k - 1];
          assert i + 1 + (k - 1) == i + k;
        }
      }
    }
  }

  /**
   * The publishing loop of `main`: returns what was published and the status
   * of the text that failed, if any. The exit status is 0 either way.
   */
  method PublishAll(subject: string, texts: seq<string>, steps: nat -> PublishSteps) returns (log: seq<Publication>, failure: Option<Status>)
    ensures log == Sent(subject, texts, steps, 0)
    ensures failure.None? <==> |log| == |texts|
    ensures failure.Some? ==> failure.value != Ok && failure.value == StepStatus(steps(|log|))
  {
    log := [];
    var i := 0;
    while i < |texts|
      invariant 0 <= i <= |texts| && |log| == i
      invariant log + Sent(subject, texts, steps, i) == Sent(subject, texts, steps, 0)
      decreases |texts| - i
    {
      var p := steps(i);
      var rc := p.update;
      if rc == Ok {
        rc := p.setSubject;
        if rc == Ok {
          rc := p.send;
        }
      }
      assert rc == StepStatus(p);
      if rc != Ok {
        assert Sent(subject, texts, steps, i) == [];
        return log, Some(rc);
      }
      var published := Publication(subject, texts[i]);
      assert Sent(subject, texts, steps, i) == [published] + Sent(subject, texts, steps, i + 1);
      assert (log + [published]) + Sent(subject, texts, steps, i + 1) == log + ([published] + Sent(subject, texts, steps, i + 1));
      log := log + [published];
      i := i + 1;
    }
    failure := None;
  }

  /** The whole run after setup: the texts after the subject are published; the exit status is always 0. */
  method Run(args: seq<string>, next: nat, steps: nat -> PublishSteps) returns (log: seq<Publication>, code: int)
    ensures code == 0
    ensures Subject(args, next).None? ==> log == []
    ensures Subject(args, next).Some? ==> log == Sent(Subject(args, next).value, Texts(args, next), steps, 0)
  {
    code := 0;
    log := [];
    if next < |args| {
      var failure;
      log, failure := PublishAll(args[next], Texts(args, next), steps);
    }
  }
}
