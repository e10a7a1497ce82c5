/*
 * `tibrvvectorlisten`: three vector listeners and one simple listener on
 * fixed subjects, each given a closure that names it. Its scanner is the one
 * `for`-loop variant of the family: every argument must belong to a
 * transport flag/value pair.
 */
module VectorListen {
  import opened RvStatus
  import opened Argv

  /**
   * `get_InitParms`: from index `i`, each argument must be a transport flag
   * followed by its value; a flag in last position (`++i >= argc`) or any
   * other argument, positional ones included, is `usage()`. The loop ends
   * at the first index not below `argc`.
   */
  function ForScan(args: seq<string>, i: nat, values: map<string, string>): Scan
    decreases |args| - i
  {
    if i >= |args| then Scanned(i, values)
    else if args[i] in TRANSPORT_FLAGS then
      if i + 1 >= |args| then Usage(MissingValue(args[i]))
      else ForScan(args, i + 2, values[args[i] := args[i + 1]])
    else Usage(UnknownFlag(args[i]))
  }

  /** The scanner as the program runs it; its result is not used by `main`. */
  method GetInitParms(args: seq<string>) returns (r: Scan)
    ensures r == ForScan(args, 1, map[])
  {
    var values: map<string, string> := map[];
    var i := 1;
    while i < |args|
      invariant ForScan(args, i, values) == ForScan(args, 1, map[])
      decreases |args| - i
    {
      if args[i] == "-service" || args[i] == "-network" || args[i] == "-daemon" {
        var flag := args[i];
        i := i + 1;
        if i >= |args| {
          return Usage(MissingValue(flag));
        }
        values := values[flag := args[i]];
      } else {
        return Usage(UnknownFlag(args[i]));
      }
      i := i + 1;
    }
    r := Scanned(i, values);
  }

  /** From `i` on, every other argument is a transport flag with a value after it. */
  predicate AllPairs(args: seq<string>, i: nat)
  {
    forall j :: i <= j < |args| && (j - i) % 2 == 0 ==> args[j] in TRANSPORT_FLAGS && j + 1 < |args|
  }

  /**
   * The scan succeeds exactly when the arguments from `i` on are all
   * flag/value pairs, and then stops at `argc`; each flag holds the value of
   * its last occurrence, and a flag not given keeps its earlier value.
   */
  lemma {:induction false} ForScanAcceptsOnlyPairs(args: seq<string>, i: nat, values: map<string, string>)
    requires i <= |args|
    ensures ForScan(args, i, values).Scanned? <==> AllPairs(args, i)
    ensures ForScan(args, i, values).Scanned? ==>
      var r := ForScan(args, i, values);
      r.next == |args| && (|args| - i) % 2 == 0 &&
      forall f :: Lookup(r.values, f) == Override(LastValue(Pairs(args, i, |args|), f), Lookup(values, f))
    decreases |args| - i
  {
    if i < |args| {
      if args[i] in TRANSPORT_FLAGS && i + 1 < |args| {
        var values' := values[args[i] := args[i + 1]];
        ForScanAcceptsOnlyPairs(args, i + 2, values');
        assert ForScan(args, i, values) == ForScan(args, i + 2, values');
        if AllPairs(args, i + 2) {
          forall j | i <= j < |args| && (j - i) % 2 == 0
            ensures args[j] in TRANSPORT_FLAGS && j + 1 < |args|
          {
            if j > i {
              assert (j - (i + 2)) % 2 == 0;
            }
          }
          var r := ForScan(args, i, values);
          forall f ensures Lookup(r.values, f) == Override(LastValue(Pairs(args, i, |args|), f), Lookup(values, f)) {
            LastValueCons((args[i], args[i + 1]), Pairs(args, i + 2, |args|), f);
          }
        } else {
          var j :| i + 2 <= j < |args| && (j - (i + 2)) % 2 == 0 && !(args[j] in TRANSPORT_FLAGS && j + 1 < |args|);
          assert i <= j && (j - i) % 2 == 0 && !(args[j] in TRANSPORT_FLAGS && j + 1 < |args|);
          assert !AllPairs(args, i);
        }
      } else {
        assert !(args[i] in TRANSPORT_FLAGS && i + 1 < |args|);
      }
    }
  }

  /**
   * From the start, the scan returns `argc` when it succeeds, except that
   * with no arguments at all the loop never runs and 1 is returned; a
   * positional argument or a flag without a value is `usage()`.
   */
  lemma ForScanExamples()
    ensures ForScan([], 1, map[]) == Scanned(1, map[])
    ensures ForScan(["tibrvvectorlisten"], 1, map[]) == Scanned(1, map[])
    ensures ForScan(["tibrvvectorlisten", "-service"], 1, map[]) == Usage(MissingValue("-service"))
    ensures ForScan(["tibrvvectorlisten", "a.1"], 1, map[]) == Usage(UnknownFlag("a.1"))
    ensures ForScan(["tibrvvectorlisten", "-daemon", "a", "-daemon", "b"], 1, map[]) == Scanned(5, map["-daemon" := "b"])
  {
    assert "a.1" !in TRANSPORT_FLAGS;
  }

  /** The size of the `listenerName` buffer of a closure. */
  const NAME_SIZE: nat := 24

  /**
   * The buffer `strncpy(dst, src, n)` leaves in its first `n` bytes: the
   * first `n` characters of `src`, padded with NULs when `src` is shorter.
   */
  function StrNCpyOf(src: string, n: nat): (r: seq<char>)
    ensures |r| == n
  {
    if |src| >= n then src[..n] else src + seq(n - |src|, _ => '\0')
  }

  /** A buffer read as a C string: the characters before its first NUL, or nothing when it holds none. */
  function CString(buf: seq<char>): Option<string>
  {
    if buf == [] then None
    else if buf[0] == '\0' then Some([])
    else match CString(buf[1..])
      case None => None
      case Some(s) => Some([buf[0]] + s)
  }

  /** A buffer starting with `s`, which holds no NUL, followed by a NUL reads back as `s`. */
  lemma {:induction false} CStringOfTerminated(s: string, rest: seq<char>)
    requires '\0' !in s && rest != [] && rest[0] == '\0'
    ensures CString(s + rest) == Some(s)
  {
    if s != [] {
      assert (s + rest)[1..] == s[1..] + rest;
      CStringOfTerminated(s[1..], rest);
      assert [s[0]] + s[1..] == s;
    } else {
      assert s + rest == rest;
    }
  }

  /** A buffer with no NUL in it does not read as a C string. */
  lemma {:induction false} CStringOfUnterminated(buf: seq<char>)
    requires '\0' !in buf
    ensures CString(buf) == None
  {
    if buf != [] {
      assert buf[1..] <= buf[1..];
      assert forall c :: c in buf[1..] ==> c in buf;
      CStringOfUnterminated(buf[1..]);
    }
  }

  /**
   * `strncpy` leaves a NUL-terminated copy of `src` exactly when `src` is
   * shorter than the buffer; a name of `n` characters or more is cut and
   * left unterminated.
   */
  lemma StrNCpyTerminatesIffShorter(src: string, n: nat)
    requires '\0' !in src
    ensures CString(StrNCpyOf(src, n)) == (if |src| < n then Some(src) else None)
  {
    if |src| < n {
      CStringOfTerminated(src, seq(n - |src|, _ => '\0'));
    } else {
      assert forall c :: c in src[..n] ==> c in src;
      CStringOfUnterminated(src[..n]);
    }
  }

  /** `strncpy(dst, src, n)`: writes the first `n` bytes of `dst` and nothing else. */
  method StrNCpy(dst: array<char>, src: string, n: nat)
    requires n <= dst.Length
    modifies dst
    ensures dst[..n] == StrNCpyOf(src, n)
    ensures dst[n..] == old(dst[n..])
  {
    var i := 0;
    while i < n
      invariant 0 <= i <= n
      invariant forall k :: 0 <= k < i ==> dst[k] == StrNCpyOf(src, n)[k]
      invariant forall k :: i <= k < dst.Length ==> dst[k] == old(dst[k])
      decreases n - i
    {
      dst[i] := if i < |src| then src[i] else '\0';
      i := i + 1;
    }
  }

  /** A listener's closure: the name it is given. */
  class ClosureRec {
    const listenerName: array<char>

    /** `malloc(sizeof(closureRec))`: a name buffer whose contents are not yet set. */
    constructor ()
      ensures listenerName.Length == NAME_SIZE && fresh(listenerName)
    {
      listenerName := new char[NAME_SIZE];
    }
  }

  /** The names `main` copies into the four closures, in order. */
  const LISTENER_NAMES: seq<string> := ["Vectored Listener 1", "Vectored Listener 2", "Vectored Listener 3", "Listener 4"]

  /** Every name is shorter than the buffer and holds no NUL. */
  lemma NamesFit()
    ensures forall k :: 0 <= k < |LISTENER_NAMES| ==> |LISTENER_NAMES[k]| < NAME_SIZE && '\0' !in LISTENER_NAMES[k]
  {
  }

  /**
   * The closure setup of `main`: a closure per name, in order, the first
   * failed allocation exiting with status 1. Each closure set up reads back
   * its name, NUL-terminated, from its 24-byte buffer.
   */
  method NameClosures(obtained: seq<bool>) returns (closures: seq<ClosureRec>, flow: Flow)
    requires |obtained| == |LISTENER_NAMES|
    ensures flow == Continue || flow == Exit(1)
    ensures flow == Continue <==> forall k :: 0 <= k < |obtained| ==> obtained[k]
    ensures |closures| <= |LISTENER_NAMES|
    ensures flow == Continue ==> |closures| == |LISTENER_NAMES|
    ensures forall k :: 0 <= k < |closures| ==>
      closures[k].listenerName.Length == NAME_SIZE && CString(closures[k].listenerName[..]) == Some(LISTENER_NAMES[k])
  {
    NamesFit();
    closures := [];
    var i := 0;
    while i < |LISTENER_NAMES|
      invariant 0 <= i <= |LISTENER_NAMES| && |closures| == i
      invariant forall k :: 0 <= k < i ==> obtained[k]
      invariant forall k :: 0 <= k < i ==>
        closures[k].listenerName.Length == NAME_SIZE && CString(closures[k].listenerName[..]) == Some(LISTENER_NAMES[k])
      decreases |LISTENER_NAMES| - i
    {
      if !obtained[i] {
        return closures, Exit(1);
      }
      var c := new ClosureRec();
      StrNCpy(c.listenerName, LISTENER_NAMES[i], NAME_SIZE);
      assert c.listenerName[..] == c.listenerName[..NAME_SIZE];
      StrNCpyTerminatesIffShorter(LISTENER_NAMES[i], NAME_SIZE);
      closures := closures + [c];
      i := i + 1;
    }
    flow := Continue;
  }

  /** The callback a listener hands its messages to. */
  datatype Callback = VectorCallback1 | VectorCallback2 | SimpleCallback

  /** A listener of `main`: its subject, whether it is a vector listener, its callback, and the index of its closure. */
  datatype Listener = Listener(subject: string, vector: bool, callback: Callback, closure: nat)

  /** The listeners `main` creates, in order, each with its own closure. */
  const LISTENERS: seq<Listener> := [
    Listener("a.>", true, VectorCallback1, 0),
    Listener("b.>", true, VectorCallback1, 1),
    Listener("c.>", true, VectorCallback2, 2),
    Listener("a.1", false, SimpleCallback, 3)
  ]

  /** The statuses of the setup steps after the closures: open, transport, wait queue, then one per listener. */
  datatype SetupSteps = SetupSteps(open: Status, createTransport: Status, createWaitQueue: Status, listeners: seq<Status>)

  /** Setup: each failing step, listener creation included, exits with status 1. */
  function Setup(s: SetupSteps): (flow: Flow)
    requires |s.listeners| == |LISTENERS|
    ensures flow == Continue <==>
      s.open == Ok && s.createTransport == Ok && s.createWaitQueue == Ok &&
      forall k :: 0 <= k < |LISTENERS| ==> s.listeners[k] == Ok
  {
    var steps := [s.open, s.createTransport, s.createWaitQueue] + s.listeners;
    assert forall k :: 0 <= k < |s.listeners| ==> steps[k + 3] == s.listeners[k];
    assert steps[0] == s.open && steps[1] == s.createTransport && steps[2] == s.createWaitQueue;
    SetupFlow(steps)
  }

  /**
   * The `do`/`while` dispatch loop of `main`: each round dispatches the
   * default queue, then the wait queue for up to a second, and the loop
   * goes on while the default queue's dispatch returns `Ok`; the wait
   * queue's status is not looked at. Over `n` rounds, `code` is the process
   * status once the loop has ended, and `None` while it is still running.
   */
  method DispatchLoop(main: nat -> Status, wait: nat -> Status, n: nat) returns (rounds: nat, code: Option<int>)
    ensures var f := FirstFailure(main, 0, n);
      (code.Some? <==> f < n) &&
      rounds == (if f < n then f + 1 else n)
    ensures code.Some? ==> code.value == 0
  {
    rounds := 0;
    while rounds < n
      invariant rounds <= n
      invariant FirstFailure(main, 0, n) == FirstFailure(main, rounds, n)
      decreases n - rounds
    {
      var err := main(rounds);
      var ignored := wait(rounds);
      rounds := rounds + 1;
      if err != Ok {
        return rounds, Some(0);
      }
    }
    code := None;
  }
}
