/*
 * The virtual-circuit benchmark client: it locates a server, opens a virtual
 * circuit to it, sends `requests` requests (in a burst from the main thread or
 * one per firing of a timer), counts the replies and waits on a private queue
 * until either all replies have arrived or the circuit is lost.
 *
 * Each callback is one atomic step on the client's bookkeeping record; the
 * library calls are the statuses given as inputs.
 */
module VcClient {
  import opened RvStatus
  import Argv
  import BenchArgs
  import opened Wire

  /** The send subject of requests, and the subject of the completion sentinel. */
  const REQUEST_SUBJECT: string := "TIBRV.VC.WORK"
  const COMPLETION_SUBJECT: string := "TEST.COMPLETED"

  /** The statuses of the library calls `createServerConnection` makes, in order. */
  datatype ConnectSteps = ConnectSteps(
    createSearch: Status, setSearchSubject: Status, sendRequest: Status, getReplySubject: Status,
    createConnectVc: Status, waitForConnection: Status, destroyReply: Status)

  /**
   * `createServerConnection`: each call runs only when every earlier one
   * succeeded, and the status of the first failing one is returned. The status
   * of `CreateConnectVc` is overwritten by that of `WaitForVcConnection`
   * before anyone looks at it.
   */
  function CreateServerConnection(s: ConnectSteps): Status
  {
    if s.createSearch != Ok then s.createSearch
    else if s.setSearchSubject != Ok then s.setSearchSubject
    else if s.sendRequest != Ok then s.sendRequest
    else if s.getReplySubject != Ok then s.getReplySubject
    else if s.waitForConnection != Ok then s.waitForConnection
    else s.destroyReply
  }

  /** The connection is the first-failure chain of every call except `CreateConnectVc`. */
  lemma {:induction false} CreateServerConnectionIsChain(s: ConnectSteps)
    ensures CreateServerConnection(s) ==
      Chain([s.createSearch, s.setSearchSubject, s.sendRequest, s.getReplySubject, s.waitForConnection, s.destroyReply])
  {
    var tail := [s.destroyReply];
    ChainCons(s.destroyReply, []);
    assert [s.destroyReply] + [] == tail;
    ChainCons(s.waitForConnection, tail);
    ChainCons(s.getReplySubject, [s.waitForConnection] + tail);
    ChainCons(s.sendRequest, [s.getReplySubject] + ([s.waitForConnection] + tail));
    ChainCons(s.setSearchSubject, [s.sendRequest] + ([s.getReplySubject] + ([s.waitForConnection] + tail)));
    ChainCons(s.createSearch, [s.setSearchSubject] + ([s.sendRequest] + ([s.getReplySubject] + ([s.waitForConnection] + tail))));
    assert [s.createSearch] + ([s.setSearchSubject] + ([s.sendRequest] + ([s.getReplySubject] + ([s.waitForConnection] + tail)))) ==
      [s.createSearch, s.setSearchSubject, s.sendRequest, s.getReplySubject, s.waitForConnection, s.destroyReply];
  }

  /** A failed `CreateConnectVc` alone does not fail the connection. */
  lemma ConnectVcStatusIgnored(s: ConnectSteps, st: Status)
    ensures CreateServerConnection(s.(createConnectVc := st)) == CreateServerConnection(s)
  {
  }

  /** The statuses of the setup steps of `main`, in order. */
  datatype SetupSteps = SetupSteps(
    open: Status, createTransport: Status, connect: ConnectSteps, responseListener: Status,
    createWaitQueue: Status, completionListener: Status, disconnectListener: Status,
    dispatcher: Status, createRequest: Status, setSubject: Status, setReplySubject: Status)

  /**
   * The setup of `main` up to "Starting test": each step that fails exits with
   * status 1. The status of `tibrvQueue_Create` for the wait queue is
   * overwritten by the completion listener's before it is tested.
   */
  function Setup(s: SetupSteps): Flow
  {
    if s.open != Ok || s.createTransport != Ok || CreateServerConnection(s.connect) != Ok ||
       s.responseListener != Ok || s.completionListener != Ok || s.disconnectListener != Ok ||
       s.dispatcher != Ok || s.createRequest != Ok || s.setSubject != Ok || s.setReplySubject != Ok
    then Exit(1)
    else Continue
  }

  /** Setup carries on exactly when every tested step succeeded, and exits with status 1 otherwise; the wait queue's status plays no part. */
  lemma SetupExitsUnlessAllOk(s: SetupSteps, st: Status)
    ensures var steps := [s.open, s.createTransport, CreateServerConnection(s.connect), s.responseListener,
                          s.completionListener, s.disconnectListener, s.dispatcher, s.createRequest,
                          s.setSubject, s.setReplySubject];
            Setup(s) == (if Chain(steps) == Ok then Continue else Exit(1))
    ensures Setup(s.(createWaitQueue := st)) == Setup(s)
  {
    var steps := [s.open, s.createTransport, CreateServerConnection(s.connect), s.responseListener,
                  s.completionListener, s.disconnectListener, s.dispatcher, s.createRequest,
                  s.setSubject, s.setReplySubject];
    assert steps[0] == s.open && steps[1] == s.createTransport && steps[2] == CreateServerConnection(s.connect);
    assert steps[3] == s.responseListener && steps[4] == s.completionListener && steps[5] == s.disconnectListener;
    assert steps[6] == s.dispatcher && steps[7] == s.createRequest && steps[8] == s.setSubject && steps[9] == s.setReplySubject;
  }

  /** The client's own view of its circuit. */
  datatype VcState = Initializing | Waiting | Connected | Disconnected

  /** The inputs of one request: the two values from `rand()` and the statuses of the three field updates and of the send. */
  datatype Attempt = Attempt(x: nat, y: nat, updateX: Status, updateY: Status, updateSum: Status, send: Status)

  predicate AttemptOk(a: Attempt)
  {
    a.updateX == Ok && a.updateY == Ok && a.updateSum == Ok && a.send == Ok
  }

  /** The request message's fields after `set_msg_data` succeeded with the values of `a`: the 32-bit values and their sum modulo 2^32. */
  function Filled(a: Attempt): (r: Payload)
    ensures r.x.Some? && r.y.Some? && r.sum.Some?
    ensures r.x.value < U32_MODULUS && r.y.value < U32_MODULUS && r.sum.value < U32_MODULUS
    ensures r.sum.value == (r.x.value + r.y.value) % U32_MODULUS
    ensures r.x.value == a.x % U32_MODULUS && r.y.value == a.y % U32_MODULUS
    ensures r.sum.value == (a.x + a.y) % U32_MODULUS
  {
    AddU32(a.x, a.y);
    Payload(Some(ToU32(a.x)), Some(ToU32(a.y)), Some(ToU32(ToU32(a.x) + ToU32(a.y))))
  }

  /** `exit_status` after the wait: 0 exactly when every reply arrived. */
  function ExitStatus(msgsIn: nat, requests: nat): (code: int)
    ensures code == 0 || code == 1
    ensures code == 0 <==> msgsIn >= requests
  {
    if msgsIn >= requests then 0 else 1
  }

  /**
   * The bookkeeping record `vcRec`, with the program-wide values its
   * callbacks read (`requests`, `status_frq`, the reused request message and
   * the paced-mode timer) and a count of the completion sentinels sent.
   */
  class VcSession {
    var state: VcState
    var msgsIn: nat
    var msgsOut: nat
    /** The fields of the reused request message and its send subject. */
    var request: Payload
    var sendSubject: string
    /** The paced-mode timer exists and has not destroyed itself. */
    var timerLive: bool
    /** Sentinel messages sent to wake the main thread (`allDone`). */
    var completions: nat
    const requests: nat
    const statusFrq: nat

    ghost predicate Valid()
      reads this
    {
      requests < U32_MODULUS && statusFrq < U32_MODULUS && msgsIn < U32_MODULUS && msgsOut <= requests
    }

    /** The record as `main` fills it in, with the request message already addressed. */
    constructor (requests: nat, statusFrq: nat)
      requires requests < U32_MODULUS && statusFrq < U32_MODULUS
      ensures Valid()
      ensures this.requests == requests && this.statusFrq == statusFrq
      ensures state == Initializing && msgsIn == 0 && msgsOut == 0 && completions == 0
      ensures request == EMPTY && sendSubject == REQUEST_SUBJECT && !timerLive
    {
      this.requests := requests;
      this.statusFrq := statusFrq;
      state := Initializing;
      msgsIn := 0;
      msgsOut := 0;
      request := EMPTY;
      sendSubject := REQUEST_SUBJECT;
      timerLive := false;
      completions := 0;
    }

    /** `set_msg_data`: writes `x`, `y` and their 32-bit sum; any failed update exits with status 1. */
    method SetMsgData(a: Attempt) returns (flow: Flow)
      modifies this`request
      ensures flow == (if a.updateX == Ok && a.updateY == Ok && a.updateSum == Ok then Continue else Exit(1))
      ensures flow.Continue? ==> request == Filled(a)
      ensures a.updateX != Ok ==> request == old(request)
    {
      var x := ToU32(a.x);
      if a.updateX != Ok {
        return Exit(1);
      }
      request := request.(x := Some(x));
      var y := ToU32(a.y);
      if a.updateY != Ok {
        return Exit(1);
      }
      request := request.(y := Some(y));
      var sum := ToU32(x + y);
      if a.updateSum != Ok {
        return Exit(1);
      }
      request := request.(sum := Some(sum));
      return Continue;
    }

    /** `allDone`: readdresses the request message to the sentinel subject and sends it to this process. */
    method AllDone()
      modifies this`sendSubject, this`completions
      ensures sendSubject == COMPLETION_SUBJECT && completions == old(completions) + 1
    {
      sendSubject := COMPLETION_SUBJECT;
      completions := completions + 1;
    }

    /**
     * `serverResponse`: counts the reply; prints a status line only once all
     * requests are sent and the count is a multiple of `status_frq`; signals
     * completion on every reply that leaves `msgs_in >= requests`, with no
     * guard against signalling more than once.
     */
    method ServerResponse() returns (printed: bool, signalled: bool)
      requires Valid()
      modifies this
      ensures Valid()
      ensures msgsIn == Inc32(old(msgsIn))
      ensures printed <==> msgsOut == requests && StatusDue(msgsIn, statusFrq)
      ensures signalled <==> msgsIn >= requests
      ensures completions == old(completions) + (if signalled then 1 else 0)
      ensures sendSubject == (if signalled then COMPLETION_SUBJECT else old(sendSubject))
      ensures state == old(state) && msgsOut == old(msgsOut) && request == old(request) && timerLive == old(timerLive)
    {
      msgsIn := Inc32(msgsIn);
      printed := msgsOut == requests && statusFrq > 0 && (msgsIn / statusFrq) * statusFrq == msgsIn;
      signalled := msgsIn >= requests;
      if signalled {
        AllDone();
      }
    }

    /** One request: fill in the message and send it; the count goes up only when every call succeeded, any failure exits with status 1. */
    method SendRequest(a: Attempt) returns (flow: Flow)
      requires msgsOut < requests
      modifies this`request, this`msgsOut
      ensures flow == (if AttemptOk(a) then Continue else Exit(1))
      ensures flow.Continue? ==> msgsOut == old(msgsOut) + 1 && request == Filled(a)
      ensures flow.Exit? ==> msgsOut == old(msgsOut)
    {
      flow := SetMsgData(a);
      if flow.Exit? {
        return;
      }
      if a.send != Ok {
        return Exit(1);
      }
      msgsOut := msgsOut + 1;
    }

    /**
     * `pubReqMsg`, one firing of the paced-mode timer: sends one request while
     * fewer than `requests` have gone out (a failure exits with status 1),
     * prints a status line at multiples of `status_frq`, and destroys the
     * timer on the firing that finds `msgs_out == requests`; a failed destroy
     * is only reported, and the timer keeps firing.
     */
    method PubReqMsg(a: Attempt, destroyStatus: Status) returns (flow: Flow, printed: bool, destroyed: bool)
      requires Valid()
      modifies this`request, this`msgsOut, this`timerLive
      ensures Valid()
      ensures flow.Exit? <==> old(msgsOut) < requests && !AttemptOk(a)
      ensures flow.Exit? ==> flow.code == 1 && msgsOut == old(msgsOut)
      ensures flow.Continue? ==>
        msgsOut == (if old(msgsOut) < requests then old(msgsOut) + 1 else old(msgsOut)) &&
        request == (if old(msgsOut) < requests then Filled(a) else old(request)) &&
        printed == StatusDue(msgsOut, statusFrq) &&
        destroyed == (msgsOut == requests) &&
        timerLive == (old(timerLive) && !(destroyed && destroyStatus == Ok))
    {
      printed, destroyed := false, false;
      if msgsOut < requests {
        flow := SendRequest(a);
        if flow.Exit? {
          return;
        }
      }
      flow := Continue;
      printed := statusFrq > 0 && (msgsOut / statusFrq) * statusFrq == msgsOut;
      if msgsOut == requests {
        destroyed := true;
        if destroyStatus == Ok {
          timerLive := false;
        }
      }
    }

    /** Creating the paced-mode timer in `main`; a failure exits with status 1. */
    method CreateTimer(st: Status) returns (flow: Flow)
      modifies this`timerLive
      ensures flow == (if st == Ok then Continue else Exit(1))
      ensures timerLive == (st == Ok)
    {
      timerLive := st == Ok;
      flow := if st == Ok then Continue else Exit(1);
    }

    /** `disconnectedVcCallback`: marks the circuit lost and always signals completion. */
    method DisconnectedVcCallback()
      modifies this
      ensures state == Disconnected && completions == old(completions) + 1 && sendSubject == COMPLETION_SUBJECT
      ensures msgsIn == old(msgsIn) && msgsOut == old(msgsOut) && request == old(request) && timerLive == old(timerLive)
    {
      state := Disconnected;
      AllDone();
    }

    /**
     * The burst loop of `main` (interval 0): from `msgs_out == 0`, either every
     * request is sent, or the process exits with status 1 at the first failed
     * attempt, having sent exactly the attempts before it. A status line is
     * printed at each multiple of `status_frq` reached.
     */
    method Burst(env: nat -> Attempt) returns (flow: Flow, printedAt: seq<nat>)
      requires Valid() && msgsOut == 0
      modifies this`request, this`msgsOut
      ensures Valid()
      ensures flow == Continue || flow == Exit(1)
      ensures flow.Continue? <==> forall k :: 0 <= k < requests ==> AttemptOk(env(k))
      ensures flow.Continue? ==> msgsOut == requests
      ensures flow.Exit? ==> msgsOut < requests && !AttemptOk(env(msgsOut)) &&
                             forall k :: 0 <= k < msgsOut ==> AttemptOk(env(k))
      ensures printedAt == Multiples(statusFrq, msgsOut)
      ensures flow.Continue? && requests > 0 ==> request == Filled(env(requests - 1))
    {
      printedAt := [];
      while msgsOut < requests
        invariant Valid()
        invariant forall k :: 0 <= k < msgsOut ==> AttemptOk(env(k))
        invariant printedAt == Multiples(statusFrq, msgsOut)
        invariant request == if msgsOut == 0 then old(request) else Filled(env(msgsOut - 1))
        decreases requests - msgsOut
      {
        flow := SendRequest(env(msgsOut));
        if flow.Exit? {
          return;
        }
        printedAt := printedAt + if StatusDue(msgsOut, statusFrq) then [msgsOut] else [];
      }
      flow := Continue;
    }

    /**
     * The burst run of `main` up to its exit status: the burst, then the
     * `replies` server replies taken by the dispatcher thread, then a
     * disconnect advisory if `disconnected`. The main thread blocks on the
     * wait queue until a completion sentinel arrives: the reply that leaves
     * `msgs_in >= requests` sends one, and so does the disconnect. With no
     * sentinel it never wakes and there is no exit status (`None`): that is
     * every run with missing replies and no disconnect, and also every run
     * with `requests == 0` and no disconnect, since no reply then arrives to
     * signal. Once woken, the status is 0 when every reply came back and 1
     * otherwise.
     */
    method BurstRun(env: nat -> Attempt, replies: nat, disconnected: bool) returns (flow: Flow, exitStatus: Option<int>)
      requires Valid() && msgsOut == 0 && msgsIn == 0 && completions == 0
      requires replies <= requests
      modifies this
      ensures flow == Continue || flow == Exit(1)
      ensures flow.Continue? <==> forall k :: 0 <= k < requests ==> AttemptOk(env(k))
      ensures flow.Exit? ==> exitStatus.None?
      ensures flow.Continue? ==> msgsOut == requests && msgsIn == replies
      ensures flow.Continue? ==>
        completions == (if replies == requests && requests > 0 then 1 else 0) + (if disconnected then 1 else 0)
      ensures flow.Continue? ==> (exitStatus.Some? <==> completions > 0)
      ensures exitStatus.Some? ==> exitStatus.value == ExitStatus(msgsIn, requests)
      ensures flow.Continue? ==> (exitStatus == Some(0) <==> replies == requests && (requests > 0 || disconnected))
      ensures flow.Continue? ==> (exitStatus == Some(1) <==> replies < requests && disconnected)
      ensures flow.Continue? && requests == 0 && !disconnected ==> exitStatus.None?
    {
      exitStatus := None;
      var printedAt;
      flow, printedAt := Burst(env);
      if flow.Exit? {
        return;
      }
      var i := 0;
      while i < replies
        invariant Valid() && msgsOut == requests && msgsIn == i <= replies
        invariant completions == (if i == requests && requests > 0 then 1 else 0)
        decreases replies - i
      {
        var _, _ := ServerResponse();
        i := i + 1;
      }
      if disconnected {
        DisconnectedVcCallback();
      }
      if completions > 0 {
        exitStatus := Some(ExitStatus(msgsIn, requests));
      }
    }
  }
}
