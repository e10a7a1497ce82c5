/*
 * The request/reply benchmark client: it locates a server with a search
 * request, then sends `requests` requests to the server's reply subject (in a
 * burst, or one per firing of a timer) and counts the replies that arrive on
 * its inbox. A watchdog timer gives up when no reply arrived between two of
 * its firings. Failures do not exit on the spot: they are remembered in
 * `tibrv_err`, and `main` returns the status it ends with.
 *
 * The library calls are the statuses given as inputs; each callback is one
 * atomic step on the client's globals, held here in one `ClientRun` object.
 */
module Client {
  import opened RvStatus
  import opened Wire

  const SEARCH_SUBJECT: string := "TIBRV.LOCATE"

  /** The statuses of the library calls of the setup helpers of `main`, in the order they are made. */
  datatype StartSteps = StartSteps(
    open: Status,
    createTransport: Status, createSearch: Status, setSearchSubject: Status,
    sendRequest: Status,
    getReplySubject: Status, destroyReply: Status, createInbox: Status,
    createQueue: Status, createListener: Status, createDispatcher: Status, createRequest: Status,
    firstDraw: Draw, setSendSubject: Status, setReplySubject: Status,
    createWatchdog: Status)

  /** `open_RVMechanisms`, `init_server_searching`, `search_for_server`, `get_server_data`, `finish_setup` and the watchdog timer, each a chain of its own. */
  function StartGroups(s: StartSteps): seq<seq<Status>>
  {
    [[s.open],
     [s.createTransport, s.createSearch, s.setSearchSubject],
     [s.sendRequest],
     [s.getReplySubject, s.destroyReply, s.createInbox],
     [s.createQueue, s.createListener, s.createDispatcher, s.createRequest, DrawStatus(s.firstDraw),
      s.setSendSubject, s.setReplySubject],
     [s.createWatchdog]]
  }

  /** The status `main` holds before it starts sending: each helper runs only when every earlier one returned `Ok`. */
  function Startup(s: StartSteps): Status
  {
    Chain(Heads(StartGroups(s)))
  }

  /**
   * Setup ends with the status of the first library call that failed, or
   * `Ok` when every call succeeded, as if `main` made all the calls itself.
   */
  lemma StartupStopsAtFirstFailedCall(s: StartSteps)
    ensures Startup(s) == Chain(Flatten(StartGroups(s)))
    ensures Startup(s) == Ok <==> forall k :: 0 <= k < |Flatten(StartGroups(s))| ==> Flatten(StartGroups(s))[k] == Ok
  {
    ChainOfChains(StartGroups(s));
  }

  /** The inputs of one `set_msg_data`: the two values from `rand()` and the statuses of the two field updates. */
  datatype Draw = Draw(x: nat, y: nat, updateX: Status, updateY: Status)

  /** What `set_msg_data` returns: the first failed update's status; `y` is not attempted when `x` failed. */
  function DrawStatus(d: Draw): (rc: Status)
    ensures rc == Ok <==> d.updateX == Ok && d.updateY == Ok
  {
    if d.updateX != Ok then d.updateX else d.updateY
  }

  /** `set_msg_data` is the chain of its two updates. */
  lemma DrawStatusIsChain(d: Draw)
    ensures DrawStatus(d) == Chain([d.updateX, d.updateY])
  {
    var t: seq<Status> := [d.updateY];
    ChainCons(d.updateY, []);
    assert [d.updateY] + [] == t;
    ChainCons(d.updateX, t);
    assert [d.updateX] + t == [d.updateX, d.updateY];
  }

  /** The message after `set_msg_data`: each update that succeeded wrote its 32-bit value. */
  function AfterDraw(fields: Payload, d: Draw): Payload
  {
    if d.updateX != Ok then fields
    else if d.updateY != Ok then fields.(x := Some(ToU32(d.x)))
    else fields.(x := Some(ToU32(d.x)), y := Some(ToU32(d.y)))
  }

  /** The message after the draws `0 .. n - 1`, in order. */
  function Drawn(fields: Payload, draws: nat -> Draw, n: nat): Payload
  {
    if n == 0 then fields else AfterDraw(Drawn(fields, draws, n - 1), draws(n - 1))
  }

  /** `tibrv_err` after the draws `0 .. n - 1`: each failed `set_msg_data` overwrites it with its status. */
  function Latch(err: Status, draws: nat -> Draw, n: nat): Status
  {
    if n == 0 then err else LatchStep(Latch(err, draws, n - 1), draws(n - 1))
  }

  /** `tibrv_err` after one `set_msg_data`. */
  function LatchStep(err: Status, d: Draw): Status
  {
    if DrawStatus(d) != Ok then DrawStatus(d) else err
  }

  /**
   * The latched error is the status of the last failed draw, or the error
   * held before when every draw succeeded; it is never reset to `Ok`.
   */
  lemma {:induction false} LatchIsLastFailure(err: Status, draws: nat -> Draw, n: nat)
    ensures (forall k :: 0 <= k < n ==> DrawStatus(draws(k)) == Ok) ==> Latch(err, draws, n) == err
    ensures forall k :: 0 <= k < n && DrawStatus(draws(k)) != Ok && (forall j :: k < j < n ==> DrawStatus(draws(j)) == Ok) ==>
                          Latch(err, draws, n) == DrawStatus(draws(k))
    ensures err != Ok ==> Latch(err, draws, n) != Ok
  {
    if n > 0 {
      LatchIsLastFailure(err, draws, n - 1);
      var last := DrawStatus(draws(n - 1));
      assert Latch(err, draws, n) == if last != Ok then last else Latch(err, draws, n - 1);
      forall k | 0 <= k < n && DrawStatus(draws(k)) != Ok && (forall j :: k < j < n ==> DrawStatus(draws(j)) == Ok)
        ensures Latch(err, draws, n) == DrawStatus(draws(k))
      {
        if k < n - 1 {
          assert last == Ok;
        }
      }
    }
  }


  /** The inputs of one request sent from the paced-mode timer: a draw and the statuses of copy, addressing and send. */
  datatype PubAttempt = PubAttempt(draw: Draw, copy: Status, setSubject: Status, setReply: Status, send: Status)

  /** The status of one paced-mode request: the first failing step, or `Ok`. */
  function PubStatus(a: PubAttempt): (rc: Status)
    ensures rc == Chain([DrawStatus(a.draw), a.copy, a.setSubject, a.setReply, a.send])
  {
    var d := DrawStatus(a.draw);
    ChainCons(a.send, []);
    assert [a.send] + [] == [a.send];
    ChainCons(a.setReply, [a.send]);
    assert [a.setReply] + [a.send] == [a.setReply, a.send];
    ChainCons(a.setSubject, [a.setReply, a.send]);
    assert [a.setSubject] + [a.setReply, a.send] == [a.setSubject, a.setReply, a.send];
    ChainCons(a.copy, [a.setSubject, a.setReply, a.send]);
    assert [a.copy] + [a.setSubject, a.setReply, a.send] == [a.copy, a.setSubject, a.setReply, a.send];
    ChainCons(d, [a.copy, a.setSubject, a.setReply, a.send]);
    assert [d] + [a.copy, a.setSubject, a.setReply, a.send] == [d, a.copy, a.setSubject, a.setReply, a.send];
    if d != Ok then d
    else if a.copy != Ok then a.copy
    else if a.setSubject != Ok then a.setSubject
    else if a.setReply != Ok then a.setReply
    else a.send
  }

  /** What the watchdog `timeOut` decides on one firing. */
  datatype Watch = Finish | GiveUp | Rearm(seen: nat)

  /**
   * `timeOut`: all replies in ends the wait; no reply since the previous
   * firing is a timeout; otherwise it notes the count and waits again.
   */
  function Watchdog(responses: nat, lastCount: nat, requests: nat): Watch
  {
    if responses >= requests then Finish
    else if lastCount == responses then GiveUp
    else Rearm(responses)
  }

  /**
   * The watchdog gives up only on a firing that saw no new reply, and when
   * two firings see the same count short of `requests`, the second gives up.
   */
  lemma WatchdogGivesUpOnStall(responses: nat, lastCount: nat, requests: nat)
    ensures Watchdog(responses, lastCount, requests) == GiveUp <==> responses < requests && lastCount == responses
    ensures Watchdog(responses, lastCount, requests).Rearm? ==>
              Watchdog(responses, Watchdog(responses, lastCount, requests).seen, requests) == GiveUp
  {
  }

  /** What `main` ends with: the failure it returns, or the report of the replies. */
  datatype Outcome = FailedWith(rc: Status) | AllReplies(received: nat) | SomeReplies(received: nat, requests: nat)

  /** The end of `main`: a failure is reported and returned; otherwise `report_results` tells all from some. */
  function EndOfRun(rc: Status, responses: nat, requests: nat): (o: Outcome)
    ensures o.FailedWith? <==> rc != Ok
    ensures o.AllReplies? <==> rc == Ok && responses >= requests
    ensures o.FailedWith? ==> o.rc == rc
    ensures !o.FailedWith? ==> o.received == responses
  {
    if rc != Ok then FailedWith(rc)
    else if responses >= requests then AllReplies(responses)
    else SomeReplies(responses, requests)
  }

  /** An event delivered to a callback: a reply on the inbox, a watchdog firing, or a paced-mode timer firing. */
  datatype Event = Response | WatchdogFires | PubFires(a: PubAttempt)

  /**
   * The client's globals. `queueLive` is the response queue, which carries the
   * inbox listener and the watchdog timer and is destroyed with them once all
   * replies are in; `timerLive` is the paced-mode timer and `watchdogLive`
   * the watchdog.
   */
  class ClientRun {
    var responses: nat
    var sent: nat
    var done: bool
    var lastResponseCount: nat
    var err: Status
    var request: Payload
    var queueLive: bool
    var watchdogLive: bool
    var timerLive: bool
    const requests: nat
    const statusFrq: nat

    ghost predicate Valid()
      reads this
    {
      requests < U32_MODULUS && statusFrq < U32_MODULUS && responses < U32_MODULUS &&
      lastResponseCount < U32_MODULUS && sent <= requests && (!queueLive ==> done)
    }

    /**
     * How the reply count stands with the response queue: `done` only once
     * every reply is in, and while the queue lives the count is still short
     * (or nothing was asked for and nothing received).
     */
    ghost predicate RepliesAgree()
      reads this
    {
      (done ==> responses >= requests) && (queueLive ==> responses < requests || responses == 0)
    }

    /** The globals when `main` starts sending: nothing sent or received, the response queue and the watchdog running. */
    constructor (requests: nat, statusFrq: nat, request: Payload, paced: bool)
      requires requests < U32_MODULUS && statusFrq < U32_MODULUS
      ensures Valid() && RepliesAgree()
      ensures this.requests == requests && this.statusFrq == statusFrq && this.request == request
      ensures responses == 0 && sent == 0 && !done && lastResponseCount == 0 && err == Ok
      ensures queueLive && watchdogLive && timerLive == paced
    {
      this.requests := requests;
      this.statusFrq := statusFrq;
      this.request := request;
      responses := 0;
      sent := 0;
      done := false;
      lastResponseCount := 0;
      err := Ok;
      queueLive := true;
      watchdogLive := true;
      timerLive := paced;
    }

    /** `set_msg_data`: writes `x` and then `y`; a failed update is stored in `tibrv_err` and returned. */
    method SetMsgData(d: Draw) returns (rc: Status)
      modifies this`request, this`err
      ensures rc == DrawStatus(d)
      ensures request == AfterDraw(old(request), d)
      ensures err == (if rc != Ok then rc else old(err))
    {
      rc := d.updateX;
      if rc != Ok {
        err := rc;
      } else {
        request := request.(x := Some(ToU32(d.x)));
        rc := d.updateY;
        if rc != Ok {
          err := rc;
        } else {
          request := request.(y := Some(ToU32(d.y)));
        }
      }
    }

    /**
     * `serverResponse`: counts the reply and prints a status line at
     * multiples of `status_frq`; the reply that brings the count to
     * `requests` destroys the response queue (and the watchdog with it) and
     * sets `done`.
     */
    method ServerResponse() returns (printed: bool, finished: bool)
      requires Valid() && RepliesAgree() && queueLive
      modifies this`responses, this`done, this`queueLive
      ensures Valid() && RepliesAgree()
      ensures responses == old(responses) + 1
      ensures printed == StatusDue(responses, statusFrq)
      ensures finished == (responses >= requests)
      ensures done == (old(done) || finished) && queueLive == !finished
    {
      responses := Inc32(responses);
      printed := statusFrq > 0 && (responses / statusFrq) * statusFrq == responses;
      finished := responses >= requests;
      if finished {
        queueLive := false;
        done := true;
      }
    }

    /** `timeOut`: carries out the watchdog's decision. */
    method TimeOut()
      requires Valid() && RepliesAgree()
      modifies this`done, this`watchdogLive, this`err, this`lastResponseCount
      ensures Valid() && RepliesAgree()
      ensures var w := Watchdog(responses, old(lastResponseCount), requests);
        done == (old(done) || w == Finish) &&
        watchdogLive == (old(watchdogLive) && w.Rearm?) &&
        err == (if w == GiveUp then Timeout else old(err)) &&
        lastResponseCount == (if w.Rearm? then w.seen else old(lastResponseCount))
    {
      if responses >= requests {
        done := true;
        watchdogLive := false;
      } else if lastResponseCount == responses {
        watchdogLive := false;
        err := Timeout;
      } else {
        lastResponseCount := responses;
      }
    }

    /**
     * `pubMsg`, one firing of the paced-mode timer: while fewer than
     * `requests` are sent, fills in a copy of the request and sends it,
     * counting it only when every step succeeded. When the firing succeeded
     * it prints a status line at multiples of `status_frq`, and destroys the
     * timer once `requests` are sent. A failure is stored in `tibrv_err`.
     */
    method PubMsg(a: PubAttempt) returns (rc: Status, printed: bool, destroyed: bool)
      requires Valid()
      modifies this`sent, this`err, this`request, this`timerLive
      ensures Valid()
      ensures rc == (if old(sent) < requests then PubStatus(a) else Ok)
      ensures sent == old(sent) + (if old(sent) < requests && rc == Ok then 1 else 0)
      ensures request == (if old(sent) < requests then AfterDraw(old(request), a.draw) else old(request))
      ensures err == (if rc != Ok then rc else old(err))
      ensures printed == (rc == Ok && StatusDue(sent, statusFrq))
      ensures destroyed == (rc == Ok && sent >= requests)
      ensures timerLive == (old(timerLive) && !destroyed)
    {
      rc := Ok;
      printed, destroyed := false, false;
      if sent < requests {
        rc := SetMsgData(a.draw);
        if rc == Ok {
          rc := a.copy;
        }
        if rc == Ok {
          rc := a.setSubject;
        }
        if rc == Ok {
          rc := a.setReply;
        }
        if rc == Ok {
          rc := a.send;
        }
        if rc == Ok {
          sent := sent + 1;
        }
      }
      if rc == Ok {
        printed := statusFrq > 0 && (sent / statusFrq) * statusFrq == sent;
        if sent >= requests {
          destroyed := true;
          timerLive := false;
        }
      }
      if rc != Ok {
        err := rc;
      }
    }

    /**
     * `send_msgs_cont`, the burst mode: sends until `requests` are sent or a
     * send fails, and returns that send's status. The status of
     * `set_msg_data` is not looked at, but a failed draw is still stored in
     * `tibrv_err`; the draw before the failed send happens too.
     */
    method SendMsgsCont(draws: nat -> Draw, sends: nat -> Status) returns (rc: Status, printedAt: seq<nat>)
      requires Valid() && sent == 0
      modifies this`sent, this`err, this`request
      ensures Valid()
      ensures var n := FirstFailure(sends, 0, requests);
        var drawn := if n < requests then n + 1 else n;
        sent == n &&
        rc == (if n < requests then sends(n) else Ok) &&
        err == Latch(old(err), draws, drawn) &&
        request == Drawn(old(request), draws, drawn)
      ensures printedAt == Multiples(statusFrq, sent)
    {
      rc := Ok;
      printedAt := [];
      var i: nat := 0;
      while i < requests
        invariant i == sent <= requests && rc == Ok
        invariant FirstFailure(sends, 0, requests) == FirstFailure(sends, i, requests)
        invariant err == Latch(old(err), draws, i) && request == Drawn(old(request), draws, i)
        invariant printedAt == Multiples(statusFrq, sent)
        decreases requests - i
      {
        rc := SendOne(draws(i), sends(i));
        if rc != Ok {
          assert FirstFailure(sends, i, requests) == i;
          return;
        }
        printedAt := printedAt + if StatusDue(sent, statusFrq) then [sent] else [];
        i := i + 1;
      }
    }

    /** One request of the burst: `set_msg_data`, whose status is dropped, then the send, counted when it succeeded. */
    method SendOne(d: Draw, send: Status) returns (rc: Status)
      requires Valid() && sent < requests
      modifies this`sent, this`err, this`request
      ensures Valid()
      ensures rc == send
      ensures sent == old(sent) + (if send == Ok then 1 else 0)
      ensures err == LatchStep(old(err), d) && request == AfterDraw(old(request), d)
    {
      var _ := SetMsgData(d);
      rc := send;
      if rc == Ok {
        sent := sent + 1;
      }
    }

    /** One event taken from a queue: callbacks of destroyed events and queues are not run. */
    method Deliver(e: Event)
      requires Valid() && RepliesAgree()
      modifies this
      ensures Valid() && RepliesAgree()
      ensures ((e.Response? && !old(queueLive)) || (e.WatchdogFires? && !(old(queueLive) && old(watchdogLive))) ||
               (e.PubFires? && !old(timerLive))) ==> unchanged(this)
      ensures e.Response? && old(queueLive) ==>
        responses == old(responses) + 1 && done == (old(done) || responses >= requests) &&
        queueLive == (responses < requests) &&
        sent == old(sent) && err == old(err) && request == old(request) &&
        lastResponseCount == old(lastResponseCount) && watchdogLive == old(watchdogLive) && timerLive == old(timerLive)
      ensures e.WatchdogFires? && old(queueLive) && old(watchdogLive) ==>
        var w := Watchdog(old(responses), old(lastResponseCount), requests);
        done == (old(done) || w == Finish) && watchdogLive == w.Rearm? &&
        err == (if w == GiveUp then Timeout else old(err)) &&
        lastResponseCount == (if w.Rearm? then w.seen else old(lastResponseCount)) &&
        responses == old(responses) && sent == old(sent) && request == old(request) &&
        queueLive == old(queueLive) && timerLive == old(timerLive)
      ensures e.PubFires? && old(timerLive) ==>
        var rc := if old(sent) < requests then PubStatus(e.a) else Ok;
        sent == old(sent) + (if old(sent) < requests && rc == Ok then 1 else 0) &&
        request == (if old(sent) < requests then AfterDraw(old(request), e.a.draw) else old(request)) &&
        err == (if rc != Ok then rc else old(err)) &&
        timerLive == !(rc == Ok && sent >= requests) &&
        responses == old(responses) && done == old(done) && lastResponseCount == old(lastResponseCount) &&
        queueLive == old(queueLive) && watchdogLive == old(watchdogLive)
      ensures old(err) != Ok ==> err != Ok
      ensures old(done) ==> done
    {
      match e
      case Response =>
        if queueLive {
          var _, _ := ServerResponse();
        }
      case WatchdogFires =>
        if queueLive && watchdogLive {
          TimeOut();
        }
      case PubFires(a) =>
        if timerLive {
          var _, _, _ := PubMsg(a);
        }
    }

    /**
     * The wait loop of `main`, given the events dispatched in each round:
     * while not `done` and no failure, it dispatches a round as long as
     * replies are missing, and turns a stored `tibrv_err` into the status it
     * ends with. It ends only when `done`, when every reply is in, or on a
     * failure (or when the rounds given run out).
     */
    method WaitLoop(rc0: Status, rounds: seq<seq<Event>>) returns (rc: Status, used: nat)
      requires Valid() && RepliesAgree()
      modifies this
      ensures Valid() && RepliesAgree()
      ensures used <= |rounds|
      ensures rc0 != Ok ==> rc == rc0 && used == 0
      ensures rc0 == Ok && rc != Ok ==> rc == err
      ensures used < |rounds| ==> done || responses >= requests || rc != Ok
      ensures used < |rounds| ==> EndOfRun(rc, responses, requests) == if rc != Ok then FailedWith(rc) else AllReplies(responses)
      ensures rc0 == Ok && old(err) != Ok && !old(done) && old(responses) < requests && |rounds| > 0 ==> rc != Ok && used == 1
      ensures old(err) != Ok ==> err != Ok
    {
      rc := rc0;
      used := 0;
      while !done && rc == Ok && used < |rounds|
        invariant Valid() && RepliesAgree() && used <= |rounds|
        invariant rc0 != Ok ==> rc == rc0 && used == 0
        invariant rc0 == Ok && rc != Ok ==> rc == err
        invariant old(err) != Ok ==> err != Ok
        invariant rc0 == Ok && old(err) != Ok && !old(done) && old(responses) < requests && used > 0 ==> rc != Ok && used == 1
        invariant used == 0 ==> rc == rc0 && done == old(done) && responses == old(responses) && err == old(err)
        decreases |rounds| - used
      {
        if responses >= requests {
          break;
        }
        var round := rounds[used];
        var k := 0;
        while k < |round|
          invariant Valid() && RepliesAgree() && 0 <= k <= |round|
          invariant old(err) != Ok ==> err != Ok
          decreases |round| - k
        {
          Deliver(round[k]);
          k := k + 1;
        }
        if err != Ok {
          rc := err;
        }
        used := used + 1;
      }
    }
  }
}
