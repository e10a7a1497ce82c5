/*
 * The request/reply benchmark server: it answers every search request with
 * one prebuilt reply naming its inbox, and answers every request on that
 * inbox with the 32-bit sum of the request's `x` and `y`, until a dispatch
 * returns anything but `Ok` (normally the 120-second timeout).
 */
module Server {
  import opened RvStatus
  import opened Argv
  import opened Wire
  import VcClient
  import Client

  const SEARCH_SUBJECT: string := "TIBRV.LOCATE"

  /** Help check, no minimum argument count, the transport flags plus `-status`; arguments after the flags are ignored. */
  const SERVER_TABLE: ScanTable := ScanTable(TRANSPORT_FLAGS + {"-status"}, 0, true)

  /** `getParameters`: the program name stripped at `\` or `/` only, and the scan of the flags. */
  method GetParameters(args: seq<string>) returns (programName: string, r: Scan)
    requires |args| >= 1
    ensures programName == StripProgramName(args[0], SERVER_SEPARATORS)
    ensures r == Scanner(args, SERVER_TABLE)
  {
    programName := StripProgramName(args[0], SERVER_SEPARATORS);
    r := RunScanner(args, SERVER_TABLE);
  }

  /** `-status` through `atol` and the cast to `tibrv_u32`; 0, no status lines, when absent. */
  function StatusFrequency(values: map<string, string>, atol: string -> int): (f: nat)
    ensures f < U32_MODULUS
    ensures "-status" !in values ==> f == 0
    ensures "-status" in values && 0 <= atol(values["-status"]) < U32_MODULUS ==> f == atol(values["-status"])
  {
    if "-status" in values then ToU32(atol(values["-status"])) else 0
  }

  /** The statuses of the setup steps of `main`; the status of `CreateInbox` is not looked at. */
  datatype SetupSteps = SetupSteps(open: Status, createTransport: Status, searchListener: Status, createInbox: Status,
                                   requestListener: Status, createSearchReply: Status, setReplySubject: Status)

  /** Setup: each failing step exits with status 1. */
  function Setup(s: SetupSteps): Flow
  {
    if s.open != Ok || s.createTransport != Ok || s.searchListener != Ok || s.requestListener != Ok ||
       s.createSearchReply != Ok || s.setReplySubject != Ok
    then Exit(1)
    else Continue
  }

  /** Setup carries on exactly when the tested steps all succeed; a failed `CreateInbox` goes unnoticed. */
  lemma SetupIgnoresInbox(s: SetupSteps, st: Status)
    ensures Setup(s) == Continue <==>
      s.open == Ok && s.createTransport == Ok && s.searchListener == Ok && s.requestListener == Ok &&
      s.createSearchReply == Ok && s.setReplySubject == Ok
    ensures Setup(s.(createInbox := st)) == Setup(s)
  {
  }

  /** The 32-bit sum the server computes from the request's fields. */
  function Sum(m: Payload): (s: nat)
    requires m.x.Some? && m.y.Some?
    ensures s < U32_MODULUS
    ensures s == (m.x.value + m.y.value) % U32_MODULUS
    ensures m.x.value + m.y.value < U32_MODULUS ==> s == m.x.value + m.y.value
  {
    AddU32(m.x.value, m.y.value);
    ToU32(ToU32(m.x.value) + ToU32(m.y.value))
  }

  /**
   * The reply to a request: with `new_msg`, a fresh message holding only the
   * sum; otherwise the request itself with its `sum` field updated.
   */
  function ReplyFor(m: Payload, newMsg: bool): (r: Payload)
    requires m.x.Some? && m.y.Some?
    ensures r.sum == Some(Sum(m))
    ensures newMsg ==> r.x.None? && r.y.None?
    ensures !newMsg ==> r.x == m.x && r.y == m.y
  {
    if newMsg then EMPTY.(sum := Some(Sum(m))) else m.(sum := Some(Sum(m)))
  }

  /**
   * The server's sum agrees with the one the virtual-circuit client put in
   * its request, and the reply to the request/reply client's request holds
   * the 32-bit sum of the values it drew.
   */
  lemma ServerSumMatchesClients(a: VcClient.Attempt, d: Client.Draw, newMsg: bool)
    ensures ReplyFor(VcClient.Filled(a), newMsg).sum == VcClient.Filled(a).sum
    ensures d.updateX == Ok && d.updateY == Ok ==>
      var m := Client.AfterDraw(EMPTY, d);
      m.x.Some? && m.y.Some? && ReplyFor(m, newMsg).sum == Some((ToU32(d.x) + ToU32(d.y)) % U32_MODULUS)
  {
  }

  /** The statuses of the library calls that build and send a reply. */
  datatype ReplySteps = ReplySteps(create: Status, update: Status, send: Status, destroy: Status)

  /** One inbound event: a search request, or a client request with its fields and the statuses of the reply calls. */
  datatype Inbound = Search(send: Status) | Request(m: Payload, steps: ReplySteps)

  /** A round of `tibrvQueue_TimedDispatch`: one event dispatched, or a status other than `Ok` that ends the wait. */
  datatype Round = Dispatched(e: Inbound) | Stopped(rc: Status)

  /** Round `k` dispatched a client request. */
  predicate IsRequest(rounds: seq<Round>, k: nat)
    requires k < |rounds|
  {
    rounds[k].Dispatched? && rounds[k].e.Request?
  }

  /** Every one of the first `n` rounds dispatched an event. */
  predicate DispatchedBefore(rounds: seq<Round>, n: nat)
    requires n <= |rounds|
  {
    forall k :: 0 <= k < n ==> rounds[k].Dispatched?
  }

  /** The number of request rounds among the first `n`: `n` when all are requests, 0 when none is. */
  function RequestsIn(rounds: seq<Round>, n: nat): (c: nat)
    requires n <= |rounds|
    ensures c <= n
    ensures (forall k :: 0 <= k < n ==> IsRequest(rounds, k)) ==> c == n
    ensures (forall k :: 0 <= k < n ==> !IsRequest(rounds, k)) ==> c == 0
  {
    if n == 0 then 0
    else RequestsIn(rounds, n - 1) + if IsRequest(rounds, n - 1) then 1 else 0
  }

  /** The searches among the first `n` rounds. */
  function SearchesIn(rounds: seq<Round>, n: nat): (c: nat)
    requires n <= |rounds|
    ensures c <= n
  {
    if n == 0 then 0
    else SearchesIn(rounds, n - 1) + if rounds[n - 1].Dispatched? && rounds[n - 1].e.Search? then 1 else 0
  }

  /**
   * The replies the server sends over the first `n` rounds, oldest first:
   * the `ReplyFor` of each dispatched request that carries both fields.
   */
  function RepliesIn(rounds: seq<Round>, n: nat, newMsg: bool): (r: seq<Payload>)
    requires n <= |rounds|
    ensures |r| <= RequestsIn(rounds, n)
  {
    if n == 0 then []
    else
      var e := rounds[n - 1];
      RepliesIn(rounds, n - 1, newMsg) +
        if e.Dispatched? && e.e.Request? && e.e.m.x.Some? && e.e.m.y.Some? then [ReplyFor(e.e.m, newMsg)] else []
  }

  /** What one more dispatched round adds to the counts and to the replies. */
  lemma RoundStep(rounds: seq<Round>, n: nat, newMsg: bool)
    requires n < |rounds| && rounds[n].Dispatched?
    ensures rounds[n].e.Search? ==>
      RequestsIn(rounds, n + 1) == RequestsIn(rounds, n) && SearchesIn(rounds, n + 1) == SearchesIn(rounds, n) + 1 &&
      RepliesIn(rounds, n + 1, newMsg) == RepliesIn(rounds, n, newMsg)
    ensures rounds[n].e.Request? ==>
      RequestsIn(rounds, n + 1) == RequestsIn(rounds, n) + 1 && SearchesIn(rounds, n + 1) == SearchesIn(rounds, n) &&
      (rounds[n].e.m.x.Some? && rounds[n].e.m.y.Some? ==>
        RepliesIn(rounds, n + 1, newMsg) == RepliesIn(rounds, n, newMsg) + [ReplyFor(rounds[n].e.m, newMsg)])
  {
    assert n + 1 - 1 == n;
  }

  /** Counting twice with the 32-bit increment is counting the sum modulo 2^32. */
  lemma Inc32OfWrapped(a: nat, k: nat)
    ensures Inc32(ToU32(a + k)) == ToU32(a + (k + 1))
  {
  }

  /**
   * The server's globals: the request counter, the status frequency, the
   * reply mode, the inbox subject set up by `main`, and what it has sent.
   */
  class ServerProcess {
    var requests: nat
    /** The replies to client requests sent so far, oldest first. */
    var replies: seq<Payload>
    /**
     * The reply subjects of the search replies sent so far, oldest first:
     * every search is answered with the one prebuilt message, whose reply
     * subject `main` set to the inbox.
     */
    var searchReplies: seq<string>
    const inbox: string
    const statusFrq: nat
    const newMsg: bool

    ghost predicate Valid()
      reads this
    {
      requests < U32_MODULUS && forall k :: 0 <= k < |searchReplies| ==> searchReplies[k] == inbox
    }

    /**
     * The globals at start: nothing counted or sent, and the search reply
     * built with `inbox` as its reply subject. The program itself always sets
     * `new_msg` to false.
     */
    constructor (inbox: string, statusFrq: nat, newMsg: bool)
      ensures Valid()
      ensures requests == 0 && replies == [] && searchReplies == []
      ensures this.inbox == inbox && this.statusFrq == statusFrq && this.newMsg == newMsg
    {
      requests := 0;
      replies := [];
      searchReplies := [];
      this.inbox := inbox;
      this.statusFrq := statusFrq;
      this.newMsg := newMsg;
    }

    /**
     * `searchCallback`: sends the prebuilt search reply, which tells the
     * client to send its requests to the inbox; a failed send exits with
     * status 1.
     */
    method SearchCallback(send: Status) returns (flow: Flow)
      requires Valid()
      modifies this`searchReplies
      ensures Valid()
      ensures flow == (if send == Ok then Continue else Exit(1))
      ensures searchReplies == old(searchReplies) + (if send == Ok then [inbox] else [])
    {
      if send != Ok {
        return Exit(1);
      }
      searchReplies := searchReplies + [inbox];
      flow := Continue;
    }

    /**
     * `requestCallback`: a request without `x` or `y` exits with status 1
     * before anything is sent; otherwise the reply holding the sum is sent,
     * and any failing call exits with status 1. A request is counted, with a
     * status line at multiples of `status_frq`, only when every call
     * succeeded. A reply that was sent stays sent even when destroying it
     * then fails.
     */
    method RequestCallback(m: Payload, st: ReplySteps) returns (flow: Flow, printed: bool)
      requires Valid()
      modifies this`requests, this`replies
      ensures Valid()
      ensures flow == Continue || flow == Exit(1)
      ensures flow == Continue <==>
        m.x.Some? && m.y.Some? &&
        (if newMsg then st.create == Ok && st.update == Ok && st.send == Ok && st.destroy == Ok
         else st.update == Ok && st.send == Ok)
      ensures replies == old(replies) + (if m.x.Some? && m.y.Some? && (newMsg ==> st.create == Ok) && st.update == Ok && st.send == Ok
                                         then [ReplyFor(m, newMsg)] else [])
      ensures requests == (if flow == Continue then Inc32(old(requests)) else old(requests))
      ensures printed == (flow == Continue && StatusDue(requests, statusFrq))
    {
      printed := false;
      if m.x.None? || m.y.None? {
        return Exit(1), false;
      }
      var sum := ToU32(ToU32(m.x.value) + ToU32(m.y.value));
      if newMsg {
        if st.create != Ok || st.update != Ok {
          return Exit(1), false;
        }
        if st.send != Ok {
          return Exit(1), false;
        }
        replies := replies + [EMPTY.(sum := Some(sum))];
        if st.destroy != Ok {
          return Exit(1), false;
        }
      } else {
        if st.update != Ok || st.send != Ok {
          return Exit(1), false;
        }
        replies := replies + [m.(sum := Some(sum))];
      }
      requests := Inc32(requests);
      printed := statusFrq > 0 && (requests / statusFrq) * statusFrq == requests;
      flow := Continue;
    }

    /** One dispatched event handed to its callback: a search or a client request. */
    method Dispatch(e: Inbound) returns (flow: Flow)
      requires Valid()
      modifies this`requests, this`replies, this`searchReplies
      ensures Valid()
      ensures flow == Continue || flow == Exit(1)
      ensures flow == Continue && e.Search? ==>
        requests == old(requests) && replies == old(replies) && searchReplies == old(searchReplies) + [inbox]
      ensures flow == Continue && e.Request? ==>
        e.m.x.Some? && e.m.y.Some? && requests == Inc32(old(requests)) &&
        replies == old(replies) + [ReplyFor(e.m, newMsg)] && searchReplies == old(searchReplies)
    {
      match e {
        case Search(send) =>
          flow := SearchCallback(send);
        case Request(m, st) =>
          var printed;
          flow, printed := RequestCallback(m, st);
      }
    }

    /**
     * What the dispatch loop has done after its first `n` rounds, from the
     * counter and replies it started with: every request counted modulo
     * 2^32, answered with its `ReplyFor`, and every search answered.
     */
    ghost predicate Progress(rounds: seq<Round>, n: nat, requests0: nat, replies0: seq<Payload>, searchReplies0: seq<string>)
      requires n <= |rounds|
      reads this
    {
      requests == ToU32(requests0 + RequestsIn(rounds, n)) &&
      |RepliesIn(rounds, n, newMsg)| == RequestsIn(rounds, n) &&
      replies == replies0 + RepliesIn(rounds, n, newMsg) &&
      |searchReplies| == |searchReplies0| + SearchesIn(rounds, n)
    }

    /** One round of the dispatch loop that dispatched an event: the loop's progress carries over to the next round. */
    method ServeRound(rounds: seq<Round>, n: nat, ghost requests0: nat, ghost replies0: seq<Payload>,
                      ghost searchReplies0: seq<string>) returns (flow: Flow)
      requires Valid() && n < |rounds| && rounds[n].Dispatched?
      requires Progress(rounds, n, requests0, replies0, searchReplies0)
      modifies this`requests, this`replies, this`searchReplies
      ensures Valid()
      ensures flow == Continue || flow == Exit(1)
      ensures flow == Continue ==> Progress(rounds, n + 1, requests0, replies0, searchReplies0)
    {
      var e := rounds[n].e;
      flow := Dispatch(e);
      if flow.Exit? {
        return;
      }
      RoundStep(rounds, n, newMsg);
      if e.Request? {
        Inc32OfWrapped(requests0, RequestsIn(rounds, n));
        assert replies == replies0 + (RepliesIn(rounds, n, newMsg) + [ReplyFor(e.m, newMsg)]);
      }
    }

    /**
     * The dispatch loop of `main`: dispatches until a round returns a status
     * other than `Ok`, after which the process exits with status 0, unless a
     * callback exited first. On the way to status 0 every request was
     * answered and counted.
     */
    method Serve(rounds: seq<Round>) returns (flow: Flow, used: nat)
      requires Valid()
      requires forall k :: 0 <= k < |rounds| && rounds[k].Stopped? ==> rounds[k].rc != Ok
      modifies this`requests, this`replies, this`searchReplies
      ensures Valid()
      ensures used <= |rounds|
      ensures flow == Continue || flow == Exit(0) || flow == Exit(1)
      ensures flow == Exit(0) ==> used < |rounds| && rounds[used].Stopped? && DispatchedBefore(rounds, used)
      ensures flow == Continue ==> used == |rounds| && DispatchedBefore(rounds, used)
      ensures flow != Exit(1) ==> requests == ToU32(old(requests) + RequestsIn(rounds, used))
      ensures flow != Exit(1) ==> |replies| == |old(replies)| + RequestsIn(rounds, used)
      ensures flow != Exit(1) ==> replies == old(replies) + RepliesIn(rounds, used, newMsg)
      ensures flow != Exit(1) ==> |searchReplies| == |old(searchReplies)| + SearchesIn(rounds, used)
      ensures forall k :: 0 <= k < |searchReplies| ==> searchReplies[k] == inbox
    {
      used := 0;
      while used < |rounds|
        invariant Valid() && used <= |rounds|
        invariant DispatchedBefore(rounds, used)
        invariant Progress(rounds, used, old(requests), old(replies), old(searchReplies))
        decreases |rounds| - used
      {
        if rounds[used].Stopped? {
          return Exit(0), used;
        }
        flow := ServeRound(rounds, used, old(requests), old(replies), old(searchReplies));
        if flow.Exit? {
          return;
        }
        assert DispatchedBefore(rounds, used + 1);
        used := used + 1;
      }
      flow := Continue;
    }
  }
}
