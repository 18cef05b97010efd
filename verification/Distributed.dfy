/**
 A peer of the Ricart–Agrawala-style distributed lock (assignment 3,
 `distributed.py`): the server thread's handling of one datagram, the
 release drain, and the request fan-out and reply count of `acquire_lock`.

 A peer owns its id, the timestamp of its own outstanding request (0 when it
 does not want the lock) and a bounded priority queue of deferred requests
 `(timestamp, address)`.
 */
module Distributed {
  import opened Text
  import PriorityQueue
  import Ports

  const NUM_MEMBERS: nat := 5

  const LOOPBACK: string := "127.0.0.1"
  const OK_REPLY: string := "ok"
  const REQUEST_WORD: string := "request"

  /** A UDP address `(host, port)`. */
  datatype Addr = Addr(host: string, port: int)

  /** A deferred request, ordered as the tuple `(timestamp, client_addr)`. */
  datatype Request = Request(timestamp: int, addr: Addr)

  datatype Datagram = Datagram(to: Addr, payload: string)

  datatype State = State(id: nat, requestTimestamp: int, pending: seq<Request>)

  /** Why the server thread dies: `tokens[0]` on an empty datagram, `tokens[1]`
      missing, or `int()` rejecting the timestamp. */
  datatype Fault = NoTokens | MissingTimestamp | BadTimestamp

  /** The effect of one received datagram. `WaitsForSpace` is `put()` on a full
      queue: the server thread blocks until the queue is drained. */
  datatype Outcome =
    | Handled(next: State, replies: seq<Datagram>)
    | Crashed(fault: Fault)
    | WaitsForSpace

  /** The queue is ordered and within its capacity of `NUM_MEMBERS`. */
  predicate Valid(s: State) {
    PriorityQueue.Sorted(RequestLe, s.pending) && |s.pending| <= NUM_MEMBERS
  }

  /** Requests are only deferred while this peer wants the lock, and only
      those stamped no earlier than its own request. */
  predicate Inv(s: State) {
    && Valid(s)
    && (s.requestTimestamp == 0 ==> s.pending == [])
    && forall q :: q in s.pending ==> q.timestamp >= s.requestTimestamp
  }

  function Init(id: nat): State {
    State(id, 0, [])
  }

  // ----- The queue order: Python tuple comparison -----

  /** Python `str` comparison `a < b`: lexicographic on code points, a proper
      prefix coming first. */
  predicate StrLt(a: string, b: string)
    decreases |a|
  {
    if |b| == 0 then false
    else if |a| == 0 then true
    else if a[0] != b[0] then a[0] < b[0]
    else StrLt(a[1..], b[1..])
  }

  /** Tuple order on `(host, port)`. */
  predicate AddrLe(a: Addr, b: Addr) {
    StrLt(a.host, b.host) || (a.host == b.host && a.port <= b.port)
  }

  /** Tuple order on `(timestamp, (host, port))`. */
  predicate RequestLe(a: Request, b: Request) {
    a.timestamp < b.timestamp || (a.timestamp == b.timestamp && AddrLe(a.addr, b.addr))
  }

  /** String order is a strict total order: exactly one of `a == b`,
      `a < b`, `b < a` holds, and `<` is transitive. */
  lemma {:induction false} StrLtTrichotomy(a: string, b: string)
    ensures a == b || StrLt(a, b) || StrLt(b, a)
    ensures !(StrLt(a, b) && StrLt(b, a))
    ensures !StrLt(a, a)
    decreases |a|
  {
    if |a| > 0 && |b| > 0 && a[0] == b[0] {
      StrLtTrichotomy(a[1..], b[1..]);
      assert a == [a[0]] + a[1..] && b == [b[0]] + b[1..];
    }
    if |a| > 0 {
      StrLtTrichotomy(a[1..], a[1..]);
    }
  }

  lemma {:induction false} StrLtTransitive(a: string, b: string, c: string)
    ensures StrLt(a, b) && StrLt(b, c) ==> StrLt(a, c)
    decreases |a|
  {
    if |a| > 0 && |b| > 0 && |c| > 0 {
      StrLtTransitive(a[1..], b[1..], c[1..]);
    }
  }

  /** The queue's key order is a total order on requests. */
  lemma RequestOrderIsTotal()
    ensures PriorityQueue.TotalOrder(RequestLe)
    ensures forall a, b :: RequestLe(a, b) && RequestLe(b, a) ==> a == b
  {
    forall a: Request, b: Request
      ensures RequestLe(a, b) || RequestLe(b, a)
      ensures RequestLe(a, b) && RequestLe(b, a) ==> a == b
    {
      StrLtTrichotomy(a.addr.host, b.addr.host);
    }
    forall a: Request, b: Request, c: Request
      ensures RequestLe(a, b) && RequestLe(b, c) ==> RequestLe(a, c)
    {
      StrLtTransitive(a.addr.host, b.addr.host, c.addr.host);
    }
  }

  // ----- Parsing -----

  /** `data.decode().strip().lower().split()`. */
  function Tokens(data: string): seq<string> {
    Split(Lower(Strip(data)))
  }

  /** `f"request {timestamp}"`. */
  function RequestPayload(ts: nat): string {
    REQUEST_WORD + " " + NatToString(ts)
  }

  lemma PayloadIsTrimmedLowercase(ts: nat)
    ensures Strip(RequestPayload(ts)) == RequestPayload(ts)
    ensures Lower(RequestPayload(ts)) == RequestPayload(ts)
  {
    var payload := RequestPayload(ts);
    assert payload == "" + payload + "";
    StripPadded("", payload, "");
    LowerOfLowercase(payload);
  }

  lemma PayloadSplits(ts: nat)
    ensures Split(RequestPayload(ts)) == [REQUEST_WORD, NatToString(ts)]
  {
    var digits := NatToString(ts);
    assert NoSpace(digits);
    assert RequestPayload(ts) == REQUEST_WORD + (" " + digits);
    SplitFirstWord(REQUEST_WORD, " " + digits);
    assert (" " + digits)[1..] == digits;
    assert digits == digits + "";
    SplitFirstWord(digits, "");
  }

  /** The request a peer sends is read back by the receiving server as the
      word `request` and exactly the timestamp that was sent. */
  lemma RequestPayloadRoundTrip(ts: nat)
    ensures Tokens(RequestPayload(ts)) == [REQUEST_WORD, NatToString(ts)]
    ensures ParseInt(NatToString(ts)) == Some(ts)
  {
    PayloadIsTrimmedLowercase(ts);
    PayloadSplits(ts);
    ParseIntOfNatToString(ts);
  }

  // ----- The server thread -----

  /** The decision of `server_function` on one tokenised datagram, with
      Python's evaluation order: `tokens[1]` is only read when this peer
      itself wants the lock. */
  function HandleTokens(s: State, tokens: seq<string>, from: Addr): (r: Outcome)
    requires Valid(s)
    ensures r.Crashed? <==>
      || |tokens| == 0
      || (tokens[0] == REQUEST_WORD && s.requestTimestamp != 0
          && (|tokens| < 2 || ParseInt(tokens[1]).None?))
    ensures |tokens| > 0 && tokens[0] != REQUEST_WORD ==> r == Handled(s, [])
    ensures r.Handled? ==> Valid(r.next)
    ensures r.Handled? ==> r.next.id == s.id && r.next.requestTimestamp == s.requestTimestamp
    ensures r.Handled? && r.replies != [] ==> r.replies == [Datagram(from, OK_REPLY)] && r.next == s
  {
    if |tokens| == 0 then Crashed(NoTokens)
    else if tokens[0] != REQUEST_WORD then Handled(s, [])
    else if s.requestTimestamp == 0 then Handled(s, [Datagram(from, OK_REPLY)])
    else if |tokens| < 2 then Crashed(MissingTimestamp)
    else match ParseInt(tokens[1])
      case None => Crashed(BadTimestamp)
      case Some(t) =>
        if t < s.requestTimestamp then Handled(s, [Datagram(from, OK_REPLY)])
        else if |s.pending| >= NUM_MEMBERS then WaitsForSpace
        else
          RequestOrderIsTotal();
          Handled(s.(pending := PriorityQueue.Push(RequestLe, s.pending, Request(t, from))), [])
  }

  /** One received datagram: decoded text stripped, lowered and split, then
      decided. An empty or all-whitespace datagram kills the server thread at
      `tokens[0]`. */
  function HandleDatagram(s: State, data: string, from: Addr): (r: Outcome)
    requires Valid(s)
    ensures AllSpace(data) ==> r == Crashed(NoTokens)
    ensures r.Handled? ==> Valid(r.next) && r.next.id == s.id && r.next.requestTimestamp == s.requestTimestamp
    ensures r.Handled? && r.replies != [] ==> r.replies == [Datagram(from, OK_REPLY)] && r.next == s
  {
    if AllSpace(data) then
      assert data + "" + "" == data;
      StripPadded(data, "", "");
      HandleTokens(s, Tokens(data), from)
    else
      HandleTokens(s, Tokens(data), from)
  }

  /** The request datagram another peer sends never kills the server: it is
      answered "ok" at once iff this peer does not want the lock or the
      sender's timestamp is strictly earlier; otherwise it is queued, or the
      server waits for space when the queue is full. */
  lemma PeerRequestHandled(s: State, ts: nat, from: Addr)
    requires Valid(s)
    ensures !HandleDatagram(s, RequestPayload(ts), from).Crashed?
    ensures HandleDatagram(s, RequestPayload(ts), from) == Handled(s, [Datagram(from, OK_REPLY)])
      <==> s.requestTimestamp == 0 || ts < s.requestTimestamp
    ensures HandleDatagram(s, RequestPayload(ts), from) == WaitsForSpace
      <==> s.requestTimestamp != 0 && ts >= s.requestTimestamp && |s.pending| >= NUM_MEMBERS
  {
    RequestPayloadRoundTrip(ts);
    ReplyOrDefer(s, Tokens(RequestPayload(ts)), from, ts);
  }

  /** A request with timestamp `t` gets exactly one of: an immediate "ok"
      (when this peer does not want the lock, or `t` is strictly earlier than
      its own request), or deferral of `(t, from)` with no reply; deferral
      waits when the queue is full. */
  lemma ReplyOrDefer(s: State, tokens: seq<string>, from: Addr, t: int)
    requires Valid(s)
    requires |tokens| >= 2 && tokens[0] == REQUEST_WORD && ParseInt(tokens[1]) == Some(t)
    ensures var r := HandleTokens(s, tokens, from);
      && (r == Handled(s, [Datagram(from, OK_REPLY)]) <==> s.requestTimestamp == 0 || t < s.requestTimestamp)
      && (r == WaitsForSpace <==>
            s.requestTimestamp != 0 && t >= s.requestTimestamp && |s.pending| >= NUM_MEMBERS)
      && (s.requestTimestamp != 0 && t >= s.requestTimestamp && |s.pending| < NUM_MEMBERS ==>
            && r.Handled? && r.replies == []
            && multiset(r.next.pending) == multiset(s.pending) + multiset{Request(t, from)})
  {
  }

  /** When this peer does not want the lock, even a bare `request` with no
      timestamp is answered. */
  lemma IdlePeerAlwaysReplies(s: State, tokens: seq<string>, from: Addr)
    requires Valid(s) && s.requestTimestamp == 0
    requires |tokens| >= 1 && tokens[0] == REQUEST_WORD
    ensures HandleTokens(s, tokens, from) == Handled(s, [Datagram(from, OK_REPLY)])
  {
  }

  /** The server keeps the invariant. */
  lemma HandleKeepsInv(s: State, tokens: seq<string>, from: Addr)
    requires Inv(s)
    ensures HandleTokens(s, tokens, from).Handled? ==> Inv(HandleTokens(s, tokens, from).next)
  {
    var r := HandleTokens(s, tokens, from);
    if r.Handled? && r.replies == [] && |tokens| > 0 && tokens[0] == REQUEST_WORD {
      var t := ParseInt(tokens[1]).value;
      forall q | q in r.next.pending
        ensures q.timestamp >= s.requestTimestamp
      {
        assert q in multiset(r.next.pending);
        assert q in multiset(s.pending) || q == Request(t, from);
      }
    }
  }

  // ----- The member's own lock calls -----

  /** `acquire_lock`'s sending half: record the new timestamp, then send one
      `request <ts>` to every member except itself, in id order. */
  method AcquireRequests(s: State, ts: nat) returns (next: State, sent: seq<Datagram>)
    requires s.id < NUM_MEMBERS
    requires ts > 0
    ensures next == s.(requestTimestamp := ts)
    ensures |sent| == NUM_MEMBERS - 1
    ensures forall i :: 0 <= i < |sent| ==>
      sent[i] == Datagram(Addr(LOOPBACK, Ports.MemberPort(if i < s.id then i else i + 1)), RequestPayload(ts))
    ensures forall i :: 0 <= i < |sent| ==> sent[i].to.port != Ports.MemberPort(s.id)
  {
    next := s.(requestTimestamp := ts);
    var payload := RequestPayload(ts);
    sent := [];
    var id := 0;
    while id < NUM_MEMBERS
      invariant 0 <= id <= NUM_MEMBERS
      invariant |sent| == if id <= s.id then id else id - 1
      invariant forall i :: 0 <= i < |sent| ==>
        sent[i] == Datagram(Addr(LOOPBACK, Ports.MemberPort(if i < s.id then i else i + 1)), payload)
    {
      if id != s.id {
        sent := sent + [Datagram(Addr(LOOPBACK, Ports.MemberPort(id)), payload)];
      }
      id := id + 1;
    }
  }

  /** `acquire_lock`'s waiting half: it returns only once each of the
      `NUM_MEMBERS - 1` sockets has received one reply, whatever the replies
      say, and then always returns true. */
  function AcquireResult(replies: seq<string>): (r: Option<bool>)
    requires |replies| <= NUM_MEMBERS - 1
    ensures r.Some? <==> |replies| == NUM_MEMBERS - 1
    ensures r.Some? ==> r.value
  {
    if |replies| == NUM_MEMBERS - 1 then Some(true) else None
  }

  /** `release_lock`: answer every deferred requester in queue order, then
      stop wanting the lock. */
  method Release(s: State) returns (next: State, replies: seq<Datagram>)
    ensures next == State(s.id, 0, [])
    ensures |replies| == |s.pending|
    ensures forall i :: 0 <= i < |replies| ==> replies[i] == Datagram(s.pending[i].addr, OK_REPLY)
  {
    var q := s.pending;
    replies := [];
    while |q| > 0
      invariant |replies| + |q| == |s.pending|
      invariant q == s.pending[|replies|..]
      invariant forall i :: 0 <= i < |replies| ==> replies[i] == Datagram(s.pending[i].addr, OK_REPLY)
    {
      replies := replies + [Datagram(q[0].addr, OK_REPLY)];
      q := q[1..];
    }
    next := State(s.id, 0, []);
  }

  /** With the queue ordered, the drain answers requesters in ascending
      `(timestamp, address)` order. */
  lemma ReleaseOrder(s: State, i: nat, j: nat)
    requires Valid(s)
    requires i < j < |s.pending|
    ensures RequestLe(s.pending[i], s.pending[j])
  {
  }

  lemma InitInv(id: nat)
    ensures Inv(Init(id))
  {
  }

  /** Acquiring from the idle state keeps the invariant (the queue is empty then). */
  lemma AcquireKeepsInv(s: State, ts: nat)
    requires Inv(s) && s.requestTimestamp == 0
    ensures Inv(s.(requestTimestamp := ts))
  {
  }
}
