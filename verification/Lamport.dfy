/**
 The receive side of the Lamport total-order member (assignment 1), one
 message at a time, plus the member's own broadcast step on the same clock.

 A process owns a scalar clock (a C `int` shared with its broadcaster), a
 min-heap of pending events keyed by `(clock, pid)`, a count of ACKs seen per
 event and the set of events it has itself acknowledged. Sending and
 delivering are returned as outputs of each step.
 */
module Lamport {
  import PriorityQueue
  import Ports

  const NUM_MEMBERS: nat := 3

  const MSG_TYPE_EVENT: int := 0
  const MSG_TYPE_ACK: int := 1

  // ----- The clock: a 32-bit C int -----

  const INT_MIN: int := -0x8000_0000
  const INT_MAX: int := 0x7fff_ffff
  const TWO_TO_32: int := 0x1_0000_0000

  predicate IsInt32(x: int) {
    INT_MIN <= x <= INT_MAX
  }

  /** Storing `x` into a C `int`: the unique 32-bit value congruent to `x` modulo 2^32. */
  function Wrap32(x: int): (r: int)
    ensures IsInt32(r)
    ensures (x - r) % TWO_TO_32 == 0
  {
    var k := (x - INT_MIN) / TWO_TO_32;
    assert x - INT_MIN == k * TWO_TO_32 + (x - INT_MIN) % TWO_TO_32;
    (x - INT_MIN) % TWO_TO_32 + INT_MIN
  }

  /** `clock.value += 1` on the shared C int: a 32-bit value one more than
      `c` modulo 2^32. */
  function Tick(c: int): (r: int)
    ensures IsInt32(r)
    ensures (c + 1 - r) % TWO_TO_32 == 0
  {
    Wrap32(c + 1)
  }

  /** Below the top of the 32-bit range a tick is a plain increment. */
  lemma TickIncrements(c: int)
    requires INT_MIN <= c < INT_MAX
    ensures Tick(c) == c + 1
  {
  }

  /** At the top of the range a tick wraps to the most negative value. */
  lemma TickWraps()
    ensures Tick(INT_MAX) == INT_MIN
  {
  }

  // ----- Events, messages, state -----

  /** `Event = namedtuple("Event", ["clock", "pid"])`: compared as a tuple. */
  datatype Event = Event(clock: int, pid: int)

  /** Tuple order on `(clock, pid)`: the heap order. */
  predicate EventLe(a: Event, b: Event) {
    a.clock < b.clock || (a.clock == b.clock && a.pid <= b.pid)
  }

  /** The heap key is a total order on events: total, transitive and antisymmetric. */
  lemma EventOrderIsTotal()
    ensures PriorityQueue.TotalOrder(EventLe)
    ensures forall a, b :: EventLe(a, b) && EventLe(b, a) ==> a == b
  {
  }

  /** A decoded datagram `{type, pid, clock}`. */
  datatype Message = Message(kind: int, pid: int, clock: int)

  /** One datagram sent to a port. */
  datatype Packet = Packet(port: nat, msg: Message)

  function AckMessage(e: Event): Message {
    Message(MSG_TYPE_ACK, e.pid, e.clock)
  }

  /** The loop `for port in PORTS: sendto(data, port)`. */
  function SendToAll(m: Message): seq<Packet> {
    seq(NUM_MEMBERS, i requires 0 <= i < NUM_MEMBERS => Packet(Ports.MemberPort(i), m))
  }

  /** `sent` is one copy of `m` to every member's port, the sender's own included, in port order. */
  predicate SentToAll(sent: seq<Packet>, m: Message) {
    && |sent| == NUM_MEMBERS
    && forall i :: 0 <= i < |sent| ==> sent[i] == Packet(Ports.MemberPort(i), m)
  }

  /** `acks` is a `defaultdict(int)` and `acknowledged` a `defaultdict(bool)`;
      the model keeps the events marked `True` as a set. */
  datatype State = State(
    clock: int,
    queue: seq<Event>,
    acks: map<Event, int>,
    acknowledged: set<Event>)

  function AckCount(s: State, e: Event): int {
    if e in s.acks then s.acks[e] else 0
  }

  /** The result of handling one input: the new state, the datagrams sent and the events delivered. */
  datatype Step = Step(next: State, sent: seq<Packet>, delivered: seq<Event>)

  function Init(): State {
    State(0, [], map[], {})
  }

  /** The heap is well formed. */
  predicate Valid(s: State) {
    PriorityQueue.Sorted(EventLe, s.queue)
  }

  /** Every queued event has already been acknowledged by this process. */
  predicate Inv(s: State) {
    && Valid(s)
    && forall e :: e in s.queue ==> e in s.acknowledged
  }

  // ----- Steps -----

  /** `acknowledge(event)`: one tick, one ACK to every port, and the event marked acknowledged. */
  function Acknowledge(s: State, e: Event): (r: Step)
    ensures r.next.clock == Tick(s.clock)
    ensures r.next.acknowledged == s.acknowledged + {e}
    ensures r.next.queue == s.queue && r.next.acks == s.acks
    ensures SentToAll(r.sent, AckMessage(e))
    ensures r.delivered == []
  {
    Step(s.(clock := Tick(s.clock), acknowledged := s.acknowledged + {e}), SendToAll(AckMessage(e)), [])
  }

  /** The EVENT branch of the receive loop. */
  function EventStep(s: State, e: Event): (r: Step)
    requires Valid(s)
    ensures Valid(r.next)
    ensures multiset(r.next.queue) == multiset(s.queue) + multiset{e}
    ensures AckCount(r.next, e) == 0
    ensures forall f :: f != e ==> AckCount(r.next, f) == AckCount(s, f)
    ensures r.next.clock == if e in s.acknowledged then Tick(s.clock) else Tick(Tick(s.clock))
    ensures r.next.acknowledged == s.acknowledged + {e}
    ensures e in s.acknowledged ==> r.sent == []
    ensures e !in s.acknowledged ==> SentToAll(r.sent, AckMessage(e))
    ensures r.delivered == []
  {
    EventOrderIsTotal();
    var s1 := s.(
      clock := Tick(s.clock),
      queue := PriorityQueue.Push(EventLe, s.queue, e),
      acks := s.acks[e := 0]);
    if e in s1.acknowledged then Step(s1, [], []) else Acknowledge(s1, e)
  }

  /** The ACK branch of the receive loop. The fallback acknowledges the event
      the ACK refers to, not the heap's head. */
  function AckStep(s: State, e: Event): (r: Step)
    requires Valid(s)
    ensures Valid(r.next)
    ensures AckCount(r.next, e) == AckCount(s, e) + 1
    ensures forall f :: f != e ==> AckCount(r.next, f) == AckCount(s, f)
    ensures |r.delivered| <= 1
    ensures r.delivered != [] <==> |s.queue| > 0 && AckCount(r.next, s.queue[0]) >= NUM_MEMBERS
    ensures r.delivered != [] ==>
      && r.delivered[0] == s.queue[0]
      && (forall y :: y in s.queue ==> EventLe(r.delivered[0], y))
      && multiset(s.queue) == multiset(r.next.queue) + multiset{r.delivered[0]}
    ensures r.delivered == [] ==> r.next.queue == s.queue
    ensures r.sent != [] <==>
      |s.queue| > 0 && AckCount(r.next, s.queue[0]) < NUM_MEMBERS && s.queue[0] !in s.acknowledged
    ensures r.sent != [] ==>
      && SentToAll(r.sent, AckMessage(e))
      && r.next.clock == Tick(s.clock)
      && r.next.acknowledged == s.acknowledged + {e}
    ensures r.sent == [] ==> r.next.clock == s.clock && r.next.acknowledged == s.acknowledged
  {
    var s1 := s.(acks := s.acks[e := AckCount(s, e) + 1]);
    if |s1.queue| == 0 then
      Step(s1, [], [])
    else if AckCount(s1, s1.queue[0]) >= NUM_MEMBERS then
      EventOrderIsTotal();
      PriorityQueue.HeadIsLeast(EventLe, s1.queue);
      PriorityQueue.PopTail(EventLe, s1.queue);
      Step(s1.(queue := s1.queue[1..]), [], [s1.queue[0]])
    else if s1.queue[0] !in s1.acknowledged then
      Acknowledge(s1, e)
    else
      Step(s1, [], [])
  }

  /** One iteration of `CommunicationThread.run`: dispatch on the message type;
      a message of any other type changes nothing. */
  function Receive(s: State, m: Message): (r: Step)
    requires Valid(s)
    ensures Valid(r.next)
    ensures m.kind != MSG_TYPE_EVENT && m.kind != MSG_TYPE_ACK ==> r == Step(s, [], [])
  {
    var e := Event(m.clock, m.pid);
    if m.kind == MSG_TYPE_ACK then AckStep(s, e)
    else if m.kind == MSG_TYPE_EVENT then EventStep(s, e)
    else Step(s, [], [])
  }

  /** `MemberProcess.broadcast_event`: one tick, and the new clock value sent
      as an EVENT to every port. Nothing but the clock changes. */
  function Broadcast(s: State, id: nat): (r: Step)
    ensures r.next == s.(clock := Tick(s.clock))
    ensures SentToAll(r.sent, Message(MSG_TYPE_EVENT, id, r.next.clock))
    ensures r.delivered == []
  {
    var c := Tick(s.clock);
    Step(s.(clock := c), SendToAll(Message(MSG_TYPE_EVENT, id, c)), [])
  }

  // ----- Properties across steps -----

  /** Away from the 32-bit boundary, an EVENT raises the clock by one, and by
      one more exactly when the event had not been acknowledged yet; the
      message's own clock value does not enter. */
  lemma EventStepClock(s: State, e: Event)
    requires Valid(s)
    requires INT_MIN <= s.clock < INT_MAX - 1
    ensures EventStep(s, e).next.clock == s.clock + (if e in s.acknowledged then 1 else 2)
  {
    TickIncrements(s.clock);
    TickIncrements(s.clock + 1);
  }

  /** Away from the 32-bit boundary a broadcast raises the clock by exactly one
      and the EVENT carries the new value. */
  lemma BroadcastClock(s: State, id: nat)
    requires INT_MIN <= s.clock < INT_MAX
    ensures Broadcast(s, id).next.clock == s.clock + 1
    ensures forall p :: p in Broadcast(s, id).sent ==> p.msg.clock == s.clock + 1
  {
    TickIncrements(s.clock);
  }

  lemma InitInv()
    ensures Inv(Init())
  {
  }

  lemma EventStepKeepsInv(s: State, e: Event)
    requires Inv(s)
    ensures Inv(EventStep(s, e).next)
  {
    var r := EventStep(s, e);
    forall y | y in r.next.queue
      ensures y in r.next.acknowledged
    {
      assert y in multiset(r.next.queue);
      assert y in multiset(s.queue) || y == e;
    }
  }

  lemma AckStepKeepsInv(s: State, e: Event)
    requires Inv(s)
    ensures Inv(AckStep(s, e).next)
  {
    var r := AckStep(s, e);
    forall y | y in r.next.queue
      ensures y in r.next.acknowledged
    {
      if r.delivered != [] {
        assert y in multiset(r.next.queue);
        assert y in multiset(s.queue);
      }
    }
  }

  /** Every receive step and every broadcast keeps every queued event acknowledged. */
  lemma ReceiveKeepsInv(s: State, m: Message)
    requires Inv(s)
    ensures Inv(Receive(s, m).next)
  {
    var e := Event(m.clock, m.pid);
    if m.kind == MSG_TYPE_ACK {
      AckStepKeepsInv(s, e);
    } else if m.kind == MSG_TYPE_EVENT {
      EventStepKeepsInv(s, e);
    }
  }

  lemma BroadcastKeepsInv(s: State, id: nat)
    requires Inv(s)
    ensures Inv(Broadcast(s, id).next)
  {
  }

  /** Under the invariant the ACK branch's fallback never fires: an ACK sends
      nothing and leaves the clock alone. */
  lemma AckFallbackNeverFires(s: State, e: Event)
    requires Inv(s)
    ensures AckStep(s, e).sent == []
    ensures AckStep(s, e).next.clock == s.clock
  {
    if |s.queue| > 0 {
      assert s.queue[0] in s.queue;
    }
  }

  /** Outside the invariant, the fallback acknowledges the ACK's own event,
      not the unacknowledged head: with head `(1, 0)` unacknowledged, an ACK
      for `(5, 2)` sends ACKs for `(5, 2)`. */
  lemma AckFallbackTargetsAckedEvent()
    ensures
      var s := State(0, [Event(1, 0)], map[], {});
      var r := AckStep(s, Event(5, 2));
      && |r.sent| == NUM_MEMBERS
      && r.sent[0].msg == AckMessage(Event(5, 2))
      && Event(1, 0) !in r.next.acknowledged
  {
    var s := State(0, [Event(1, 0)], map[], {});
    var r := AckStep(s, Event(5, 2));
    assert AckCount(r.next, Event(1, 0)) == 0;
  }

  /** An EVENT already in the queue is queued again (no duplicate check), and
      its ACK count starts again from zero. */
  lemma DuplicateEventRequeued(s: State, e: Event)
    requires Valid(s)
    requires e in s.queue
    ensures multiset(EventStep(s, e).next.queue)[e] == multiset(s.queue)[e] + 1
    ensures AckCount(EventStep(s, e).next, e) == 0
  {
  }
}
