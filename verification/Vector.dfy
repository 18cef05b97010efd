/**
 The receive side of the vector-clock causal member (assignment 2), one
 message at a time, and the member's broadcast step on the same vector.

 A process `id` owns a vector `v` of `NUM_MEMBERS` counters (shared with its
 broadcaster) and a FIFO list of pending messages. On each receipt the new
 message is appended, the whole list is scanned ONCE against the vector as it
 was before the receipt, the ready entries are delivered in list order and
 removed, and only then is `v` merged with the new message's vector.
 */
module Vector {
  import Ports

  const NUM_MEMBERS: nat := 3

  /** A decoded datagram `{pid, clock}`. */
  datatype Message = Message(pid: int, clock: seq<int>)

  /** One datagram sent to a port. */
  datatype Packet = Packet(port: nat, msg: Message)

  datatype State = State(id: nat, v: seq<int>, pending: seq<Message>)

  /** A message from a member, carrying at least one counter per member. The
      receiver reads only slots `0..NUM_MEMBERS-1`, so a longer vector is
      processed like its first `NUM_MEMBERS` slots. */
  predicate WellFormed(m: Message) {
    0 <= m.pid < NUM_MEMBERS && |m.clock| >= NUM_MEMBERS
  }

  predicate AllWellFormed(q: seq<Message>) {
    forall i :: 0 <= i < |q| ==> WellFormed(q[i])
  }

  predicate Valid(s: State) {
    s.id < NUM_MEMBERS && |s.v| == NUM_MEMBERS && AllWellFormed(s.pending)
  }

  function Init(id: nat): State
    requires id < NUM_MEMBERS
  {
    State(id, seq(NUM_MEMBERS, _ => 0), [])
  }

  // ----- The delivery test -----

  /** The test as implemented: a message is ready if it is the process's own,
      or if it is the next one expected from its sender. The inner loop over
      `k` in the source only executes `continue` and does not affect the
      outcome, so nothing is required of the other slots. (The bounds guard
      only makes the test total; it holds of every well-formed message.) */
  predicate Ready(id: nat, v: seq<int>, m: Message): (r: bool)
    ensures m.pid == id ==> r
    ensures WellFormed(m) && |v| == NUM_MEMBERS && m.pid != id ==>
      (r <==> m.clock[m.pid] == v[m.pid] + 1)
  {
    || m.pid == id
    || (0 <= m.pid < |m.clock| && m.pid < |v| && m.clock[m.pid] == v[m.pid] + 1)
  }

  /** The standard causal-delivery condition: next from its sender, and the
      sender had seen nothing this process has not. */
  predicate CausallyReady(v: seq<int>, m: Message)
    requires |v| == NUM_MEMBERS && WellFormed(m)
  {
    && m.clock[m.pid] == v[m.pid] + 1
    && forall k :: 0 <= k < NUM_MEMBERS && k != m.pid ==> m.clock[k] <= v[k]
  }

  /** The implemented test admits every causally ready message. */
  lemma CausallyReadyIsReady(id: nat, v: seq<int>, m: Message)
    requires |v| == NUM_MEMBERS && WellFormed(m)
    ensures CausallyReady(v, m) ==> Ready(id, v, m)
  {
  }

  /** ... but is strictly looser: process 2 with `v = [0,0,0]` finds a message
      from member 1 stamped `[5,1,0]` ready although it depends on five events
      of member 0 not yet seen; and its own messages are always ready. */
  lemma ReadyIsLooser()
    ensures Ready(2, [0, 0, 0], Message(1, [5, 1, 0]))
    ensures !CausallyReady([0, 0, 0], Message(1, [5, 1, 0]))
    ensures Ready(2, [0, 0, 0], Message(2, [7, 7, 7]))
    ensures !CausallyReady([0, 0, 0], Message(2, [7, 7, 7]))
  {
    assert Message(1, [5, 1, 0]).clock[0] > [0, 0, 0][0];
  }

  /** The entries of `q` that pass the test, in list order. */
  function Deliverable(id: nat, v: seq<int>, q: seq<Message>): seq<Message>
    decreases |q|
  {
    if |q| == 0 then []
    else
      var last := q[|q| - 1];
      Deliverable(id, v, q[..|q| - 1]) + (if Ready(id, v, last) then [last] else [])
  }

  /** The entries of `q` that fail the test, in list order. */
  function Blocked(id: nat, v: seq<int>, q: seq<Message>): seq<Message>
    decreases |q|
  {
    if |q| == 0 then []
    else
      var last := q[|q| - 1];
      Blocked(id, v, q[..|q| - 1]) + (if Ready(id, v, last) then [] else [last])
  }

  /** Component-wise maximum of two vectors. */
  function Merge(v: seq<int>, c: seq<int>): seq<int>
    requires |v| == NUM_MEMBERS && |c| >= NUM_MEMBERS
  {
    seq(NUM_MEMBERS, k requires 0 <= k < NUM_MEMBERS => if v[k] >= c[k] then v[k] else c[k])
  }

  /** `a` is at least `b` in every slot. */
  predicate Dominates(a: seq<int>, b: seq<int>)
    requires |a| >= NUM_MEMBERS && |b| >= NUM_MEMBERS
  {
    forall k :: 0 <= k < NUM_MEMBERS ==> a[k] >= b[k]
  }

  // ----- Steps -----

  /** One iteration of `CommunicationThread.run`: append, one scan against the
      unmodified vector, removal of the ready entries, then the merge. */
  method Receive(s: State, msg: Message) returns (next: State, delivered: seq<Message>)
    requires Valid(s) && WellFormed(msg)
    ensures Valid(next)
    ensures next.id == s.id
    ensures delivered == Deliverable(s.id, s.v, s.pending + [msg])
    ensures next.pending == Blocked(s.id, s.v, s.pending + [msg])
    ensures next.v == Merge(s.v, msg.clock)
    ensures Dominates(next.v, s.v) && Dominates(next.v, msg.clock)
    ensures multiset(delivered) + multiset(next.pending) == multiset(s.pending) + multiset{msg}
    ensures Reachable(s) ==> Reachable(next)
    ensures Reachable(s) ==> delivered == (if Ready(s.id, s.v, msg) then [msg] else [])
  {
    if Reachable(s) {
      ReceiveKeepsReachable(s, msg);
      OnlyNewMessageDelivered(s, msg);
    }
    var q := s.pending + [msg];
    var ready;
    ready, delivered := Scan(s.id, s.v, q);
    var rest := RemoveReady(s.id, s.v, q, ready);
    var v := MergeInto(s.v, msg.clock);
    BlockedWellFormed(s.id, s.v, q);
    Conservation(s.id, s.v, q);
    MergeIsLeastUpperBound(s.v, msg.clock, s.v);
    next := State(s.id, v, rest);
  }

  /** The scan loop: every entry is tested against the same vector `v`; the
      indices of the ready ones are recorded in ascending order and those
      entries are delivered in list order. */
  method Scan(id: nat, v: seq<int>, q: seq<Message>) returns (ready: seq<nat>, delivered: seq<Message>)
    ensures delivered == Deliverable(id, v, q)
    ensures forall j :: 0 <= j < |ready| ==> ready[j] < |q| && Ready(id, v, q[ready[j]])
    ensures forall j, k :: 0 <= j < k < |ready| ==> ready[j] < ready[k]
    ensures forall k :: 0 <= k < |q| && Ready(id, v, q[k]) ==> k in ready
  {
    ready := [];
    delivered := [];
    var i := 0;
    while i < |q|
      invariant 0 <= i <= |q|
      invariant delivered == Deliverable(id, v, q[..i])
      invariant forall j :: 0 <= j < |ready| ==> ready[j] < i && Ready(id, v, q[ready[j]])
      invariant forall j, k :: 0 <= j < k < |ready| ==> ready[j] < ready[k]
      invariant forall k :: 0 <= k < i && Ready(id, v, q[k]) ==> k in ready
    {
      assert q[..i + 1][..i] == q[..i];
      if Ready(id, v, q[i]) {
        ready := ready + [i];
        delivered := delivered + [q[i]];
      }
      i := i + 1;
    }
    assert q[..|q|] == q;
  }

  /** `for i in ready_indices[::-1]: queue.pop(i)`: popping the recorded
      indices from the highest down leaves exactly the entries that failed
      the test, in their original order. */
  method RemoveReady(id: nat, v: seq<int>, q: seq<Message>, ready: seq<nat>) returns (rest: seq<Message>)
    requires forall j :: 0 <= j < |ready| ==> ready[j] < |q| && Ready(id, v, q[ready[j]])
    requires forall j, k :: 0 <= j < k < |ready| ==> ready[j] < ready[k]
    requires forall k :: 0 <= k < |q| && Ready(id, v, q[k]) ==> k in ready
    ensures rest == Blocked(id, v, q)
  {
    rest := q;
    var j := |ready|;
    while j > 0
      invariant 0 <= j <= |ready|
      invariant Cut(ready, j, |q|) <= |q|
      invariant rest == q[..Cut(ready, j, |q|)] + Blocked(id, v, q[Cut(ready, j, |q|)..])
    {
      PopOne(id, v, q, ready, j);
      rest := rest[..ready[j - 1]] + rest[ready[j - 1] + 1..];
      j := j - 1;
    }
    PopNone(id, v, q, ready);
  }

  /** One pop of the loop: removing the `j-1`-th recorded index moves the cut
      down to it. */
  lemma PopOne(id: nat, v: seq<int>, q: seq<Message>, ready: seq<nat>, j: nat)
    requires forall j :: 0 <= j < |ready| ==> ready[j] < |q| && Ready(id, v, q[ready[j]])
    requires forall j, k :: 0 <= j < k < |ready| ==> ready[j] < ready[k]
    requires forall k :: 0 <= k < |q| && Ready(id, v, q[k]) ==> k in ready
    requires 0 < j <= |ready|
    ensures ready[j - 1] < Cut(ready, j, |q|) <= |q|
    ensures var p := Cut(ready, j, |q|);
      var rest := q[..p] + Blocked(id, v, q[p..]);
      rest[..ready[j - 1]] + rest[ready[j - 1] + 1..]
        == q[..Cut(ready, j - 1, |q|)] + Blocked(id, v, q[Cut(ready, j - 1, |q|)..])
  {
    var p := Cut(ready, j, |q|);
    var p' := ready[j - 1];
    GapNotRecorded(ready, j, |q|);
    UnrecordedNotReady(id, v, q, ready, p' + 1, p);
    BlockedDrop(id, v, q, p', p);
  }

  /** After the last pop, everything before the first recorded index is blocked. */
  lemma PopNone(id: nat, v: seq<int>, q: seq<Message>, ready: seq<nat>)
    requires forall j :: 0 <= j < |ready| ==> ready[j] < |q|
    requires forall j, k :: 0 <= j < k < |ready| ==> ready[j] < ready[k]
    requires forall k :: 0 <= k < |q| && Ready(id, v, q[k]) ==> k in ready
    ensures Cut(ready, 0, |q|) <= |q|
    ensures q[..Cut(ready, 0, |q|)] + Blocked(id, v, q[Cut(ready, 0, |q|)..]) == Blocked(id, v, q)
  {
    var p := Cut(ready, 0, |q|);
    GapNotRecorded(ready, 0, |q|);
    UnrecordedNotReady(id, v, q, ready, 0, p);
    BlockedNoneReady(id, v, q[..p]);
    BlockedAppend(id, v, q[..p], q[p..]);
    assert q[..p] + q[p..] == q;
  }

  /** When every ready entry was recorded, an index range holding no recorded
      index holds no ready entry. */
  lemma UnrecordedNotReady(id: nat, v: seq<int>, q: seq<Message>, ready: seq<nat>, lo: nat, hi: nat)
    requires hi <= |q|
    requires forall k :: 0 <= k < |q| && Ready(id, v, q[k]) ==> k in ready
    requires forall k :: lo <= k < hi ==> k !in ready
    ensures forall k :: lo <= k < hi ==> !Ready(id, v, q[k])
  {
  }

  /** The start of the not-yet-removed suffix while popping `ready` from the back. */
  function Cut(ready: seq<nat>, j: nat, n: nat): nat
    requires j <= |ready|
  {
    if j == |ready| then n else ready[j]
  }

  /** In a strictly increasing index list, no recorded index lies strictly
      between the `j-1`-th entry (or the start) and the `j`-th (or the end). */
  lemma GapNotRecorded(ready: seq<nat>, j: nat, n: nat)
    requires j <= |ready|
    requires forall i :: 0 <= i < |ready| ==> ready[i] < n
    requires forall i, k :: 0 <= i < k < |ready| ==> ready[i] < ready[k]
    ensures j > 0 ==> ready[j - 1] < Cut(ready, j, n)
    ensures forall k :: (if j == 0 then 0 else ready[j - 1] + 1) <= k < Cut(ready, j, n) ==> k !in ready
  {
    forall k | (if j == 0 then 0 else ready[j - 1] + 1) <= k < Cut(ready, j, n)
      ensures k !in ready
    {
      forall i | 0 <= i < |ready|
        ensures ready[i] != k
      {
        if i >= j {
          assert ready[i] >= Cut(ready, j, n);
        }
      }
    }
  }

  /** `for id in range(NUM_MEMBERS): clock[id] = max(clock[id], msg["clock"][id])`. */
  method MergeInto(v0: seq<int>, c: seq<int>) returns (v: seq<int>)
    requires |v0| == NUM_MEMBERS && |c| >= NUM_MEMBERS
    ensures |v| == NUM_MEMBERS
    ensures forall k :: 0 <= k < NUM_MEMBERS ==> v[k] == (if v0[k] >= c[k] then v0[k] else c[k])
  {
    v := v0;
    var k := 0;
    while k < NUM_MEMBERS
      invariant 0 <= k <= NUM_MEMBERS
      invariant |v| == NUM_MEMBERS
      invariant forall t :: 0 <= t < k ==> v[t] == (if v0[t] >= c[t] then v0[t] else c[t])
      invariant forall t :: k <= t < NUM_MEMBERS ==> v[t] == v0[t]
    {
      v := v[k := if v[k] >= c[k] then v[k] else c[k]];
      k := k + 1;
    }
  }

  /** `broadcast_event`: bump the owner's slot, then send the whole vector to every port. */
  function Broadcast(s: State): (r: (State, seq<Packet>))
    requires Valid(s)
    ensures Valid(r.0)
    ensures r.0.id == s.id && r.0.pending == s.pending
    ensures r.0.v[s.id] == s.v[s.id] + 1
    ensures forall k :: 0 <= k < NUM_MEMBERS && k != s.id ==> r.0.v[k] == s.v[k]
    ensures |r.1| == NUM_MEMBERS
    ensures forall i :: 0 <= i < NUM_MEMBERS ==> r.1[i] == Packet(Ports.MemberPort(i), Message(s.id, r.0.v))
  {
    var v := s.v[s.id := s.v[s.id] + 1];
    var m := Message(s.id, v);
    (s.(v := v), seq(NUM_MEMBERS, i requires 0 <= i < NUM_MEMBERS => Packet(Ports.MemberPort(i), m)))
  }

  // ----- Lemmas about the filters -----

  lemma {:induction false} BlockedWellFormed(id: nat, v: seq<int>, q: seq<Message>)
    requires |v| == NUM_MEMBERS && AllWellFormed(q)
    ensures AllWellFormed(Blocked(id, v, q))
    decreases |q|
  {
    if |q| > 0 {
      BlockedWellFormed(id, v, q[..|q| - 1]);
    }
  }

  lemma {:induction false} BlockedAppend(id: nat, v: seq<int>, a: seq<Message>, b: seq<Message>)
    ensures Blocked(id, v, a + b) == Blocked(id, v, a) + Blocked(id, v, b)
    decreases |b|
  {
    if |b| == 0 {
      assert a + b == a;
    } else {
      assert (a + b)[..|a + b| - 1] == a + b[..|b| - 1];
      BlockedAppend(id, v, a, b[..|b| - 1]);
    }
  }

  lemma {:induction false} BlockedNoneReady(id: nat, v: seq<int>, q: seq<Message>)
    requires forall k :: 0 <= k < |q| ==> !Ready(id, v, q[k])
    ensures Blocked(id, v, q) == q
    decreases |q|
  {
    if |q| > 0 {
      var init := q[..|q| - 1];
      assert forall k :: 0 <= k < |init| ==> init[k] == q[k];
      BlockedNoneReady(id, v, init);
      assert !Ready(id, v, q[|q| - 1]);
    }
  }

  /** A ready entry followed by a run of blocked ones contributes only the run. */
  lemma BlockedAfterReady(id: nat, v: seq<int>, x: Message, mid: seq<Message>, tail: seq<Message>)
    requires Ready(id, v, x)
    requires forall k :: 0 <= k < |mid| ==> !Ready(id, v, mid[k])
    ensures Blocked(id, v, [x] + mid + tail) == mid + Blocked(id, v, tail)
  {
    assert Blocked(id, v, [x]) == [] by {
      assert [x][..0] == [];
    }
    BlockedNoneReady(id, v, mid);
    BlockedAppend(id, v, [x], mid);
    BlockedAppend(id, v, [x] + mid, tail);
  }

  /** Removing the ready entry at `p'` from `q[..p] + Blocked(q[p..])`, when no
      entry strictly between `p'` and `p` is ready, leaves `q[..p'] + Blocked(q[p'..])`. */
  lemma BlockedDrop(id: nat, v: seq<int>, q: seq<Message>, p': nat, p: nat)
    requires p' < p <= |q|
    requires Ready(id, v, q[p'])
    requires forall k :: p' < k < p ==> !Ready(id, v, q[k])
    ensures var rest := q[..p] + Blocked(id, v, q[p..]);
      rest[..p'] + rest[p' + 1..] == q[..p'] + Blocked(id, v, q[p'..])
  {
    var tail := Blocked(id, v, q[p..]);
    var rest := q[..p] + tail;
    var mid := q[p' + 1..p];
    assert rest[..p'] == q[..p'];
    assert rest[p' + 1..] == mid + tail;
    assert q[p'..] == [q[p']] + mid + q[p..];
    BlockedAfterReady(id, v, q[p'], mid, q[p..]);
  }

  // ----- Properties of one receive step -----

  /** Membership: an entry is delivered exactly when it is in the list and
      passes the test, and stays pending exactly when it is in the list and fails it. */
  lemma {:induction false} FilterMembership(id: nat, v: seq<int>, q: seq<Message>, m: Message)
    ensures m in Deliverable(id, v, q) <==> m in q && Ready(id, v, m)
    ensures m in Blocked(id, v, q) <==> m in q && !Ready(id, v, m)
    decreases |q|
  {
    if |q| > 0 {
      FilterMembership(id, v, q[..|q| - 1], m);
      assert q == q[..|q| - 1] + [q[|q| - 1]];
    }
  }

  /** Conservation: the delivered entries and the remaining ones together are
      exactly the old list plus the new message; nothing is lost or duplicated. */
  lemma {:induction false} Conservation(id: nat, v: seq<int>, q: seq<Message>)
    ensures multiset(Deliverable(id, v, q)) + multiset(Blocked(id, v, q)) == multiset(q)
    ensures |Deliverable(id, v, q)| + |Blocked(id, v, q)| == |q|
    decreases |q|
  {
    if |q| > 0 {
      var init, last := q[..|q| - 1], q[|q| - 1];
      Conservation(id, v, init);
      assert q == init + [last];
      assert multiset(q) == multiset(init) + multiset{last};
      if Ready(id, v, last) {
        assert Deliverable(id, v, q) == Deliverable(id, v, init) + [last];
        assert Blocked(id, v, q) == Blocked(id, v, init);
      } else {
        assert Deliverable(id, v, q) == Deliverable(id, v, init);
        assert Blocked(id, v, q) == Blocked(id, v, init) + [last];
      }
    }
  }

  /** The merge is the least upper bound of the two vectors: it dominates
      both, and anything that dominates both dominates it. */
  lemma MergeIsLeastUpperBound(v: seq<int>, c: seq<int>, w: seq<int>)
    requires |v| == NUM_MEMBERS && |c| >= NUM_MEMBERS && |w| >= NUM_MEMBERS
    ensures Dominates(Merge(v, c), v) && Dominates(Merge(v, c), c)
    ensures Dominates(w, v) && Dominates(w, c) ==> Dominates(w, Merge(v, c))
  {
  }

  /** Merging a vector the process already dominates changes nothing, so
      merging twice is the same as merging once. */
  lemma MergeIdempotent(v: seq<int>, c: seq<int>)
    requires |v| == NUM_MEMBERS && |c| >= NUM_MEMBERS
    ensures Dominates(v, c) ==> Merge(v, c) == v
    ensures Merge(Merge(v, c), c) == Merge(v, c)
  {
  }

  // ----- Reachable states -----

  /** What every state the program reaches satisfies: no pending entry is the
      process's own (those pass the test at once), and the vector has already
      absorbed every pending entry's vector (the merge runs on every receipt
      and the vector only grows). */
  predicate Reachable(s: State) {
    && Valid(s)
    && forall i :: 0 <= i < |s.pending| ==>
         s.pending[i].pid != s.id && Dominates(s.v, s.pending[i].clock)
  }

  lemma InitReachable(id: nat)
    requires id < NUM_MEMBERS
    ensures Reachable(Init(id))
  {
  }

  /** A broadcast keeps the state reachable: it only raises the owner's slot. */
  lemma BroadcastKeepsReachable(s: State)
    requires Reachable(s)
    ensures Reachable(Broadcast(s).0)
  {
    var s' := Broadcast(s).0;
    forall i | 0 <= i < |s'.pending|
      ensures s'.pending[i].pid != s'.id && Dominates(s'.v, s'.pending[i].clock)
    {
      assert s'.pending[i] == s.pending[i];
      assert Dominates(s.v, s.pending[i].clock);
    }
  }

  /** In a reachable state no pending entry passes the test: its sender's slot
      is at most the local slot, never one more. */
  lemma PendingNeverReady(s: State)
    requires Reachable(s)
    ensures forall i :: 0 <= i < |s.pending| ==> !Ready(s.id, s.v, s.pending[i])
  {
    forall i | 0 <= i < |s.pending|
      ensures !Ready(s.id, s.v, s.pending[i])
    {
      var m := s.pending[i];
      assert WellFormed(m);
      assert Dominates(s.v, m.clock);
      assert m.clock[m.pid] <= s.v[m.pid];
    }
  }

  lemma {:induction false} DeliverableNoneReady(id: nat, v: seq<int>, q: seq<Message>)
    requires forall k :: 0 <= k < |q| ==> !Ready(id, v, q[k])
    ensures Deliverable(id, v, q) == []
    decreases |q|
  {
    if |q| > 0 {
      var init := q[..|q| - 1];
      assert forall k :: 0 <= k < |init| ==> init[k] == q[k];
      DeliverableNoneReady(id, v, init);
      assert !Ready(id, v, q[|q| - 1]);
    }
  }

  /** In a reachable state a receive delivers at most the message just
      received, and every entry that was pending stays pending. */
  lemma OnlyNewMessageDelivered(s: State, msg: Message)
    requires Reachable(s)
    ensures Deliverable(s.id, s.v, s.pending + [msg]) == (if Ready(s.id, s.v, msg) then [msg] else [])
    ensures Blocked(s.id, s.v, s.pending + [msg]) == s.pending + (if Ready(s.id, s.v, msg) then [] else [msg])
  {
    PendingNeverReady(s);
    var q := s.pending + [msg];
    assert q[..|q| - 1] == s.pending;
    DeliverableNoneReady(s.id, s.v, s.pending);
    BlockedNoneReady(s.id, s.v, s.pending);
  }

  /** A receive keeps the state reachable: the entries left pending are not
      the process's own, and the merged vector dominates all of them. */
  lemma ReceiveKeepsReachable(s: State, msg: Message)
    requires Reachable(s) && WellFormed(msg)
    ensures Reachable(State(s.id, Merge(s.v, msg.clock), Blocked(s.id, s.v, s.pending + [msg])))
  {
    OnlyNewMessageDelivered(s, msg);
    var v' := Merge(s.v, msg.clock);
    var p' := Blocked(s.id, s.v, s.pending + [msg]);
    MergeIsLeastUpperBound(s.v, msg.clock, s.v);
    forall i | 0 <= i < |p'|
      ensures WellFormed(p'[i]) && p'[i].pid != s.id && Dominates(v', p'[i].clock)
    {
      if i < |s.pending| {
        assert p'[i] == s.pending[i];
        assert WellFormed(s.pending[i]);
        assert Dominates(s.v, s.pending[i].clock);
      } else {
        assert p'[i] == msg;
      }
    }
  }

  /** An entry left pending is never delivered: at every later receipt of a
      different message it stays pending. */
  lemma PendingStaysPending(s: State, m: Message, msg: Message)
    requires Reachable(s)
    requires m in s.pending && m != msg
    ensures m !in Deliverable(s.id, s.v, s.pending + [msg])
    ensures m in Blocked(s.id, s.v, s.pending + [msg])
  {
    OnlyNewMessageDelivered(s, msg);
  }

  /** A message that arrives early is never delivered, and it takes its
      predecessors with it. Process 2 starts from `[0,0,0]` and receives
      member 0's second event `[2,0,0]` first: it fails the test and is kept,
      and the merge raises slot 0 to 2. Member 0's first event `[1,0,0]` then
      arrives and fails the test against `[2,0,0]` as well, so both stay
      pending and nothing is delivered. */
  lemma EarlyMessageStuck()
    ensures Init(2) == State(2, [0, 0, 0], [])
    ensures Deliverable(2, [0, 0, 0], [Message(0, [2, 0, 0])]) == []
    ensures Blocked(2, [0, 0, 0], [Message(0, [2, 0, 0])]) == [Message(0, [2, 0, 0])]
    ensures Merge([0, 0, 0], [2, 0, 0]) == [2, 0, 0]
    ensures Deliverable(2, [2, 0, 0], [Message(0, [2, 0, 0]), Message(0, [1, 0, 0])]) == []
    ensures Blocked(2, [2, 0, 0], [Message(0, [2, 0, 0]), Message(0, [1, 0, 0])])
      == [Message(0, [2, 0, 0]), Message(0, [1, 0, 0])]
  {
    var m1 := Message(0, [1, 0, 0]);
    var m2 := Message(0, [2, 0, 0]);
    assert !Ready(2, [0, 0, 0], m2);
    assert [m2][..0] == [];
    assert !Ready(2, [2, 0, 0], m1);
    assert !Ready(2, [2, 0, 0], m2);
    assert [m2, m1][..1] == [m2];
    assert Deliverable(2, [2, 0, 0], [m2]) == [];
    assert Blocked(2, [2, 0, 0], [m2]) == [m2];
  }
}
