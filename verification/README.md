# Message handlers of the ordered-multicast and distributed-lock programs, in Dafny

This project models the per-process message handlers of four small Python
programs. Each handler is a deterministic step that takes a state and one input
and returns a new state plus its outputs: the datagrams sent and the events
delivered. Sockets, threads and timing stay outside these steps.

- **Lamport total order** (`assignment-1/lamport.py`, module `Lamport`).
  The state is a scalar clock, a min-heap of `Event(clock, pid)`, ACK counts and
  the set of events this process has acknowledged. The inputs are the EVENT
  step, the ACK step and the member's own broadcast. The clock is the C `int`
  behind `mp.Value("i")`, so it wraps at 2^31 (`Wrap32`, `Tick`).
- **Vector-clock causal order** (`assignment-2/vector.py`, module `Vector`).
  The state is the vector `V` and a FIFO pending list. A receive appends the
  message and scans the list once against the old `V`. It delivers and removes
  the ready entries, then merges `V` with the message's vector. A broadcast
  bumps the owner's slot.
- **Ricart–Agrawala-style peer** (`assignment-3/distributed.py`, module
  `Distributed`). It covers:
  - the server's reply-or-defer decision on a parsed datagram;
  - the bounded `PriorityQueue` of deferred `(timestamp, address)` requests;
  - the release drain;
  - the request fan-out and reply count of `acquire_lock`.
- **Central FIFO coordinator** (`assignment-3/central.py`, module `Central`).
  Its state is a queue of connections whose head holds the lock. The module
  also models the member's check of the coordinator's reply.

Shared modules:
- `PriorityQueue` models `heapq` and `queue.PriorityQueue` by their contents
  in ascending order. The root is the first element, a push inserts in order
  and a pop drops the first element.
- `Text` models the Python string operations used on datagrams: `strip()`,
  `lower()`, `split()`, `int()` and `str()` of a natural.
- `Ports` holds the `10000 + 2*id` port plan.

Where the code differs from the textbook algorithms, the model follows the code:
- The Lamport clock never uses the received clock value, so there is no
  `max(local, remote) + 1`. An EVENT ticks once. It ticks once more inside
  `acknowledge` when the event was not yet acknowledged (`EventStepClock`).
  An ACK ticks only through the fallback acknowledgement, which never fires
  under the invariant (`AckFallbackNeverFires`). A broadcast ticks once
  (`BroadcastClock`).
- A repeated EVENT is pushed onto the heap again, with no de-duplication. Its
  ACK count is reset to 0 (`DuplicateEventRequeued`).
- An ACK count is not capped at `NUM_MEMBERS`.
- The ACK branch's fallback acknowledges the ACK's own event, not the heap's
  head (`AckFallbackTargetsAckedEvent`). Under the invariant that every queued
  event is acknowledged, it never fires (`AckFallbackNeverFires`).
- The vector test is `pid == self.id or m.clock[pid] == V[pid] + 1`. The inner
  loop over `k` only executes `continue`. The test is strictly looser than the
  causal-delivery condition (`CausallyReadyIsReady`, `ReadyIsLooser`).
- The vector receive merges the message's vector on every receipt, whether the
  message was delivered or not. In every reachable state, each pending entry's
  vector is therefore already absorbed, and no pending entry passes the test
  (`Reachable`, `PendingNeverReady`). A receive delivers at most the message
  just received (`OnlyNewMessageDelivered`). A message that fails the test on
  arrival is never delivered (`PendingStaysPending`). An early message can
  also strand its sender's earlier messages (`EarlyMessageStuck`).

## Model

| member | source | states |
|---|---|---|
| Lamport.Wrap32 | assignment-1/lamport.py:76 | the shared clock is a C `int`: the stored value is the unique 32-bit integer congruent to the Python result modulo 2^32 |
| Lamport.Tick | assignment-1/lamport.py:62-63 | `clock.value += 1` on the shared C `int` (also at lines 35-36 and 83-84) yields a 32-bit value one more than the old one modulo 2^32 |
| Lamport.TickIncrements | assignment-1/lamport.py:35-36 | below `INT_MAX` a `clock.value += 1` is a plain increment |
| Lamport.TickWraps | assignment-1/lamport.py:83-84 | at `INT_MAX` the increment wraps to `INT_MIN` |
| Lamport.EventOrderIsTotal | assignment-1/lamport.py:16 | the namedtuple order on `(clock, pid)` is total, transitive and antisymmetric, so the heap minimum is unique |
| Lamport.Acknowledge | assignment-1/lamport.py:34-41 | acknowledging ticks the clock once, sends exactly `NUM_MEMBERS` ACKs carrying the event's `(pid, clock)`, one to each port with the sender's own included, and marks the event acknowledged; the heap and the ACK counts are untouched |
| Lamport.EventStep | assignment-1/lamport.py:60-69 | an EVENT adds exactly one more copy of the event to the heap, with no duplicate check, and keeps it ordered; it sets the event's ACK count to 0 and leaves all other counts; the clock ticks once, and once more exactly when the event was not yet acknowledged; ACKs go to all ports exactly in that case; the event is acknowledged afterwards; nothing is delivered |
| Lamport.AckStep | assignment-1/lamport.py:51-57 | an ACK raises only the referenced event's count, by one; at most one event is delivered, and one is delivered iff the heap is non-empty and its head's count is at least `NUM_MEMBERS`; the delivered event is the head and is no greater than every queued event; the old heap is the new heap plus that event; with no delivery the heap is unchanged; ACKs are sent iff the head is below quorum and unacknowledged, and then they are for the ACK's own event with one clock tick; otherwise the clock and the acknowledged set are unchanged |
| Lamport.Receive | assignment-1/lamport.py:43-69 | the receive loop keeps the heap ordered, and a message of any other type changes nothing and sends nothing |
| Lamport.Broadcast | assignment-1/lamport.py:82-88 | a broadcast changes only the clock, by one tick, and sends an EVENT with the new clock value and the member's id to every port |
| Lamport.EventStepClock | assignment-1/lamport.py:62-69 | away from the 32-bit limit an EVENT raises the clock by exactly 1, or by 2 when the event was not yet acknowledged; the message's clock value never enters |
| Lamport.BroadcastClock | assignment-1/lamport.py:83-85 | away from the 32-bit limit a broadcast raises the clock by exactly 1 and every EVENT sent carries the new value |
| Lamport.InitInv | assignment-1/lamport.py:27-29 | the initial process (clock 0, empty heap and maps) satisfies the invariant that every queued event is acknowledged |
| Lamport.EventStepKeepsInv | assignment-1/lamport.py:65-69 | an EVENT keeps every queued event acknowledged |
| Lamport.AckStepKeepsInv | assignment-1/lamport.py:51-57 | an ACK keeps every queued event acknowledged |
| Lamport.ReceiveKeepsInv | assignment-1/lamport.py:43-69 | every received message keeps the invariant |
| Lamport.BroadcastKeepsInv | assignment-1/lamport.py:82-88 | a broadcast keeps the invariant |
| Lamport.AckFallbackNeverFires | assignment-1/lamport.py:56-57 | under the invariant an ACK sends nothing and leaves the clock unchanged |
| Lamport.AckFallbackTargetsAckedEvent | assignment-1/lamport.py:56-57 | outside the invariant the fallback sends ACKs for the ACK's own event and leaves the unacknowledged head unacknowledged |
| Lamport.DuplicateEventRequeued | assignment-1/lamport.py:65-66 | a repeated EVENT adds one more copy to the heap and resets its ACK count to 0 |
| PriorityQueue.Push | assignment-1/lamport.py:65 | `heappush` keeps the heap ordered and adds exactly one copy of the new key |
| PriorityQueue.HeadIsLeast | assignment-1/lamport.py:54-55 | the heap's root is no greater than any queued key, so `heappop` delivers a minimum |
| PriorityQueue.PopTail | assignment-1/lamport.py:55 | `heappop` leaves an ordered heap that has lost exactly the root |
| Vector.Ready | assignment-2/vector.py:43-49 | the implemented test passes every message of the process's own; for a well-formed message from another member it passes iff the message's slot for its sender is exactly one more than the local slot, whatever the other slots hold |
| Vector.CausallyReadyIsReady | assignment-2/vector.py:43-49 | every message that meets the causal-delivery condition passes the implemented test |
| Vector.ReadyIsLooser | assignment-2/vector.py:43-49 | two witnesses that the implemented test is looser than the causal condition: with local vector `[0,0,0]`, process 2 passes member 1's `[5,1,0]`, which depends on five unseen events of member 0, and its own `[7,7,7]`; neither is causally ready |
| Vector.Receive | assignment-2/vector.py:34-57 | a receive delivers exactly the entries of `pending + [msg]` that pass the test against the pre-merge vector, in list order; the remaining list is the other entries in their order; the new vector is the slot-wise max of the old vector and the message's; it dominates both; delivered and remaining together are a permutation of `pending + [msg]`; from a reachable state the next state is reachable and at most the new message is delivered |
| Vector.Scan | assignment-2/vector.py:41-50 | the scan tests every entry against the same unmodified vector; it records the ready indices in strictly ascending order, all of them and only those, and delivers the ready entries in list order |
| Vector.RemoveReady | assignment-2/vector.py:52-53 | popping the recorded indices from the highest down leaves exactly the entries that failed the test, with their relative order kept |
| Vector.MergeInto | assignment-2/vector.py:55-57 | after the merge loop every slot `k` holds `max(V[k], msg.clock[k])` |
| Vector.Broadcast | assignment-2/vector.py:70-76 | a broadcast raises only the owner's slot, by one, and sends the updated vector under the owner's id to every port |
| Vector.FilterMembership | assignment-2/vector.py:42-53 | an entry is delivered iff it is in the list and passes the test, and stays pending iff it is in the list and fails it |
| Vector.Conservation | assignment-2/vector.py:39-53 | delivered and remaining entries together are a permutation of the list scanned, so no received message is lost or duplicated |
| Vector.MergeIsLeastUpperBound | assignment-2/vector.py:56-57 | the merged vector dominates both inputs, and any vector that dominates both dominates it |
| Vector.MergeIdempotent | assignment-2/vector.py:56-57 | merging a vector already dominated changes nothing, so merging twice equals merging once |
| Vector.InitReachable | assignment-2/vector.py:64 | the initial process (zero vector; the pending list starts empty at line 28) is reachable |
| Vector.BroadcastKeepsReachable | assignment-2/vector.py:70-71 | raising the owner's slot keeps every pending entry dominated and keeps the state reachable |
| Vector.ReceiveKeepsReachable | assignment-2/vector.py:39-57 | after a receive the entries left pending are not the process's own, and the merged vector dominates all of them |
| Vector.PendingNeverReady | assignment-2/vector.py:42-45 | in a reachable state no pending entry passes the test, because its sender's slot is at most the local slot |
| Vector.OnlyNewMessageDelivered | assignment-2/vector.py:39-53 | in a reachable state a receive delivers exactly the new message if it passes the test and nothing otherwise, and every earlier pending entry stays pending in order |
| Vector.PendingStaysPending | assignment-2/vector.py:39-53 | an entry pending in a reachable state is neither delivered nor dropped by the receipt of a different message |
| Vector.EarlyMessageStuck | assignment-2/vector.py:39-57 | from the initial state of process 2, member 0's second event `[2,0,0]` arriving first is kept, the merge raises slot 0 to 2, and member 0's first event `[1,0,0]` then fails the test too, so both stay pending |
| Distributed.RequestOrderIsTotal | assignment-3/distributed.py:42 | the tuple order on `(timestamp, (host, port))` used by the priority queue is total, transitive and antisymmetric |
| Distributed.Tokens | assignment-3/distributed.py:33 | `data.decode().strip().lower().split()` as the composition of `Text.Strip`, `Text.Lower` and `Text.Split` (no contract of its own; see `RequestPayloadRoundTrip`) |
| Distributed.RequestPayload | assignment-3/distributed.py:57 | `f"request {ts}"`: the word `request`, one space and the decimal digits of `ts` (no contract of its own; see `RequestPayloadRoundTrip`) |
| Distributed.RequestPayloadRoundTrip | assignment-3/distributed.py:33-57 | the `request <ts>` text a peer sends is tokenised by the receiver as `request` and the decimal of `ts`, and `int()` of that token is `ts` |
| Distributed.HandleDatagram | assignment-3/distributed.py:32-42 | an empty or all-whitespace datagram kills the server thread at `tokens[0]`; a handled datagram keeps the queue ordered and within capacity and leaves the id and the request timestamp alone; a reply is a single "ok" to the sender and leaves the state unchanged |
| Distributed.PeerRequestHandled | assignment-3/distributed.py:32-57 | the `request <ts>` datagram a peer sends never kills the receiving server; it is answered "ok" at once iff the receiver's timestamp is 0 or `ts` is strictly smaller, and the server waits for space iff it must defer while its queue is full |
| Distributed.HandleTokens | assignment-3/distributed.py:33-42 | the server thread dies iff there are no tokens, or the first token is `request`, the peer wants the lock and the timestamp is missing or not an integer; any other first token changes nothing and replies nothing; a reply is a single "ok" to the sender and leaves the state unchanged; the queue stays ordered and within capacity |
| Distributed.ReplyOrDefer | assignment-3/distributed.py:34-42 | a request with timestamp `t` is answered "ok" at once iff the peer's own timestamp is 0 or `t` is strictly smaller; otherwise `(t, from)` is queued once with no reply, or the server waits when the queue already holds `NUM_MEMBERS` entries |
| Distributed.IdlePeerAlwaysReplies | assignment-3/distributed.py:35-36 | a peer not wanting the lock answers even a `request` with no timestamp |
| Distributed.HandleKeepsInv | assignment-3/distributed.py:34-42 | handling a datagram keeps the invariant: requests are queued only while the peer wants the lock, and only with timestamps no earlier than its own |
| Distributed.AcquireRequests | assignment-3/distributed.py:44-59 | acquiring records the new timestamp and sends `NUM_MEMBERS - 1` requests carrying it, one to each other member's port in id order, none to its own |
| Distributed.AcquireResult | assignment-3/distributed.py:62-78 | `acquire_lock` finishes exactly when all `NUM_MEMBERS - 1` replies have arrived, whatever they say, and then returns true |
| Distributed.Release | assignment-3/distributed.py:80-85 | the release sends "ok" to every queued requester in queue order, then empties the queue and sets the request timestamp to 0 |
| Distributed.ReleaseOrder | assignment-3/distributed.py:82-84 | unfolds the queue invariant: the deferred requests are ascending in `(timestamp, address)`, so, since `Release` answers `pending[i]` as its `i`-th reply, `get()` hands out the requests in that order |
| Distributed.InitInv | assignment-3/distributed.py:21-22 | the initial peer satisfies the invariant |
| Distributed.AcquireKeepsInv | assignment-3/distributed.py:45 | setting a new timestamp from the idle state keeps the invariant |
| Central.Command | assignment-3/central.py:25 | `recv().decode().strip().lower()` as the composition of `Text.Strip` and `Text.Lower` (no contract of its own; see `Central.AcquireSucceeds` and `Text.StripPadded`) |
| Central.Step | assignment-3/central.py:22-36 | a `request` appends the client at the tail, and it is answered at once iff the queue was empty; a `release` removes the head whoever sent it and grants exactly the new head if there is one; on an empty queue it is the `IndexError` crash; any other text changes nothing; a step grants at most one client, and only the client left at the head |
| Central.StepAccounting | assignment-3/central.py:26-34 | per step, the old queue plus any new requester equals the released head plus the new queue, and the old holder plus the grant equals the released head plus the new holder |
| Central.Run | assignment-3/central.py:23-36 | over any run without a crash, each request adds one client to the queue and each release removes one, and no step grants more than one client |
| Central.FifoGrants | assignment-3/central.py:22-36 | over any run without a crash, the initial holder, then all grants in order, then the clients waiting behind the holder equal the initial queue followed by the requesters in arrival order; the initial holders (0 or 1) plus the grants equal the releases plus the current holders (0 or 1) |
| Central.FifoFromEmpty | assignment-3/central.py:26-34 | from an empty queue, the grants are the requests in arrival order up to the current holder, and at most one granted client is unreleased |
| Central.AcquireSucceeds | assignment-3/central.py:44-50 | the member takes the lock iff the stripped reply is `ok` in any letter case, the `k` possibly written as U+212A KELVIN SIGN, which `lower()` maps to `k` |
| Central.PaddedOkAccepted | assignment-3/central.py:48-50 | the coordinator's "ok" is accepted with any whitespace around it |
| Text.Strip | assignment-3/central.py:25 | `str.strip()`: drops the leading and then the trailing `isspace` characters (no contract of its own; see `Text.StripPadded`) |
| Text.Lower | assignment-3/central.py:48 | `str.lower()` for ASCII letters and U+212A, code point by code point (no contract of its own; see `Text.LowerIsOk`) |
| Text.ParseInt | assignment-3/distributed.py:37 | `int(token)` for an optional sign followed by ASCII digits, and `None` for the `ValueError` case (no contract of its own; see `Text.ParseIntOfNatToString`) |
| Text.ParseIntOfNatToString | assignment-3/distributed.py:37 | `int(str(n)) == n` for every natural `n` |
| Text.StripPadded | assignment-3/central.py:25 | `strip()` removes exactly the surrounding whitespace from a word whose ends are not whitespace |
| Text.SplitFirstWord | assignment-3/distributed.py:33 | `split()` returns a word followed by whitespace as the first token |
| Text.Split | assignment-3/distributed.py:33 | every token from `split()` is non-empty and contains no whitespace |
| Text.LowerIsOk | assignment-3/central.py:48 | the lowered text is `ok` exactly for the four ASCII letter-case spellings of `ok` and the two with the Kelvin sign for the `k` |

## Left out

- Sockets, `select`, `bind`, `recvfrom`, `sendto`, `accept`, `connect`: I/O. Sent datagrams are outputs of each step. A Lamport or vector "delivery" is the returned event list; the `print` in `deliver` is not modelled.
- JSON encoding and decoding: library code. Messages are modelled as decoded records. A datagram that fails to decode raises in `json.loads` and ends the receive thread; that path is not modelled.
- `data.decode()` in assignment 3: datagrams and replies are modelled as already-decoded strings, so UTF-8 decode errors are not modelled.
- Threads, processes, `mp.Value` locks, halt flags and `time.sleep`: each receive and each broadcast is one atomic step on the shared state. The Lamport broadcast rereads `clock.value` after releasing the lock; the receive thread could tick in between, and that interleaving is not modelled.
- `time.time_ns()`: the timestamp is a parameter `ts > 0`.
- The members' driver loops (three broadcasts; ten acquire/release rounds), the `data` counter file and all console output: the driver code around the modelled steps.
- Network-wide properties: cross-process total-order agreement, causal delivery across the group, and liveness. They depend on interleavings. With a clock that ignores received values and the looser vector test, the code does not guarantee them.
- The `acks` and `acknowledged` fields and the `heapq` import in `vector.py`: they are never used.
- Vector.Receive: requires well-formed messages, meaning `0 <= pid < NUM_MEMBERS` and a vector of at least `NUM_MEMBERS` slots. A longer vector is accepted, and only its first `NUM_MEMBERS` slots are read, as in the source. The excluded messages, and what the source does with them:
  - A `pid` of `NUM_MEMBERS` or more raises `IndexError` at line 44, during the scan and before any entry is removed. The error comes from the message's vector when that vector has at most `pid` slots. Otherwise it comes from the local vector.
  - A negative `pid` goes through Python's negative indexing. The message's vector is read at slot `len(clock) + pid` and the local vector at slot `NUM_MEMBERS + pid`, which differ when the message's vector is longer. A `pid` below `-len(clock)` or below `-NUM_MEMBERS` raises `IndexError` during the scan.
  - A vector shorter than `NUM_MEMBERS` with `pid` at or past its end raises `IndexError` during the scan, before anything is removed. For another member's message this happens at line 44. For the process's own message it happens in the inner loop at line 47.
  - A vector shorter than `NUM_MEMBERS` with `pid` inside it passes the scan. It then raises `IndexError` in the merge loop at line 57, after the ready entries were delivered and removed.
- Text.Lower: lower-cases ASCII letters and U+212A KELVIN SIGN. Python's `str.lower` also maps other non-ASCII letters, some to two code points. None of them lowers to `o` or `k`, so the reply checks are exact.
- Text.ParseInt: accepts an optional sign and ASCII digits; Python's `int()` also accepts `_` digit separators and non-ASCII decimal digits.
- Distributed.AcquireRequests: requires the member's id to be below `NUM_MEMBERS` and the timestamp to be positive. Member ids are `0..NUM_MEMBERS-1`, and `time.time_ns()` is positive after 1970.
- Distributed.AcquireResult: requires at most `NUM_MEMBERS - 1` replies, one per request socket. It models the count of replies only. Which socket receives which reply is not modelled, and neither are the reply threads.
- Central coordinator: the `listen(NUM_MEMBERS)` backlog, and connections that are never closed, are socket resources and are not modelled. A `release` sender's own connection gets no reply, and the model sends it none.
