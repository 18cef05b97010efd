/**
 The central lock coordinator (assignment 3, `central.py`) and the member's
 check of its reply.

 The coordinator keeps a FIFO queue of client connections; the client at the
 head holds the lock. A `request` is always appended and answered "ok" at
 once only when the queue was empty; a `release` removes the head (whoever
 sent it) and answers the new head, if any.
 */
module Central {
  import opened Text

  const REQUEST_WORD: string := "request"
  const RELEASE_WORD: string := "release"
  const OK_REPLY: string := "ok"

  /** An accepted TCP connection, by identity. */
  type Conn = nat

  /** One accepted connection and the text it sent. */
  datatype Input = Input(conn: Conn, data: string)

  /** `queue` after the step and the connections sent "ok", in order. A
      `release` on an empty queue is `pop(0)` raising `IndexError`, which ends
      the coordinator's loop. */
  datatype Outcome = Handled(queue: seq<Conn>, granted: seq<Conn>) | Crashed

  /** `recv().decode().strip().lower()`. */
  function Command(data: string): string {
    Lower(Strip(data))
  }

  /** The client holding the lock: the head, if there is one. */
  function Holder(q: seq<Conn>): seq<Conn> {
    if |q| == 0 then [] else [q[0]]
  }

  /** One iteration of `CoordinatorProcess.run`. */
  function Step(q: seq<Conn>, input: Input): (r: Outcome)
    ensures r.Crashed? <==> Command(input.data) == RELEASE_WORD && |q| == 0
    ensures Command(input.data) == REQUEST_WORD ==>
      r == Handled(q + [input.conn], if |q| == 0 then [input.conn] else [])
    ensures Command(input.data) == RELEASE_WORD && |q| > 0 ==>
      && r.Handled?
      && r.queue == q[1..]
      && r.granted == Holder(q[1..])
    ensures Command(input.data) != REQUEST_WORD && Command(input.data) != RELEASE_WORD ==>
      r == Handled(q, [])
    ensures r.Handled? ==> |r.granted| <= 1 && (r.granted != [] ==> r.granted == Holder(r.queue))
  {
    var msg := Command(input.data);
    if msg == REQUEST_WORD then
      Handled(q + [input.conn], if |q| == 0 then [input.conn] else [])
    else if msg == RELEASE_WORD then
      if |q| == 0 then Crashed
      else
        var rest := q[1..];
        Handled(rest, if |rest| > 0 then [rest[0]] else [])
    else
      Handled(q, [])
  }

  /** The coordinator's loop over a sequence of inputs, collecting every grant;
      it stops at the first crash. */
  function Run(q: seq<Conn>, inputs: seq<Input>): (r: Outcome)
    ensures r.Handled? ==> |r.queue| + Releases(inputs) == |q| + |Requests(inputs)|
    ensures r.Handled? ==> |r.granted| <= |inputs|
    decreases |inputs|
  {
    if |inputs| == 0 then Handled(q, [])
    else match Step(q, inputs[0])
      case Crashed => Crashed
      case Handled(q1, g1) =>
        match Run(q1, inputs[1..])
        case Crashed => Crashed
        case Handled(q2, g2) => Handled(q2, g1 + g2)
  }

  /** The clients that asked for the lock, in arrival order. */
  function Requests(inputs: seq<Input>): seq<Conn>
    decreases |inputs|
  {
    if |inputs| == 0 then []
    else (if Command(inputs[0].data) == REQUEST_WORD then [inputs[0].conn] else []) + Requests(inputs[1..])
  }

  /** The number of `release` messages. */
  function Releases(inputs: seq<Input>): nat
    decreases |inputs|
  {
    if |inputs| == 0 then 0
    else (if Command(inputs[0].data) == RELEASE_WORD then 1 else 0) + Releases(inputs[1..])
  }

  function Tail(q: seq<Conn>): seq<Conn> {
    if |q| == 0 then [] else q[1..]
  }

  /** One step accounts for every client: the old queue plus a new requester
      is the released client (if any) followed by the new queue; and the old
      holder plus the grant is the released client followed by the new holder. */
  lemma StepAccounting(q: seq<Conn>, input: Input)
    requires Step(q, input).Handled?
    ensures var r := Step(q, input);
      var released := if Command(input.data) == RELEASE_WORD then [q[0]] else [];
      var requested := if Command(input.data) == REQUEST_WORD then [input.conn] else [];
      && q + requested == released + r.queue
      && Holder(q) + r.granted == released + Holder(r.queue)
  {
    var r := Step(q, input);
    if Command(input.data) == RELEASE_WORD {
      assert q == [q[0]] + q[1..];
    }
  }

  /** Chaining the accounting of one step with that of the rest of a run. */
  lemma ComposeAccounting(
    q0: seq<Conn>, q1: seq<Conn>, q: seq<Conn>, g1: seq<Conn>, g2: seq<Conn>,
    released: seq<Conn>, requested: seq<Conn>, later: seq<Conn>)
    requires q0 + requested == released + q1
    requires Holder(q0) + g1 == released + Holder(q1)
    requires Holder(q1) + g2 + Tail(q) == q1 + later
    ensures Holder(q0) + (g1 + g2) + Tail(q) == q0 + (requested + later)
  {
    calc {
      Holder(q0) + (g1 + g2) + Tail(q);
      (Holder(q0) + g1) + g2 + Tail(q);
      released + (Holder(q1) + g2 + Tail(q));
      released + (q1 + later);
      (released + q1) + later;
      (q0 + requested) + later;
    }
  }

  lemma RunUnfold(q0: seq<Conn>, inputs: seq<Input>)
    requires |inputs| > 0
    requires Run(q0, inputs).Handled?
    ensures Step(q0, inputs[0]).Handled?
    ensures Run(Step(q0, inputs[0]).queue, inputs[1..]).Handled?
    ensures Run(q0, inputs) ==
      Handled(Run(Step(q0, inputs[0]).queue, inputs[1..]).queue,
              Step(q0, inputs[0]).granted + Run(Step(q0, inputs[0]).queue, inputs[1..]).granted)
    ensures Requests(inputs) ==
      (if Command(inputs[0].data) == REQUEST_WORD then [inputs[0].conn] else []) + Requests(inputs[1..])
    ensures Releases(inputs) ==
      (if Command(inputs[0].data) == RELEASE_WORD then 1 else 0) + Releases(inputs[1..])
  {
  }

  /** FIFO granting: starting from queue `q0`, the initial holder followed by
      every grant made, followed by the clients still waiting behind the
      holder, is exactly `q0` followed by the requesters in arrival order. So
      grants go out in request order, each client is granted exactly when it
      reaches the head, and the clients granted and not yet released are at
      most one: the current holder. */
  lemma {:induction false} FifoGrants(q0: seq<Conn>, inputs: seq<Input>)
    requires Run(q0, inputs).Handled?
    ensures var r := Run(q0, inputs);
      && Holder(q0) + r.granted + Tail(r.queue) == q0 + Requests(inputs)
      && |Holder(q0)| + |r.granted| == Releases(inputs) + |Holder(r.queue)|
    decreases |inputs|
  {
    if |inputs| == 0 {
      assert Holder(q0) + Tail(q0) == q0;
    } else {
      var x := inputs[0];
      RunUnfold(q0, inputs);
      var s := Step(q0, x);
      var released := if Command(x.data) == RELEASE_WORD then [q0[0]] else [];
      var requested := if Command(x.data) == REQUEST_WORD then [x.conn] else [];
      StepAccounting(q0, x);
      FifoGrants(s.queue, inputs[1..]);
      var r := Run(s.queue, inputs[1..]);
      ComposeAccounting(q0, s.queue, r.queue, s.granted, r.granted, released, requested, Requests(inputs[1..]));
    }
  }

  /** From an empty coordinator, grants are a prefix of the requests in
      arrival order, and the rest of the requests are exactly the clients
      queued behind the holder. */
  lemma FifoFromEmpty(inputs: seq<Input>)
    requires Run([], inputs).Handled?
    ensures Run([], inputs).granted + Tail(Run([], inputs).queue) == Requests(inputs)
    ensures |Run([], inputs).granted| - Releases(inputs) in {0, 1}
  {
    FifoGrants([], inputs);
    assert Holder([]) + Run([], inputs).granted == Run([], inputs).granted;
  }

  /** `MemberProcess.acquire_lock`: the lock is taken iff the reply, stripped
      and lowered, is "ok". The accepted replies are exactly "ok" in any letter
      case, the `k` possibly written as the Kelvin sign, with any surrounding
      whitespace. */
  function AcquireSucceeds(reply: string): (r: bool)
    ensures r <==> Strip(reply) in {"ok", "oK", "Ok", "OK", ['o', KELVIN_SIGN], ['O', KELVIN_SIGN]}
  {
    LowerIsOk(Strip(reply));
    Command(reply) == OK_REPLY
  }

  /** The coordinator's own reply, however padded with whitespace, is accepted. */
  lemma PaddedOkAccepted(before: string, after: string)
    requires AllSpace(before) && AllSpace(after)
    ensures AcquireSucceeds(before + OK_REPLY + after)
  {
    StripPadded(before, OK_REPLY, after);
  }
}
