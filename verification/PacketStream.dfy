/** Packets on their way from `Manager.packet` to the decoder of the other side: the encode queue of
    the manager, and what the decoder emits over a whole run. */
module PacketStream {
  import opened Text
  import opened Json3
  import opened PacketHeader
  import opened PacketCodec

  const CONNECT: Kind := 0
  const QUESTION: CodeUnit := 63

  // ---------------------------------------------------------------- Manager

  /** `encoding` and `packetBuffer` of the manager, the packet whose encoder has not called back, and
      the frames written to the engine. */
  datatype State = State(encoding: bool, inFlight: Option<Packet>, packetBuffer: seq<Packet>, wire: seq<Frame>)

  const INITIAL := State(false, None, [], [])

  /** `packet.nsp += '?' + packet.query` for CONNECT packets, at each call of `Manager.packet`. */
  function WithQuery(p: Packet): Packet {
    if p.query != [] && p.kind == CONNECT then p.(nsp := p.nsp + [QUESTION] + p.query) else p
  }

  /** `Manager.packet`. */
  function Call(s: State, p: Packet, order: Order): State
    decreases |s.packetBuffer|, 1
  {
    var q := WithQuery(p);
    if s.encoding then s.(packetBuffer := s.packetBuffer + [q])
    else if IsBinary(q.kind) && q.hasBlobs then s.(encoding := true, inFlight := Some(q))
    else Finish(s, q, order)
  }

  /** The encoder's callback: writes the frames, then `processPacketQueue`. */
  function Finish(s: State, p: Packet, order: Order): State
    decreases |s.packetBuffer|, 0
  {
    var t := State(false, None, s.packetBuffer, s.wire + Encoded(p, order));
    if t.packetBuffer == [] then t
    else Call(t.(packetBuffer := t.packetBuffer[1..]), t.packetBuffer[0], order)
  }

  class Manager {
    var encoding: bool
    var inFlight: Option<Packet>
    var packetBuffer: seq<Packet>
    var wire: seq<Frame>

    ghost function Model(): State
      reads this
    {
      State(encoding, inFlight, packetBuffer, wire)
    }

    constructor ()
      ensures Model() == INITIAL
    {
      encoding, inFlight, packetBuffer, wire := false, None, [], [];
    }

    method Packet(packet: Packet, order: Order)
      modifies this
      ensures Model() == Call(old(Model()), packet, order)
      decreases |packetBuffer|, 1
    {
      var p := WithQuery(packet);
      if !encoding {
        encoding := true;
        if IsBinary(p.kind) && p.hasBlobs {
          inFlight := Some(p);
        } else {
          OnEncoded(p, order);
        }
      } else {
        packetBuffer := packetBuffer + [p];
      }
    }

    method OnEncoded(p: Packet, order: Order)
      modifies this
      ensures Model() == Finish(old(Model()), p, order)
      decreases |packetBuffer|, 0
    {
      var frames := Encoded(p, order);
      var before := wire;
      for i := 0 to |frames|
        invariant wire == before + frames[..i]
        invariant packetBuffer == old(packetBuffer)
      {
        wire := wire + [frames[i]];
      }
      assert frames[..|frames|] == frames;
      encoding, inFlight := false, None;
      if |packetBuffer| > 0 && !encoding {
        var pack := packetBuffer[0];
        packetBuffer := packetBuffer[1..];
        Packet(pack, order);
      }
    }
  }

  // ---------------------------------------------------------------- all runs

  /** A call of `Manager.packet`, or the completion of an encoder that had to wait. */
  datatype Input = Send(p: Packet) | EncoderDone

  function Step(s: State, input: Input, order: Order): State {
    match input
    case Send(p) => Call(s, p, order)
    case EncoderDone => if s.inFlight.Some? then Finish(s, s.inFlight.value, order) else s
  }

  function Run(s: State, inputs: seq<Input>, order: Order): State
    decreases |inputs|
  {
    if inputs == [] then s else Run(Step(s, inputs[0], order), inputs[1..], order)
  }

  /** The packet that a call finally puts on the wire: one that had to queue passes `packet` twice. */
  function Wired(s: State, p: Packet): Packet {
    if s.encoding then WithQuery(WithQuery(p)) else WithQuery(p)
  }

  /** The packets of a run in call order. */
  function Calls(s: State, inputs: seq<Input>, order: Order): seq<Packet>
    decreases |inputs|
  {
    if inputs == [] then []
    else
      (if inputs[0].Send? then [Wired(s, inputs[0].p)] else [])
      + Calls(Step(s, inputs[0], order), inputs[1..], order)
  }

  function WithQueryAll(ps: seq<Packet>): seq<Packet> {
    if ps == [] then [] else [WithQuery(ps[0])] + WithQueryAll(ps[1..])
  }

  lemma {:induction false} WithQueryAllSnoc(ps: seq<Packet>, p: Packet)
    ensures WithQueryAll(ps + [p]) == WithQueryAll(ps) + [WithQuery(p)]
  {
    if ps != [] {
      assert (ps + [p])[1..] == ps[1..] + [p];
      WithQueryAllSnoc(ps[1..], p);
    }
  }

  /** What is accepted but not yet on the wire. */
  function Pending(s: State): seq<Packet> {
    (if s.inFlight.Some? then [s.inFlight.value] else []) + WithQueryAll(s.packetBuffer)
  }

  /** `done` is on the wire, each packet's frames together; the rest of `calls` is pending. */
  predicate Written(s: State, done: seq<Packet>, calls: seq<Packet>, order: Order) {
    && (s.encoding <==> s.inFlight.Some?) && (!s.encoding ==> s.packetBuffer == [])
    && calls == done + Pending(s) && s.wire == EncodedAll(done, order)
  }

  lemma {:induction false} EncodedAllSnoc(done: seq<Packet>, p: Packet, order: Order)
    ensures EncodedAll(done + [p], order) == EncodedAll(done, order) + Encoded(p, order)
  {
    if done == [] {
      assert done + [p] == [p] && EncodedAll([p], order) == Encoded(p, order) + [];
    } else {
      assert (done + [p])[1..] == done[1..] + [p];
      EncodedAllSnoc(done[1..], p, order);
      Assoc(Encoded(done[0], order), EncodedAll(done[1..], order), Encoded(p, order));
    }
  }

  /** After packet `p` the queue is worked off up to the next packet whose encoder has to wait. */
  lemma {:induction false} FinishKeepsOrder(s: State, p: Packet, done: seq<Packet>, order: Order)
    returns (done': seq<Packet>)
    requires s.wire == EncodedAll(done, order)
    ensures Written(Finish(s, p, order), done', done + [p] + WithQueryAll(s.packetBuffer), order)
    decreases |s.packetBuffer|
  {
    EncodedAllSnoc(done, p, order);
    done' := done + [p];
    if s.packetBuffer != [] {
      var t := State(false, None, s.packetBuffer[1..], s.wire + Encoded(p, order));
      var q := WithQuery(s.packetBuffer[0]);
      Assoc(done + [p], [q], WithQueryAll(t.packetBuffer));
      if !(IsBinary(q.kind) && q.hasBlobs) {
        done' := FinishKeepsOrder(t, q, done + [p], order);
      }
    }
  }

  lemma StepKeepsOrder(s: State, input: Input, done: seq<Packet>, calls: seq<Packet>, order: Order)
    returns (done': seq<Packet>)
    requires Written(s, done, calls, order)
    ensures Written(Step(s, input, order), done',
                    calls + (if input.Send? then [Wired(s, input.p)] else []), order)
  {
    done' := done;
    match input {
      case Send(p) =>
        var q := WithQuery(p);
        if s.encoding {
          WithQueryAllSnoc(s.packetBuffer, q);
          Assoc([s.inFlight.value], WithQueryAll(s.packetBuffer), [WithQuery(q)]);
          Assoc(done, Pending(s), [WithQuery(q)]);
        } else if !(IsBinary(q.kind) && q.hasBlobs) {
          assert done == calls && done + [q] + [] == calls + [q];
          done' := FinishKeepsOrder(s, q, done, order);
        }
      case EncoderDone =>
        if s.inFlight.Some? {
          done' := FinishKeepsOrder(s, s.inFlight.value, done, order);
          Assoc(done, [s.inFlight.value], WithQueryAll(s.packetBuffer));
          assert calls + [] == calls;
        }
    }
  }

  lemma {:induction false} RunKeepsOrder(
      s: State, inputs: seq<Input>, done: seq<Packet>, calls: seq<Packet>, order: Order)
    returns (done': seq<Packet>)
    requires Written(s, done, calls, order)
    ensures Written(Run(s, inputs, order), done', calls + Calls(s, inputs, order), order)
    decreases |inputs|
  {
    if inputs == [] {
      done' := done;
      assert calls + [] == calls;
    } else {
      done' := StepKeepsOrder(s, inputs[0], done, calls, order);
      var t, own := Step(s, inputs[0], order), if inputs[0].Send? then [Wired(s, inputs[0].p)] else [];
      done' := RunKeepsOrder(t, inputs[1..], done', calls + own, order);
      Assoc(calls, own, Calls(t, inputs[1..], order));
    }
  }

  /** In every run, with encoders completing at any time, the decoder has emitted exactly the packets
      of the calls in call order, except those that are still pending at the manager. */
  lemma EndToEnd(inputs: seq<Input>, order: Order)
    requires Enumerates(order)
    requires forall i | 0 <= i < |Calls(INITIAL, inputs, order)| :: Sendable(Calls(INITIAL, inputs, order)[i])
    ensures var s, calls := Run(INITIAL, inputs, order), Calls(INITIAL, inputs, order);
      AddAll(None, s.wire).Outcome?
      && AddAll(None, s.wire).events + DeliveredAll(Pending(s)) == DeliveredAll(calls)
  {
    var s, calls := Run(INITIAL, inputs, order), Calls(INITIAL, inputs, order);
    var done := RunKeepsOrder(INITIAL, inputs, [], [], order);
    assert [] + calls == calls;
    assert forall i | 0 <= i < |done| :: done[i] == calls[i];
    WireIsDecoded(s.wire, done, order);
    DeliveredConcat(done, Pending(s));
  }

  lemma WireIsDecoded(wire: seq<Frame>, done: seq<Packet>, order: Order)
    requires wire == EncodedAll(done, order) && Enumerates(order) && forall i | 0 <= i < |done| :: Sendable(done[i])
    ensures AddAll(None, wire).Outcome? && AddAll(None, wire).events == DeliveredAll(done)
  {
    StreamRoundTrip(done, order, None);
  }

  lemma DeliveredConcat(a: seq<Packet>, b: seq<Packet>)
    ensures DeliveredAll(a + b) == DeliveredAll(a) + DeliveredAll(b)
  {
  }

  // ---------------------------------------------------------------- the repeated query

  /** The packet as its caller meant it: for the type 0 a query follows the namespace, behind a question
      mark. */
  function Meant(p: Packet): Packet {
    if p.kind == 0 && p.query != [] then p.(nsp := p.nsp + Ascii("?") + p.query) else p
  }

  function Intended(inputs: seq<Input>): seq<Packet> {
    if inputs == [] then []
    else (if inputs[0].Send? then [Meant(inputs[0].p)] else []) + Intended(inputs[1..])
  }

  lemma QueryIsMeant(p: Packet)
    ensures WithQuery(p) == Meant(p)
  {
    assert Ascii("?") == [QUESTION];
  }

  /** No CONNECT packet with a query is handed over while another packet is being encoded. */
  predicate NoQueuedQuery(s: State, inputs: seq<Input>, order: Order)
    decreases |inputs|
  {
    inputs == []
    || ((inputs[0].Send? && s.encoding ==> inputs[0].p.query == [] || inputs[0].p.kind != CONNECT)
        && NoQueuedQuery(Step(s, inputs[0], order), inputs[1..], order))
  }

  /** What goes out is what was meant, exactly if no CONNECT packet with a query had to queue. */
  lemma {:induction false} QueuedQueryIsRepeated(s: State, inputs: seq<Input>, order: Order)
    ensures |Calls(s, inputs, order)| == |Intended(inputs)|
    ensures Calls(s, inputs, order) == Intended(inputs) <==> NoQueuedQuery(s, inputs, order)
    decreases |inputs|
  {
    if inputs != [] {
      var t := Step(s, inputs[0], order);
      QueuedQueryIsRepeated(t, inputs[1..], order);
      if inputs[0].Send? {
        QueryTwice(inputs[0].p);
        QueryIsMeant(inputs[0].p);
        assert Calls(s, inputs, order)[0] == Wired(s, inputs[0].p);
        assert Calls(s, inputs, order)[1..] == Calls(t, inputs[1..], order);
        assert Intended(inputs)[0] == Meant(inputs[0].p) && Intended(inputs)[1..] == Intended(inputs[1..]);
        HeadAndTail(Calls(s, inputs, order), Intended(inputs));
      } else {
        assert Calls(s, inputs, order) == Calls(t, inputs[1..], order);
        assert Intended(inputs) == Intended(inputs[1..]);
      }
    }
  }

  /** A packet without Blobs, or of a type from 0 to 4, goes out at once unless another is being encoded;
      one of the types 5 and 6 with Blobs waits for its encoder. */
  lemma IdleManagerWrites(s: State, p: Packet, order: Order)
    requires !s.encoding && s.packetBuffer == []
    ensures p.kind <= 4 || !p.hasBlobs ==>
      Call(s, p, order) == State(false, None, [], s.wire + Encoded(Meant(p), order))
    ensures p.kind >= 5 && p.hasBlobs ==> Call(s, p, order) == State(true, Some(p), [], s.wire)
  {
    QueryIsMeant(p);
  }

  lemma QueueOfOne(blobs: Packet, queued: Packet, order: Order)
    requires queued.kind == CONNECT
    ensures Finish(State(true, Some(blobs), [queued], []), blobs, order).wire
         == Encoded(blobs, order) + Encoded(WithQuery(queued), order)
  {
    var v := State(false, None, [], Encoded(blobs, order));
    assert [queued][1..] == [] && [] + Encoded(blobs, order) == Encoded(blobs, order);
    assert Call(v, queued, order) == Finish(v, WithQuery(queued), order);
  }

  /** It happens: a CONNECT packet that queues behind a packet with Blobs goes out with its query twice. */
  lemma QueuedConnectRepeatsItsQuery(blobs: Packet, connect: Packet, order: Order)
    requires IsBinary(blobs.kind) && blobs.hasBlobs && connect.kind == CONNECT && connect.query != []
    ensures var query := [QUESTION] + connect.query;
      Run(INITIAL, [Send(blobs), Send(connect), EncoderDone], order).wire
      == Encoded(blobs, order) + Encoded(connect.(nsp := connect.nsp + query + query), order)
  {
    var query := [QUESTION] + connect.query;
    var queued := WithQuery(connect);
    var t := Step(Step(INITIAL, Send(blobs), order), Send(connect), order);
    assert t == State(true, Some(blobs), [queued], []);
    assert WithQuery(queued).nsp == connect.nsp + query + query;
    var u := Step(t, EncoderDone, order);
    QueueOfOne(blobs, queued, order);
    var inputs := [Send(blobs), Send(connect), EncoderDone];
    assert inputs[1..][1..] == [EncoderDone] && [EncoderDone][1..] == [];
    assert Run(t, [EncoderDone], order) == Run(u, [], order);
    assert Run(INITIAL, inputs, order) == Run(Step(INITIAL, Send(blobs), order), inputs[1..], order);
  }

  lemma QueryTwice(p: Packet)
    ensures WithQuery(WithQuery(p)) == WithQuery(p) <==> p.query == [] || p.kind != CONNECT
  {
    if p.query != [] && p.kind == CONNECT {
      assert |WithQuery(WithQuery(p)).nsp| > |WithQuery(p).nsp|;
    }
  }

  lemma HeadAndTail(a: seq<Packet>, b: seq<Packet>)
    requires a != [] && b != []
    ensures a == b <==> a[0] == b[0] && a[1..] == b[1..]
  {
    assert a == [a[0]] + a[1..] && b == [b[0]] + b[1..];
  }
}
