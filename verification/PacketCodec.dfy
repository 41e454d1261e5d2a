/** Whole socket.io packets: the frames that the encoder makes of one, and the decoder that puts
    packets together again from a stream of frames. */
module PacketCodec {
  import opened Text
  import opened Json3
  import opened JsonRoundTrip
  import opened Attachments
  import opened PacketHeader

  /** A packet given to the manager; `hasBlobs` says that its encoder must wait for a file reader. */
  datatype Packet = Packet(kind: Kind, nsp: Str, id: Option<nat>, data: Value, query: Str, hasBlobs: bool)

  datatype Frame = TextFrame(s: Str) | BinFrame(b: Bytes)

  // ---------------------------------------------------------------- Encoder

  function JsonText(data: Value, order: Order): Option<Str> {
    if data.Undef? || data.Null? then None else Some(Serialize(data, order, [], []))
  }

  function BinFrames(buffers: seq<Bytes>): seq<Frame> {
    if buffers == [] then [] else [BinFrame(buffers[0])] + BinFrames(buffers[1..])
  }

  /** `Encoder.encode`: one text frame, and one binary frame per attachment. */
  function Encoded(p: Packet, order: Order): seq<Frame> {
    if IsBinary(p.kind) then
      var buffers := Leaves(p.data, order);
      var text := JsonText(Deconstruct(p.data, order, 0), order);
      [TextFrame(Encode(Outgoing(p.kind, |buffers|, p.nsp, p.id, text)))] + BinFrames(buffers)
    else
      [TextFrame(Encode(Outgoing(p.kind, 0, p.nsp, p.id, JsonText(p.data, order))))]
  }

  function EncodedAll(ps: seq<Packet>, order: Order): seq<Frame> {
    if ps == [] then [] else Encoded(ps[0], order) + EncodedAll(ps[1..], order)
  }

  // ---------------------------------------------------------------- Decoder

  /** A `decoded` event. */
  datatype Event = Decoded(kind: Kind, nsp: Str, id: Option<JsNumber>, data: Value) | DecodeError

  /** The `reconstructor` of the decoder: a packet that waits for its attachments. */
  datatype Reconstructor = Reconstructor(packet: Event, attachments: JsNumber, buffers: seq<Bytes>)

  /** What one input does to a machine: new state and emitted events, or a thrown error. */
  datatype Outcome<S, E> = Outcome(next: S, events: seq<E>) | Thrown

  /** All inputs fed to one machine. */
  function Feed<S, F, E>(step: (S, F) -> Outcome<S, E>, s: S, inputs: seq<F>): Outcome<S, E>
    decreases |inputs|
  {
    if inputs == [] then Outcome(s, [])
    else
      match step(s, inputs[0])
      case Thrown => Thrown
      case Outcome(next, events) =>
        match Feed(step, next, inputs[1..])
        case Thrown => Thrown
        case Outcome(last, more) => Outcome(last, events + more)
  }

  lemma FeedOne<S, F, E>(step: (S, F) -> Outcome<S, E>, s: S, first: F, rest: seq<F>)
    requires step(s, first).Outcome?
    ensures var more := Feed(step, step(s, first).next, rest);
      Feed(step, s, [first] + rest)
      == if more.Thrown? then Thrown else Outcome(more.next, step(s, first).events + more.events)
  {
    assert ([first] + rest)[1..] == rest;
  }

  lemma {:induction false} FeedConcat<S, F, E>(step: (S, F) -> Outcome<S, E>, s: S, a: seq<F>, b: seq<F>)
    requires Feed(step, s, a).Outcome?
    ensures var more := Feed(step, Feed(step, s, a).next, b);
      Feed(step, s, a + b)
      == if more.Thrown? then Thrown else Outcome(more.next, Feed(step, s, a).events + more.events)
    decreases |a|
  {
    if a == [] {
      assert a + b == b;
    } else {
      assert (a + b)[1..] == a[1..] + b;
      FeedConcat(step, step(s, a[0]).next, a[1..], b);
    }
  }

  lemma FeedHead<S, F, E>(step: (S, F) -> Outcome<S, E>, s: S, first: F, rest: seq<F>,
                          head: Outcome<S, E>, tail: Outcome<S, E>)
    requires step(s, first) == head && head.Outcome? && Feed(step, head.next, rest) == tail && tail.Outcome?
    ensures Feed(step, s, [first] + rest) == Outcome(tail.next, head.events + tail.events)
  {
    FeedOne(step, s, first, rest);
  }

  type Added = Outcome<Option<Reconstructor>, Event>

  function DataOf(text: Option<Str>): Option<Value> {
    match text
    case None => Some(Undef)
    case Some(s) => Parse(s)
  }

  /** `Decoder.add`. */
  function Add(reconstructor: Option<Reconstructor>, frame: Frame): Added {
    match frame
    case TextFrame(s) => (
      match PacketHeader.Decode(s)
      case IllegalAttachments => Thrown
      case ParserError => Outcome(reconstructor, [DecodeError])
      case Incoming(kind, attachments, nsp, id, text) =>
        match DataOf(text)
        case None => Outcome(reconstructor, [DecodeError])
        case Some(data) =>
          var packet := Decoded(kind, nsp, id, data);
          match attachments
          case None => Outcome(reconstructor, [packet])
          case Some(n) => Outcome(Some(Reconstructor(packet, n, [])), if n == Nat(0) then [packet] else []))
    case BinFrame(b) =>
      match reconstructor
      case None => Thrown
      case Some(r) =>
        var buffers := r.buffers + [b];
        if Nat(|buffers|) == r.attachments && r.packet.Decoded? then
          Outcome(None, [r.packet.(data := Reconstruct(r.packet.data, buffers))])
        else Outcome(Some(r.(buffers := buffers)), [])
  }

  /** All frames fed to one decoder. */
  function AddAll(reconstructor: Option<Reconstructor>, frames: seq<Frame>): Added {
    Feed(Add, reconstructor, frames)
  }

  /** The decoder object and the events it has emitted so far. */
  class Decoder {
    var reconstructor: Option<Reconstructor>
    var emitted: seq<Event>

    constructor ()
      ensures reconstructor == None && emitted == []
    {
      reconstructor, emitted := None, [];
    }

    method AddFrame(frame: Frame) returns (ok: bool)
      modifies this
      ensures match Add(old(reconstructor), frame)
        case Thrown => !ok && reconstructor == old(reconstructor) && emitted == old(emitted)
        case Outcome(next, events) => ok && reconstructor == next && emitted == old(emitted) + events
    {
      match frame {
        case TextFrame(s) =>
          var header := DecodeString(s);
          if header.IllegalAttachments? {
            return false;
          }
          var data := if header.ParserError? then None else DataOf(header.data);
          if data.None? {
            emitted := emitted + [DecodeError];
            return true;
          }
          var packet := Decoded(header.kind, header.nsp, header.id, data.value);
          if header.attachments.Some? {
            reconstructor := Some(Reconstructor(packet, header.attachments.value, []));
            if header.attachments.value == Nat(0) {
              emitted := emitted + [packet];
            }
          } else {
            emitted := emitted + [packet];
          }
          return true;
        case BinFrame(b) =>
          if reconstructor.None? {
            return false;
          }
          var r := reconstructor.value;
          var buffers := r.buffers + [b];
          reconstructor := Some(r.(buffers := buffers));
          if Nat(|buffers|) == r.attachments && r.packet.Decoded? {
            emitted := emitted + [r.packet.(data := Reconstruct(r.packet.data, buffers))];
            reconstructor := None;
          }
          return true;
      }
    }
  }

  // ---------------------------------------------------------------- one packet

  /** Data that JSON carries without loss, ArrayBuffers aside. */
  predicate Faithful(v: Value) {
    match v
    case Undef => false
    case Num(n) => n.Finite()
    case Arr(items) => forall i | 0 <= i < |items| :: Faithful(items[i])
    case Obj(members) => PROTO !in members && forall k | k in members :: Faithful(members[k])
    case _ => true
  }

  predicate HasBin(v: Value) {
    match v
    case Bin(_) => true
    case Arr(items) => exists i | 0 <= i < |items| :: HasBin(items[i])
    case Obj(members) => exists k | k in members :: HasBin(members[k])
    case _ => false
  }

  /** A number whose text starts with a digit. */
  predicate ReadsAsId(v: Value) {
    v.Num? && v.num.Finite() && !([MINUS] <= NumberText(v.num))
  }

  /** A packet that the wire format can carry: in particular no number that starts with a digit as
      the whole of its data, ArrayBuffers only in the two binary types, and beside ArrayBuffers no
      object that looks like a placeholder. */
  predicate Sendable(p: Packet) {
    && NspIsSafe(p.nsp) && WellFormed(p.data)
    && (p.data.Undef? || (Faithful(p.data) && !p.data.Null?))
    && !ReadsAsId(p.data)
    && (HasBin(p.data) ==> IsBinary(p.kind) && Clean(p.data))
  }

  function Delivered(p: Packet): Event {
    Decoded(p.kind, p.nsp, match p.id { case None => None case Some(n) => Some(Nat(n)) }, p.data)
  }

  /** Deconstruction keeps numbers as they are, and leaves JSON where there was nothing else but
      ArrayBuffers. */
  lemma {:induction false} DeconstructedIsPlain(v: Value, order: Order, n: nat)
    requires WellFormed(v) && Enumerates(order)
    ensures WellFormed(Deconstruct(v, order, n)) && (Faithful(v) ==> Plain(Deconstruct(v, order, n)))
    decreases v, 1
  {
    match v {
      case Bin(_) => assert PLACEHOLDER != PROTO by { assert |PLACEHOLDER| != |PROTO|; }
      case Arr(items) => DeconstructedItemsArePlain(items, order, n);
      case Obj(members) =>
        var w := Deconstruct(v, order, n);
        forall k
          ensures k in w.members ==> k != PROTO && WellFormed(w.members[k]) && (Faithful(v) ==> Plain(w.members[k]))
        {
          DeconstructedMemberIsPlain(v, order, n, k);
        }
      case _ =>
    }
  }

  lemma {:induction false} DeconstructedMemberIsPlain(v: Value, order: Order, n: nat, k: Str)
    requires v.Obj? && WellFormed(v) && Enumerates(order)
    ensures var parts := DeconstructMembers(v, order(v.members), order, n, map[]);
      k in parts ==> k != PROTO && WellFormed(parts[k]) && (Faithful(v) ==> Plain(parts[k]))
    decreases v, 0
  {
    var keys := order(v.members);
    var parts := DeconstructMembers(v, keys, order, n, map[]);
    DeconstructedMember(v, keys, order, n, map[], k);
    if k in parts {
      var m := n + Offset(v, keys, k, order);
      assert parts[k] == Deconstruct(v.members[k], order, m);
      DeconstructedIsPlain(v.members[k], order, m);
    }
  }

  lemma {:induction false} DeconstructedItemsArePlain(items: seq<Value>, order: Order, n: nat)
    requires WellFormed(Arr(items)) && Enumerates(order)
    ensures WellFormed(Arr(DeconstructItems(items, order, n)))
    ensures Faithful(Arr(items)) ==> Plain(Arr(DeconstructItems(items, order, n)))
    decreases items, 0
  {
    if items != [] {
      assert WellFormed(Arr(items[1..])) && (Faithful(Arr(items)) ==> Faithful(Arr(items[1..])));
      DeconstructedIsPlain(items[0], order, n);
      DeconstructedItemsArePlain(items[1..], order, n + |Leaves(items[0], order)|);
      var xs := DeconstructItems(items[1..], order, n + |Leaves(items[0], order)|);
      assert forall i | 0 < i < |items| :: DeconstructItems(items, order, n)[i] == xs[i - 1];
    }
  }

  lemma {:induction false} NoLeavesWithoutBin(v: Value, order: Order)
    requires !HasBin(v)
    ensures Leaves(v, order) == []
    decreases v, 1
  {
    match v {
      case Arr(items) => NoLeavesOfItems(items, order);
      case Obj(members) => NoLeavesOfMembers(v, order(members), order);
      case _ =>
    }
  }

  lemma {:induction false} NoLeavesOfItems(items: seq<Value>, order: Order)
    requires !HasBin(Arr(items))
    ensures LeavesOfItems(items, order) == []
    decreases items, 0
  {
    if items != [] {
      assert forall i | 0 <= i < |items| - 1 :: items[1..][i] == items[i + 1];
      NoLeavesWithoutBin(items[0], order);
      NoLeavesOfItems(items[1..], order);
    }
  }

  lemma {:induction false} NoLeavesOfMembers(v: Value, keys: seq<Str>, order: Order)
    requires v.Obj? && !HasBin(v)
    ensures LeavesOfMembers(v, keys, order) == []
    decreases v, 0, |keys|
  {
    if keys != [] {
      if keys[0] in v.members {
        NoLeavesWithoutBin(v.members[keys[0]], order);
      }
      NoLeavesOfMembers(v, keys[1..], order);
    }
  }

  /** Without ArrayBuffers there is nothing to deconstruct. */
  lemma {:induction false} DeconstructWithoutBin(v: Value, order: Order, n: nat)
    requires Faithful(v) && Enumerates(order) && Leaves(v, order) == []
    ensures Deconstruct(v, order, n) == v
    decreases v, 1
  {
    match v {
      case Arr(items) => DeconstructItemsWithoutBin(items, order, n);
      case Obj(members) =>
        var keys, w := order(members), Deconstruct(v, order, n);
        forall k
          ensures k in w.members <==> k in members
          ensures k in members ==> w.members[k] == members[k]
        {
          DeconstructedMember(v, keys, order, n, map[], k);
          if k in members {
            LeavesAtOffset(v, keys, k, order, [], 0);
            DeconstructWithoutBin(members[k], order, n + Offset(v, keys, k, order));
          }
        }
        assert w.members == members;
      case _ =>
    }
  }

  lemma {:induction false} DeconstructItemsWithoutBin(items: seq<Value>, order: Order, n: nat)
    requires Faithful(Arr(items)) && Enumerates(order) && LeavesOfItems(items, order) == []
    ensures DeconstructItems(items, order, n) == items
    decreases items, 0
  {
    if items != [] {
      DeconstructWithoutBin(items[0], order, n);
      DeconstructItemsWithoutBin(items[1..], order, n);
      assert items == [items[0]] + items[1..];
    }
  }

  lemma {:induction false} PlainIsFaithfulWithoutBin(v: Value)
    ensures Plain(v) <==> Faithful(v) && !HasBin(v)
  {
    match v {
      case Arr(items) =>
        forall i | 0 <= i < |items| ensures Plain(items[i]) <==> Faithful(items[i]) && !HasBin(items[i]) {
          PlainIsFaithfulWithoutBin(items[i]);
        }
      case Obj(members) =>
        forall k | k in members ensures Plain(members[k]) <==> Faithful(members[k]) && !HasBin(members[k]) {
          PlainIsFaithfulWithoutBin(members[k]);
        }
      case _ =>
    }
  }

  lemma {:induction false} NormalIsPlain(v: Value)
    ensures Plain(Normal(v))
  {
    match v {
      case Arr(items) =>
        forall i | 0 <= i < |items| ensures Plain(Normal(items[i])) { NormalIsPlain(items[i]); }
      case Obj(members) =>
        forall k | k in members ensures Plain(Normal(members[k])) { NormalIsPlain(members[k]); }
      case _ =>
    }
  }

  /** Text that is not taken for an id or a namespace. */
  predicate ReadsAsData(s: Str) { s != [] && !NumberLike(s[0]) && s[0] != SLASH }

  lemma FirstCharacter(v: Value, order: Order)
    requires !v.Undef? && WellFormed(v) && !ReadsAsId(v)
    ensures ReadsAsData(Serialize(v, order, [], []))
  {
    match v {
      case Num(n) => FirstOfNumber(n);
      case Null => assert NULL_TEXT[0] == 110;
      case Bool(_) => assert TRUE_TEXT[0] == 116 && FALSE_TEXT[0] == 102;
      case Arr(_) => FirstOfStructure(v, order);
      case Obj(_) => FirstOfStructure(v, order);
      case String(s) => assert Quote(s)[0] == QUOTE;
      case _ =>
    }
  }

  lemma FirstOfStructure(v: Value, order: Order)
    requires v.Arr? || v.Obj?
    ensures ReadsAsData(Serialize(v, order, [], []))
  {
    match v {
      case Arr(items) => FirstOfEnclosed(LBRACKET, SerializeItems(items, order, [], [] + []), RBRACKET);
      case Obj(members) => FirstOfEnclosed(LBRACE, SerializeMembers(v, order(members), order, [], [] + []), RBRACE);
    }
  }

  lemma FirstOfNumber(n: Number)
    requires WellFormed(Num(n)) && !ReadsAsId(Num(n))
    ensures ReadsAsData(NumberText(n))
  {
    var s := NumberText(n);
    if n.Finite() {
      assert s[0] == [MINUS][0];
    } else {
      assert NULL_TEXT[0] == 110;
    }
  }

  lemma FirstOfEnclosed(open: CodeUnit, parts: seq<Str>, close: CodeUnit)
    ensures Enclose(open, parts, close, [], []) != [] && Enclose(open, parts, close, [], [])[0] == open
  {
  }

  /** The data that the text of `data` parses to. */
  function Printed(data: Value): Value {
    if data.Undef? || data.Null? then Undef else Normal(data)
  }

  /** The text frame of a packet, unless its data reads as an id. */
  lemma TextFrameRoundTrip(p: Packet, attachments: nat, data: Value, order: Order, r: Option<Reconstructor>)
    requires NspIsSafe(p.nsp) && Enumerates(order) && WellFormed(data) && !ReadsAsId(data)
    ensures var packet := Delivered(p.(data := Printed(data)));
      Add(r, TextFrame(Encode(Outgoing(p.kind, attachments, p.nsp, p.id, JsonText(data, order)))))
      == if !IsBinary(p.kind) then Outcome(r, [packet])
         else Outcome(Some(Reconstructor(packet, Nat(attachments), [])), if attachments == 0 then [packet] else [])
  {
    var out := Outgoing(p.kind, attachments, p.nsp, p.id, JsonText(data, order));
    if !data.Undef? && !data.Null? {
      FirstCharacter(data, order);
      ParseOfStringify(data, order, []);
    }
    HeaderRoundTrip(out);
  }

  /** The binary frames of a packet, after its text frame. */
  lemma {:induction false} BinFramesRoundTrip(packet: Event, n: nat, done: seq<Bytes>, todo: seq<Bytes>)
    requires packet.Decoded? && n == |done| + |todo|
    ensures var r := Some(Reconstructor(packet, Nat(n), done));
      Feed(Add, r, BinFrames(todo))
      == if todo == [] then Outcome(r, []) else Outcome(None, [packet.(data := Reconstruct(packet.data, done + todo))])
    decreases |todo|
  {
    if todo != [] {
      var r := Some(Reconstructor(packet, Nat(n), done));
      BinFramesRoundTrip(packet, n, done + [todo[0]], todo[1..]);
      FeedOne(Add, r, BinFrame(todo[0]), BinFrames(todo[1..]));
      Assoc(done, [todo[0]], todo[1..]);
      assert [todo[0]] + todo[1..] == todo;
      assert |todo| == 1 ==> todo == [todo[0]];
    }
  }

  lemma BinaryTextRoundTrip(p: Packet, order: Order, r: Option<Reconstructor>)
    requires NspIsSafe(p.nsp) && WellFormed(p.data) && !ReadsAsId(p.data) && Enumerates(order) && IsBinary(p.kind)
    ensures var packet := Delivered(p.(data := Printed(Deconstruct(p.data, order, 0))));
      var n := |Leaves(p.data, order)|;
      Add(r, Encoded(p, order)[0])
      == Outcome(Some(Reconstructor(packet, Nat(n), [])), if n == 0 then [packet] else [])
  {
    DeconstructedIsPlain(p.data, order, 0);
    TextFrameRoundTrip(p, |Leaves(p.data, order)|, Deconstruct(p.data, order, 0), order, r);
  }

  lemma AllBinFrames(packet: Event, n: nat, buffers: seq<Bytes>)
    requires packet.Decoded? && n == |buffers|
    ensures Feed(Add, Some(Reconstructor(packet, Nat(n), [])), BinFrames(buffers))
         == if buffers == [] then Outcome(Some(Reconstructor(packet, Nat(n), [])), [])
            else Outcome(None, [packet.(data := Reconstruct(packet.data, buffers))])
  {
    BinFramesRoundTrip(packet, n, [], buffers);
    assert [] + buffers == buffers;
  }

  /** A text frame that announces as many attachments as follow. */
  lemma BinaryFramesRoundTrip(packet: Event, text: Frame, buffers: seq<Bytes>, r: Option<Reconstructor>)
    requires packet.Decoded?
    requires Add(r, text)
          == Outcome(Some(Reconstructor(packet, Nat(|buffers|), [])), if |buffers| == 0 then [packet] else [])
    ensures var added := AddAll(r, [text] + BinFrames(buffers));
      && added.Outcome?
      && added.events == [if buffers == [] then packet else packet.(data := Reconstruct(packet.data, buffers))]
  {
    var waiting := Some(Reconstructor(packet, Nat(|buffers|), []));
    AllBinFrames(packet, |buffers|, buffers);
    FeedHead(Add, r, text, BinFrames(buffers), Outcome(waiting, if |buffers| == 0 then [packet] else []),
             if buffers == [] then Outcome(waiting, [])
             else Outcome(None, [packet.(data := Reconstruct(packet.data, buffers))]));
  }

  // ---------------------------------------------------------------- which packets come back

  lemma PrintedIsExact(data: Value)
    ensures Printed(data) == data <==> data.Undef? || (Plain(data) && !data.Null?)
  {
    NormalIsIdentity(data);
  }

  /** What is put together from a text and buffers held nothing that JSON loses. */
  lemma {:induction false} BackIsFaithful(v: Value, order: Order, n: nat, buffers: seq<Bytes>)
    requires Enumerates(order) && Reconstruct(Normal(Deconstruct(v, order, n)), buffers) == v
    ensures Faithful(v)
    decreases v, 1
  {
    match v {
      case Arr(items) =>
        ItemsBack(items, DeconstructItems(items, order, n), buffers);
        forall i | 0 <= i < |items| ensures Faithful(items[i]) {
          BackItemIsFaithful(items, order, n, buffers, i);
        }
      case Obj(_) => BackObjectIsFaithful(v, order, n, buffers);
      case _ =>
    }
  }

  lemma {:induction false} BackObjectIsFaithful(v: Value, order: Order, n: nat, buffers: seq<Bytes>)
    requires v.Obj? && Enumerates(order) && Reconstruct(Normal(Deconstruct(v, order, n)), buffers) == v
    ensures Faithful(v)
    decreases v, 0, 1
  {
    var keys := order(v.members);
    var parts := DeconstructMembers(v, keys, order, n, map[]);
    assert Deconstruct(v, order, n) == Obj(parts);
    MembersBack(v.members, parts, buffers);
    forall k | k in v.members ensures k != PROTO && Faithful(v.members[k]) {
      BackMemberIsFaithful(v, order, n, parts, k, buffers);
    }
  }

  lemma {:induction false} BackMemberIsFaithful(
      v: Value, order: Order, n: nat, parts: map<Str, Value>, k: Str, buffers: seq<Bytes>)
    requires v.Obj? && k in v.members && Enumerates(order)
    requires parts == DeconstructMembers(v, order(v.members), order, n, map[])
    requires k in parts && k != PROTO && Reconstruct(Normal(parts[k]), buffers) == v.members[k]
    ensures Faithful(v.members[k])
    decreases v, 0, 0
  {
    var keys, item := order(v.members), v.members[k];
    DeconstructedMember(v, keys, order, n, map[], k);
    var m := n + Offset(v, keys, k, order);
    assert parts[k] == Deconstruct(item, order, m);
    BackIsFaithful(item, order, m, buffers);
  }

  lemma ItemsBack(items: seq<Value>, xs: seq<Value>, buffers: seq<Bytes>)
    requires Reconstruct(Normal(Arr(xs)), buffers) == Arr(items)
    ensures |xs| == |items| && forall i | 0 <= i < |items| :: Reconstruct(Normal(xs[i]), buffers) == items[i]
  {
    var normal := Normal(Arr(xs));
    var back := Reconstruct(normal, buffers).items;
    forall i | 0 <= i < |items| ensures Reconstruct(Normal(xs[i]), buffers) == items[i] {
      assert back[i] == Reconstruct(normal.items[i], buffers) && normal.items[i] == Normal(xs[i]);
    }
  }

  lemma MembersBack(members: map<Str, Value>, parts: map<Str, Value>, buffers: seq<Bytes>)
    requires Reconstruct(Normal(Obj(parts)), buffers) == Obj(members)
    ensures forall k | k in members ::
      k in parts && k != PROTO && Reconstruct(Normal(parts[k]), buffers) == members[k]
  {
    var normal := Normal(Obj(parts));
    assert !IsPlaceholder(normal);
    var back := Reconstruct(normal, buffers).members;
    forall k | k in members ensures k in parts && k != PROTO && Reconstruct(Normal(parts[k]), buffers) == members[k] {
      assert k in back && back[k] == Reconstruct(normal.members[k], buffers);
      assert k in normal.members && normal.members[k] == Normal(parts[k]);
    }
  }

  lemma DeconstructedItem(items: seq<Value>, order: Order, n: nat, i: nat)
    requires 0 < i < |items|
    ensures DeconstructItems(items, order, n)[i]
         == DeconstructItems(items[1..], order, n + |Leaves(items[0], order)|)[i - 1]
  {
  }

  lemma {:induction false} BackItemIsFaithful(items: seq<Value>, order: Order, n: nat, buffers: seq<Bytes>, i: nat)
    requires i < |items| && Enumerates(order)
    requires Reconstruct(Normal(DeconstructItems(items, order, n)[i]), buffers) == items[i]
    ensures Faithful(items[i])
    decreases items, 0
  {
    if i == 0 {
      assert DeconstructItems(items, order, n)[0] == Deconstruct(items[0], order, n);
      BackIsFaithful(items[0], order, n, buffers);
    } else {
      var m := n + |Leaves(items[0], order)|;
      DeconstructedItem(items, order, n, i);
      assert items[1..][i - 1] == items[i];
      BackItemIsFaithful(items[1..], order, m, buffers, i - 1);
    }
  }

  /** The data of a packet in one of the binary types. */
  lemma DataComesBackIff(data: Value, order: Order)
    requires WellFormed(data) && Enumerates(order)
    ensures var buffers, w := Leaves(data, order), Printed(Deconstruct(data, order, 0));
      (if buffers == [] then w else Reconstruct(w, buffers)) == data
      <==> data.Undef? || (Faithful(data) && !data.Null? && (HasBin(data) ==> Clean(data)))
  {
    var buffers, w := Leaves(data, order), Deconstruct(data, order, 0);
    DeconstructedIsPlain(data, order, 0);
    PrintedIsExact(w);
    PlainIsFaithfulWithoutBin(data);
    if buffers == [] {
      NormalIsPlain(w);
      if Faithful(data) {
        DeconstructWithoutBin(data, order, 0);
      }
    } else {
      if !HasBin(data) {
        NoLeavesWithoutBin(data, order);
      }
      if Reconstruct(Normal(w), buffers) == data {
        BackIsFaithful(data, order, 0, buffers);
      }
      ReconstructOfDeconstruct(data, order);
    }
  }

  /** The frames of a packet put out the packet once and nothing else. */
  predicate ComesBack(p: Packet, order: Order, r: Option<Reconstructor>) {
    var added := AddAll(r, Encoded(p, order));
    added.Outcome? && added.events == [Delivered(p)]
  }

  lemma TextPacketComesBackIff(p: Packet, order: Order, r: Option<Reconstructor>)
    requires NspIsSafe(p.nsp) && WellFormed(p.data) && !ReadsAsId(p.data) && Enumerates(order) && !IsBinary(p.kind)
    ensures ComesBack(p, order, r) <==> Sendable(p)
  {
    var packet := Delivered(p.(data := Printed(p.data)));
    TextPacketDecoded(p, order, r);
    assert [packet] == [Delivered(p)] <==> packet.data == p.data;
    PrintedIsExact(p.data);
    PlainIsFaithfulWithoutBin(p.data);
  }

  lemma TextPacketDecoded(p: Packet, order: Order, r: Option<Reconstructor>)
    requires NspIsSafe(p.nsp) && WellFormed(p.data) && !ReadsAsId(p.data) && Enumerates(order) && !IsBinary(p.kind)
    ensures AddAll(r, Encoded(p, order)) == Outcome(r, [Delivered(p.(data := Printed(p.data)))])
  {
    TextFrameRoundTrip(p, 0, p.data, order, r);
    FeedOne(Add, r, Encoded(p, order)[0], []);
    assert Encoded(p, order) == [Encoded(p, order)[0]] + [];
  }

  lemma BinaryPacketComesBackIff(p: Packet, order: Order, r: Option<Reconstructor>)
    requires NspIsSafe(p.nsp) && WellFormed(p.data) && !ReadsAsId(p.data) && Enumerates(order) && IsBinary(p.kind)
    ensures ComesBack(p, order, r) <==> Sendable(p)
  {
    var text, buffers := Encoded(p, order)[0], Leaves(p.data, order);
    BinaryTextRoundTrip(p, order, r);
    var w := Printed(Deconstruct(p.data, order, 0));
    BinaryFramesRoundTrip(Delivered(p.(data := w)), text, buffers, r);
    assert Encoded(p, order) == [text] + BinFrames(buffers);
    var back := if buffers == [] then w else Reconstruct(w, buffers);
    assert AddAll(r, Encoded(p, order)).events == [Delivered(p.(data := back))];
    assert [Delivered(p.(data := back))] == [Delivered(p)] <==> Delivered(p.(data := back)).data == p.data;
    DataComesBackIff(p.data, order);
  }

  // ---------------------------------------------------------------- which packets do not

  /** An event that is not the packet: another namespace, or no data instead of a number. */
  predicate Foreign(e: Event, p: Packet) {
    e.Decoded? ==> e.nsp != p.nsp || (p.data.Num? && e.data.Undef?)
  }

  lemma {:induction false} ForeignStays(p: Packet, r: Option<Reconstructor>, todo: seq<Bytes>)
    requires r.Some? ==> Foreign(r.value.packet, p)
    ensures var added := Feed(Add, r, BinFrames(todo));
      added.Outcome? ==> forall e | e in added.events :: Foreign(e, p)
    decreases |todo|
  {
    if todo != [] && r.Some? {
      var first := Add(r, BinFrame(todo[0]));
      ForeignStays(p, first.next, todo[1..]);
      assert BinFrames(todo)[1..] == BinFrames(todo[1..]);
    }
  }

  /** What the decoder puts out first is foreign, or is going to be. */
  predicate StartsForeign(next: Option<Reconstructor>, events: seq<Event>, p: Packet) {
    if events == [] then next.Some? && Foreign(next.value.packet, p) else Foreign(events[0], p)
  }

  lemma ForeignText(p: Packet, s: Str, r: Option<Reconstructor>)
    requires var header := PacketHeader.Decode(s);
      header.Incoming? ==> header.nsp != p.nsp || (p.data.Num? && DataOf(header.data).GetOr(Undef) == Undef)
    ensures Add(r, TextFrame(s)).Outcome? ==>
      StartsForeign(Add(r, TextFrame(s)).next, Add(r, TextFrame(s)).events, p)
  {
  }

  lemma ForeignDoesNotComeBack(p: Packet, order: Order, r: Option<Reconstructor>, s: Str, todo: seq<Bytes>)
    requires Encoded(p, order) == [TextFrame(s)] + BinFrames(todo)
    requires var header := PacketHeader.Decode(s);
      header.Incoming? ==> header.nsp != p.nsp || (p.data.Num? && DataOf(header.data).GetOr(Undef) == Undef)
    ensures !ComesBack(p, order, r)
  {
    ForeignText(p, s, r);
    ForeignStart(p, r, TextFrame(s), todo);
  }

  lemma ForeignStart(p: Packet, r: Option<Reconstructor>, text: Frame, todo: seq<Bytes>)
    requires Add(r, text).Outcome? ==> StartsForeign(Add(r, text).next, Add(r, text).events, p)
    ensures var added := AddAll(r, [text] + BinFrames(todo));
      added.Outcome? ==> added.events != [Delivered(p)]
  {
    var first := Add(r, text);
    if first.Outcome? {
      FeedOne(Add, r, text, BinFrames(todo));
      var more := Feed(Add, first.next, BinFrames(todo));
      if first.events == [] {
        ForeignStays(p, first.next, todo);
        assert more.Outcome? ==> first.events + more.events == more.events;
      } else {
        assert more.Outcome? ==> (first.events + more.events)[0] == first.events[0];
      }
      assert !Foreign(Delivered(p), p) && [Delivered(p)][0] == Delivered(p);
    }
  }

  /** A numeral that starts with a digit has nothing like an id or JSON behind its first digits. */
  lemma AfterTheDigits(n: Number)
    requires WellFormed(Num(n)) && ReadsAsId(Num(n))
    ensures var t := NumberText(n);
      var rest := t[DigitRun(t)..];
      t != [] && IsDigit(t[0]) && (rest == [] || (!NumberLike(rest[0]) && Parse(rest) == None))
  {
    var t := NumberText(n);
    if n.Int? {
      IntegerRoundTrip(n.n);
    }
    assert t[0] == MINUS ==> [MINUS] <= t;
    assert Unsigned(t) == Some([]);
    RestOfNumeral(t[DigitRun(t)..]);
  }

  lemma RestOfNumeral(rest: Str)
    requires SkipFractionAndExponent(rest) == Some([])
    ensures rest == [] || (!NumberLike(rest[0]) && Parse(rest) == None)
  {
    if rest != [] {
      assert rest[0] == DOT || rest[0] == 101 || rest[0] == 69;
      assert Lex(rest) == LexLiteral(rest);
      assert TRUE_TEXT[0] != rest[0] && FALSE_TEXT[0] != rest[0] && NULL_TEXT[0] != rest[0];
    }
  }

  lemma IdAndNumber(id: Str, n: Number)
    requires AllDigits(id) && WellFormed(Num(n)) && ReadsAsId(Num(n))
    ensures DataOf(DecodeIdAndData(id + NumberText(n)).1).GetOr(Undef) == Undef
  {
    var t := NumberText(n);
    var k := |id| + DigitRun(t);
    AfterTheDigits(n);
    assert (id + t)[k..] == t[DigitRun(t)..];
    forall i | 0 <= i < k ensures NumberLike((id + t)[i]) {
      assert i >= |id| ==> (id + t)[i] == t[..DigitRun(t)][i - |id|];
    }
    NumberRunIs(id + t, k);
  }

  /** The digits of a number are taken for an id, or for the end of one. */
  lemma NumberIsTaken(p: Outgoing, n: Number)
    requires NspIsSafe(p.nsp) && WellFormed(Num(n)) && ReadsAsId(Num(n)) && p.data == Some(NumberText(n))
    ensures var header := PacketHeader.Decode(Encode(p));
      header.Incoming? && DataOf(header.data).GetOr(Undef) == Undef
  {
    AfterTheDigits(n);
    IdAndNumber(IdText(p.id), n);
    if IsBinary(p.kind) {
      BinaryHeader(p);
    } else {
      TextHeader(p);
    }
    NspRoundTrip(p);
  }

  lemma NotSendableHeader(p: Packet, attachments: nat, data: Option<Str>)
    requires WellFormed(p.data) && (!NspIsSafe(p.nsp) || (ReadsAsId(p.data) && data == Some(NumberText(p.data.num))))
    ensures var header := PacketHeader.Decode(Encode(Outgoing(p.kind, attachments, p.nsp, p.id, data)));
      header.Incoming? ==> header.nsp != p.nsp || (p.data.Num? && DataOf(header.data).GetOr(Undef) == Undef)
  {
    var out := Outgoing(p.kind, attachments, p.nsp, p.id, data);
    if NspIsSafe(p.nsp) {
      NumberIsTaken(out, p.data.num);
    } else {
      if IsBinary(p.kind) {
        BinaryHeader(out);
      } else {
        TextHeader(out);
      }
      DecodedNspIsSafe(BodyText(out));
    }
  }

  lemma NotSendableDoesNotComeBack(p: Packet, order: Order, r: Option<Reconstructor>)
    requires WellFormed(p.data) && (!NspIsSafe(p.nsp) || ReadsAsId(p.data))
    ensures !ComesBack(p, order, r)
  {
    if IsBinary(p.kind) {
      var buffers, text := Leaves(p.data, order), JsonText(Deconstruct(p.data, order, 0), order);
      NotSendableHeader(p, |buffers|, text);
      ForeignDoesNotComeBack(p, order, r, Encode(Outgoing(p.kind, |buffers|, p.nsp, p.id, text)), buffers);
    } else {
      var s := Encode(Outgoing(p.kind, 0, p.nsp, p.id, JsonText(p.data, order)));
      assert [TextFrame(s)] + BinFrames([]) == [TextFrame(s)];
      NotSendableHeader(p, 0, JsonText(p.data, order));
      ForeignDoesNotComeBack(p, order, r, s, []);
    }
  }

  /** A packet is decoded as it was sent, whatever the decoder was doing before, exactly if it is
      sendable. */
  lemma PacketRoundTrip(p: Packet, order: Order, r: Option<Reconstructor>)
    requires WellFormed(p.data) && Enumerates(order)
    ensures ComesBack(p, order, r) <==> Sendable(p)
  {
    if !NspIsSafe(p.nsp) || ReadsAsId(p.data) {
      NotSendableDoesNotComeBack(p, order, r);
    } else if IsBinary(p.kind) {
      BinaryPacketComesBackIff(p, order, r);
    } else {
      TextPacketComesBackIff(p, order, r);
    }
  }

  lemma SendableComesBack(p: Packet, order: Order, r: Option<Reconstructor>)
    requires Sendable(p) && Enumerates(order)
    ensures AddAll(r, Encoded(p, order)).Outcome? && AddAll(r, Encoded(p, order)).events == [Delivered(p)]
  {
    PacketRoundTrip(p, order, r);
  }

  function DeliveredAll(ps: seq<Packet>): seq<Event> {
    seq(|ps|, i requires 0 <= i < |ps| => Delivered(ps[i]))
  }

  lemma DeliveredFirst(ps: seq<Packet>)
    requires ps != []
    ensures DeliveredAll(ps) == [Delivered(ps[0])] + DeliveredAll(ps[1..])
  {
  }

  /** The frames of any sequence of sendable packets are decoded as exactly that sequence. */
  lemma {:induction false} StreamRoundTrip(ps: seq<Packet>, order: Order, r: Option<Reconstructor>)
    requires Enumerates(order) && forall i | 0 <= i < |ps| :: Sendable(ps[i])
    ensures AddAll(r, EncodedAll(ps, order)).Outcome? && AddAll(r, EncodedAll(ps, order)).events == DeliveredAll(ps)
  {
    if ps != [] {
      var first, rest := Encoded(ps[0], order), EncodedAll(ps[1..], order);
      SendableComesBack(ps[0], order, r);
      StreamRoundTrip(ps[1..], order, AddAll(r, first).next);
      FeedBoth(Add, r, first, rest, [Delivered(ps[0])], DeliveredAll(ps[1..]));
      DeliveredFirst(ps);
    }
  }

  lemma FeedBoth<S, F, E>(step: (S, F) -> Outcome<S, E>, s: S, a: seq<F>, b: seq<F>, head: seq<E>, tail: seq<E>)
    requires Feed(step, s, a).Outcome? && Feed(step, s, a).events == head
    requires var more := Feed(step, Feed(step, s, a).next, b); more.Outcome? && more.events == tail
    ensures Feed(step, s, a + b).Outcome? && Feed(step, s, a + b).events == head + tail
  {
    FeedConcat(step, s, a, b);
  }
}
