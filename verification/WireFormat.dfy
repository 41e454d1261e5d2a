/** The wire formats of socket.io and engine.io, spelled out character by character. */
module WireFormat {
  import opened Text
  import Numerals
  import opened Json3
  import Attachments
  import PacketHeader
  import opened PacketCodec
  import Wtf8
  import Base64
  import EnginePacket
  import PayloadText
  import PayloadBinary

  // ---------------------------------------------------------------- socket.io packets

  /** Namespace, id and data, as they follow the type and the count of attachments. */
  function Body(nsp: Str, id: Option<nat>, data: Option<Str>): Str {
    (if nsp == [] || nsp == Ascii("/") then [] else nsp + (if id.None? && data.None? then [] else Ascii(",")))
    + ((if id.Some? then Decimal(id.value) else []) + (if data.Some? then data.value else []))
  }

  lemma Punctuation()
    ensures Ascii("/") == [SLASH] && Ascii(",") == [COMMA] && Ascii("-") == [MINUS] && Ascii(":") == [COLON]
    ensures Ascii("=") == [Base64.EQUALS] && Ascii("==") == [Base64.EQUALS, Base64.EQUALS]
    ensures Ascii("b") == [EnginePacket.B]
  {
  }

  lemma BodyIs(p: PacketHeader.Outgoing)
    ensures PacketHeader.BodyText(p) == Body(p.nsp, p.id, p.data)
  {
    Punctuation();
    assert p.nsp + [] == p.nsp;
  }

  /** The types 0 to 4 put nothing between their digit and the body. */
  lemma PlainPacketFrames(p: Packet, order: Order)
    requires p.kind <= 4
    ensures Encoded(p, order) == [TextFrame(['0' as int + p.kind] + Body(p.nsp, p.id, JsonText(p.data, order)))]
  {
    var out := PacketHeader.Outgoing(p.kind, 0, p.nsp, p.id, JsonText(p.data, order));
    BodyIs(out);
    assert [] + PacketHeader.BodyText(out) == PacketHeader.BodyText(out);
  }

  lemma {:induction false} FramesOfBuffers(buffers: seq<Bytes>)
    ensures |BinFrames(buffers)| == |buffers|
    ensures forall i | 0 <= i < |buffers| :: BinFrames(buffers)[i] == BinFrame(buffers[i])
  {
    if buffers != [] {
      FramesOfBuffers(buffers[1..]);
    }
  }

  /** The types 5 and 6 put the number of buffers and a dash there, and the buffers follow. */
  lemma BinaryPacketFrames(p: Packet, order: Order)
    requires p.kind >= 5
    ensures var buffers, frames := Attachments.Leaves(p.data, order), Encoded(p, order);
      var text := JsonText(Attachments.Deconstruct(p.data, order, 0), order);
      && |frames| == 1 + |buffers|
      && frames[0] == TextFrame(['0' as int + p.kind] + (Decimal(|buffers|) + Ascii("-") + Body(p.nsp, p.id, text)))
      && forall i | 0 <= i < |buffers| :: frames[1 + i] == BinFrame(buffers[i])
  {
    var buffers, text := Attachments.Leaves(p.data, order), JsonText(Attachments.Deconstruct(p.data, order, 0), order);
    FramesOfBuffers(buffers);
    CountedText(PacketHeader.Outgoing(p.kind, |buffers|, p.nsp, p.id, text));
  }

  lemma CountedText(out: PacketHeader.Outgoing)
    requires out.kind >= 5
    ensures PacketHeader.Encode(out)
         == ['0' as int + out.kind] + (Decimal(out.attachments) + Ascii("-") + Body(out.nsp, out.id, out.data))
  {
    Punctuation();
    BodyIs(out);
  }

  /** Whatever follows a digit 0 to 4, the decoder does not fail and waits for nothing: it puts out one
      packet of that type, or one error if what stands behind namespace and id is no JSON text. */
  lemma PlainTextIsDecodedAtOnce(r: Option<Reconstructor>, kind: nat, rest: Str)
    requires kind <= 4
    ensures var body := PacketHeader.DecodeBody(kind, None, rest);
      Add(r, TextFrame(['0' as int + kind] + rest)) ==
        if body.data.Some? && Parse(body.data.value).None? then Outcome(r, [DecodeError])
        else
          Outcome(r, [Decoded(kind, body.nsp, body.id,
                              if body.data.None? then Undef else Parse(body.data.value).value)])
  {
    assert (['0' as int + kind] + rest)[1..] == rest;
  }

  /** Behind a digit 5 or 6 the decoder reads a number up to a dash, and fails if there is none. */
  lemma BinaryTextIsCounted(r: Option<Reconstructor>, kind: nat, count: Str, rest: Str)
    requires 5 <= kind <= 6 && '-' as int !in count
    ensures Add(r, TextFrame(['0' as int + kind] + count)) == Thrown
    ensures var added := Add(r, TextFrame(['0' as int + kind] + (count + Ascii("-") + rest)));
      var n, body := ToNumber(count), PacketHeader.DecodeBody(kind, None, rest);
      if n.NaN? then added == Thrown
      else if body.data.Some? && Parse(body.data.value).None? then added == Outcome(r, [DecodeError])
      else
        var data := if body.data.None? then Undef else Parse(body.data.value).value;
        var packet := Decoded(kind, body.nsp, body.id, data);
        added == Outcome(Some(Reconstructor(packet, n, [])), if n == Nat(0) then [packet] else [])
  {
    Punctuation();
    WithoutDash(kind, count);
    WithDash(kind, count, rest);
  }

  lemma WithoutDash(kind: nat, count: Str)
    requires 5 <= kind <= 6 && '-' as int !in count
    ensures PacketHeader.Decode(['0' as int + kind] + count) == PacketHeader.IllegalAttachments
  {
    assert (['0' as int + kind] + count)[1..] == count;
    NoDash(count);
  }

  lemma WithDash(kind: nat, count: Str, rest: Str)
    requires 5 <= kind <= 6 && '-' as int !in count
    ensures PacketHeader.Decode(['0' as int + kind] + (count + [MINUS] + rest)) ==
      if ToNumber(count).NaN? then PacketHeader.IllegalAttachments
      else PacketHeader.DecodeBody(kind, Some(ToNumber(count)), rest)
  {
    var after := count + [MINUS] + rest;
    PacketHeader.CountThenBody(count, rest);
    PacketHeader.IndexOfIs(after, MINUS, |count|);
    assert (['0' as int + kind] + after)[1..] == after;
  }

  /** White space counts as the type 0, as does an empty text; anything else but the digits 0 to 6 is an error. */
  lemma TypeIsRead(c: CodeUnit, rest: Str)
    ensures PacketHeader.Decode([c] + rest).ParserError? <==> !('0' as int <= c <= '6' as int) && c !in Numerals.WHITE
    ensures c in Numerals.WHITE ==> PacketHeader.Decode([c] + rest) == PacketHeader.DecodeBody(0, None, rest)
    ensures PacketHeader.Decode([]) == PacketHeader.DecodeBody(0, None, [])
  {
    Numerals.BlankIsWhite(c);
    assert ([c] + rest)[1..] == rest;
  }

  lemma {:induction false} NoDash(count: Str)
    requires '-' as int !in count
    ensures PacketHeader.IndexOf(count, MINUS) == |count|
  {
    if count != [] {
      NoDash(count[1..]);
    }
  }

  /** A namespace starts with a slash and ends before a comma. */
  lemma NamespaceIsRead(nsp: Str, rest: Str)
    requires nsp != [] && nsp[0] == '/' as int && ',' as int !in nsp
    ensures PacketHeader.DecodeNsp(nsp + Ascii(",") + rest) == (nsp, rest)
    ensures PacketHeader.DecodeNsp(nsp) == (nsp, [])
    ensures rest == [] || rest[0] != '/' as int ==> PacketHeader.DecodeNsp(rest) == (Ascii("/"), rest)
  {
    Punctuation();
    var s := nsp + [COMMA] + rest;
    assert s[..|nsp|] == nsp && s[|nsp| + 1..] == rest;
    PacketHeader.IndexOfIs(s, COMMA, |nsp|);
    PacketHeader.IndexOfIs(nsp, COMMA, |nsp|);
    assert nsp[..|nsp|] == nsp;
  }

  /** What reads as part of an id is a digit or white space. */
  lemma IdCharacters(c: CodeUnit)
    ensures PacketHeader.NumberLike(c) <==> '0' as int <= c <= '9' as int || c in Numerals.WHITE
  {
    Numerals.BlankIsWhite(c);
  }

  // ---------------------------------------------------------------- placeholders

  /** An ArrayBuffer becomes an object that names its place in the list. */
  lemma BufferBecomesPlaceholder(b: Bytes, order: Order, n: nat)
    ensures Attachments.Deconstruct(Bin(b), order, n)
         == Obj(map[Ascii("_placeholder") := Bool(true), Ascii("num") := Num(Int(n))])
  {
    assert Ascii("_placeholder") == Attachments.PLACEHOLDER && Ascii("num") == Attachments.NUM;
  }

  /** An object whose `_placeholder` is anything but false, zero, empty or absent is replaced by the buffer
      that its `num` names. */
  lemma PlaceholderBecomesBuffer(members: map<Str, Value>, buffers: seq<Bytes>)
    requires Ascii("_placeholder") in members
    requires members[Ascii("_placeholder")] !in
      {Undef, Null, Bool(false), Num(Int(0)), Num(NotANumber), String([])}
    ensures forall i: nat | Ascii("num") in members && members[Ascii("num")] == Num(Int(i)) && i < |buffers| ::
      Attachments.Reconstruct(Obj(members), buffers) == Bin(buffers[i])
  {
    assert Ascii("_placeholder") == Attachments.PLACEHOLDER && Ascii("num") == Attachments.NUM;
  }

  /** Any other object stays, with its members worked through. */
  lemma OtherObjectsStay(members: map<Str, Value>, buffers: seq<Bytes>)
    requires Ascii("_placeholder") !in members || members[Ascii("_placeholder")] in
             {Undef, Null, Bool(false), Num(Int(0)), Num(NotANumber), String([])}
    ensures Attachments.Reconstruct(Obj(members), buffers)
         == Obj(map k | k in members :: Attachments.Reconstruct(members[k], buffers))
  {
    assert Ascii("_placeholder") == Attachments.PLACEHOLDER;
  }

  // ---------------------------------------------------------------- base64

  /** What a character stands for in RFC 4648, section 4. */
  function Sextet(c: CodeUnit): Option<nat> {
    if 'A' as int <= c <= 'Z' as int then Some(c - 'A' as int)
    else if 'a' as int <= c <= 'z' as int then Some(26 + (c - 'a' as int))
    else if '0' as int <= c <= '9' as int then Some(52 + (c - '0' as int))
    else if c == '+' as int then Some(62)
    else if c == '/' as int then Some(63)
    else None
  }

  lemma CharIsSextet(i: nat)
    requires i < 64
    ensures Sextet(Base64.Char(i)) == Some(i)
  {
  }

  /** The four characters stand for the 24 bits of the three bytes, from the highest to the lowest. */
  lemma QuadStandsForBytes(x: Byte, y: Byte, z: Byte)
    ensures var q := Base64.Quad(x, y, z);
      && Sextet(q[0]).Some? && Sextet(q[1]).Some? && Sextet(q[2]).Some? && Sextet(q[3]).Some?
      && 262144 * Sextet(q[0]).value + 4096 * Sextet(q[1]).value + 64 * Sextet(q[2]).value + Sextet(q[3]).value
         == 65536 * x + 256 * y + z
  {
    CharIsSextet(x / 4);
    CharIsSextet(x % 4 * 16 + y / 16);
    CharIsSextet(y % 16 * 4 + z / 64);
    CharIsSextet(z % 64);
  }

  /** `==` and `=` end a text whose last group holds one byte or two. */
  lemma PaddingOfEncode(b: Bytes)
    requires 1 <= |b| <= 3
    ensures var q := Base64.Quad(b[0], Base64.ByteAt(b, 1), Base64.ByteAt(b, 2));
      Base64.Encode(b) == if |b| == 3 then q else if |b| == 2 then q[..3] + Ascii("=") else q[..2] + Ascii("==")
  {
    Punctuation();
    Base64.EncodeLast(b);
  }

  // ---------------------------------------------------------------- engine.io packets

  /** The type as a digit, then the text as WTF-8; bytes are base64 behind a `b`, or follow the type as a
      byte. */
  lemma EnginePacketMessages(p: EnginePacket.Packet)
    ensures p.data.NoData? ==> EnginePacket.EncodeText(p) == ['0' as int + p.kind]
    ensures p.data.TextData? ==> EnginePacket.EncodeText(p) == ['0' as int + p.kind] + Wtf8.Encode(p.data.s)
    ensures p.data.BinData? ==>
      EnginePacket.EncodeText(p) == Ascii("b") + ['0' as int + p.kind] + Base64.Encode(p.data.b)
    ensures EnginePacket.EncodeMixed(p) ==
      if p.data.BinData? then EnginePacket.BinMessage([p.kind] + p.data.b)
      else EnginePacket.TextMessage(EnginePacket.EncodeText(p))
  {
    Punctuation();
    assert [EnginePacket.B] + ['0' as int + p.kind] == [EnginePacket.B, '0' as int + p.kind];
  }

  /** Each packet behind the number of its characters and a colon. */
  lemma TextPayload(ps: seq<EnginePacket.Packet>)
    ensures PayloadText.EncodePayload([]) == Ascii("0:")
    ensures ps != [] ==> var m := EnginePacket.EncodeText(ps[0]);
      PayloadText.FramedAll(ps) == Decimal(|m|) + Ascii(":") + m + PayloadText.FramedAll(ps[1..])
    ensures ps != [] ==> PayloadText.EncodePayload(ps) == PayloadText.FramedAll(ps)
  {
    Punctuation();
    assert Ascii("0:") == [ZERO, COLON];
  }

  /** A payload whose first length is missing, is no natural number, or is greater than what follows the
      colon is a parser error, and so is text without a colon. */
  lemma BadLengthIsAnError(length: Str, rest: Str, more: EnginePacket.Decoded -> bool)
    requires ':' as int !in length
    requires var n := ToNumber(length); length == [] || !n.Nat? || n.n > |rest|
    ensures PayloadText.DecodePayload(length + Ascii(":") + rest, more) == [PayloadText.PARSER_ERROR]
    ensures PayloadText.DecodePayload(length, more) == [PayloadText.PARSER_ERROR]
  {
    Punctuation();
    Assoc(length, [COLON], rest);
    var s := [COLON] + rest;
    assert s[1..] == rest && [] + length == length;
    PayloadText.ScanLength(length, s, [], |length + s|, more);
    PayloadText.ScanLength(length, [], [], |length|, more);
    assert length + [] == length;
  }

  lemma {:induction false} DigitsAsBytes(n: nat)
    ensures var digits := PayloadBinary.DigitValues(Decimal(n));
      |digits| == |Decimal(n)| && forall i | 0 <= i < |digits| :: digits[i] == Decimal(n)[i] - '0' as int
  {
    PayloadBinary.DigitValuesLength(Decimal(n));
  }

  /** A flag for text or bytes, the digits of the length as numbers, 255, and the message. */
  lemma BinaryPayload(m: EnginePacket.Message)
    ensures var b := PayloadBinary.BytesOf(m);
      PayloadBinary.Frame(m)
      == [if m.BinMessage? then 1 else 0] + PayloadBinary.DigitValues(Decimal(|b|)) + [255] + b
  {
  }
}
