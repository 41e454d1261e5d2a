/** One engine.io packet as a message: `encodePacket` and `decodePacket`. */
module EnginePacket {
  import opened Text
  import Wtf8
  import Base64

  /** 0 open, 1 close, 2 ping, 3 pong, 4 message, 5 upgrade, 6 noop */
  type Kind = k: nat | k <= 6

  const B: CodeUnit := 98

  datatype Data = NoData | TextData(s: Str) | BinData(b: Bytes)

  datatype Packet = Packet(kind: Kind, data: Data)

  /** What `decodePacket` gives; a byte or character that names no type leaves the kind undefined in
      the binary forms. */
  datatype Decoded = Decoded(kind: Option<Kind>, data: Data) | Err

  /** A packet as it arrives: empty text counts as no data. */
  function Received(p: Packet): Decoded {
    Decoded(Some(p.kind), if p.data == TextData([]) then NoData else p.data)
  }

  /** A message of a payload that can hold bytes. */
  datatype Message = TextMessage(s: Str) | BinMessage(b: Bytes)

  /** `encodePacket` with UTF-8 encoding for a channel that takes text only. */
  function EncodeText(p: Packet): (m: Str)
    ensures m != []
  {
    match p.data
    case NoData => [48 + p.kind]
    case TextData(s) => [48 + p.kind] + Wtf8.Encode(s)
    case BinData(b) => [B, 48 + p.kind] + Base64.Encode(b)
  }

  /** `encodePacket` with UTF-8 encoding for a channel that takes bytes. */
  function EncodeMixed(p: Packet): Message {
    match p.data
    case BinData(b) => BinMessage([p.kind] + b)
    case _ => TextMessage(EncodeText(p))
  }

  function KindOfDigit(c: CodeUnit): Option<Kind> {
    if 48 <= c <= 54 then Some(c - 48) else None
  }

  /** `decodePacket` on text, with UTF-8 decoding. */
  function DecodeText(m: Str): Decoded {
    if m != [] && m[0] == B then DecodeBase64(m[1..]) else DecodeUtf8(m)
  }

  /** `decodeBase64Packet` */
  function DecodeBase64(m: Str): Decoded {
    Decoded(if m != [] then KindOfDigit(m[0]) else None, BinData(Base64.Decode(if m != [] then m[1..] else [])))
  }

  function DecodeUtf8(m: Str): Decoded {
    match Wtf8.Decode(m)
    case None => Err
    case Some(s) =>
      if s == [] || KindOfDigit(s[0]).None? then Err
      else Decoded(KindOfDigit(s[0]), if |s| > 1 then TextData(s[1..]) else NoData)
  }

  /** `decodePacket` on text or bytes. */
  function DecodeMessage(m: Message): Decoded {
    match m
    case TextMessage(s) => DecodeText(s)
    case BinMessage(b) =>
      Decoded(if b != [] && b[0] <= 6 then Some(b[0]) else None, BinData(if b != [] then b[1..] else []))
  }

  lemma EncodedDigit(kind: Kind, s: Str)
    ensures [48 + kind] + Wtf8.Encode(s) == Wtf8.Encode([48 + kind] + s)
  {
    assert ([48 + kind] + s)[1..] == s;
    assert Wtf8.Ucs2Decode([48 + kind] + s) == [48 + kind] + Wtf8.Ucs2Decode(s);
    assert ([48 + kind] + Wtf8.Ucs2Decode(s))[1..] == Wtf8.Ucs2Decode(s);
    assert Wtf8.EncodeCodePoint(48 + kind) == [48 + kind];
  }

  lemma TextRoundTrip(p: Packet)
    ensures DecodeText(EncodeText(p)) == Received(p)
  {
    match p.data {
      case NoData =>
        Wtf8.DecodeOfEncode([48 + p.kind]);
        EncodedDigit(p.kind, []);
        assert Wtf8.Encode([]) == [];
        assert [48 + p.kind] + [] == [48 + p.kind];
      case TextData(s) => TextDataRoundTrip(p, s);
      case BinData(b) => BinDataRoundTrip(p, b);
    }
  }

  lemma TextDataRoundTrip(p: Packet, s: Str)
    requires p.data == TextData(s)
    ensures DecodeText(EncodeText(p)) == Received(p)
  {
    Wtf8.DecodeOfEncode([48 + p.kind] + s);
    EncodedDigit(p.kind, s);
    assert EncodeText(p)[0] == 48 + p.kind;
    assert ([48 + p.kind] + s)[1..] == s;
  }

  lemma BinDataRoundTrip(p: Packet, b: Bytes)
    requires p.data == BinData(b)
    ensures DecodeText(EncodeText(p)) == Received(p)
  {
    Base64.DecodeOfEncode(b);
    DecodeBase64Text(p.kind, Base64.Encode(b), b);
  }

  lemma DecodeBase64Text(kind: Kind, text: Str, b: Bytes)
    requires Base64.Decode(text) == b
    ensures DecodeText([B, 48 + kind] + text) == Decoded(Some(kind), BinData(b))
  {
    assert ([B, 48 + kind] + text)[1..] == [48 + kind] + text;
    assert ([48 + kind] + text)[1..] == text;
  }

  lemma MessageRoundTrip(p: Packet)
    ensures DecodeMessage(EncodeMixed(p)) == Received(p)
  {
    match p.data {
      case BinData(b) => assert ([p.kind] + b)[1..] == b;
      case _ => TextRoundTrip(p);
    }
  }

  /** Text messages hold one byte per character, so a byte array can carry them. */
  lemma TextMessageIsByteString(p: Packet)
    requires !p.data.BinData?
    ensures Wtf8.IsByteString(EncodeText(p))
  {
    if p.data.TextData? {
      Wtf8.EncodedIsByteString(Wtf8.Ucs2Decode(p.data.s));
    }
  }
}
