/** Several engine.io packets in one ArrayBuffer: for each of them a flag (0 text, 1 bytes), the
    decimal digits of the length as numbers, 255, and the message. */
module PayloadBinary {
  import opened Text
  import opened EnginePacket
  import Wtf8
  import opened PayloadText

  // ---------------------------------------------------------------- encodePayloadAsArrayBuffer

  /** The bytes of a message; a character beyond 255 would be truncated by the typed array. */
  function BytesOf(m: Message): Bytes {
    match m
    case TextMessage(s) => seq(|s|, i requires 0 <= i < |s| => s[i] % 256)
    case BinMessage(b) => b
  }

  function DigitValues(s: Str): Bytes
    requires AllDigits(s)
  {
    if s == [] then [] else [s[0] - 48] + DigitValues(s[1..])
  }

  function Frame(m: Message): Bytes {
    var b := BytesOf(m);
    [if m.TextMessage? then 0 else 1] + DigitValues(Decimal(|b|)) + [255] + b
  }

  function Frames(ms: seq<Message>): Bytes {
    if ms == [] then [] else Frame(ms[0]) + Frames(ms[1..])
  }

  function Messages(ps: seq<Packet>): seq<Message> {
    if ps == [] then [] else [EncodeMixed(ps[0])] + Messages(ps[1..])
  }

  function EncodePayload(ps: seq<Packet>): Bytes {
    Frames(Messages(ps))
  }

  function TotalLength(ms: seq<Message>): nat {
    if ms == [] then 0
    else
      var len := |BytesOf(ms[0])|;
      |Decimal(len)| + len + 2 + TotalLength(ms[1..])
  }

  lemma {:induction false} DigitValuesLength(s: Str)
    requires AllDigits(s)
    ensures |DigitValues(s)| == |s| && forall i | 0 <= i < |s| :: DigitValues(s)[i] == s[i] - 48
  {
    if s != [] {
      DigitValuesLength(s[1..]);
    }
  }

  /** The precomputed length is the length of what is written. */
  lemma {:induction false} TotalLengthIsExact(ms: seq<Message>)
    ensures TotalLength(ms) == |Frames(ms)|
  {
    if ms != [] {
      DigitValuesLength(Decimal(|BytesOf(ms[0])|));
      TotalLengthIsExact(ms[1..]);
    }
  }

  /** `resultArray[bufferIndex++] = x` for each element of `part`. */
  method Write(resultArray: array<Byte>, bufferIndex: nat, part: Bytes) returns (next: nat)
    requires bufferIndex + |part| <= resultArray.Length
    modifies resultArray
    ensures next == bufferIndex + |part|
    ensures resultArray[..next] == old(resultArray[..bufferIndex]) + part
  {
    next := bufferIndex;
    for i := 0 to |part|
      invariant next == bufferIndex + i
      invariant resultArray[..next] == old(resultArray[..bufferIndex]) + part[..i]
    {
      resultArray[next] := part[i];
      next := next + 1;
    }
  }

  method WriteFrame(resultArray: array<Byte>, bufferIndex: nat, m: Message) returns (next: nat)
    requires bufferIndex + |Frame(m)| <= resultArray.Length
    modifies resultArray
    ensures next == bufferIndex + |Frame(m)|
    ensures resultArray[..next] == old(resultArray[..bufferIndex]) + Frame(m)
  {
    var flag := if m.TextMessage? then 0 else 1;
    var b := BytesOf(m);
    var digits := DigitValues(Decimal(|b|));
    next := Write(resultArray, bufferIndex, [flag]);
    next := Write(resultArray, next, digits);
    next := Write(resultArray, next, [255]);
    next := Write(resultArray, next, b);
  }

  method EncodeAsArrayBuffer(ps: seq<Packet>) returns (resultArray: array<Byte>)
    ensures fresh(resultArray) && resultArray[..] == EncodePayload(ps)
  {
    var ms := Messages(ps);
    resultArray := new Byte[TotalLength(ms)](_ => 0);
    TotalLengthIsExact(ms);
    var bufferIndex: nat := 0;
    for k := 0 to |ms|
      invariant bufferIndex <= resultArray.Length == |Frames(ms)|
      invariant resultArray[..bufferIndex] + Frames(ms[k..]) == Frames(ms)
    {
      assert ms[k..][0] == ms[k] && ms[k..][1..] == ms[k + 1..];
      Assoc(resultArray[..bufferIndex], Frame(ms[k]), Frames(ms[k + 1..]));
      bufferIndex := WriteFrame(resultArray, bufferIndex, ms[k]);
    }
    assert resultArray[..bufferIndex] == resultArray[..];
  }

  // ---------------------------------------------------------------- decodePayloadAsBinary

  /** `sliceBuffer`: an absent, `NaN` or zero `end` means the end of the buffer. */
  function SliceBuffer(b: Bytes, start: nat, end: Option<nat>): (r: Bytes)
    ensures |r| <= |b| - start || r == []
  {
    var stop := if end.GetOr(0) == 0 || end.value > |b| then |b| else end.value;
    if start >= stop then [] else b[start..stop]
  }

  /** The decimal text of the length, collected byte by byte up to 255; `None` when it grows beyond
      310 characters, which is also how a missing 255 ends. */
  function LengthText(tail: Bytes, msgLength: Str): (r: Option<Str>)
    requires AllDigits(msgLength)
    ensures r.Some? ==> AllDigits(r.value) && |tail| > 0
    decreases |tail|
  {
    if tail == [] then None
    else if tail[0] == 255 then Some(msgLength)
    else if |msgLength| > 310 then None
    else LengthText(tail[1..], msgLength + Decimal(tail[0]))
  }

  /** `parseInt` on digits. */
  function ParseInt(s: Str): Option<nat>
    requires AllDigits(s)
  {
    if s == [] then None else Some(DecimalValue(s))
  }

  function FromCharCodes(b: Bytes): Str {
    seq(|b|, i requires 0 <= i < |b| => b[i])
  }

  function MessageOf(isString: bool, b: Bytes): Message {
    if isString then TextMessage(FromCharCodes(b)) else BinMessage(b)
  }

  /** The first message and the buffer after it, or a parser error. */
  datatype Head = Head(m: Message, next: Bytes) | TooLong

  function SplitHead(tail: Bytes): (r: Head)
    requires tail != []
    ensures r.Head? ==> |r.next| < |tail|
  {
    match LengthText(tail[1..], [])
    case None => TooLong
    case Some(text) =>
      var n := ParseInt(text);
      var rest := SliceBuffer(tail, 2 + |text|, None);
      var msg := SliceBuffer(rest, 0, n);
      Head(MessageOf(tail[0] == 0, msg), SliceBuffer(rest, n.GetOr(0), None))
  }

  /** The loop of `decodePayloadAsBinary`; `None` where it gives up with a parser error. */
  function Split(tail: Bytes): Option<seq<Message>>
    decreases |tail|
  {
    if tail == [] then Some([])
    else
      match SplitHead(tail)
      case TooLong => None
      case Head(m, next) =>
        match Split(next)
        case None => None
        case Some(ms) => Some([m] + ms)
  }

  function DecodePayload(data: Bytes): seq<Call> {
    match Split(data)
    case None => [PARSER_ERROR]
    case Some(ms) => seq(|ms|, i requires 0 <= i < |ms| => Call(DecodeMessage(ms[i]), i, |ms|))
  }

  method TakeHead(bufferTail: Bytes) returns (head: Head)
    requires bufferTail != []
    ensures head == SplitHead(bufferTail)
  {
    var isString := bufferTail[0] == 0;
    var msgLength: Str := [];
    var i := 1;
    while i < |bufferTail| && bufferTail[i] != 255
      invariant 1 <= i <= |bufferTail| && AllDigits(msgLength)
      invariant LengthText(bufferTail[i..], msgLength) == LengthText(bufferTail[1..], [])
    {
      assert bufferTail[i..][1..] == bufferTail[i + 1..];
      if |msgLength| > 310 {
        return TooLong;
      }
      msgLength := msgLength + Decimal(bufferTail[i]);
      i := i + 1;
    }
    if i == |bufferTail| {
      return TooLong;
    }
    var n := ParseInt(msgLength);
    var rest := SliceBuffer(bufferTail, 2 + |msgLength|, None);
    var msg := SliceBuffer(rest, 0, n);
    head := Head(MessageOf(isString, msg), SliceBuffer(rest, n.GetOr(0), None));
  }

  method DecodeAsBinary(data: Bytes) returns (calls: seq<Call>)
    ensures calls == DecodePayload(data)
  {
    var bufferTail := data;
    var buffers: seq<Message> := [];
    if Split(data).Some? {
      assert [] + Split(data).value == Split(data).value;
    }
    while |bufferTail| > 0
      invariant match Split(bufferTail)
        case None => Split(data) == None
        case Some(ms) => Split(data) == Some(buffers + ms)
      decreases |bufferTail|
    {
      var head := TakeHead(bufferTail);
      if head.TooLong? {
        return [PARSER_ERROR];
      }
      if Split(head.next).Some? {
        Assoc(buffers, [head.m], Split(head.next).value);
      }
      buffers := buffers + [head.m];
      bufferTail := head.next;
    }
    assert buffers + [] == buffers;
    calls := seq(|buffers|, i requires 0 <= i < |buffers| => Call(DecodeMessage(buffers[i]), i, |buffers|));
  }

  // ---------------------------------------------------------------- round trip

  /** Every length in the browser is below this. */
  const MAX_LENGTH: nat := 0x20_0000_0000_0000

  predicate FitsInBuffer(p: Packet) {
    |BytesOf(EncodeMixed(p))| < MAX_LENGTH
  }

  lemma {:induction false} DecimalIsShort(n: nat, k: nat, bound: nat)
    requires k >= 1 && n < bound && bound == Power10(k)
    ensures |Decimal(n)| <= k
    decreases k
  {
    if n >= 10 {
      assert k > 1;
      DecimalIsShort(n / 10, k - 1, Power10(k - 1));
    }
  }

  lemma PowerOfSixteen()
    ensures Power10(16) == 10000000000000000
  {
    assert Power10(4) == 10000;
    assert Power10(8) == 100000000;
    assert Power10(12) == 1000000000000;
  }

  lemma {:induction false} LengthTextOfDigits(digits: Str, rest: Bytes, msgLength: Str)
    requires AllDigits(digits) && AllDigits(msgLength) && |msgLength| + |digits| <= 310
    ensures LengthText(DigitValues(digits) + ([255] + rest), msgLength) == Some(msgLength + digits)
    decreases |digits|
  {
    var tail := DigitValues(digits) + ([255] + rest);
    if digits == [] {
      assert tail == [255] + rest;
      assert msgLength + digits == msgLength;
    } else {
      assert tail[1..] == DigitValues(digits[1..]) + ([255] + rest);
      assert Decimal(digits[0] - 48) == [digits[0]];
      LengthTextOfDigits(digits[1..], rest, msgLength + [digits[0]]);
      assert msgLength + [digits[0]] + digits[1..] == msgLength + digits;
    }
  }

  /** A message that survives as bytes: it is not empty, and text has one byte per character. */
  predicate Carried(m: Message) {
    0 < |BytesOf(m)| < MAX_LENGTH && (m.TextMessage? ==> Wtf8.IsByteString(m.s))
  }

  lemma LengthIsShort(m: Message)
    requires Carried(m)
    ensures |Decimal(|BytesOf(m)|)| <= 16
  {
    PowerOfSixteen();
    DecimalIsShort(|BytesOf(m)|, 16, Power10(16));
  }

  lemma LengthTextOfFrame(m: Message, rest: Bytes)
    requires Carried(m)
    ensures var tail, digits := Frame(m) + rest, Decimal(|BytesOf(m)|);
      LengthText(tail[1..], []) == Some(digits) && ParseInt(digits) == Some(|BytesOf(m)|)
      && 2 + |digits| <= |tail| && tail[2 + |digits|..] == BytesOf(m) + rest
  {
    var b := BytesOf(m);
    var digits := Decimal(|b|);
    LengthIsShort(m);
    DigitValuesLength(digits);
    FrameShape(if m.TextMessage? then 0 else 1, DigitValues(digits), b, rest);
    LengthTextOfDigits(digits, b + rest, []);
    assert [] + digits == digits;
    DecimalRoundTrip(|b|);
  }

  lemma FrameShape(flag: Byte, digits: Bytes, b: Bytes, rest: Bytes)
    ensures var tail := [flag] + digits + [255] + b + rest;
      tail[1..] == digits + ([255] + (b + rest)) && tail[2 + |digits|..] == b + rest
  {
  }

  lemma MessageOfItsBytes(m: Message)
    requires Carried(m)
    ensures MessageOf(m.TextMessage?, BytesOf(m)) == m
  {
    if m.TextMessage? {
      assert FromCharCodes(BytesOf(m)) == m.s;
    }
  }

  lemma Slices(b: Bytes, rest: Bytes)
    requires b != []
    ensures SliceBuffer(b + rest, 0, Some(|b|)) == b && SliceBuffer(b + rest, |b|, None) == rest
  {
  }

  lemma SplitFrame(m: Message, rest: Bytes)
    requires Carried(m)
    ensures SplitHead(Frame(m) + rest) == Head(m, rest)
  {
    LengthTextOfFrame(m, rest);
    var tail := Frame(m) + rest;
    assert tail[0] == if m.TextMessage? then 0 else 1;
    assert SliceBuffer(tail, 2 + |Decimal(|BytesOf(m)|)|, None) == BytesOf(m) + rest;
    Slices(BytesOf(m), rest);
    MessageOfItsBytes(m);
  }

  lemma {:induction false} SplitFrames(ms: seq<Message>)
    requires forall i | 0 <= i < |ms| :: Carried(ms[i])
    ensures Split(Frames(ms)) == Some(ms)
  {
    if ms != [] {
      SplitFrame(ms[0], Frames(ms[1..]));
      SplitFrames(ms[1..]);
      SplitStep(Frame(ms[0]) + Frames(ms[1..]), ms[0], Frames(ms[1..]), ms[1..]);
      assert ms == [ms[0]] + ms[1..];
    }
  }

  lemma SplitStep(tail: Bytes, m: Message, next: Bytes, ms: seq<Message>)
    requires tail != [] && SplitHead(tail) == Head(m, next) && Split(next) == Some(ms)
    ensures Split(tail) == Some([m] + ms)
  {
  }

  lemma {:induction false} MessagesAreCarried(ps: seq<Packet>)
    requires forall i | 0 <= i < |ps| :: FitsInBuffer(ps[i])
    ensures |Messages(ps)| == |ps|
    ensures forall i | 0 <= i < |ps| :: Messages(ps)[i] == EncodeMixed(ps[i]) && Carried(Messages(ps)[i])
  {
    if ps != [] {
      MessagesAreCarried(ps[1..]);
      if !ps[0].data.BinData? {
        TextMessageIsByteString(ps[0]);
      }
    }
  }

  /** Each packet is called back once, in order, with its position and the number of packets. */
  lemma PayloadRoundTrip(ps: seq<Packet>)
    requires forall i | 0 <= i < |ps| :: FitsInBuffer(ps[i])
    ensures var calls := DecodePayload(EncodePayload(ps));
      |calls| == |ps| && forall i | 0 <= i < |ps| :: calls[i] == Call(Received(ps[i]), i, |ps|)
  {
    MessagesAreCarried(ps);
    SplitFrames(Messages(ps));
    forall i | 0 <= i < |ps| ensures DecodeMessage(Messages(ps)[i]) == Received(ps[i]) {
      MessageRoundTrip(ps[i]);
    }
  }
}
