/** Several engine.io packets in one text: `<length>:<message>` for each of them. */
module PayloadText {
  import opened Text
  import opened EnginePacket

  /** One call of the callback of `decodePayload`. */
  datatype Call = Call(packet: Decoded, index: int, total: int)

  const PARSER_ERROR := Call(Err, 0, 1)

  // ---------------------------------------------------------------- encodePayload

  function Framed(p: Packet): Str {
    var m := EncodeText(p);
    Decimal(|m|) + [COLON] + m
  }

  function FramedAll(ps: seq<Packet>): Str {
    if ps == [] then [] else Framed(ps[0]) + FramedAll(ps[1..])
  }

  function EncodePayload(ps: seq<Packet>): Str {
    if ps == [] then [ZERO, COLON] else FramedAll(ps)
  }

  // ---------------------------------------------------------------- decodePayload

  /** What stands after a colon: a packet of `n` characters, no packet at all, or an error. */
  datatype Piece = Piece(packet: Option<Decoded>, n: nat) | BadPiece

  function Take(s: Str, length: Str): (r: Piece)
    ensures r.Piece? ==> r.n <= |s|
  {
    var n := ToNumber(length);
    if length == [] || !n.Nat? || n.n > |s| then BadPiece
    else if n.n == 0 then Piece(None, 0)
    else
      var packet := DecodeText(s[..n.n]);
      if packet.Err? then BadPiece else Piece(Some(packet), n.n)
  }

  /** The loop of `decodePayload` with `s` unread, `length` collected so far and `total` characters in
      all; the callback asks for more packets or not. */
  function Scan(s: Str, length: Str, total: nat, more: Decoded -> bool): seq<Call>
    decreases |s|
  {
    if s == [] then if length == [] then [] else [PARSER_ERROR]
    else if s[0] != COLON then Scan(s[1..], length + [s[0]], total, more)
    else
      match Take(s[1..], length)
      case BadPiece => [PARSER_ERROR]
      case Piece(packet, n) =>
        if packet.None? then Scan(s[1..][n..], [], total, more)
        else
          [Call(packet.value, total - |s| + n, total)]
          + (if more(packet.value) then Scan(s[1..][n..], [], total, more) else [])
  }

  function DecodePayload(data: Str, more: Decoded -> bool): seq<Call> {
    if data == [] then [PARSER_ERROR] else Scan(data, [], |data|, more)
  }

  lemma ScanAtOther(data: Str, i: nat, length: Str, more: Decoded -> bool)
    requires i < |data| && data[i] != COLON
    ensures Scan(data[i..], length, |data|, more) == Scan(data[i + 1..], length + [data[i]], |data|, more)
  {
    assert data[i..][1..] == data[i + 1..];
  }

  /** What the callback hears of a piece behind a colon at `at`. */
  function First(piece: Piece, at: nat, total: nat): seq<Call> {
    match piece
    case BadPiece => [PARSER_ERROR]
    case Piece(None, _) => []
    case Piece(Some(packet), n) => [Call(packet, at + n, total)]
  }

  /** Whether the loop returns after a piece. */
  predicate Stops(piece: Piece, more: Decoded -> bool) {
    piece.BadPiece? || (piece.packet.Some? && !more(piece.packet.value))
  }

  /** What is heard at once, and then what is heard of the rest. */
  function HeardFrom(piece: Piece, at: nat, total: nat, more: Decoded -> bool, rest: Str): seq<Call> {
    First(piece, at, total) + (if Stops(piece, more) then [] else Scan(rest, [], total, more))
  }

  lemma ScanError(data: Str, i: nat, length: Str, more: Decoded -> bool, piece: Piece, rest: Str)
    requires i < |data| && data[i] == COLON && piece == Take(data[i + 1..], length) && piece.BadPiece?
    ensures Scan(data[i..], length, |data|, more) == HeardFrom(piece, i, |data|, more, rest)
  {
    assert data[i..][1..] == data[i + 1..];
  }

  lemma ScanNothing(data: Str, i: nat, length: Str, more: Decoded -> bool, piece: Piece, rest: Str)
    requires i < |data| && data[i] == COLON && piece == Take(data[i + 1..], length)
    requires piece.Piece? && piece.packet.None? && rest == data[i + 1..][piece.n..]
    ensures Scan(data[i..], length, |data|, more) == HeardFrom(piece, i, |data|, more, rest)
  {
    assert data[i..][1..] == data[i + 1..];
  }

  lemma ScanPacket(data: Str, i: nat, length: Str, more: Decoded -> bool, piece: Piece, rest: Str)
    requires i < |data| && data[i] == COLON && piece == Take(data[i + 1..], length)
    requires piece.Piece? && piece.packet.Some? && rest == data[i + 1..][piece.n..]
    ensures Scan(data[i..], length, |data|, more) == HeardFrom(piece, i, |data|, more, rest)
  {
    assert data[i..][1..] == data[i + 1..] && |data| - |data[i..]| == i;
  }

  lemma ScanAtColon(data: Str, i: nat, length: Str, more: Decoded -> bool, piece: Piece, rest: Str)
    requires i < |data| && data[i] == COLON && piece == Take(data[i + 1..], length)
    requires piece.Piece? ==> rest == data[i + 1..][piece.n..]
    ensures Scan(data[i..], length, |data|, more) == HeardFrom(piece, i, |data|, more, rest)
  {
    if piece.BadPiece? {
      ScanError(data, i, length, more, piece, rest);
    } else if piece.packet.None? {
      ScanNothing(data, i, length, more, piece, rest);
    } else {
      ScanPacket(data, i, length, more, piece, rest);
    }
  }

  /** What a piece that begins at `at` makes the callback hear; `stop` is a return from the loop. */
  method Hear(piece: Piece, at: nat, total: nat, more: Decoded -> bool, calls: seq<Call>)
    returns (stop: bool, heard: seq<Call>)
    ensures stop <==> Stops(piece, more)
    ensures heard == calls + First(piece, at, total)
  {
    if piece.BadPiece? {
      return true, calls + [PARSER_ERROR];
    }
    if piece.packet.None? {
      return false, calls;
    }
    return !more(piece.packet.value), calls + [Call(piece.packet.value, at + piece.n, total)];
  }

  /** The part of the loop at a colon. */
  method AtColon(data: Str, i: nat, length: Str, more: Decoded -> bool, calls: seq<Call>)
    returns (stop: bool, heard: seq<Call>, next: nat)
    requires i < |data| && data[i] == COLON
    ensures i < next <= |data|
    ensures calls + Scan(data[i..], length, |data|, more)
         == if stop then heard else heard + Scan(data[next..], [], |data|, more)
  {
    var piece := Take(data[i + 1..], length);
    next := if piece.BadPiece? then |data| else i + 1 + piece.n;
    ghost var rest := data[next..];
    assert piece.Piece? ==> rest == data[i + 1..][piece.n..];
    ScanAtColon(data, i, length, more, piece, rest);
    stop, heard := Hear(piece, i, |data|, more, calls);
    AppendCalls(calls, First(piece, i, |data|), Scan(rest, [], |data|, more), stop);
  }

  lemma AppendCalls(calls: seq<Call>, first: seq<Call>, rest: seq<Call>, stop: bool)
    ensures calls + (first + if stop then [] else rest) == if stop then calls + first else calls + first + rest
  {
  }

  method DecodePayloadLoop(data: Str, more: Decoded -> bool) returns (calls: seq<Call>)
    ensures calls == DecodePayload(data, more)
  {
    if data == [] {
      return [PARSER_ERROR];
    }
    calls := [];
    var length: Str := [];
    var i := 0;
    assert data[0..] == data;
    while i < |data|
      invariant 0 <= i <= |data|
      invariant calls + Scan(data[i..], length, |data|, more) == DecodePayload(data, more)
    {
      if data[i] != COLON {
        ScanAtOther(data, i, length, more);
        length := length + [data[i]];
        i := i + 1;
      } else {
        var stop;
        stop, calls, i := AtColon(data, i, length, more, calls);
        if stop {
          return;
        }
        length := [];
      }
    }
    if length != [] {
      return calls + [PARSER_ERROR];
    }
    assert calls + [] == calls;
  }

  // ---------------------------------------------------------------- round trip

  /** The packets that the callback hears of, up to the first after which it wants no more. */
  function Heard(ps: seq<Packet>, more: Decoded -> bool): seq<Decoded> {
    if ps == [] then []
    else [Received(ps[0])] + (if more(Received(ps[0])) then Heard(ps[1..], more) else [])
  }

  function PacketsOf(calls: seq<Call>): seq<Decoded> {
    if calls == [] then [] else [calls[0].packet] + PacketsOf(calls[1..])
  }

  lemma {:induction false} ScanLength(digits: Str, s: Str, length: Str, total: nat, more: Decoded -> bool)
    requires COLON !in digits
    ensures Scan(digits + s, length, total, more) == Scan(s, length + digits, total, more)
    decreases |digits|
  {
    if digits == [] {
      assert digits + s == s && length + digits == length;
    } else {
      assert (digits + s)[1..] == digits[1..] + s;
      ScanLength(digits[1..], s, length + [digits[0]], total, more);
      assert length + [digits[0]] + digits[1..] == length + digits;
    }
  }

  lemma TakeFrame(p: Packet, rest: Str)
    ensures var m := EncodeText(p);
      Take(m + rest, Decimal(|m|)) == Piece(Some(Received(p)), |m|) && (m + rest)[|m|..] == rest
  {
    var m := EncodeText(p);
    DecimalIsItsNumber(|m|);
    assert (m + rest)[..|m|] == m;
    TextRoundTrip(p);
  }

  lemma ScanFrame(p: Packet, rest: Str, total: nat, more: Decoded -> bool)
    ensures var calls := Scan(Framed(p) + rest, [], total, more);
      calls != [] && calls[0].packet == Received(p)
      && calls[1..] == if more(Received(p)) then Scan(rest, [], total, more) else []
  {
    var m := EncodeText(p);
    var digits, s := Decimal(|m|), [COLON] + (m + rest);
    assert Framed(p) + rest == digits + s;
    ScanLength(digits, s, [], total, more);
    assert [] + digits == digits;
    assert s[1..] == m + rest;
    TakeFrame(p, rest);
  }

  lemma {:induction false} ScanFrames(ps: seq<Packet>, total: nat, more: Decoded -> bool)
    ensures PacketsOf(Scan(FramedAll(ps), [], total, more)) == Heard(ps, more)
  {
    if ps != [] {
      ScanFrame(ps[0], FramedAll(ps[1..]), total, more);
      ScanFrames(ps[1..], total, more);
    }
  }

  /** Each packet is called back once and in order; an empty payload calls nothing back. */
  lemma PayloadRoundTrip(ps: seq<Packet>, more: Decoded -> bool)
    ensures PacketsOf(DecodePayload(EncodePayload(ps), more)) == Heard(ps, more)
  {
    if ps == [] {
      var s: Str := [ZERO, COLON];
      ScanLength([ZERO], [COLON], [], 2, more);
      assert [ZERO] + [COLON] == s && [] + [ZERO] == [ZERO];
      DecimalIsItsNumber(0);
    } else {
      assert Framed(ps[0]) != [];
      ScanFrames(ps, |EncodePayload(ps)|, more);
    }
  }
}
