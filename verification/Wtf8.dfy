/** The WTF-8 library: UTF-16 text, lone surrogates included, to a string of bytes and back.
    Masks and shifts of the code are written as division and remainder by powers of two. */
module Wtf8 {
  import opened Text

  type CodePoint = c: int | 0 <= c <= 0x10FFFF

  predicate IsHigh(c: int) {
    0xD800 <= c <= 0xDBFF
  }

  predicate IsLow(c: int) {
    0xDC00 <= c <= 0xDFFF
  }

  function Pair(high: CodeUnit, low: CodeUnit): CodePoint
    requires IsHigh(high) && IsLow(low)
  {
    high % 1024 * 1024 + low % 1024 + 0x10000
  }

  // ---------------------------------------------------------------- code units and code points

  function Ucs2Decode(s: Str): seq<CodePoint>
    decreases |s|
  {
    if s == [] then []
    else if IsHigh(s[0]) && |s| > 1 && IsLow(s[1]) then [Pair(s[0], s[1])] + Ucs2Decode(s[2..])
    else [s[0]] + Ucs2Decode(s[1..])
  }

  method Ucs2DecodeLoop(s: Str) returns (output: seq<CodePoint>)
    ensures output == Ucs2Decode(s)
  {
    output := [];
    var counter := 0;
    while counter < |s|
      invariant counter <= |s|
      invariant output + Ucs2Decode(s[counter..]) == Ucs2Decode(s)
    {
      Ucs2DecodeAt(s, counter, output);
      var value := s[counter];
      counter := counter + 1;
      if IsHigh(value) && counter < |s| {
        var extra := s[counter];
        counter := counter + 1;
        if IsLow(extra) {
          output := output + [Pair(value, extra)];
        } else {
          output := output + [value];
          counter := counter - 1;
        }
      } else {
        output := output + [value];
      }
    }
  }

  lemma Ucs2DecodeAt(s: Str, i: nat, output: seq<CodePoint>)
    requires i < |s|
    ensures output + Ucs2Decode(s[i..])
      == if IsHigh(s[i]) && i + 1 < |s| && IsLow(s[i + 1]) then output + [Pair(s[i], s[i + 1])] + Ucs2Decode(s[i + 2..])
         else output + [s[i]] + Ucs2Decode(s[i + 1..])
  {
    var rest := s[i..];
    assert rest[1..] == s[i + 1..];
    if IsHigh(s[i]) && i + 1 < |s| && IsLow(s[i + 1]) {
      assert rest[2..] == s[i + 2..];
      Assoc(output, [Pair(s[i], s[i + 1])], Ucs2Decode(s[i + 2..]));
    } else {
      Assoc(output, [s[i]], Ucs2Decode(s[i + 1..]));
    }
  }

  /** The one or two code units of a code point. */
  function Units(c: CodePoint): Str {
    if c > 0xFFFF then [(c - 0x10000) / 1024 % 1024 + 0xD800, 0xDC00 + (c - 0x10000) % 1024] else [c]
  }

  function Ucs2Encode(cs: seq<CodePoint>): Str {
    if cs == [] then [] else Units(cs[0]) + Ucs2Encode(cs[1..])
  }

  method Ucs2EncodeLoop(cs: seq<CodePoint>) returns (output: Str)
    ensures output == Ucs2Encode(cs)
  {
    output := [];
    for index := 0 to |cs|
      invariant output + Ucs2Encode(cs[index..]) == Ucs2Encode(cs)
    {
      assert cs[index..][0] == cs[index] && cs[index..][1..] == cs[index + 1..];
      Assoc(output, Units(cs[index]), Ucs2Encode(cs[index + 1..]));
      output := output + Units(cs[index]);
    }
  }

  // ---------------------------------------------------------------- encoder

  function Continuation(c: CodePoint, unit: int): CodeUnit
    requires unit == 1 || unit == 64 || unit == 4096
  {
    c / unit % 64 + 0x80
  }

  function EncodeCodePoint(c: CodePoint): Str {
    if c < 0x80 then [c]
    else if c < 0x800 then [c / 64 % 32 + 0xC0, Continuation(c, 1)]
    else if c < 0x1_0000 then [c / 4096 % 16 + 0xE0, Continuation(c, 64), Continuation(c, 1)]
    else [c / 262144 % 8 + 0xF0, Continuation(c, 4096), Continuation(c, 64), Continuation(c, 1)]
  }

  function EncodeAll(cs: seq<CodePoint>): Str {
    if cs == [] then [] else EncodeCodePoint(cs[0]) + EncodeAll(cs[1..])
  }

  function Encode(s: Str): Str {
    EncodeAll(Ucs2Decode(s))
  }

  method Wtf8Encode(s: Str) returns (byteString: Str)
    ensures byteString == Encode(s)
  {
    var codePoints := Ucs2DecodeLoop(s);
    byteString := [];
    for index := 0 to |codePoints|
      invariant byteString + EncodeAll(codePoints[index..]) == EncodeAll(codePoints)
    {
      assert codePoints[index..][0] == codePoints[index] && codePoints[index..][1..] == codePoints[index + 1..];
      Assoc(byteString, EncodeCodePoint(codePoints[index]), EncodeAll(codePoints[index + 1..]));
      byteString := byteString + EncodeCodePoint(codePoints[index]);
    }
  }

  // ---------------------------------------------------------------- decoder

  /** One decoded code point and the bytes after it. */
  datatype Symbol = Symbol(c: CodePoint, rest: seq<CodePoint>) | Invalid

  predicate IsContinuation(b: int) {
    0x80 <= b % 256 < 0xC0
  }

  /** The first `n` elements are continuation bytes. */
  predicate Continued(bytes: seq<CodePoint>, n: nat) {
    n <= |bytes| && forall i | 0 <= i < n :: IsContinuation(bytes[i])
  }

  function Low6(b: int): (r: int)
    ensures 0 <= r < 64
  {
    b % 64
  }

  function DecodeTwo(b: int, t: seq<CodePoint>): (r: Symbol)
    requires 0xC0 <= b < 0xE0
    ensures r.Symbol? ==> Continued(t, 1) && r.rest == t[1..]
  {
    if !Continued(t, 1) then Invalid
    else
      var c := b % 32 * 64 + Low6(t[0]);
      if c >= 0x80 then Symbol(c, t[1..]) else Invalid
  }

  function DecodeThree(b: int, t: seq<CodePoint>): (r: Symbol)
    requires 0xE0 <= b < 0xF0
    ensures r.Symbol? ==> Continued(t, 2) && r.rest == t[2..]
  {
    if !Continued(t, 2) then Invalid
    else
      var c := b % 16 * 4096 + Low6(t[0]) * 64 + Low6(t[1]);
      if c >= 0x800 then Symbol(c, t[2..]) else Invalid
  }

  function DecodeFour(b: int, t: seq<CodePoint>): (r: Symbol)
    requires 0xF0 <= b < 0xF8
    ensures r.Symbol? ==> Continued(t, 3) && r.rest == t[3..]
  {
    if !Continued(t, 3) then Invalid
    else
      var c := b % 16 * 262144 + Low6(t[0]) * 4096 + Low6(t[1]) * 64 + Low6(t[2]);
      if 0x1_0000 <= c <= 0x10FFFF then Symbol(c, t[3..]) else Invalid
  }

  /** `decodeSymbol` on a non-empty input, whose elements count modulo 256. */
  function DecodeSymbol(bytes: seq<CodePoint>): (r: Symbol)
    requires bytes != []
    ensures r.Symbol? ==> |r.rest| < |bytes|
  {
    var b, t := bytes[0] % 256, bytes[1..];
    if b < 0x80 then Symbol(b, t)
    else if 0xC0 <= b < 0xE0 then DecodeTwo(b, t)
    else if 0xE0 <= b < 0xF0 then DecodeThree(b, t)
    else if 0xF0 <= b < 0xF8 then DecodeFour(b, t)
    else Invalid
  }

  function DecodeAll(bytes: seq<CodePoint>): Option<seq<CodePoint>>
    decreases |bytes|
  {
    if bytes == [] then Some([])
    else
      match DecodeSymbol(bytes)
      case Invalid => None
      case Symbol(c, rest) =>
        match DecodeAll(rest)
        case None => None
        case Some(cs) => Some([c] + cs)
  }

  function Decode(byteString: Str): Option<Str> {
    match DecodeAll(Ucs2Decode(byteString))
    case None => None
    case Some(cs) => Some(Ucs2Encode(cs))
  }

  /** The decoder's shared variables `byteArray` and `byteIndex`. */
  class Wtf8Decoder {
    var byteArray: seq<CodePoint>
    var byteIndex: nat

    ghost predicate Valid()
      reads this
    {
      byteIndex <= |byteArray|
    }

    ghost function Rest(): seq<CodePoint>
      requires Valid()
      reads this
    {
      byteArray[byteIndex..]
    }

    constructor (bytes: seq<CodePoint>)
      ensures Valid() && Rest() == bytes
    {
      byteArray, byteIndex := bytes, 0;
    }

    method ReadContinuationByte() returns (bits: Option<int>)
      requires Valid()
      modifies this`byteIndex
      ensures Valid()
      ensures bits == if Continued(old(Rest()), 1) then Some(Low6(old(Rest())[0])) else None
      ensures bits.Some? ==> Rest() == old(Rest())[1..]
    {
      if byteIndex >= |byteArray| {
        return None;
      }
      ghost var rest := Rest();
      var continuationByte := byteArray[byteIndex] % 256;
      byteIndex := byteIndex + 1;
      assert Rest() == rest[1..];
      if IsContinuation(continuationByte) {
        assert Low6(continuationByte) == Low6(rest[0]);
        return Some(Low6(continuationByte));
      }
      return None;
    }

    /** `n` continuation bytes, most significant first. */
    method ReadContinuation(n: nat) returns (bits: Option<seq<int>>)
      requires Valid() && n <= 3
      modifies this`byteIndex
      ensures Valid()
      ensures bits.Some? ==> old(byteIndex) <= byteIndex
      ensures bits.Some? == Continued(old(Rest()), n)
      ensures bits.Some? ==> |bits.value| == n && Rest() == old(Rest())[n..]
      ensures bits.Some? ==> forall i | 0 <= i < n :: bits.value[i] == Low6(old(Rest())[i])
    {
      ghost var rest := Rest();
      var read: seq<int> := [];
      while |read| < n
        invariant |read| <= n && Continued(rest, |read|) && Valid() && Rest() == rest[|read|..]
        invariant forall i | 0 <= i < |read| :: read[i] == Low6(rest[i])
        invariant old(byteIndex) <= byteIndex
      {
        var more := ReadContinuationByte();
        if more.None? {
          return None;
        }
        read := read + [more.value];
      }
      return Some(read);
    }

    /** `decodeSymbol`. */
    method NextSymbol() returns (c: Option<CodePoint>)
      requires Valid() && Rest() != []
      modifies this`byteIndex
      ensures Valid() && (c.Some? ==> old(byteIndex) < byteIndex)
      ensures match DecodeSymbol(old(Rest()))
        case Invalid => c == None
        case Symbol(cp, rest) => c == Some(cp) && Rest() == rest
    {
      ghost var bytes := Rest();
      var byte1 := byteArray[byteIndex] % 256;
      byteIndex := byteIndex + 1;
      assert Rest() == bytes[1..];
      if byte1 < 0x80 {
        return Some(byte1);
      }
      if 0xC0 <= byte1 < 0xE0 {
        var more := ReadContinuation(1);
        if more.Some? {
          var codePoint := byte1 % 32 * 64 + more.value[0];
          if codePoint >= 0x80 {
            return Some(codePoint);
          }
        }
        return None;
      }
      if 0xE0 <= byte1 < 0xF0 {
        var more := ReadContinuation(2);
        if more.Some? {
          var codePoint := byte1 % 16 * 4096 + more.value[0] * 64 + more.value[1];
          if codePoint >= 0x0800 {
            return Some(codePoint);
          }
        }
        return None;
      }
      if 0xF0 <= byte1 < 0xF8 {
        var more := ReadContinuation(3);
        if more.Some? {
          var codePoint := byte1 % 16 * 262144 + more.value[0] * 4096 + more.value[1] * 64 + more.value[2];
          if 0x1_0000 <= codePoint <= 0x10FFFF {
            return Some(codePoint);
          }
        }
      }
      return None;
    }
  }

  method Wtf8Decode(byteString: Str) returns (s: Option<Str>)
    ensures s == Decode(byteString)
  {
    var bytes := Ucs2DecodeLoop(byteString);
    var decoder := new Wtf8Decoder(bytes);
    var codePoints: seq<CodePoint> := [];
    assert forall cs: seq<CodePoint> :: codePoints + cs == cs;
    while decoder.byteIndex < |decoder.byteArray|
      invariant decoder.Valid() && fresh(decoder)
      invariant match DecodeAll(decoder.Rest())
        case None => DecodeAll(bytes) == None
        case Some(cs) => DecodeAll(bytes) == Some(codePoints + cs)
      decreases |decoder.byteArray| - decoder.byteIndex
    {
      var c := decoder.NextSymbol();
      if c.None? {
        return None;
      }
      if DecodeAll(decoder.Rest()).Some? {
        Assoc(codePoints, [c.value], DecodeAll(decoder.Rest()).value);
      }
      codePoints := codePoints + [c.value];
    }
    assert codePoints + [] == codePoints;
    var text := Ucs2EncodeLoop(codePoints);
    return Some(text);
  }

  // ---------------------------------------------------------------- text to bytes to text

  lemma UnitsOfPair(high: CodeUnit, low: CodeUnit)
    requires IsHigh(high) && IsLow(low)
    ensures Units(Pair(high, low)) == [high, low]
  {
  }

  lemma PairOfUnits(c: CodePoint)
    requires c > 0xFFFF
    ensures IsHigh(Units(c)[0]) && IsLow(Units(c)[1]) && Pair(Units(c)[0], Units(c)[1]) == c
  {
  }

  lemma {:induction false} TextIsItsCodePoints(s: Str)
    ensures Ucs2Encode(Ucs2Decode(s)) == s
    decreases |s|
  {
    if s != [] {
      if IsHigh(s[0]) && |s| > 1 && IsLow(s[1]) {
        TextIsItsCodePoints(s[2..]);
        UnitsOfPair(s[0], s[1]);
        assert s == [s[0], s[1]] + s[2..];
      } else {
        TextIsItsCodePoints(s[1..]);
        assert s == [s[0]] + s[1..];
      }
    }
  }

  predicate IsByteString(s: Str) {
    forall i | 0 <= i < |s| :: s[i] < 256
  }

  lemma {:induction false} ByteStringIsItsCodePoints(s: Str)
    requires IsByteString(s)
    ensures Ucs2Decode(s) == s
  {
    if s != [] {
      ByteStringIsItsCodePoints(s[1..]);
      assert s == [s[0]] + s[1..];
    }
  }

  lemma EncodedBytes(c: CodePoint)
    ensures IsByteString(EncodeCodePoint(c))
  {
  }

  lemma {:induction false} EncodedIsByteString(cs: seq<CodePoint>)
    ensures IsByteString(EncodeAll(cs))
  {
    if cs != [] {
      EncodedBytes(cs[0]);
      EncodedIsByteString(cs[1..]);
    }
  }

  /** The base-64 digits of a number below 8 * 64^3. */
  lemma Digits(d: int, x: int, y: int, z: int)
    requires 0 <= d < 8 && 0 <= x < 64 && 0 <= y < 64 && 0 <= z < 64
    ensures var c := d * 262144 + x * 4096 + y * 64 + z;
      c / 262144 % 8 == d && c / 4096 % 64 == x && c / 64 % 64 == y && c % 64 == z
  {
    var c := d * 262144 + x * 4096 + y * 64 + z;
    assert c / 64 == d * 4096 + x * 64 + y;
    assert c / 4096 == d * 64 + x;
    assert c / 262144 == d;
  }

  lemma NumberOfDigits(c: int) returns (d: int, x: int, y: int, z: int)
    requires 0 <= c < 8 * 262144
    ensures 0 <= d < 8 && 0 <= x < 64 && 0 <= y < 64 && 0 <= z < 64
    ensures c == d * 262144 + x * 4096 + y * 64 + z
  {
    var a, b := c / 64, c / 4096;
    assert b == a / 64;
    d, x, y, z := b / 64, b % 64, a % 64, c % 64;
  }

  lemma EncodedTwo(y: int, z: int)
    requires 2 <= y < 32 && 0 <= z < 64
    ensures EncodeCodePoint(y * 64 + z) == [0xC0 + y, 0x80 + z]
  {
  }

  lemma EncodedThree(x: int, y: int, z: int)
    requires 0 <= x < 16 && 0 <= y < 64 && 0 <= z < 64 && x * 4096 + y * 64 + z >= 0x800
    ensures EncodeCodePoint(x * 4096 + y * 64 + z) == [0xE0 + x, 0x80 + y, 0x80 + z]
  {
    Digits(0, x, y, z);
  }

  lemma EncodedFour(d: int, x: int, y: int, z: int)
    requires 0 <= d < 8 && 0 <= x < 64 && 0 <= y < 64 && 0 <= z < 64
    requires 0x1_0000 <= d * 262144 + x * 4096 + y * 64 + z <= 0x10FFFF
    ensures EncodeCodePoint(d * 262144 + x * 4096 + y * 64 + z) == [0xF0 + d, 0x80 + x, 0x80 + y, 0x80 + z]
  {
    Digits(d, x, y, z);
  }

  lemma Low6Of(x: int)
    requires 0 <= x < 64
    ensures IsContinuation(0x80 + x) && Low6(0x80 + x) == x
  {
  }

  lemma DecodedTwo(y: int, z: int, rest: Str)
    requires 2 <= y < 32 && 0 <= z < 64
    ensures DecodeTwo(0xC0 + y, [0x80 + z] + rest) == Symbol(y * 64 + z, rest)
  {
    assert ([0x80 + z] + rest)[1..] == rest;
  }

  lemma DecodedThree(x: int, y: int, z: int, rest: Str)
    requires 0 <= x < 16 && 0 <= y < 64 && 0 <= z < 64 && x * 4096 + y * 64 + z >= 0x800
    ensures DecodeThree(0xE0 + x, [0x80 + y, 0x80 + z] + rest) == Symbol(x * 4096 + y * 64 + z, rest)
  {
    var t := [0x80 + y, 0x80 + z] + rest;
    assert t[0] == 0x80 + y && t[1] == 0x80 + z && t[2..] == rest;
    Low6Of(y);
    Low6Of(z);
    assert Continued(t, 2);
  }

  lemma DecodedFour(d: int, x: int, y: int, z: int, rest: Str)
    requires 0 <= d < 8 && 0 <= x < 64 && 0 <= y < 64 && 0 <= z < 64
    requires 0x1_0000 <= d * 262144 + x * 4096 + y * 64 + z <= 0x10FFFF
    ensures DecodeFour(0xF0 + d, [0x80 + x, 0x80 + y, 0x80 + z] + rest)
      == Symbol(d * 262144 + x * 4096 + y * 64 + z, rest)
  {
    var t := [0x80 + x, 0x80 + y, 0x80 + z] + rest;
    assert t[0] == 0x80 + x && t[1] == 0x80 + y && t[2] == 0x80 + z && t[3..] == rest;
    Low6Of(x);
    Low6Of(y);
    Low6Of(z);
    assert Continued(t, 3);
  }

  lemma SymbolRoundTrip(c: CodePoint, rest: Str)
    ensures EncodeCodePoint(c) != [] && DecodeSymbol(EncodeCodePoint(c) + rest) == Symbol(c, rest)
  {
    var e := EncodeCodePoint(c);
    assert e + rest == [e[0]] + (e[1..] + rest);
    if c < 0x80 {
      assert [] + rest == rest;
    } else {
      LongSymbolRoundTrip(c, rest);
    }
    DecodeByFirst(e[0], e[1..] + rest);
  }

  /** The first byte selects the form. */
  lemma DecodeByFirst(b: Byte, t: seq<CodePoint>)
    ensures DecodeSymbol([b] + t) ==
      if b < 0x80 then Symbol(b, t)
      else if 0xC0 <= b < 0xE0 then DecodeTwo(b, t)
      else if 0xE0 <= b < 0xF0 then DecodeThree(b, t)
      else if 0xF0 <= b < 0xF8 then DecodeFour(b, t)
      else Invalid
  {
    assert ([b] + t)[1..] == t;
  }

  lemma LongSymbolRoundTrip(c: CodePoint, rest: Str)
    requires 0x80 <= c
    ensures var e := EncodeCodePoint(c);
      if c < 0x800 then 0xC0 <= e[0] < 0xE0 && DecodeTwo(e[0], e[1..] + rest) == Symbol(c, rest)
      else if c < 0x1_0000 then 0xE0 <= e[0] < 0xF0 && DecodeThree(e[0], e[1..] + rest) == Symbol(c, rest)
      else 0xF0 <= e[0] < 0xF8 && DecodeFour(e[0], e[1..] + rest) == Symbol(c, rest)
  {
    if c < 0x800 {
      TwoByteRoundTrip(c, rest);
    } else if c < 0x1_0000 {
      ThreeByteRoundTrip(c, rest);
    } else {
      FourByteRoundTrip(c, rest);
    }
  }

  lemma TwoByteRoundTrip(c: CodePoint, rest: Str)
    requires 0x80 <= c < 0x800
    ensures var e := EncodeCodePoint(c);
      0xC0 <= e[0] < 0xE0 && DecodeTwo(e[0], e[1..] + rest) == Symbol(c, rest)
  {
    var d, x, y, z := NumberOfDigits(c);
    EncodedTwo(y, z);
    assert [0xC0 + y, 0x80 + z][1..] == [0x80 + z];
    DecodedTwo(y, z, rest);
  }

  lemma ThreeByteRoundTrip(c: CodePoint, rest: Str)
    requires 0x800 <= c < 0x1_0000
    ensures var e := EncodeCodePoint(c);
      0xE0 <= e[0] < 0xF0 && DecodeThree(e[0], e[1..] + rest) == Symbol(c, rest)
  {
    var d, x, y, z := NumberOfDigits(c);
    EncodedThree(x, y, z);
    assert [0xE0 + x, 0x80 + y, 0x80 + z][1..] == [0x80 + y, 0x80 + z];
    DecodedThree(x, y, z, rest);
  }

  lemma FourByteRoundTrip(c: CodePoint, rest: Str)
    requires 0x1_0000 <= c
    ensures var e := EncodeCodePoint(c);
      0xF0 <= e[0] < 0xF8 && DecodeFour(e[0], e[1..] + rest) == Symbol(c, rest)
  {
    var d, x, y, z := NumberOfDigits(c);
    EncodedFour(d, x, y, z);
    assert [0xF0 + d, 0x80 + x, 0x80 + y, 0x80 + z][1..] == [0x80 + x, 0x80 + y, 0x80 + z];
    DecodedFour(d, x, y, z, rest);
  }

  lemma {:induction false} SymbolsRoundTrip(cs: seq<CodePoint>)
    ensures DecodeAll(EncodeAll(cs)) == Some(cs)
  {
    if cs != [] {
      SymbolRoundTrip(cs[0], EncodeAll(cs[1..]));
      SymbolsRoundTrip(cs[1..]);
      assert EncodeAll(cs) == EncodeCodePoint(cs[0]) + EncodeAll(cs[1..]);
      assert cs == [cs[0]] + cs[1..];
    }
  }

  /** Every text, with or without lone surrogates, comes back. */
  lemma DecodeOfEncode(s: Str)
    ensures Decode(Encode(s)) == Some(s)
  {
    var cs := Ucs2Decode(s);
    EncodedIsByteString(cs);
    ByteStringIsItsCodePoints(EncodeAll(cs));
    SymbolsRoundTrip(cs);
    TextIsItsCodePoints(s);
  }

  // ---------------------------------------------------------------- bytes to text to bytes

  lemma ContinuationByte(b: int)
    requires 0 <= b < 256 && IsContinuation(b)
    ensures b == 0x80 + Low6(b)
  {
  }

  lemma TwoBytesAreCanonical(w: CodeUnit, t: Str)
    requires 0xC0 <= w < 0xE0 && IsByteString(t) && DecodeTwo(w, t).Symbol?
    ensures EncodeCodePoint(DecodeTwo(w, t).c) == [w, t[0]]
  {
    assert IsContinuation(t[0]);
    ContinuationByte(t[0]);
    var y := w - 0xC0;
    assert w % 32 == y;
    EncodedTwo(y, Low6(t[0]));
  }

  lemma ThreeBytesAreCanonical(w: CodeUnit, t: Str)
    requires 0xE0 <= w < 0xF0 && IsByteString(t) && DecodeThree(w, t).Symbol?
    ensures EncodeCodePoint(DecodeThree(w, t).c) == [w, t[0], t[1]]
  {
    assert IsContinuation(t[0]) && IsContinuation(t[1]);
    ContinuationByte(t[0]);
    ContinuationByte(t[1]);
    var x := w - 0xE0;
    assert w % 16 == x;
    EncodedThree(x, Low6(t[0]), Low6(t[1]));
  }

  lemma FourBytesAreCanonical(w: CodeUnit, t: Str)
    requires 0xF0 <= w < 0xF8 && IsByteString(t) && DecodeFour(w, t).Symbol?
    ensures EncodeCodePoint(DecodeFour(w, t).c) == [w, t[0], t[1], t[2]]
  {
    assert IsContinuation(t[0]) && IsContinuation(t[1]) && IsContinuation(t[2]);
    ContinuationByte(t[0]);
    ContinuationByte(t[1]);
    ContinuationByte(t[2]);
    var d := w - 0xF0;
    assert w % 16 == d;
    EncodedFour(d, Low6(t[0]), Low6(t[1]), Low6(t[2]));
  }

  /** A symbol has one encoding only: no overlong form is accepted. */
  lemma SymbolIsCanonical(bytes: Str)
    requires bytes != [] && IsByteString(bytes) && DecodeSymbol(bytes).Symbol?
    ensures var r := DecodeSymbol(bytes); EncodeCodePoint(r.c) + r.rest == bytes
  {
    var b, t := bytes[0], bytes[1..];
    if b < 0x80 {
      Heads(bytes, 1);
    } else if b < 0xE0 {
      TwoBytesAreCanonical(b, t);
      Heads(bytes, 2);
    } else if b < 0xF0 {
      ThreeBytesAreCanonical(b, t);
      Heads(bytes, 3);
    } else {
      FourBytesAreCanonical(b, t);
      Heads(bytes, 4);
    }
  }

  lemma Heads(s: Str, n: nat)
    requires 1 <= n <= 4 && n <= |s|
    ensures var t := s[1..];
      && (n == 1 ==> s == [s[0]] + t)
      && (n == 2 ==> s == [s[0], t[0]] + t[1..])
      && (n == 3 ==> s == [s[0], t[0], t[1]] + t[2..])
      && (n == 4 ==> s == [s[0], t[0], t[1], t[2]] + t[3..])
  {
  }

  lemma RestIsByteString(bytes: Str)
    requires bytes != [] && IsByteString(bytes) && DecodeSymbol(bytes).Symbol?
    ensures IsByteString(DecodeSymbol(bytes).rest)
  {
  }

  lemma {:induction false} DecodedIsCanonical(bytes: Str)
    requires IsByteString(bytes) && DecodeAll(bytes).Some?
    ensures EncodeAll(DecodeAll(bytes).value) == bytes
    decreases |bytes|
  {
    if bytes != [] {
      SymbolIsCanonical(bytes);
      RestIsByteString(bytes);
      DecodedIsCanonical(DecodeSymbol(bytes).rest);
    }
  }

  /** No high surrogate is directly followed by a low surrogate. */
  predicate NoSplitPair(cs: seq<CodePoint>) {
    forall i | 0 <= i < |cs| - 1 :: !(IsHigh(cs[i]) && IsLow(cs[i + 1]))
  }

  /** The code points that the text of `cs` has: split pairs are joined. */
  function JoinPairs(cs: seq<CodePoint>): seq<CodePoint>
    decreases |cs|
  {
    if cs == [] then []
    else if IsHigh(cs[0]) && |cs| > 1 && IsLow(cs[1]) then [Pair(cs[0], cs[1])] + JoinPairs(cs[2..])
    else [cs[0]] + JoinPairs(cs[1..])
  }

  lemma {:induction false} CodePointsOfText(cs: seq<CodePoint>)
    ensures Ucs2Decode(Ucs2Encode(cs)) == JoinPairs(cs)
    decreases |cs|
  {
    if cs != [] {
      var s := Ucs2Encode(cs);
      if cs[0] > 0xFFFF {
        CodePointsOfText(cs[1..]);
        assert s[2..] == Ucs2Encode(cs[1..]);
        PairOfUnits(cs[0]);
      } else if IsHigh(cs[0]) && |cs| > 1 && IsLow(cs[1]) {
        CodePointsOfText(cs[2..]);
        assert s == [cs[0]] + ([cs[1]] + Ucs2Encode(cs[2..]));
        assert s[2..] == Ucs2Encode(cs[2..]);
      } else {
        CodePointsOfText(cs[1..]);
        assert s[1..] == Ucs2Encode(cs[1..]);
        assert |cs| > 1 ==> s[1] == Units(cs[1])[0];
      }
    }
  }

  lemma {:induction false} JoinPairsShortens(cs: seq<CodePoint>)
    ensures |EncodeAll(JoinPairs(cs))| <= |EncodeAll(cs)|
    ensures if NoSplitPair(cs) then JoinPairs(cs) == cs else |EncodeAll(JoinPairs(cs))| < |EncodeAll(cs)|
    decreases |cs|
  {
    if cs != [] {
      if IsHigh(cs[0]) && |cs| > 1 && IsLow(cs[1]) {
        assert !NoSplitPair(cs);
        JoinPairsShortens(cs[2..]);
        FirstTwo(cs);
        EncodeFirst(Pair(cs[0], cs[1]), JoinPairs(cs[2..]));
      } else {
        JoinPairsShortens(cs[1..]);
        assert cs == [cs[0]] + cs[1..];
        EncodeFirst(cs[0], JoinPairs(cs[1..]));
        NoSplitAtFirst(cs);
      }
    }
  }

  lemma EncodeFirst(c: CodePoint, rest: seq<CodePoint>)
    ensures EncodeAll([c] + rest) == EncodeCodePoint(c) + EncodeAll(rest)
  {
    assert ([c] + rest)[1..] == rest;
  }

  /** Two surrogates take six bytes, the pair they make takes four. */
  lemma FirstTwo(cs: seq<CodePoint>)
    requires |cs| > 1 && IsHigh(cs[0]) && IsLow(cs[1])
    ensures |EncodeAll(cs)| == 6 + |EncodeAll(cs[2..])| && |EncodeCodePoint(Pair(cs[0], cs[1]))| == 4
  {
    assert cs[1..][0] == cs[1] && cs[1..][1..] == cs[2..];
  }

  lemma NoSplitAtFirst(cs: seq<CodePoint>)
    requires cs != [] && !(IsHigh(cs[0]) && |cs| > 1 && IsLow(cs[1]))
    ensures NoSplitPair(cs) <==> NoSplitPair(cs[1..])
  {
    assert forall i | 0 < i < |cs| - 1 :: cs[i] == cs[1..][i - 1] && cs[i + 1] == cs[1..][i];
    if !NoSplitPair(cs[1..]) {
      var i :| 0 <= i < |cs[1..]| - 1 && IsHigh(cs[1..][i]) && IsLow(cs[1..][i + 1]);
      assert IsHigh(cs[i + 1]) && IsLow(cs[i + 1 + 1]);
    }
  }

  /** Bytes that decode are what encoding the result gives, unless they spell out a surrogate pair as
      two separate code points. */
  lemma EncodeOfDecode(bytes: Str)
    requires IsByteString(bytes) && Decode(bytes).Some?
    ensures DecodeAll(bytes).Some?
    ensures Encode(Decode(bytes).value) == bytes <==> NoSplitPair(DecodeAll(bytes).value)
  {
    ByteStringIsItsCodePoints(bytes);
    var cs := DecodeAll(bytes).value;
    DecodedIsCanonical(bytes);
    CodePointsOfText(cs);
    JoinPairsShortens(cs);
  }
}
