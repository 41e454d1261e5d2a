/** base64-arraybuffer: three bytes as four characters and back (RFC 4648, section 4). */
module Base64 {
  import opened Text

  const EQUALS: CodeUnit := 61

  /** `chars[i]` */
  function Char(i: int): (c: CodeUnit)
    requires 0 <= i < 64
    ensures c < 128 && c != EQUALS && Lookup(c) == i
  {
    if i < 26 then 65 + i else if i < 52 then 71 + i else if i < 62 then i - 4 else if i == 62 then 43 else 47
  }

  /** `lookup[c]`; every character that is not in the alphabet counts as 0. */
  function Lookup(c: CodeUnit): (i: int)
    ensures 0 <= i < 64
  {
    if 65 <= c <= 90 then c - 65
    else if 97 <= c <= 122 then c - 71
    else if 48 <= c <= 57 then c + 4
    else if c == 43 then 62
    else if c == 47 then 63
    else 0
  }

  // ---------------------------------------------------------------- encode

  /** The four characters of three bytes. */
  function Quad(x: Byte, y: Byte, z: Byte): (r: Str)
    ensures |r| == 4
  {
    [Char(x / 4), Char(x % 4 * 16 + y / 16), Char(y % 16 * 4 + z / 64), Char(z % 64)]
  }

  /** The byte at position `k`, 0 beyond the end. */
  function ByteAt(b: Bytes, k: nat): Byte {
    if k < |b| then b[k] else 0
  }

  function Drop<T>(s: seq<T>, n: nat): seq<T> {
    if n <= |s| then s[n..] else []
  }

  /** The characters before padding. */
  function Quads(b: Bytes): (r: Str)
    ensures b != [] ==> |r| >= 4
    decreases |b|
  {
    if b == [] then []
    else Quad(b[0], ByteAt(b, 1), ByteAt(b, 2)) + Quads(Drop(b, 3))
  }

  function Encode(b: Bytes): Str {
    var s := Quads(b);
    if |b| % 3 == 2 then s[..|s| - 1] + [EQUALS]
    else if |b| % 3 == 1 then s[..|s| - 2] + [EQUALS, EQUALS]
    else s
  }

  method EncodeLoop(bytes: array<Byte>) returns (base64: Str)
    ensures base64 == Encode(bytes[..])
  {
    var len := bytes.Length;
    base64 := [];
    var i := 0;
    ghost var all := bytes[..];
    while i < len
      invariant base64 + Quads(Drop(all, i)) == Quads(all)
      decreases len - i
    {
      ghost var rest := Drop(all, i);
      assert Drop(rest, 3) == Drop(all, i + 3);
      var quad := Quad(bytes[i], if i + 1 < len then bytes[i + 1] else 0, if i + 2 < len then bytes[i + 2] else 0);
      assert quad == Quad(rest[0], ByteAt(rest, 1), ByteAt(rest, 2));
      Assoc(base64, quad, Quads(Drop(all, i + 3)));
      base64 := base64 + quad;
      i := i + 3;
    }
    assert base64 == Quads(all);
    if len % 3 == 2 {
      base64 := base64[..|base64| - 1] + [EQUALS];
    } else if len % 3 == 1 {
      base64 := base64[..|base64| - 2] + [EQUALS, EQUALS];
    }
  }

  // ---------------------------------------------------------------- decode

  /** The six bits of the character at position `k`, 0 beyond the end. */
  function Bits(s: Str, k: nat): (i: int)
    ensures 0 <= i < 64
  {
    if k < |s| then Lookup(s[k]) else 0
  }

  /** The three bytes of four sextets. */
  function Join(a: int, b: int, c: int, d: int): (r: Bytes)
    requires 0 <= a < 64 && 0 <= b < 64 && 0 <= c < 64 && 0 <= d < 64
    ensures |r| == 3
  {
    [a * 4 + b / 16, b % 16 * 16 + c / 4, c % 4 * 64 + d]
  }

  function Triple(s: Str): (r: Bytes)
    ensures |r| == 3
  {
    Join(Bits(s, 0), Bits(s, 1), Bits(s, 2), Bits(s, 3))
  }

  function Triples(s: Str): (r: Bytes)
    ensures 4 * |r| >= 3 * |s|
    decreases |s|
  {
    if s == [] then [] else Triple(s) + Triples(Drop(s, 4))
  }

  function Pads(s: Str): nat {
    if s == [] || s[|s| - 1] != EQUALS then 0
    else if |s| > 1 && s[|s| - 2] == EQUALS then 2
    else 1
  }

  /** The length given to the ArrayBuffer: three quarters of the text, less the padding. */
  function BufferLength(s: Str): (n: nat)
    ensures n <= |Triples(s)|
  {
    var n := |s| * 3 / 4 - Pads(s);
    if n < 0 then 0 else n
  }

  /** What does not fit into the buffer is dropped. */
  function Decode(s: Str): Bytes {
    Triples(s)[..BufferLength(s)]
  }

  /** Writing one element of a typed array; an index beyond its end is ignored. */
  method Put(bytes: array<Byte>, p: nat, value: Byte)
    modifies bytes
    ensures forall k | 0 <= k < bytes.Length :: bytes[k] == if k == p then value else old(bytes[k])
  {
    if p < bytes.Length {
      bytes[p] := value;
    }
  }

  /** One group of four characters, written at `p`. */
  method PutTriple(bytes: array<Byte>, p: nat, base64: Str, i: nat)
    requires i < |base64|
    modifies bytes
    ensures forall k | 0 <= k < bytes.Length ::
      bytes[k] == if p <= k < p + 3 then Triple(Drop(base64, i))[k - p] else old(bytes[k])
  {
    assert forall k | 0 <= k < 4 :: Bits(base64, i + k) == Bits(Drop(base64, i), k);
    var encoded1 := Bits(base64, i);
    var encoded2 := Bits(base64, i + 1);
    var encoded3 := Bits(base64, i + 2);
    var encoded4 := Bits(base64, i + 3);
    assert Triple(Drop(base64, i)) == Join(encoded1, encoded2, encoded3, encoded4);
    Put(bytes, p, encoded1 * 4 + encoded2 / 16);
    Put(bytes, p + 1, encoded2 % 16 * 16 + encoded3 / 4);
    Put(bytes, p + 2, encoded3 % 4 * 64 + encoded4);
  }

  lemma NextThree(all: Bytes, p: nat, three: Bytes, rest: Bytes)
    requires p <= |all| && |three| == 3 && all[p..] == three + rest
    ensures p + 3 <= |all| && all[p + 3..] == rest
    ensures forall k | p <= k < p + 3 :: all[k] == three[k - p]
  {
    assert all == all[..p] + (three + rest);
  }

  method DecodeLoop(base64: Str) returns (bytes: array<Byte>)
    ensures fresh(bytes) && bytes[..] == Decode(base64)
  {
    bytes := new Byte[BufferLength(base64)](_ => 0);
    ghost var all := Triples(base64);
    var i, p := 0, 0;
    while i < |base64|
      invariant p <= |all| && all[p..] == Triples(Drop(base64, i))
      invariant forall k | 0 <= k < bytes.Length && k < p :: bytes[k] == all[k]
      decreases |base64| - i
    {
      assert Drop(Drop(base64, i), 4) == Drop(base64, i + 4);
      NextThree(all, p, Triple(Drop(base64, i)), Triples(Drop(base64, i + 4)));
      PutTriple(bytes, p, base64, i);
      p := p + 3;
      i := i + 4;
    }
  }

  // ---------------------------------------------------------------- round trip

  lemma JoinOfSextets(x: Byte, y: Byte, z: Byte)
    ensures Join(x / 4, x % 4 * 16 + y / 16, y % 16 * 4 + z / 64, z % 64) == [x, y, z]
  {
    HighAndLow(x % 4, y / 16, 16);
    HighAndLow(y % 16, z / 64, 4);
  }

  lemma HighAndLow(high: nat, low: nat, n: nat)
    requires low < n && (n == 4 || n == 16)
    ensures (high * n + low) / n == high && (high * n + low) % n == low
  {
  }

  lemma TripleOfQuad(x: Byte, y: Byte, z: Byte, rest: Str)
    ensures Triple(Quad(x, y, z) + rest) == [x, y, z]
  {
    JoinOfSextets(x, y, z);
  }

  lemma TripleOfOnePad(x: Byte, y: Byte)
    ensures Triple(Quad(x, y, 0)[..3] + [EQUALS])[..2] == [x, y]
  {
    var s := Quad(x, y, 0)[..3] + [EQUALS];
    assert Bits(s, 0) == x / 4 && Bits(s, 1) == x % 4 * 16 + y / 16 && Bits(s, 2) == y % 16 * 4 && Bits(s, 3) == 0;
    JoinOfSextets(x, y, 0);
  }

  lemma TripleOfTwoPads(x: Byte)
    ensures Triple(Quad(x, 0, 0)[..2] + [EQUALS, EQUALS])[..1] == [x]
  {
    var s := Quad(x, 0, 0)[..2] + [EQUALS, EQUALS];
    assert Bits(s, 0) == x / 4 && Bits(s, 1) == x % 4 * 16;
  }

  lemma EncodeStep(b: Bytes)
    requires |b| > 3
    ensures Encode(b) == Quad(b[0], b[1], b[2]) + Encode(b[3..])
  {
    var quad, tail := Quad(b[0], b[1], b[2]), Quads(b[3..]);
    assert Quads(b) == quad + tail && |tail| >= 2;
    SameRemainder(|b|);
    if |b| % 3 == 2 {
      PaddedTail(quad, tail, 1, [EQUALS]);
    } else if |b| % 3 == 1 {
      PaddedTail(quad, tail, 2, [EQUALS, EQUALS]);
    }
  }

  lemma SameRemainder(n: nat)
    requires n >= 3
    ensures n % 3 == (n - 3) % 3
  {
    var q, r := n / 3, n % 3;
    assert n - 3 == 3 * (q - 1) + r;
  }

  /** Padding replaces the last characters of the last group. */
  lemma PaddedTail(quad: Str, tail: Str, n: nat, padding: Str)
    requires n <= |tail|
    ensures (quad + tail)[..|quad + tail| - n] + padding == quad + (tail[..|tail| - n] + padding)
  {
    assert (quad + tail)[..|quad| + |tail| - n] == quad + tail[..|tail| - n];
    Assoc(quad, tail[..|tail| - n], padding);
  }

  lemma EncodeLast(b: Bytes)
    requires 1 <= |b| <= 3
    ensures var q := Quad(b[0], ByteAt(b, 1), ByteAt(b, 2));
      Encode(b) == if |b| == 3 then q else if |b| == 2 then q[..3] + [EQUALS] else q[..2] + [EQUALS, EQUALS]
  {
    assert Drop(b, 3) == [];
    assert Quads(b) == Quad(b[0], ByteAt(b, 1), ByteAt(b, 2));
  }

  lemma TriplesOfLast(b: Bytes)
    requires 1 <= |b| <= 3
    ensures |Encode(b)| == 4 && Triple(Encode(b))[..|b|] == b
  {
    EncodeLast(b);
    if |b| == 1 {
      TripleOfTwoPads(b[0]);
    } else if |b| == 2 {
      TripleOfOnePad(b[0], b[1]);
    } else {
      TripleOfQuad(b[0], b[1], b[2], []);
      assert Encode(b) + [] == Encode(b);
    }
  }

  lemma {:induction false} TriplesOfEncode(b: Bytes)
    ensures |b| <= |Triples(Encode(b))| && Triples(Encode(b))[..|b|] == b
    decreases |b|
  {
    var s := Encode(b);
    if b == [] {
    } else if |b| <= 3 {
      TriplesOfLast(b);
      assert Triples(s) == Triple(s) + [];
    } else {
      TriplesOfEncode(b[3..]);
      EncodeStep(b);
      TriplesStep(b, s, Encode(b[3..]));
    }
  }

  lemma TriplesStep(b: Bytes, s: Str, rest: Str)
    requires |b| > 3 && s == Quad(b[0], b[1], b[2]) + rest
    requires |b| - 3 <= |Triples(rest)| && Triples(rest)[..|b| - 3] == b[3..]
    ensures |b| <= |Triples(s)| && Triples(s)[..|b|] == b
  {
    TripleOfQuad(b[0], b[1], b[2], rest);
    assert Drop(s, 4) == rest;
    assert b == [b[0], b[1], b[2]] + b[3..];
  }

  lemma {:induction false} ShapeOfEncode(b: Bytes)
    ensures |Encode(b)| * 3 / 4 - Pads(Encode(b)) == |b|
    decreases |b|
  {
    var s := Encode(b);
    if b == [] {
    } else if |b| <= 3 {
      EncodeLast(b);
    } else {
      ShapeOfEncode(b[3..]);
      EncodeStep(b);
      SamePads(Quad(b[0], b[1], b[2]), Encode(b[3..]));
    }
  }

  lemma SamePads(quad: Str, tail: Str)
    requires |tail| >= 2 && |quad| == 4
    ensures Pads(quad + tail) == Pads(tail) && |quad + tail| * 3 / 4 == |tail| * 3 / 4 + 3
  {
    var s := quad + tail;
    assert s[|s| - 1] == tail[|tail| - 1] && s[|s| - 2] == tail[|tail| - 2];
  }

  /** Every byte array comes back, and the buffer is exactly as long as the bytes. */
  lemma DecodeOfEncode(b: Bytes)
    ensures Decode(Encode(b)) == b
  {
    TriplesOfEncode(b);
    ShapeOfEncode(b);
  }
}
