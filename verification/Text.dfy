/** UTF-16 text as the browser sees it, and what the other modules share about it: the decimal notation in
    which the socket.io and engine.io framings print natural numbers, and `Number(...)`, with which they read
    them back, for all numeric texts and not only for those that they print themselves. A text is a sequence
    of code units, so that lone surrogates are ordinary values; bytes are numbers below 256. `Option` is the
    absence or presence of a value, as `undefined` and `null` are in the sources. */
module Text {

  /** One UTF-16 code unit; lone surrogates are ordinary values. */
  type CodeUnit = u: int | 0 <= u < 0x1_0000

  type Str = seq<CodeUnit>

  type Byte = b: int | 0 <= b < 256

  type Bytes = seq<Byte>

  datatype Option<+T> = None | Some(value: T) {
    function GetOr(default: T): T {
      if Some? then value else default
    }
  }

  const QUOTE: CodeUnit := 34        // "
  const COMMA: CodeUnit := 44        // ,
  const PLUS: CodeUnit := 43         // +
  const MINUS: CodeUnit := 45        // -
  const DOT: CodeUnit := 46          // .
  const SLASH: CodeUnit := 47        // /
  const ZERO: CodeUnit := 48         // 0
  const COLON: CodeUnit := 58        // :
  const LBRACKET: CodeUnit := 91     // [
  const BACKSLASH: CodeUnit := 92    // \
  const RBRACKET: CodeUnit := 93     // ]
  const LBRACE: CodeUnit := 123      // {
  const RBRACE: CodeUnit := 125      // }
  const NEWLINE: CodeUnit := 10
  const SPACE: CodeUnit := 32
  const INFINITY: Str := [73, 110, 102, 105, 110, 105, 116, 121]

  /** A literal as code units. */
  function Ascii(s: string): Str
    requires forall i | 0 <= i < |s| :: s[i] < 128 as char
  {
    seq(|s|, i requires 0 <= i < |s| => s[i] as int)
  }

  predicate IsDigit(c: CodeUnit) {
    48 <= c <= 57
  }

  predicate AllDigits(s: Str) {
    forall i | 0 <= i < |s| :: IsDigit(s[i])
  }

  lemma Assoc<T>(a: seq<T>, b: seq<T>, c: seq<T>)
    ensures a + b + c == a + (b + c)
  {
  }

  lemma SliceOfRest(s: Str, from: nat, to: nat)
    requires from <= to <= |s|
    ensures s[from..][..to - from] == s[from..to]
  {
  }

  /** The base-ten text of a natural number, as string concatenation prints it. */
  function Decimal(n: nat): (s: Str)
    ensures s != [] && AllDigits(s)
    ensures s[0] == ZERO ==> n == 0 && s == [ZERO]
  {
    if n < 10 then [48 + n] else Decimal(n / 10) + [48 + n % 10]
  }

  function Power10(k: nat): (p: nat)
    ensures p > 0
  {
    if k == 0 then 1 else 10 * Power10(k - 1)
  }

  function DecimalValue(s: Str): nat
    requires AllDigits(s)
  {
    if s == [] then 0 else 10 * DecimalValue(s[..|s| - 1]) + (s[|s| - 1] - 48)
  }

  lemma {:induction false} DecimalRoundTrip(n: nat)
    ensures DecimalValue(Decimal(n)) == n
  {
    if n >= 10 {
      DecimalRoundTrip(n / 10);
      assert Decimal(n)[..|Decimal(n)| - 1] == Decimal(n / 10);
    }
  }

  /** White space in the sense of ECMA-262 `StrWhiteSpaceChar`, which `Number` strips. */
  predicate IsBlank(c: CodeUnit) {
    9 <= c <= 13 || c == 32 || c == 0xA0 || c == 0x1680 || 0x2000 <= c <= 0x200A
    || c == 0x2028 || c == 0x2029 || c == 0x202F || c == 0x205F || c == 0x3000 || c == 0xFEFF
  }

  function TrimLeft(s: Str): (t: Str)
    ensures t == [] || !IsBlank(t[0])
    ensures |t| <= |s|
  {
    if s != [] && IsBlank(s[0]) then TrimLeft(s[1..]) else s
  }

  function TrimRight(s: Str): (t: Str)
    ensures t == [] || !IsBlank(t[|t| - 1])
    ensures t <= s
  {
    if s != [] && IsBlank(s[|s| - 1]) then TrimRight(s[..|s| - 1]) else s
  }

  /** A number as the framings use it: `NotNatural` stands for fractions, negative numbers and the
      infinities, which no length and no count is equal to. */
  datatype JsNumber = Nat(n: nat) | NotNatural | NaN

  /** `Number(s)`: ECMA-262 `StringNumericLiteral`, with values taken exactly. */
  function ToNumber(s: Str): JsNumber {
    var t := TrimRight(TrimLeft(s));
    if AllDigits(t) then Nat(DecimalValue(t))
    else if |t| > 2 && t[0] == ZERO && RadixOf(t[1]).Some? then
      match DigitsValue(t[2..], RadixOf(t[1]).value)
      case None => NaN
      case Some(n) => Nat(n)
    else DecimalLiteral(t)
  }

  /** `0x`, `0o` and `0b`, in either case. */
  function RadixOf(c: CodeUnit): (r: Option<nat>)
    ensures r.Some? ==> 2 <= r.value <= 16
  {
    if c == 120 || c == 88 then Some(16)
    else if c == 111 || c == 79 then Some(8)
    else if c == 98 || c == 66 then Some(2)
    else None
  }

  function DigitValue(c: CodeUnit): Option<nat> {
    if IsDigit(c) then Some(c - 48)
    else if 97 <= c <= 102 then Some(c - 87)
    else if 65 <= c <= 70 then Some(c - 55)
    else None
  }

  function DigitsValue(s: Str, radix: nat): Option<nat> {
    if s == [] then Some(0)
    else
      var last := DigitValue(s[|s| - 1]);
      match DigitsValue(s[..|s| - 1], radix)
      case None => None
      case Some(n) => if last.Some? && last.value < radix then Some(Appended(n, last.value, radix)) else None
  }

  function Appended(n: nat, digit: nat, radix: nat): nat { n * radix + digit }

  predicate IsSign(c: CodeUnit) { c == MINUS || c == PLUS }

  /** A sign, digits with or without a fraction, and an exponent. */
  function DecimalLiteral(t: Str): JsNumber {
    var u := if t != [] && IsSign(t[0]) then t[1..] else t;
    if u == INFINITY then NotNatural
    else
      match Digits(u)
      case None => NaN
      case Some((m, e)) => Scaled(t != [] && t[0] == MINUS, m, e)
  }

  /** The digits of an unsigned literal as one number, and the power of ten that goes with them. */
  function Digits(u: Str): Option<(nat, int)> {
    var k := DigitRun(u);
    var fraction := Fraction(u[k..]);
    Assembled(u[..k], fraction.0, fraction.1)
  }

  function Assembled(whole: Str, fraction: Str, power: Str): Option<(nat, int)>
    requires AllDigits(whole) && AllDigits(fraction)
  {
    match Exponent(power)
    case None => None
    case Some(e) => if whole + fraction == [] then None else Some((DecimalValue(whole + fraction), e - |fraction|))
  }

  /** The digits after a point, and the text after them. */
  function Fraction(s: Str): (r: (Str, Str))
    ensures AllDigits(r.0)
  {
    if s != [] && s[0] == DOT then
      var j := DigitRun(s[1..]);
      (s[1..][..j], s[1..][j..])
    else ([], s)
  }

  function Exponent(s: Str): Option<int> {
    if s == [] then Some(0)
    else if s[0] != 101 && s[0] != 69 then None
    else
      var signed := |s| > 1 && IsSign(s[1]);
      var digits := if signed then s[2..] else s[1..];
      if digits == [] || !AllDigits(digits) then None
      else Some(if signed && s[1] == MINUS then 0 - DecimalValue(digits) else DecimalValue(digits))
  }

  /** `m` times a power of ten. */
  function Scaled(negative: bool, m: nat, e: int): JsNumber {
    if negative && m > 0 then NotNatural
    else if e >= 0 then Nat(m * Power10(e))
    else if m % Power10(-e) == 0 then Nat(m / Power10(-e))
    else NotNatural
  }

  lemma DigitsAreTheirNumber(s: Str)
    requires AllDigits(s)
    ensures ToNumber(s) == Nat(DecimalValue(s))
  {
    if s != [] {
      assert IsDigit(s[0]) && IsDigit(s[|s| - 1]);
    }
  }

  lemma DecimalIsItsNumber(n: nat)
    ensures ToNumber(Decimal(n)) == Nat(n)
  {
    DigitsAreTheirNumber(Decimal(n));
    DecimalRoundTrip(n);
  }

  /** The length of the longest prefix of decimal digits. */
  function DigitRun(s: Str): (k: nat)
    ensures k <= |s| && AllDigits(s[..k])
    ensures k < |s| ==> !IsDigit(s[k])
  {
    if s != [] && IsDigit(s[0]) then
      var k := 1 + DigitRun(s[1..]);
      assert forall i | 0 <= i < k :: s[..k][i] == if i == 0 then s[0] else s[1..][..k - 1][i - 1];
      k
    else 0
  }

  lemma {:induction false} DigitRunIs(s: Str, k: nat)
    requires k <= |s| && AllDigits(s[..k])
    requires k < |s| ==> !IsDigit(s[k])
    ensures DigitRun(s) == k
  {
    if k > 0 {
      assert IsDigit(s[..k][0]);
      assert s[1..][..k - 1] == s[..k][1..];
      DigitRunIs(s[1..], k - 1);
    }
  }
}
