/** The values of numeric texts, from the grammar of `StringNumericLiteral` in ECMA-262. */
module Numerals {
  import opened Text

  datatype Sign = NoSign | PlusSign | MinusSign

  datatype Power = Power(mark: CodeUnit, sign: Sign, digits: Str)

  /** A decimal literal; `point` holds the digits behind a decimal point, if there is one. */
  datatype Literal = Literal(sign: Sign, whole: Str, point: Option<Str>, power: Option<Power>) {
    function Fraction(): Str { point.GetOr([]) }
  }

  predicate LiteralOk(l: Literal) {
    && AllDigits(l.whole) && AllDigits(l.Fraction()) && l.whole + l.Fraction() != []
    && (l.power.Some? ==> PowerOk(l.power.value))
  }

  predicate PowerOk(p: Power) {
    (p.mark == 'e' as int || p.mark == 'E' as int) && p.digits != [] && AllDigits(p.digits)
  }

  function SignText(sign: Sign): Str {
    match sign
    case NoSign => []
    case PlusSign => ['+' as int]
    case MinusSign => ['-' as int]
  }

  function PointText(point: Option<Str>): Str {
    if point.Some? then ['.' as int] + point.value else []
  }

  function PowerText(power: Option<Power>): Str {
    if power.Some? then [power.value.mark] + (SignText(power.value.sign) + power.value.digits) else []
  }

  function UnsignedText(l: Literal): Str {
    l.whole + (PointText(l.point) + PowerText(l.power))
  }

  function LiteralText(l: Literal): Str {
    SignText(l.sign) + UnsignedText(l)
  }

  /** All digits of the literal, read as one number. */
  function Mantissa(l: Literal): nat
    requires LiteralOk(l)
  {
    DecimalValue(l.whole + l.Fraction())
  }

  /** The power of ten by which the digits are multiplied, and the one by which they are divided. */
  function Up(l: Literal): nat
    requires LiteralOk(l)
  {
    if l.power.Some? && !l.power.value.sign.MinusSign? then DecimalValue(l.power.value.digits) else 0
  }

  function Down(l: Literal): nat
    requires LiteralOk(l)
  {
    |l.Fraction()|
    + if l.power.Some? && l.power.value.sign.MinusSign? then DecimalValue(l.power.value.digits) else 0
  }

  function Scale(l: Literal): int
    requires LiteralOk(l)
  {
    Up(l) - Down(l)
  }

  /** The digits times their power of ten make `n`. */
  predicate Amounts(l: Literal, n: nat)
    requires LiteralOk(l)
  {
    n * Power10(Down(l)) == Mantissa(l) * Power10(Up(l))
  }

  /** `r` is the value of the literal, as far as `JsNumber` tells values apart. */
  ghost predicate IsValue(l: Literal, r: JsNumber)
    requires LiteralOk(l)
  {
    if l.sign.MinusSign? && Mantissa(l) > 0 then r.NotNatural?
    else
      match r
      case Nat(n) => Amounts(l, n)
      case NotNatural => forall n: nat :: !Amounts(l, n)
      case NaN => false
  }

  // ---------------------------------------------------------------- powers of ten

  lemma {:induction false} PowerOfSum(a: nat, b: nat)
    ensures Power10(a + b) == Power10(a) * Power10(b)
  {
    if a > 0 {
      PowerOfSum(a - 1, b);
      assert Power10(a + b) == 10 * Power10(a - 1 + b);
      TenTimes(Power10(a - 1), Power10(b));
    }
  }

  lemma TenTimes(x: nat, y: nat)
    ensures (10 * x) * y == 10 * (x * y)
  {
  }

  lemma Cancel(x: nat, y: nat, p: nat)
    requires p > 0
    ensures x * p == y * p <==> x == y
  {
    if x < y {
      Grows(x, y, p);
    } else if y < x {
      Grows(y, x, p);
    }
  }

  lemma Grows(x: nat, y: nat, p: nat)
    requires p > 0 && x < y
    ensures x * p < y * p
  {
    NextMultiple(x, y, p);
  }

  lemma QuotientIs(n: nat, m: nat, p: nat)
    requires p > 0
    ensures n * p == m <==> m % p == 0 && n == m / p
  {
    if n * p == m {
      assert m / p == n && m % p == 0 by { Divides(n, p); }
    } else if m % p == 0 {
      assert m == (m / p) * p;
    }
  }

  lemma Quotient(m: nat, p: nat, q: nat, r: nat)
    requires p > 0 && m == q * p + r && r < p
    ensures m / p == q && m % p == r
  {
    var a, b := m / p, m % p;
    assert m == a * p + b;
    if a < q {
      NextMultiple(a, q, p);
    } else if q < a {
      NextMultiple(q, a, p);
    }
  }

  lemma NextMultiple(x: nat, y: nat, p: nat)
    requires x < y
    ensures x * p + p <= y * p
  {
    var d := y - x - 1;
    assert y * p == (x + 1 + d) * p == x * p + p + d * p;
    assert d * p >= 0;
  }

  lemma Divides(n: nat, p: nat)
    requires p > 0
    ensures (n * p) / p == n && (n * p) % p == 0
  {
    Quotient(n * p, p, n, 0);
  }

  lemma AmountUp(n: nat, m: nat, up: nat, down: nat)
    requires up >= down
    ensures n * Power10(down) == m * Power10(up) <==> n == m * Power10(up - down)
  {
    PowerOfSum(up - down, down);
    var a, b := Power10(up - down), Power10(down);
    assert m * (a * b) == (m * a) * b;
    Cancel(n, m * a, b);
  }

  /** `m` times 10 to the power `up - down`. */
  lemma AmountOf(n: nat, m: nat, up: nat, down: nat)
    ensures n * Power10(down) == m * Power10(up) <==>
      if up >= down then n == m * Power10(up - down)
      else m % Power10(down - up) == 0 && n == m / Power10(down - up)
  {
    if up >= down {
      AmountUp(n, m, up, down);
    } else {
      PowerOfSum(down - up, up);
      var a, b := Power10(down - up), Power10(up);
      assert n * (a * b) == (n * a) * b;
      Cancel(n * a, m, b);
      QuotientIs(n, m, a);
    }
  }

  lemma ScaledIsValue(l: Literal)
    requires LiteralOk(l)
    ensures IsValue(l, Scaled(l.sign.MinusSign?, Mantissa(l), Scale(l)))
  {
    var m, up, down := Mantissa(l), Up(l), Down(l);
    forall n: nat
      ensures n * Power10(down) == m * Power10(up) <==>
        if up >= down then n == m * Power10(up - down)
        else m % Power10(down - up) == 0 && n == m / Power10(down - up)
    {
      AmountOf(n, m, up, down);
    }
  }

  // ---------------------------------------------------------------- the parts of a literal

  lemma DigitsThen(digits: Str, rest: Str)
    requires AllDigits(digits) && (rest == [] || !IsDigit(rest[0]))
    ensures DigitRun(digits + rest) == |digits|
    ensures (digits + rest)[..|digits|] == digits && (digits + rest)[|digits|..] == rest
  {
    assert (digits + rest)[..|digits|] == digits;
    DigitRunIs(digits + rest, |digits|);
  }

  lemma ExponentOf(power: Option<Power>)
    requires power.Some? ==> PowerOk(power.value)
    ensures var r := Exponent(PowerText(power));
      r.Some? && r.value ==
        if power.None? then 0
        else if power.value.sign.MinusSign? then 0 - DecimalValue(power.value.digits)
        else DecimalValue(power.value.digits)
  {
    if power.Some? {
      var s, digits := PowerText(power), power.value.digits;
      if power.value.sign.NoSign? {
        assert SignText(NoSign) + digits == digits;
        assert s[1] == digits[0];
      }
      ExponentOfDigits(s, power.value.sign, digits);
    }
  }

  lemma ExponentOfDigits(s: Str, sign: Sign, digits: Str)
    requires |s| > 1 && (s[0] == 101 || s[0] == 69) && digits != [] && AllDigits(digits)
    requires if sign.NoSign? then !IsSign(s[1]) && s[1..] == digits else [s[1]] == SignText(sign) && s[2..] == digits
    ensures Exponent(s).Some?
    ensures Exponent(s).value == if sign.MinusSign? then 0 - DecimalValue(digits) else DecimalValue(digits)
  {
    var ds := if IsSign(s[1]) then s[2..] else s[1..];
    assert [s[1]] == SignText(sign) ==> s[1] == SignText(sign)[0];
    SameValue(ds, digits);
  }

  lemma SameValue(a: Str, b: Str)
    requires a == b && AllDigits(a)
    ensures DecimalValue(a) == DecimalValue(b)
  {
  }

  lemma FractionOf(l: Literal)
    requires LiteralOk(l)
    ensures Fraction(PointText(l.point) + PowerText(l.power)) == (l.Fraction(), PowerText(l.power))
  {
    var rest := PowerText(l.power);
    if l.point.Some? {
      FractionAfterPoint(l.point.value, rest);
    } else {
      assert PointText(l.point) + rest == rest;
    }
  }

  lemma FractionAfterPoint(fraction: Str, rest: Str)
    requires AllDigits(fraction) && (rest == [] || !IsDigit(rest[0]))
    ensures Fraction([DOT] + fraction + rest) == (fraction, rest)
  {
    var s := [DOT] + fraction + rest;
    var t, j := s[1..], |fraction|;
    assert t == fraction + rest;
    DigitsThen(fraction, rest);
    assert t[..j] == fraction && t[j..] == rest;
  }

  lemma DigitsOfLiteral(l: Literal)
    requires LiteralOk(l)
    ensures var r := Digits(UnsignedText(l)); r.Some? && r.value.0 == Mantissa(l) && r.value.1 == Scale(l)
  {
    var u := UnsignedText(l);
    DigitsThen(l.whole, PointText(l.point) + PowerText(l.power));
    FractionOf(l);
    assert u[..DigitRun(u)] == l.whole && u[DigitRun(u)..] == PointText(l.point) + PowerText(l.power);
    ExponentOf(l.power);
    assert Digits(u) == Assembled(l.whole, l.Fraction(), PowerText(l.power));
  }

  lemma DecimalLiteralOf(l: Literal)
    requires LiteralOk(l)
    ensures DecimalLiteral(LiteralText(l)) == Scaled(l.sign.MinusSign?, Mantissa(l), Scale(l))
  {
    SignApart(l);
    DigitsOfLiteral(l);
    assert INFINITY[0] == 73 && UnsignedText(l)[0] != 73 by { UnsignedStarts(l); }
    ScaledLiteral(LiteralText(l), UnsignedText(l), l.sign.MinusSign?, Mantissa(l), Scale(l));
  }

  lemma ScaledLiteral(t: Str, u: Str, negative: bool, m: nat, e: int)
    requires u == (if t != [] && IsSign(t[0]) then t[1..] else t) && u != INFINITY
    requires negative == (t != [] && t[0] == MINUS)
    requires Digits(u).Some? && Digits(u).value.0 == m && Digits(u).value.1 == e
    ensures DecimalLiteral(t) == Scaled(negative, m, e)
  {
  }

  lemma SignApart(l: Literal)
    requires LiteralOk(l)
    ensures var t := LiteralText(l);
      UnsignedText(l) == (if t != [] && IsSign(t[0]) then t[1..] else t)
      && l.sign.MinusSign? == (t != [] && t[0] == MINUS)
  {
    UnsignedStarts(l);
    assert l.sign.NoSign? ==> LiteralText(l) == UnsignedText(l);
  }

  lemma LiteralEnds(l: Literal)
    requires LiteralOk(l)
    ensures var t := LiteralText(l); t != [] && !IsBlank(t[0]) && !IsBlank(t[|t| - 1])
  {
    UnsignedStarts(l);
    var t, u := LiteralText(l), UnsignedText(l);
    assert t[|t| - 1] == u[|u| - 1];
    assert l.sign.NoSign? ==> t == u;
  }

  /** An unsigned literal starts with a digit or a point, and ends with one. */
  lemma UnsignedStarts(l: Literal)
    requires LiteralOk(l)
    ensures var u := UnsignedText(l);
      && u != [] && (IsDigit(u[0]) || u[0] == DOT) && (IsDigit(u[|u| - 1]) || u[|u| - 1] == DOT)
      && (|u| > 1 && u[0] == ZERO ==> IsDigit(u[1]) || u[1] == DOT || u[1] == 101 || u[1] == 69)
  {
    var u, p := UnsignedText(l), PowerText(l.power);
    if l.power.Some? {
      assert u[|u| - 1] == l.power.value.digits[|l.power.value.digits| - 1];
    }
  }

  // ---------------------------------------------------------------- white space around it

  /** The white space and line terminators of ECMA-262. */
  const WHITE: set<CodeUnit> :=
    {9, 10, 11, 12, 13, 32, 160, 5760, 8192, 8193, 8194, 8195, 8196, 8197, 8198, 8199, 8200, 8201, 8202,
     8232, 8233, 8239, 8287, 12288, 65279}

  predicate AllWhite(s: Str) { forall i | 0 <= i < |s| :: s[i] in WHITE }

  lemma BlankIsWhite(c: CodeUnit)
    ensures IsBlank(c) <==> c in WHITE
  {
  }

  lemma {:induction false} TrimmedLeft(before: Str, t: Str)
    requires AllWhite(before) && t != [] && !IsBlank(t[0])
    ensures TrimLeft(before + t) == t
    decreases |before|
  {
    if before == [] {
      assert before + t == t;
    } else {
      BlankIsWhite(before[0]);
      assert (before + t)[1..] == before[1..] + t;
      TrimmedLeft(before[1..], t);
    }
  }

  lemma {:induction false} TrimmedRight(t: Str, after: Str)
    requires AllWhite(after) && t != [] && !IsBlank(t[|t| - 1])
    ensures TrimRight(t + after) == t
    decreases |after|
  {
    if after == [] {
      assert t + after == t;
    } else {
      BlankIsWhite(after[|after| - 1]);
      assert (t + after)[..|t + after| - 1] == t + after[..|after| - 1];
      TrimmedRight(t, after[..|after| - 1]);
    }
  }

  lemma Trimmed(before: Str, t: Str, after: Str)
    requires AllWhite(before) && AllWhite(after) && t != [] && !IsBlank(t[0]) && !IsBlank(t[|t| - 1])
    ensures TrimRight(TrimLeft(before + t + after)) == t
  {
    Assoc(before, t, after);
    TrimmedLeft(before, t + after);
    TrimmedRight(t, after);
  }

  // ---------------------------------------------------------------- main results

  lemma NumberOfTrimmed(l: Literal)
    requires LiteralOk(l)
    ensures var t := LiteralText(l);
      if AllDigits(t) then l.sign.NoSign? && l.point.None? && l.power.None? && t == l.whole
      else !(|t| > 2 && t[0] == ZERO && RadixOf(t[1]).Some?)
  {
    var t := LiteralText(l);
    if !l.sign.NoSign? {
      HasOther(t, 0);
      assert t[0] != ZERO;
    } else {
      UnsignedStarts(l);
      assert t == UnsignedText(l);
      UnsignedIsWhole(l);
    }
  }

  lemma UnsignedIsWhole(l: Literal)
    requires LiteralOk(l)
    ensures AllDigits(UnsignedText(l)) ==> l.point.None? && l.power.None? && UnsignedText(l) == l.whole
  {
    if l.point.Some? || l.power.Some? {
      assert UnsignedText(l)[|l.whole|] == (PointText(l.point) + PowerText(l.power))[0];
      HasOther(UnsignedText(l), |l.whole|);
    }
  }

  lemma HasOther(t: Str, i: nat)
    requires i < |t| && !IsDigit(t[i])
    ensures !AllDigits(t)
  {
  }

  /** `Number` of a decimal literal, with white space around it, is the digits times their power of ten. */
  lemma NumberOfLiteral(before: Str, l: Literal, after: Str)
    requires LiteralOk(l) && AllWhite(before) && AllWhite(after)
    ensures IsValue(l, ToNumber(before + LiteralText(l) + after))
  {
    var t := LiteralText(l);
    LiteralEnds(l);
    Trimmed(before, t, after);
    NumberOfTrimmed(l);
    ToNumberOfTrimmed(before + t + after, t);
    if AllDigits(t) {
      WholeIsValue(l);
    } else {
      DecimalLiteralOf(l);
      ScaledIsValue(l);
    }
  }

  lemma WholeIsValue(l: Literal)
    requires LiteralOk(l) && l.sign.NoSign? && l.point.None? && l.power.None?
    ensures IsValue(l, Nat(DecimalValue(l.whole)))
  {
    SameValue(l.whole + l.Fraction(), l.whole);
    assert Power10(0) == 1;
  }

  lemma ToNumberOfTrimmed(s: Str, t: Str)
    requires t == TrimRight(TrimLeft(s)) && (AllDigits(t) || !(|t| > 2 && t[0] == ZERO && RadixOf(t[1]).Some?))
    ensures ToNumber(s) == if AllDigits(t) then Nat(DecimalValue(t)) else DecimalLiteral(t)
  {
  }

  /** The digit `d` as a character of the bases up to 16. */
  function DigitChar(d: nat, upper: bool): CodeUnit
    requires d < 16
  {
    if d < 10 then '0' as int + d else if upper then 'A' as int + (d - 10) else 'a' as int + (d - 10)
  }

  /** `n` in another base, with leading zeros or not. */
  function RadixText(n: nat, radix: nat, upper: bool): (s: Str)
    requires radix == 2 || radix == 8 || radix == 16
    ensures s != []
  {
    if n < radix then [DigitChar(n, upper)]
    else RadixText(n / radix, radix, upper) + [DigitChar(n % radix, upper)]
  }

  lemma {:induction false} DigitsOfRadixText(n: nat, radix: nat, upper: bool)
    requires radix == 2 || radix == 8 || radix == 16
    ensures DigitsValue(RadixText(n, radix, upper), radix) == Some(n)
    decreases n
  {
    assert Appended(n / radix, n % radix, radix) == n by { Reassembled(n, radix); }
    if n >= radix {
      DigitsOfRadixText(n / radix, radix, upper);
      OneMoreDigit(RadixText(n / radix, radix, upper), n / radix, n % radix, radix, upper);
    } else {
      assert DigitsValue([], radix) == Some(0) && [] + [DigitChar(n, upper)] == RadixText(n, radix, upper);
      OneMoreDigit([], 0, n, radix, upper);
      assert Appended(0, n, radix) == n;
    }
  }

  lemma Reassembled(n: nat, radix: nat)
    requires radix == 2 || radix == 8 || radix == 16
    ensures Appended(n / radix, n % radix, radix) == n
  {
    if radix == 2 {
      assert n == n / 2 * 2 + n % 2;
    } else if radix == 8 {
      assert n == n / 8 * 8 + n % 8;
    } else {
      assert n == n / 16 * 16 + n % 16;
    }
  }

  lemma OneMoreDigit(s: Str, n: nat, d: nat, radix: nat, upper: bool)
    requires d < radix <= 16 && DigitsValue(s, radix) == Some(n)
    ensures DigitsValue(s + [DigitChar(d, upper)], radix) == Some(Appended(n, d, radix))
  {
    var c := DigitChar(d, upper);
    assert (s + [c])[..|s + [c]| - 1] == s && (s + [c])[|s|] == c;
    ValueOfDigit(d, upper);
  }

  lemma ValueOfDigit(d: nat, upper: bool)
    requires d < 16
    ensures DigitValue(DigitChar(d, upper)) == Some(d)
  {
  }

  /** `0x`, `0o` and `0b`, in either case. */
  predicate MarksRadix(mark: CodeUnit, radix: nat) {
    || (radix == 16 && (mark == 'x' as int || mark == 'X' as int))
    || (radix == 8 && (mark == 'o' as int || mark == 'O' as int))
    || (radix == 2 && (mark == 'b' as int || mark == 'B' as int))
  }

  lemma {:induction false} RadixTextEnds(n: nat, radix: nat, upper: bool)
    requires radix == 2 || radix == 8 || radix == 16
    ensures var s := RadixText(n, radix, upper); !IsBlank(s[|s| - 1])
  {
  }

  /** `Number` of a hexadecimal, octal or binary literal. */
  lemma NumberOfRadixLiteral(before: Str, mark: CodeUnit, n: nat, radix: nat, upper: bool, after: Str)
    requires MarksRadix(mark, radix) && AllWhite(before) && AllWhite(after)
    ensures ToNumber(before + (['0' as int, mark] + RadixText(n, radix, upper)) + after) == Nat(n)
  {
    var digits := RadixText(n, radix, upper);
    RadixTextEnds(n, radix, upper);
    DigitsOfRadixText(n, radix, upper);
    ToNumberOfRadix(before, mark, digits, after, radix, n);
  }

  lemma ToNumberOfRadix(before: Str, mark: CodeUnit, digits: Str, after: Str, radix: nat, n: nat)
    requires MarksRadix(mark, radix) && AllWhite(before) && AllWhite(after)
    requires digits != [] && !IsBlank(digits[|digits| - 1]) && DigitsValue(digits, radix) == Some(n)
    ensures ToNumber(before + ([ZERO, mark] + digits) + after) == Nat(n)
  {
    var t := [ZERO, mark] + digits;
    assert t[|t| - 1] == digits[|digits| - 1];
    Trimmed(before, t, after);
    HasOther(t, 1);
    assert t[2..] == digits;
  }

  // ---------------------------------------------------------------- what is not a number

  lemma PowerOf(rest: Str) returns (power: Option<Power>)
    requires Exponent(rest).Some?
    ensures (power.Some? ==> PowerOk(power.value)) && PowerText(power) == rest
  {
    if rest == [] {
      power := None;
    } else {
      var sign := if |rest| == 1 || !IsSign(rest[1]) then NoSign else if rest[1] == MINUS then MinusSign else PlusSign;
      var digits := if sign.NoSign? then rest[1..] else rest[2..];
      power := Some(Power(rest[0], sign, digits));
      assert rest == [rest[0]] + (SignText(sign) + digits);
    }
  }

  lemma PointOf(s: Str) returns (point: Option<Str>)
    ensures point.GetOr([]) == Fraction(s).0 && PointText(point) + Fraction(s).1 == s
  {
    if s != [] && s[0] == DOT {
      var t := s[1..];
      var j := DigitRun(t);
      point := Some(t[..j]);
      assert Fraction(s).0 == t[..j] && Fraction(s).1 == t[j..];
      assert s == [DOT] + t && t == t[..j] + t[j..];
    } else {
      point := None;
    }
  }

  lemma LiteralOf(t: Str) returns (l: Literal)
    requires var u := if t != [] && IsSign(t[0]) then t[1..] else t; Digits(u).Some?
    ensures LiteralOk(l) && LiteralText(l) == t
  {
    if t != [] && IsSign(t[0]) {
      l := UnsignedOf(t[1..]);
      l := l.(sign := if t[0] == MINUS then MinusSign else PlusSign);
      assert t == SignText(l.sign) + t[1..];
    } else {
      l := UnsignedOf(t);
      assert SignText(NoSign) + t == t;
    }
  }

  lemma UnsignedOf(u: Str) returns (l: Literal)
    requires Digits(u).Some?
    ensures LiteralOk(l) && l.sign.NoSign? && UnsignedText(l) == u
  {
    var k := DigitRun(u);
    var point := PointOf(u[k..]);
    var power := PowerOf(Fraction(u[k..]).1);
    l := Literal(NoSign, u[..k], point, power);
    Whole(l, u, k);
  }

  lemma Whole(l: Literal, u: Str, k: nat)
    requires k <= |u| && l.whole == u[..k] && PointText(l.point) + PowerText(l.power) == u[k..]
    ensures UnsignedText(l) == u
  {
    assert u == u[..k] + u[k..];
  }

  /** What `Number` accepts of a trimmed text. */
  ghost predicate IsNumeric(t: Str) {
    || AllDigits(t)
    || (|t| > 2 && t[0] == ZERO && RadixOf(t[1]).Some? && DigitsValue(t[2..], RadixOf(t[1]).value).Some?)
    || t == INFINITY || t == [PLUS] + INFINITY || t == [MINUS] + INFINITY
    || exists l :: LiteralOk(l) && t == LiteralText(l)
  }

  /** `Number` is not `NaN` on numeric texts only. */
  lemma NumberIsOfNumeric(s: Str)
    ensures ToNumber(s) != NaN ==> IsNumeric(TrimRight(TrimLeft(s)))
  {
    var t := TrimRight(TrimLeft(s));
    if ToNumber(s) != NaN && !AllDigits(t) && !(|t| > 2 && t[0] == ZERO && RadixOf(t[1]).Some?) {
      var u := if t != [] && IsSign(t[0]) then t[1..] else t;
      if u == INFINITY {
        assert t == if t != [] && IsSign(t[0]) then [t[0]] + u else u;
      } else {
        assert Digits(u).Some?;
        var l := LiteralOf(t);
      }
    }
  }
}
