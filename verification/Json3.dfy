/** JSON as JSON3 prints and reads it: values, the printer with its escapes and its indentation, the
    tokens and the lexer, and the recursive-descent parser, all as functions on texts. The reader with its
    mutable index is in `JsonReader`, the round trip in `JsonRoundTrip`. Object members are a map; the order
    in which they are printed is a parameter. */
module Json3 {
  import opened Text

  /** A JavaScript number: an integer printed in base ten, any other finite number represented by the
      text of a numeral for it, or `NaN` and the infinities. */
  datatype Number = Int(n: int) | Real(lexeme: Str) | NotANumber | Infinite(negative: bool) {
    predicate Finite() {
      Int? || Real?
    }
  }

  /** A JavaScript value as the packet code sees it; `Bin` is an ArrayBuffer. */
  datatype Value =
    | Undef
    | Null
    | Bool(b: bool)
    | Num(num: Number)
    | String(s: Str)
    | Bin(bytes: Bytes)
    | Arr(items: seq<Value>)
    | Obj(members: map<Str, Value>)

  /** The order in which `for...in` visits the keys of an object. */
  type Order = map<Str, Value> -> seq<Str>

  ghost predicate Enumerates(order: Order) {
    forall m :: IsEnumeration(order(m), m.Keys)
  }

  ghost predicate IsEnumeration(ks: seq<Str>, keys: set<Str>) {
    (forall k :: k in ks <==> k in keys) && forall i, j | 0 <= i < j < |ks| :: ks[i] != ks[j]
  }

  const NULL_TEXT: Str := [110, 117, 108, 108]
  const TRUE_TEXT: Str := [116, 114, 117, 101]
  const FALSE_TEXT: Str := [102, 97, 108, 115, 101]

  // `results["__proto__"] = v` sets the prototype of `results` and makes no member.
  const PROTO: Str := [95, 95, 112, 114, 111, 116, 111, 95, 95]

  // ---------------------------------------------------------------- printer

  function HexDigit(d: nat): (c: CodeUnit)
    requires d < 16
    ensures IsHex(c) && HexValue(c) == d
  {
    if d < 10 then 48 + d else 87 + d
  }

  /** One code unit inside a quoted string. */
  function Escape(c: CodeUnit): Str {
    if c == 92 then [92, 92]
    else if c == 34 then [92, 34]
    else if c == 8 then [92, 98]
    else if c == 12 then [92, 102]
    else if c == 10 then [92, 110]
    else if c == 13 then [92, 114]
    else if c == 9 then [92, 116]
    else if c < 32 then [92, 117, 48, 48, HexDigit(c / 16), HexDigit(c % 16)]
    else [c]
  }

  function EscapeAll(s: Str): Str {
    if s == [] then [] else Escape(s[0]) + EscapeAll(s[1..])
  }

  function Quote(s: Str): Str {
    [QUOTE] + EscapeAll(s) + [QUOTE]
  }

  function NumberText(n: Number): Str {
    match n
    case Int(n) => if n < 0 then [MINUS] + Decimal(-n) else Decimal(n)
    case Real(t) => t
    case _ => NULL_TEXT
  }

  function Join(parts: seq<Str>, sep: Str): Str {
    if |parts| == 0 then []
    else if |parts| == 1 then parts[0]
    else parts[0] + sep + Join(parts[1..], sep)
  }

  /** Brackets around the printed parts, one line per part when `gap` is not empty. */
  function Enclose(open: CodeUnit, parts: seq<Str>, close: CodeUnit, gap: Str, indent: Str): Str {
    if parts == [] then [open, close]
    else if gap == [] then [open] + Join(parts, [COMMA]) + [close]
    else
      [open, NEWLINE] + (indent + gap) + Join(parts, [COMMA, NEWLINE] + (indent + gap))
      + [NEWLINE] + indent + [close]
  }

  /** `serialize`; a top-level `undefined` prints nothing, an `undefined` array element prints `null`. */
  function Serialize(v: Value, order: Order, gap: Str, indent: Str): Str
    decreases v, 1
  {
    match v
    case Undef => []
    case Null => NULL_TEXT
    case Bool(b) => if b then TRUE_TEXT else FALSE_TEXT
    case Num(n) => NumberText(n)
    case String(s) => Quote(s)
    case Bin(_) => [LBRACE, RBRACE]
    case Arr(items) =>
      Enclose(LBRACKET, SerializeItems(items, order, gap, indent + gap), RBRACKET, gap, indent)
    case Obj(members) =>
      Enclose(LBRACE, SerializeMembers(v, order(members), order, gap, indent + gap), RBRACE, gap, indent)
  }

  function SerializeItems(items: seq<Value>, order: Order, gap: Str, indent: Str): (parts: seq<Str>)
    ensures |parts| == |items|
    decreases items, 0
  {
    if items == [] then []
    else
      [if items[0].Undef? then NULL_TEXT else Serialize(items[0], order, gap, indent)]
      + SerializeItems(items[1..], order, gap, indent)
  }

  function SerializeMembers(v: Value, keys: seq<Str>, order: Order, gap: Str, indent: Str): seq<Str>
    requires v.Obj?
    decreases v, 0, |keys|
  {
    if keys == [] then []
    else
      var rest := SerializeMembers(v, keys[1..], order, gap, indent);
      if keys[0] in v.members && !v.members[keys[0]].Undef? then
        [Quote(keys[0]) + [COLON] + (if gap == [] then [] else [SPACE])
          + Serialize(v.members[keys[0]], order, gap, indent)] + rest
      else rest
  }

  // ---------------------------------------------------------------- lexer

  datatype Token = Punct(c: CodeUnit) | Text(s: Str) | Numeral(num: Number) | Literal(b: bool) | NullTok | End

  /** The next token and the text after it, or `Abort` where the code throws a SyntaxError. */
  datatype Lexed = Lexed(tok: Token, rest: Str) | Abort

  predicate IsSpace(c: CodeUnit) {
    c == 9 || c == 10 || c == 13 || c == 32
  }

  predicate IsPunct(c: CodeUnit) {
    c == LBRACE || c == RBRACE || c == LBRACKET || c == RBRACKET || c == COLON || c == COMMA
  }

  predicate IsHex(c: CodeUnit) {
    48 <= c <= 57 || 97 <= c <= 102 || 65 <= c <= 70
  }

  function HexValue(c: CodeUnit): (d: nat)
    requires IsHex(c)
    ensures d < 16
  {
    if c <= 57 then c - 48 else if c >= 97 then c - 87 else c - 55
  }

  /** The character that a one-letter escape stands for. */
  function Unescape(c: CodeUnit): Option<CodeUnit> {
    if c == 92 || c == 34 || c == 47 then Some(c)
    else if c == 98 then Some(8)
    else if c == 116 then Some(9)
    else if c == 110 then Some(10)
    else if c == 102 then Some(12)
    else if c == 114 then Some(13)
    else None
  }

  /** The rest of a string token after its opening quote; `value` is what was read so far. */
  function LexString(s: Str, value: Str): (r: Lexed)
    ensures r.Lexed? ==> |r.rest| < |s| && r.tok.Text?
    decreases |s|
  {
    if s == [] || s[0] < 32 then Abort
    else if s[0] == QUOTE then Lexed(Text(value), s[1..])
    else if s[0] != BACKSLASH then LexString(s[1..], value + [s[0]])
    else if |s| == 1 then Abort
    else if s[1] == 117 then
      if |s| >= 6 && IsHex(s[2]) && IsHex(s[3]) && IsHex(s[4]) && IsHex(s[5]) then
        LexString(s[6..], value + [HexUnit(s[2..6])])
      else Abort
    else
      match Unescape(s[1])
      case Some(c) => LexString(s[2..], value + [c])
      case None => Abort
  }

  function HexUnit(s: Str): CodeUnit
    requires |s| == 4 && forall i | 0 <= i < 4 :: IsHex(s[i])
  {
    4096 * HexValue(s[0]) + 256 * HexValue(s[1]) + 16 * HexValue(s[2]) + HexValue(s[3])
  }

  /** The text after an optional fraction, or `None` for a point without digits. */
  function SkipFraction(s: Str): (r: Option<Str>)
    ensures r.Some? ==> |r.value| <= |s|
  {
    if s != [] && s[0] == DOT then
      var k := DigitRun(s[1..]);
      if k == 0 then None else Some(s[1..][k..])
    else Some(s)
  }

  /** The text after an optional exponent, or `None` for an exponent without digits. */
  function SkipExponent(s: Str): (r: Option<Str>)
    ensures r.Some? ==> |r.value| <= |s|
  {
    if s != [] && (s[0] == 101 || s[0] == 69) then
      var t := if |s| > 1 && (s[1] == 43 || s[1] == MINUS) then s[2..] else s[1..];
      var k := DigitRun(t);
      if k == 0 then None else Some(t[k..])
    else Some(s)
  }

  function SkipFractionAndExponent(s: Str): (r: Option<Str>)
    ensures r.Some? ==> |r.value| <= |s|
  {
    match SkipFraction(s)
    case None => None
    case Some(t) => SkipExponent(t)
  }

  predicate StartsNumber(s: Str) {
    s != [] && (IsDigit(s[0]) || (s[0] == MINUS && |s| > 1 && IsDigit(s[1])))
  }

  /** The text after an unsigned numeral, or `None` where none is at the start of `t`. */
  function Unsigned(t: Str): (r: Option<Str>)
    requires t != [] && IsDigit(t[0])
    ensures r.Some? ==> |r.value| < |t|
  {
    if t[0] == ZERO && |t| > 1 && IsDigit(t[1]) then None else SkipFractionAndExponent(t[DigitRun(t)..])
  }

  /** A numeric token; `s` starts with a digit, or with a minus sign before a digit. */
  function LexNumber(s: Str): (r: Lexed)
    requires StartsNumber(s)
    ensures r.Lexed? ==> |r.rest| < |s| && r.tok.Numeral?
  {
    var t := if s[0] == MINUS then s[1..] else s;
    match Unsigned(t)
    case None => Abort
    case Some(rest) => Lexed(Numeral(NumeralOf(s[0] == MINUS, t[..|t| - |rest|])), rest)
  }

  lemma LexNumberIs(s: Str, negative: bool, numeral: Str, rest: Str)
    requires StartsNumber(s) && negative == (s[0] == MINUS)
    requires var t := if negative then s[1..] else s;
      Unsigned(t) == Some(rest) && t[..|t| - |rest|] == numeral
    ensures LexNumber(s) == Lexed(Numeral(NumeralOf(negative, numeral)), rest)
  {
    var t := if negative then s[1..] else s;
    LexNumberTakes(s, t, rest);
    SameNumeral(negative, t[..|t| - |rest|], numeral);
  }

  lemma SameNumeral(negative: bool, a: Str, b: Str)
    requires a == b
    ensures NumeralOf(negative, a) == NumeralOf(negative, b)
  {
  }

  lemma LexNumberTakes(s: Str, t: Str, rest: Str)
    requires StartsNumber(s) && t == (if s[0] == MINUS then s[1..] else s) && Unsigned(t) == Some(rest)
    ensures LexNumber(s) == Lexed(Numeral(NumeralOf(s[0] == MINUS, t[..|t| - |rest|])), rest)
  {
  }

  /** The number that the unary plus makes of a numeral. */
  function NumeralOf(negative: bool, numeral: Str): Number {
    match ToNumber(numeral)
    case Nat(n) => var m: int := n; Int(if negative then -m else m)
    case _ => Real((if negative then [MINUS] else []) + numeral)
  }

  function LexLiteral(s: Str): (r: Lexed)
    ensures r.Lexed? ==> !r.tok.End? && |r.rest| < |s|
  {
    if TRUE_TEXT <= s then Lexed(Literal(true), s[4..])
    else if FALSE_TEXT <= s then Lexed(Literal(false), s[5..])
    else if NULL_TEXT <= s then Lexed(NullTok, s[4..])
    else Abort
  }

  /** The token at the start of the text. */
  function LexToken(s: Str): (r: Lexed)
    requires s != []
    ensures r.Lexed? ==> !r.tok.End? && |r.rest| < |s|
  {
    if IsPunct(s[0]) then Lexed(Punct(s[0]), s[1..])
    else if s[0] == QUOTE then LexString(s[1..], [])
    else if StartsNumber(s) then LexNumber(s)
    else if s[0] == MINUS then Abort
    else LexLiteral(s)
  }

  /** `lex`: skips white space, then reads one token. */
  function Lex(s: Str): (r: Lexed)
    ensures r.Lexed? ==> if r.tok.End? then r.rest == [] else |r.rest| < |s|
    decreases |s|
  {
    if s == [] then Lexed(End, [])
    else if IsSpace(s[0]) then Lex(s[1..])
    else LexToken(s)
  }

  // ---------------------------------------------------------------- parser

  datatype Parsed = Parsed(value: Value, rest: Str) | SyntaxError

  /** `results[key] = v`. */
  function Assign(m: map<Str, Value>, key: Str, v: Value): map<Str, Value> {
    if key == PROTO then m else m[key := v]
  }

  /** `get(tok)` with `s` still unread. */
  function Get(tok: Token, s: Str): (r: Parsed)
    ensures r.Parsed? ==> |r.rest| <= |s|
    decreases |s|, 1
  {
    match tok
    case Text(t) => Parsed(String(t), s)
    case Numeral(n) => Parsed(Num(n), s)
    case Literal(b) => Parsed(Bool(b), s)
    case NullTok => Parsed(Null, s)
    case End => SyntaxError
    case Punct(c) =>
      if c == LBRACKET then GetItems(s, [], false)
      else if c == LBRACE then GetMembers(s, map[], false)
      else SyntaxError
  }

  /** `get(lex())`. */
  function GetNext(s: Str): (r: Parsed)
    ensures r.Parsed? ==> |r.rest| < |s|
    decreases |s|, 0
  {
    match Lex(s)
    case Abort => SyntaxError
    case Lexed(tok, rest) => if tok.End? then SyntaxError else Get(tok, rest)
  }

  /** The comma between two members: the token that follows it, if it is a comma that is followed by
      something other than the closing bracket. */
  function Separated(first: Lexed, hasMembers: bool, close: CodeUnit): (r: Lexed)
    ensures r.Lexed? && first.Lexed? ==> |r.rest| <= |first.rest|
  {
    if first.Abort? || !hasMembers then first
    else if first.tok == Punct(COMMA) then
      var second := Lex(first.rest);
      if second.Lexed? && second.tok == Punct(close) then Abort else second
    else Abort
  }

  /** The loop of `get` over array elements. */
  function GetItems(s: Str, items: seq<Value>, hasMembers: bool): (r: Parsed)
    ensures r.Parsed? ==> |r.rest| <= |s|
    decreases |s|, 0
  {
    var first := Lex(s);
    if first.Abort? then SyntaxError
    else if first.tok == Punct(RBRACKET) then Parsed(Arr(items), first.rest)
    else
      var tok := Separated(first, hasMembers, RBRACKET);
      if tok.Abort? || tok.tok == Punct(COMMA) || tok.tok.End? then SyntaxError
      else
        var item := Get(tok.tok, tok.rest);
        if item.SyntaxError? then SyntaxError
        else GetItems(item.rest, items + [item.value], true)
  }

  /** The loop of `get` over object members. */
  function GetMembers(s: Str, members: map<Str, Value>, hasMembers: bool): (r: Parsed)
    ensures r.Parsed? ==> |r.rest| <= |s|
    decreases |s|, 0
  {
    var first := Lex(s);
    if first.Abort? then SyntaxError
    else if first.tok == Punct(RBRACE) then Parsed(Obj(members), first.rest)
    else
      var key := Separated(first, hasMembers, RBRACE);
      if key.Abort? || !key.tok.Text? then SyntaxError
      else
        var colon := Lex(key.rest);
        if colon.Abort? || colon.tok != Punct(COLON) then SyntaxError
        else
          var item := GetNext(colon.rest);
          if item.SyntaxError? then SyntaxError
          else GetMembers(item.rest, Assign(members, key.tok.s, item.value), true)
  }

  /** `JSON.parse`: one value and nothing but white space after it. */
  function Parse(s: Str): Option<Value> {
    var r := GetNext(s);
    if r.Parsed? && Lex(r.rest).Lexed? && Lex(r.rest).tok.End? then Some(r.value) else None
  }
}
