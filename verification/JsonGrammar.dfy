/** JSON texts by their grammar (RFC 8259), against the parser: which texts it accepts, and as what. */
module JsonGrammar {
  import opened Text
  import Numerals
  import opened Json3
  import opened JsonRoundTrip

  // ---------------------------------------------------------------- the grammar

  /** One character of a string: as it is, with a one-letter escape, or by its number in base 16, each
      digit in upper or lower case. */
  datatype Letter = Plain(u: CodeUnit) | Short(u: CodeUnit) | Hex(u: CodeUnit, a: bool, b: bool, c: bool, d: bool)

  predicate MayBeShort(u: CodeUnit) {
    u == '"' as int || u == '\\' as int || u == '/' as int || u == 8 || u == 12 || u == 10 || u == 13 || u == 9
  }

  function ShortName(u: CodeUnit): CodeUnit {
    if u == 8 then 'b' as int
    else if u == 12 then 'f' as int
    else if u == 10 then 'n' as int
    else if u == 13 then 'r' as int
    else if u == 9 then 't' as int
    else u
  }

  predicate LetterOk(l: Letter) {
    match l
    case Plain(u) => u >= 32 && u != '"' as int && u != '\\' as int
    case Short(u) => MayBeShort(u)
    case Hex(_, _, _, _, _) => true
  }

  function LetterText(l: Letter): Str {
    match l
    case Plain(u) => [u]
    case Short(u) => ['\\' as int, ShortName(u)]
    case Hex(u, a, b, c, d) =>
      ['\\' as int, 'u' as int, Numerals.DigitChar(u / 4096, a), Numerals.DigitChar(u / 256 % 16, b),
       Numerals.DigitChar(u / 16 % 16, c), Numerals.DigitChar(u % 16, d)]
  }

  predicate LettersOk(ls: seq<Letter>) { forall i | 0 <= i < |ls| :: LetterOk(ls[i]) }

  function LettersText(ls: seq<Letter>): Str {
    if ls == [] then [] else LetterText(ls[0]) + LettersText(ls[1..])
  }

  function Spelled(ls: seq<Letter>): Str {
    seq(|ls|, i requires 0 <= i < |ls| => ls[i].u)
  }

  /** The numbers of JSON among the numeric literals. */
  predicate NumeralOk(l: Numerals.Literal) {
    && Numerals.LiteralOk(l) && !l.sign.PlusSign?
    && l.whole != [] && (l.whole[0] == '0' as int ==> |l.whole| == 1)
    && (l.point.Some? ==> l.point.value != [])
  }

  datatype Doc =
    | NullDoc
    | BoolDoc(b: bool)
    | NumberDoc(l: Numerals.Literal)
    | StringDoc(ls: seq<Letter>)
    | ArrayDoc(items: seq<Item>, blank: Str)
    | ObjectDoc(members: seq<Member>, blank: Str)

  /** An element, and a member, with the white space around their parts. */
  datatype Item = Item(before: Str, doc: Doc, after: Str)

  datatype Member = Member(before: Str, key: seq<Letter>, afterKey: Str, beforeValue: Str, doc: Doc, after: Str)

  predicate Blank(s: Str) {
    forall i | 0 <= i < |s| :: s[i] == ' ' as int || s[i] == '\t' as int || s[i] == '\n' as int || s[i] == '\r' as int
  }

  predicate DocOk(doc: Doc) {
    match doc
    case NumberDoc(l) => NumeralOk(l)
    case StringDoc(ls) => LettersOk(ls)
    case ArrayDoc(items, blank) => Blank(blank) && forall i | 0 <= i < |items| :: ItemOk(items[i])
    case ObjectDoc(members, blank) => Blank(blank) && forall i | 0 <= i < |members| :: MemberOk(members[i])
    case _ => true
  }

  predicate ItemOk(item: Item) {
    Blank(item.before) && Blank(item.after) && DocOk(item.doc)
  }

  predicate MemberOk(m: Member) {
    Blank(m.before) && LettersOk(m.key) && Blank(m.afterKey) && Blank(m.beforeValue) && Blank(m.after) && DocOk(m.doc)
  }

  function QuotedText(ls: seq<Letter>): Str { ['"' as int] + (LettersText(ls) + ['"' as int]) }

  function DocText(doc: Doc): Str
    decreases doc, 1
  {
    match doc
    case NullDoc => Ascii("null")
    case BoolDoc(b) => if b then Ascii("true") else Ascii("false")
    case NumberDoc(l) => Numerals.LiteralText(l)
    case StringDoc(ls) => QuotedText(ls)
    case ArrayDoc(items, blank) => ['[' as int] + (ItemsText(items, false) + (blank + [']' as int]))
    case ObjectDoc(members, blank) => ['{' as int] + (MembersText(members, false) + (blank + ['}' as int]))
  }

  /** Elements, each but the first after a comma; `more` says that others come before these. */
  function ItemsText(items: seq<Item>, more: bool): Str
    decreases items, 0
  {
    if items == [] then []
    else CommaIf(more) + (items[0].before + (DocText(items[0].doc) + (items[0].after + ItemsText(items[1..], true))))
  }

  function MembersText(members: seq<Member>, more: bool): Str
    decreases members, 0
  {
    if members == [] then []
    else
      var m := members[0];
      CommaIf(more)
      + (m.before + (QuotedText(m.key) + (m.afterKey + ([':' as int] + (m.beforeValue + (DocText(m.doc)
      + (m.after + MembersText(members[1..], true))))))))
  }

  function CommaIf(more: bool): Str { if more then [',' as int] else [] }

  // ---------------------------------------------------------------- what a text means

  /** Integers as such; other numbers as their text. */
  ghost predicate NumeralMeans(l: Numerals.Literal, num: Number)
    requires NumeralOk(l)
  {
    match num
    case Int(n) =>
      var a := if n < 0 then -n else n;
      Numerals.Amounts(l, a) && (l.sign.MinusSign? ==> n <= 0) && (!l.sign.MinusSign? ==> n >= 0)
    case Real(t) => t == Numerals.LiteralText(l) && forall n: nat :: !Numerals.Amounts(l, n)
    case _ => false
  }

  /** The last member with this key, if any. */
  ghost predicate IsLastWith(members: seq<Member>, key: Str, i: nat) {
    && i < |members| && Spelled(members[i].key) == key
    && forall j | i < j < |members| :: Spelled(members[j].key) != key
  }

  /** The value of a document: of members with the same key the last one counts, and one with the key
      `__proto__` does not. */
  ghost predicate Means(doc: Doc, v: Value)
    decreases doc
  {
    match doc
    case NullDoc => v == Null
    case BoolDoc(b) => v == Bool(b)
    case NumberDoc(l) => v.Num? && NumeralOk(l) && NumeralMeans(l, v.num)
    case StringDoc(ls) => v == String(Spelled(ls))
    case ArrayDoc(items, _) =>
      v.Arr? && |v.items| == |items| && forall i | 0 <= i < |items| :: Means(items[i].doc, v.items[i])
    case ObjectDoc(members, _) =>
      && v.Obj?
      && (forall k :: k in v.members ==>
            k != Ascii("__proto__") && exists i: nat | i < |members| :: Spelled(members[i].key) == k)
      && (forall i: nat | i < |members| && Spelled(members[i].key) != Ascii("__proto__")
            && IsLastWith(members, Spelled(members[i].key), i) ::
            Spelled(members[i].key) in v.members && Means(members[i].doc, v.members[Spelled(members[i].key)]))
  }

  // ---------------------------------------------------------------- strings

  lemma HexDigits(u: CodeUnit)
    ensures u / 4096 < 16 && 4096 * (u / 4096) + 256 * (u / 256 % 16) + 16 * (u / 16 % 16) + u % 16 == u
  {
    assert u / 256 == (u / 16) / 16 && u / 4096 == (u / 256) / 16;
  }

  lemma DigitCharIsHex(d: nat, upper: bool)
    requires d < 16
    ensures IsHex(Numerals.DigitChar(d, upper)) && HexValue(Numerals.DigitChar(d, upper)) == d
  {
  }

  lemma HexLetterLexes(l: Letter, s: Str, value: Str)
    requires l.Hex?
    ensures LexString(LetterText(l) + s, value) == LexString(s, value + [l.u])
  {
    var u, t := l.u, LetterText(l) + s;
    HexDigits(u);
    DigitCharIsHex(u / 4096, l.a);
    DigitCharIsHex(u / 256 % 16, l.b);
    DigitCharIsHex(u / 16 % 16, l.c);
    DigitCharIsHex(u % 16, l.d);
    assert t[6..] == s;
    var h := t[2..6];
    assert HexUnit(h) == u;
  }

  lemma LetterLexes(l: Letter, s: Str, value: Str)
    requires LetterOk(l)
    ensures LexString(LetterText(l) + s, value) == LexString(s, value + [l.u])
  {
    match l {
      case Plain(u) => assert ([u] + s)[1..] == s;
      case Short(u) => assert (['\\' as int, ShortName(u)] + s)[2..] == s;
      case Hex(_, _, _, _, _) => HexLetterLexes(l, s, value);
    }
  }

  lemma {:induction false} LettersLex(ls: seq<Letter>, rest: Str, value: Str)
    requires LettersOk(ls)
    ensures LexString(LettersText(ls) + (['"' as int] + rest), value) == Lexed(Text(value + Spelled(ls)), rest)
    decreases |ls|
  {
    var tail := ['"' as int] + rest;
    if ls == [] {
      assert LettersText(ls) + tail == tail && tail[1..] == rest;
      assert value + Spelled(ls) == value;
    } else {
      Assoc(LetterText(ls[0]), LettersText(ls[1..]), tail);
      LetterLexes(ls[0], LettersText(ls[1..]) + tail, value);
      LettersLex(ls[1..], rest, value + [ls[0].u]);
      assert value + [ls[0].u] + Spelled(ls[1..]) == value + Spelled(ls);
    }
  }

  lemma QuotedLexes(ls: seq<Letter>, rest: Str)
    requires LettersOk(ls)
    ensures Lex(QuotedText(ls) + rest) == Lexed(Text(Spelled(ls)), rest)
  {
    var s := QuotedText(ls) + rest;
    assert s[1..] == LettersText(ls) + (['"' as int] + rest);
    LettersLex(ls, rest, []);
    assert [] + Spelled(ls) == Spelled(ls);
  }

  // ---------------------------------------------------------------- numbers

  lemma SkipPower(power: Option<Numerals.Power>)
    requires power.Some? ==> Numerals.PowerOk(power.value)
    ensures SkipExponent(Numerals.PowerText(power)) == Some([])
  {
    if power.Some? {
      var s, digits := Numerals.PowerText(power), power.value.digits;
      DigitRunIs(digits, |digits|) by { assert digits[..|digits|] == digits; }
      if power.value.sign.NoSign? {
        assert s[1..] == digits && s[1] == digits[0];
      } else {
        assert s[2..] == digits;
      }
    }
  }

  lemma SkipPoint(l: Numerals.Literal)
    requires NumeralOk(l)
    ensures SkipFraction(Numerals.PointText(l.point) + Numerals.PowerText(l.power)) == Some(Numerals.PowerText(l.power))
  {
    var rest := Numerals.PowerText(l.power);
    if l.point.Some? {
      var s := Numerals.PointText(l.point) + rest;
      assert s[1..] == l.point.value + rest;
      Numerals.DigitsThen(l.point.value, rest);
    } else {
      assert Numerals.PointText(l.point) + rest == rest;
    }
  }

  lemma UnsignedOfLiteral(l: Numerals.Literal)
    requires NumeralOk(l)
    ensures var t := Numerals.UnsignedText(l); t != [] && IsDigit(t[0]) && Unsigned(t) == Some([])
  {
    var t, rest := Numerals.UnsignedText(l), Numerals.PointText(l.point) + Numerals.PowerText(l.power);
    Numerals.DigitsThen(l.whole, rest);
    SkipPoint(l);
    SkipPower(l.power);
    assert t[0] == l.whole[0] && (|l.whole| > 1 ==> t[1] == l.whole[1]);
    assert |l.whole| == 1 && |t| > 1 ==> t[1] == rest[0];
  }

  lemma NumeralValue(l: Numerals.Literal)
    requires NumeralOk(l)
    ensures NumeralMeans(l, NumeralOf(l.sign.MinusSign?, Numerals.UnsignedText(l)))
  {
    var t, u := Numerals.UnsignedText(l), l.(sign := Numerals.NoSign);
    assert Numerals.LiteralText(u) == t && [] + t + [] == t;
    Numerals.NumberOfLiteral([], u, []);
    forall n: nat ensures Numerals.Amounts(u, n) <==> Numerals.Amounts(l, n) {
      SameAmounts(l, u, n);
    }
    ValueMeans(l, u, ToNumber(t));
  }

  lemma SameAmounts(l: Numerals.Literal, u: Numerals.Literal, n: nat)
    requires NumeralOk(l) && u == l.(sign := Numerals.NoSign)
    ensures Numerals.Amounts(u, n) <==> Numerals.Amounts(l, n)
  {
    assert Numerals.Mantissa(u) == Numerals.Mantissa(l) && Numerals.Up(u) == Numerals.Up(l)
           && Numerals.Down(u) == Numerals.Down(l);
  }

  lemma ValueMeans(l: Numerals.Literal, u: Numerals.Literal, r: JsNumber)
    requires NumeralOk(l) && u == l.(sign := Numerals.NoSign) && r == ToNumber(Numerals.UnsignedText(l))
    requires Numerals.IsValue(u, r) && forall n: nat :: Numerals.Amounts(u, n) <==> Numerals.Amounts(l, n)
    ensures NumeralMeans(l, NumeralOf(l.sign.MinusSign?, Numerals.UnsignedText(l)))
  {
    var num := NumeralOf(l.sign.MinusSign?, Numerals.UnsignedText(l));
    match r {
      case Nat(n) =>
        var m: int := n;
        assert num == Int(if l.sign.MinusSign? then -m else m);
      case NotNatural =>
        assert num == Real((if l.sign.MinusSign? then [MINUS] else []) + Numerals.UnsignedText(l));
      case NaN =>
    }
  }

  lemma NumeralLexes(l: Numerals.Literal, rest: Str)
    requires NumeralOk(l) && EndsNumeral(rest)
    ensures var num := NumeralOf(l.sign.MinusSign?, Numerals.UnsignedText(l));
      Lex(Numerals.LiteralText(l) + rest) == Lexed(Numeral(num), rest) && NumeralMeans(l, num)
  {
    var s, t := Numerals.LiteralText(l), Numerals.UnsignedText(l);
    UnsignedOfLiteral(l);
    if l.sign.MinusSign? {
      assert s[1..] == t && s[1] == t[0];
    } else {
      assert s == t;
    }
    NumeralBefore(s, l.sign.MinusSign?, t, rest);
    LexOnNumber(s + rest);
    NumeralValue(l);
  }

  // ---------------------------------------------------------------- every text of the grammar is accepted

  lemma BlankIsSpace(s: Str)
    requires Blank(s)
    ensures AllSpace(s)
  {
  }

  lemma KeywordLexes(rest: Str)
    ensures Lex(Ascii("true") + rest) == Lexed(Literal(true), rest)
    ensures Lex(Ascii("false") + rest) == Lexed(Literal(false), rest)
    ensures Lex(Ascii("null") + rest) == Lexed(NullTok, rest)
  {
    assert Ascii("true") == TRUE_TEXT && Ascii("false") == FALSE_TEXT && Ascii("null") == NULL_TEXT;
    KeywordRoundTrip(rest);
  }

  lemma EndsAfterItem(after: Str, more: Str, blank: Str, close: CodeUnit, rest: Str)
    requires Blank(after) && Blank(blank) && (close == RBRACKET || close == RBRACE)
    requires more == [] || more[0] == COMMA
    ensures EndsNumeral(after + (more + (blank + ([close] + rest))))
  {
    var s := after + (more + (blank + ([close] + rest)));
    assert s[0] ==
      if after != [] then after[0] else if more != [] then more[0] else if blank != [] then blank[0] else close;
  }

  lemma SpaceBeforeItems(ws: Str, s: Str, done: seq<Value>, more: bool)
    requires Blank(ws)
    ensures GetItems(ws + s, done, more) == GetItems(s, done, more)
  {
    SkipSpace(ws, s);
  }

  lemma SpaceBeforeMembers(ws: Str, s: Str, done: map<Str, Value>, more: bool)
    requires Blank(ws)
    ensures GetMembers(ws + s, done, more) == GetMembers(s, done, more)
  {
    SkipSpace(ws, s);
  }

  lemma {:induction false} DocParses(doc: Doc, rest: Str) returns (v: Value)
    requires DocOk(doc) && EndsNumeral(rest)
    ensures Means(doc, v) && StartsValue(DocText(doc) + rest) && GetNext(DocText(doc) + rest) == Parsed(v, rest)
    decreases doc, 1
  {
    match doc {
      case NullDoc =>
        KeywordLexes(rest);
        v := Null;
      case BoolDoc(b) =>
        KeywordLexes(rest);
        v := Bool(b);
      case NumberDoc(l) =>
        NumeralLexes(l, rest);
        v := Num(NumeralOf(l.sign.MinusSign?, Numerals.UnsignedText(l)));
      case StringDoc(ls) =>
        QuotedLexes(ls, rest);
        v := String(Spelled(ls));
      case ArrayDoc(items, blank) =>
        var values := ItemsParse(items, [], false, blank, rest);
        v := Arr(values);
        ArrayParses(items, blank, rest, values);
      case ObjectDoc(members, blank) =>
        var result := MembersParse(members, map[], false, blank, rest);
        v := Obj(result);
        ObjectParses(members, blank, rest, result);
        MeansOfExtends(doc, result);
    }
  }

  lemma ArrayText(items: seq<Item>, blank: Str, rest: Str)
    ensures DocText(ArrayDoc(items, blank)) + rest
         == [LBRACKET] + (ItemsText(items, false) + (blank + ([RBRACKET] + rest)))
  {
    BracketLayout(LBRACKET, ItemsText(items, false), blank, RBRACKET, rest);
  }

  lemma ObjectText(members: seq<Member>, blank: Str, rest: Str)
    ensures DocText(ObjectDoc(members, blank)) + rest
         == [LBRACE] + (MembersText(members, false) + (blank + ([RBRACE] + rest)))
  {
    BracketLayout(LBRACE, MembersText(members, false), blank, RBRACE, rest);
  }

  lemma BracketLayout(open: CodeUnit, text: Str, blank: Str, close: CodeUnit, rest: Str)
    ensures ([open] + (text + (blank + [close]))) + rest == [open] + (text + (blank + ([close] + rest)))
  {
  }

  lemma ArrayParses(items: seq<Item>, blank: Str, rest: Str, values: seq<Value>)
    requires DocOk(ArrayDoc(items, blank))
    requires GetItems(ItemsText(items, false) + (blank + ([RBRACKET] + rest)), [], false)
          == Parsed(Arr([] + values), rest)
    ensures var s := DocText(ArrayDoc(items, blank)) + rest; StartsValue(s) && GetNext(s) == Parsed(Arr(values), rest)
  {
    ArrayText(items, blank, rest);
    GetBracketed(LBRACKET, ItemsText(items, false) + (blank + ([RBRACKET] + rest)));
    assert [] + values == values;
  }

  lemma ObjectParses(members: seq<Member>, blank: Str, rest: Str, result: map<Str, Value>)
    requires DocOk(ObjectDoc(members, blank))
    requires GetMembers(MembersText(members, false) + (blank + ([RBRACE] + rest)), map[], false)
          == Parsed(Obj(result), rest)
    ensures var s := DocText(ObjectDoc(members, blank)) + rest;
      StartsValue(s) && GetNext(s) == Parsed(Obj(result), rest)
  {
    ObjectText(members, blank, rest);
    GetBracketed(LBRACE, MembersText(members, false) + (blank + ([RBRACE] + rest)));
  }

  lemma GetBracketed(open: CodeUnit, t: Str)
    requires open == LBRACKET || open == LBRACE
    ensures StartsValue([open] + t)
    ensures GetNext([open] + t) == if open == LBRACKET then GetItems(t, [], false) else GetMembers(t, map[], false)
  {
    assert ([open] + t)[1..] == t;
  }

  lemma {:induction false} ItemsParse(items: seq<Item>, done: seq<Value>, more: bool, blank: Str, rest: Str)
    returns (values: seq<Value>)
    requires DocOk(ArrayDoc(items, blank))
    ensures |values| == |items| && forall i | 0 <= i < |items| :: Means(items[i].doc, values[i])
    ensures GetItems(ItemsText(items, more) + (blank + ([RBRACKET] + rest)), done, more)
         == Parsed(Arr(done + values), rest)
    decreases items, 0
  {
    var closing := blank + ([RBRACKET] + rest);
    values := [];
    if items == [] {
      BlankIsSpace(blank);
      ClosingToken(blank, RBRACKET, rest);
      assert ItemsText(items, more) + closing == closing && done + [] == done;
    } else {
      assert DocOk(ArrayDoc(items[1..], blank));
      var later := ItemsText(items[1..], true) + closing;
      EndsAfterItem(items[0].after, ItemsText(items[1..], true), blank, RBRACKET, rest);
      var v := DocParses(items[0].doc, items[0].after + later);
      FirstItem(items, more, closing, v, done);
      var others := ItemsParse(items[1..], done + [v], true, blank, rest);
      values := [v] + others;
      Assoc(done, [v], others);
    }
  }

  lemma FirstItem(items: seq<Item>, more: bool, closing: Str, v: Value, done: seq<Value>)
    requires items != [] && Blank(items[0].before) && Blank(items[0].after)
    requires var s := DocText(items[0].doc) + (items[0].after + (ItemsText(items[1..], true) + closing));
      StartsValue(s) && GetNext(s) == Parsed(v, items[0].after + (ItemsText(items[1..], true) + closing))
    ensures GetItems(ItemsText(items, more) + closing, done, more)
         == GetItems(ItemsText(items[1..], true) + closing, done + [v], true)
  {
    var item, later := items[0], ItemsText(items[1..], true) + closing;
    var text, after := DocText(item.doc), item.after + later;
    ItemLayout(CommaIf(more), item.before, text, item.after, ItemsText(items[1..], true), closing);
    BlankIsSpace(item.before);
    ItemStep(text, v, more, item.before, after, done);
    SpaceBeforeItems(item.after, later, done + [v], true);
  }

  lemma ItemLayout(a: Str, b: Str, c: Str, d: Str, e: Str, f: Str)
    ensures (a + (b + (c + (d + e)))) + f == a + (b + (c + (d + (e + f))))
  {
    Assoc(a, b + (c + (d + e)), f);
    Assoc(b, c + (d + e), f);
    Assoc(c, d + e, f);
    Assoc(d, e, f);
  }

  // ---------------------------------------------------------------- members

  /** What the members add to `done`. */
  ghost predicate Extends(done: map<Str, Value>, members: seq<Member>, result: map<Str, Value>) {
    && (forall k :: k in result ==>
          k in done || (k != Ascii("__proto__") && exists i: nat | i < |members| :: Spelled(members[i].key) == k))
    && (forall i: nat | i < |members| && Spelled(members[i].key) != Ascii("__proto__")
          && IsLastWith(members, Spelled(members[i].key), i) ::
          Spelled(members[i].key) in result && Means(members[i].doc, result[Spelled(members[i].key)]))
    && (forall k | k in done && forall i: nat | i < |members| :: Spelled(members[i].key) != k ::
          k in result && result[k] == done[k])
  }

  lemma MeansOfExtends(doc: Doc, result: map<Str, Value>)
    requires doc.ObjectDoc? && Extends(map[], doc.members, result)
    ensures Means(doc, Obj(result))
  {
  }

  lemma ProtoText()
    ensures Ascii("__proto__") == PROTO
  {
  }

  lemma ExtendsFirst(done: map<Str, Value>, members: seq<Member>, v: Value, result: map<Str, Value>)
    requires members != [] && Means(members[0].doc, v)
    requires Extends(Assign(done, Spelled(members[0].key), v), members[1..], result)
    ensures Extends(done, members, result)
  {
    ProtoText();
    var rest := members[1..];
    forall k | k in result
      ensures k in done || (k != PROTO && exists i: nat | i < |members| :: Spelled(members[i].key) == k)
    {
      if i: nat :| i < |rest| && Spelled(rest[i].key) == k {
        assert members[i + 1] == rest[i];
      }
    }
    forall i: nat | i < |members| && Spelled(members[i].key) != PROTO
      && IsLastWith(members, Spelled(members[i].key), i)
      ensures Spelled(members[i].key) in result && Means(members[i].doc, result[Spelled(members[i].key)])
    {
      if i == 0 {
        NotInRest(members, Spelled(members[0].key));
      } else {
        LastInRest(members, i);
      }
    }
    forall k | k in done && forall i: nat | i < |members| :: Spelled(members[i].key) != k
      ensures k in result && result[k] == done[k]
    {
      NotInRest(members, k);
    }
  }

  lemma NotInRest(members: seq<Member>, k: Str)
    requires members != [] && forall i | 0 < i < |members| :: Spelled(members[i].key) != k
    ensures forall i: nat | i < |members[1..]| :: Spelled(members[1..][i].key) != k
  {
  }

  lemma LastInRest(members: seq<Member>, i: nat)
    requires 0 < i < |members| && IsLastWith(members, Spelled(members[i].key), i)
    ensures members[1..][i - 1] == members[i] && IsLastWith(members[1..], Spelled(members[i].key), i - 1)
  {
    forall j | i - 1 < j < |members[1..]| ensures Spelled(members[1..][j].key) != Spelled(members[i].key) {
      assert members[1..][j] == members[j + 1];
    }
  }

  lemma {:induction false} MembersParse(members: seq<Member>, done: map<Str, Value>, more: bool, blank: Str, rest: Str)
    returns (result: map<Str, Value>)
    requires DocOk(ObjectDoc(members, blank))
    ensures Extends(done, members, result)
    ensures GetMembers(MembersText(members, more) + (blank + ([RBRACE] + rest)), done, more)
         == Parsed(Obj(result), rest)
    decreases members, 0
  {
    var closing := blank + ([RBRACE] + rest);
    if members == [] {
      BlankIsSpace(blank);
      ClosingToken(blank, RBRACE, rest);
      assert MembersText(members, more) + closing == closing;
      result := done;
    } else {
      assert DocOk(ObjectDoc(members[1..], blank));
      var m, later := members[0], MembersText(members[1..], true) + closing;
      EndsAfterItem(m.after, MembersText(members[1..], true), blank, RBRACE, rest);
      var v := DocParses(m.doc, m.after + later);
      FirstMember(members, more, closing, v, done);
      result := MembersParse(members[1..], Assign(done, Spelled(m.key), v), true, blank, rest);
      ExtendsFirst(done, members, v, result);
    }
  }

  lemma FirstMember(members: seq<Member>, more: bool, closing: Str, v: Value, done: map<Str, Value>)
    requires members != [] && MemberOk(members[0])
    requires var m := members[0];
      var after := m.after + (MembersText(members[1..], true) + closing);
      GetNext(DocText(m.doc) + after) == Parsed(v, after)
    ensures GetMembers(MembersText(members, more) + closing, done, more)
         == GetMembers(MembersText(members[1..], true) + closing, Assign(done, Spelled(members[0].key), v), true)
  {
    var m, later := members[0], MembersText(members[1..], true) + closing;
    var after := m.after + later;
    var value := m.beforeValue + (DocText(m.doc) + after);
    var afterKey := m.afterKey + ([COLON] + value);
    MemberLayout(CommaIf(more), m, DocText(m.doc), MembersText(members[1..], true), closing);
    QuotedLexes(m.key, afterKey);
    BlankIsSpace(m.before);
    PartToken(QuotedText(m.key), more, m.before, afterKey, RBRACE);
    SpaceThenColon(m.afterKey, value);
    NextAfterSpace(m.beforeValue, DocText(m.doc) + after);
    SpaceBeforeMembers(m.after, later, Assign(done, Spelled(m.key), v), true);
  }

  lemma SpaceThenColon(ws: Str, value: Str)
    requires Blank(ws)
    ensures Lex(ws + ([COLON] + value)) == Lexed(Punct(COLON), value)
  {
    SkipSpace(ws, [COLON] + value);
    assert ([COLON] + value)[1..] == value;
  }

  lemma NextAfterSpace(ws: Str, s: Str)
    requires Blank(ws)
    ensures GetNext(ws + s) == GetNext(s)
  {
    SkipSpace(ws, s);
  }

  lemma MemberLayout(comma: Str, m: Member, text: Str, e: Str, f: Str)
    ensures (comma + (m.before + (QuotedText(m.key) + (m.afterKey + ([':' as int] + (m.beforeValue + (text
              + (m.after + e)))))))) + f
         == comma + (m.before + (QuotedText(m.key) + (m.afterKey + ([COLON] + (m.beforeValue + (text
              + (m.after + (e + f))))))))
  {
    ItemLayout(comma, m.before, QuotedText(m.key), m.afterKey, [COLON] + (m.beforeValue + (text + (m.after + e))), f);
    ItemLayout([COLON], m.beforeValue, text, m.after, e, f);
  }

  lemma {:induction false} LexOfBlank(s: Str)
    requires Blank(s)
    ensures Lex(s) == Lexed(End, [])
    decreases |s|
  {
    if s != [] {
      LexOfBlank(s[1..]);
    }
  }

  /** Every JSON text is accepted, as what it means. */
  lemma DocumentIsAccepted(before: Str, doc: Doc, after: Str)
    requires DocOk(doc) && Blank(before) && Blank(after)
    ensures exists v :: Parse(before + (DocText(doc) + after)) == Some(v) && Means(doc, v)
  {
    assert EndsNumeral(after) by {
      if after != [] { assert after[0] == after[0]; }
    }
    var v := DocParses(doc, after);
    NextAfterSpace(before, DocText(doc) + after);
    BlankIsSpace(after);
    LexOfBlank(after);
    assert Parse(before + (DocText(doc) + after)) == Some(v);
  }

  /** A string comes out as the code units it spells, however each is spelled. */
  lemma StringIsAccepted(ls: seq<Letter>)
    requires LettersOk(ls)
    ensures Parse(QuotedText(ls)) == Some(String(Spelled(ls)))
  {
    QuotedLexes(ls, []);
    assert QuotedText(ls) + [] == QuotedText(ls);
    assert GetNext(QuotedText(ls)) == Parsed(String(Spelled(ls)), []);
    LexOfBlank([]);
  }
}
