/** The JSON parser accepts exactly the texts of the grammar, each as what it means. */
module JsonAccepts {
  import opened Text
  import Numerals
  import opened Json3
  import opened JsonRoundTrip
  import opened JsonGrammar

  lemma BlankBefore(s: Str) returns (ws: Str, t: Str)
    requires Lex(s).Lexed?
    ensures Blank(ws) && s == ws + t && Lex(s) == Lex(t)
    ensures if t == [] then Lex(s).tok.End? else LexToken(t) == Lex(s) && |Lex(s).rest| < |t|
    decreases |s|
  {
    if s != [] && IsSpace(s[0]) {
      ws, t := BlankBefore(s[1..]);
      ws := [s[0]] + ws;
      assert s == [s[0]] + s[1..];
    } else {
      ws, t := [], s;
    }
  }

  predicate IsUpper(c: CodeUnit) { 65 <= c <= 70 }

  lemma DigitsOfHex(h: Str)
    requires |h| == 4 && forall i | 0 <= i < 4 :: IsHex(h[i])
    ensures var u := HexUnit(h);
      && u / 4096 == HexValue(h[0]) && u / 256 % 16 == HexValue(h[1])
      && u / 16 % 16 == HexValue(h[2]) && u % 16 == HexValue(h[3])
  {
    var u, w, x, y, z := HexUnit(h), HexValue(h[0]), HexValue(h[1]), HexValue(h[2]), HexValue(h[3]);
    assert u / 16 == 256 * w + 16 * x + y;
    assert u / 256 == 16 * w + x;
    assert u / 4096 == w;
  }

  lemma CharOfDigit(c: CodeUnit)
    requires IsHex(c)
    ensures Numerals.DigitChar(HexValue(c), IsUpper(c)) == c
  {
  }

  lemma HexLetterOf(s: Str) returns (l: Letter)
    requires |s| >= 6 && s[0] == BACKSLASH && s[1] == 117
    requires IsHex(s[2]) && IsHex(s[3]) && IsHex(s[4]) && IsHex(s[5])
    ensures LetterOk(l) && LetterText(l) == s[..6] && l.u == HexUnit(s[2..6])
  {
    var h := s[2..6];
    DigitsOfHex(h);
    CharOfDigit(h[0]);
    CharOfDigit(h[1]);
    CharOfDigit(h[2]);
    CharOfDigit(h[3]);
    l := Hex(HexUnit(h), IsUpper(h[0]), IsUpper(h[1]), IsUpper(h[2]), IsUpper(h[3]));
  }

  /** The first character of a string token that goes on. */
  lemma FirstLetter(s: Str, value: Str) returns (l: Letter, n: nat)
    requires LexString(s, value).Lexed? && s[0] != QUOTE
    ensures LetterOk(l) && 0 < n <= |s| && LetterText(l) == s[..n]
    ensures LexString(s, value) == LexString(s[n..], value + [l.u])
  {
    if s[0] != BACKSLASH {
      l, n := Plain(s[0]), 1;
    } else if s[1] == 117 {
      l := HexLetterOf(s);
      n := 6;
    } else {
      l, n := Short(Unescape(s[1]).value), 2;
    }
  }

  lemma LettersOf(s: Str, value: Str) returns (ls: seq<Letter>)
    requires LexString(s, value).Lexed?
    ensures var r := LexString(s, value);
      LettersOk(ls) && s == LettersText(ls) + (['"' as int] + r.rest) && r.tok.s == value + Spelled(ls)
    decreases |s|
  {
    if s[0] == QUOTE {
      ls := [];
      assert s == [QUOTE] + s[1..] && value + Spelled([]) == value;
      assert LettersText(ls) + ([QUOTE] + s[1..]) == [QUOTE] + s[1..];
    } else {
      var l, n := FirstLetter(s, value);
      var others := LettersOf(s[n..], value + [l.u]);
      ls := [l] + others;
      MoreSpelled(value, l, others);
      MoreLetters(s, n, l, others, ['"' as int] + LexString(s, value).rest);
    }
  }

  lemma MoreSpelled(value: Str, l: Letter, others: seq<Letter>)
    ensures value + [l.u] + Spelled(others) == value + Spelled([l] + others)
  {
  }

  lemma MoreLetters(s: Str, n: nat, l: Letter, others: seq<Letter>, tail: Str)
    requires n <= |s| && LetterText(l) == s[..n] && s[n..] == LettersText(others) + tail
    ensures s == LettersText([l] + others) + tail
  {
    assert ([l] + others)[1..] == others;
    assert s == s[..n] + s[n..];
  }

  lemma PowerOf(s: Str) returns (power: Option<Numerals.Power>)
    requires SkipExponent(s).Some?
    ensures power.Some? ==> Numerals.PowerOk(power.value)
    ensures s == Numerals.PowerText(power) + SkipExponent(s).value
  {
    if s != [] && (s[0] == 101 || s[0] == 69) {
      var signed := |s| > 1 && (s[1] == 43 || s[1] == MINUS);
      var t := if signed then s[2..] else s[1..];
      var k := DigitRun(t);
      var sign := if !signed then Numerals.NoSign else if s[1] == 43 then Numerals.PlusSign else Numerals.MinusSign;
      power := Some(Numerals.Power(s[0], sign, t[..k]));
      assert s == [s[0]] + (Numerals.SignText(sign) + t);
      PowerParts(s[0], sign, t, k);
    } else {
      power := None;
    }
  }

  lemma PowerParts(mark: CodeUnit, sign: Numerals.Sign, t: Str, k: nat)
    requires k <= |t|
    ensures [mark] + (Numerals.SignText(sign) + t)
         == Numerals.PowerText(Some(Numerals.Power(mark, sign, t[..k]))) + t[k..]
  {
    assert t == t[..k] + t[k..];
  }

  lemma PointOf(s: Str) returns (point: Option<Str>)
    requires SkipFraction(s).Some?
    ensures point.Some? ==> point.value != [] && AllDigits(point.value)
    ensures s == Numerals.PointText(point) + SkipFraction(s).value
  {
    if s != [] && s[0] == DOT {
      var t := s[1..];
      var k := DigitRun(t);
      point := Some(t[..k]);
      assert s == [DOT] + t && t == t[..k] + t[k..];
    } else {
      point := None;
    }
  }

  lemma UnsignedOf(t: Str) returns (l: Numerals.Literal)
    requires t != [] && IsDigit(t[0]) && Unsigned(t).Some?
    ensures NumeralOk(l) && l.sign.NoSign? && t == Numerals.UnsignedText(l) + Unsigned(t).value
  {
    var k := DigitRun(t);
    var point := PointOf(t[k..]);
    var power := PowerOf(SkipFraction(t[k..]).value);
    l := Numerals.Literal(Numerals.NoSign, t[..k], point, power);
    WholeNumeral(l, t, k, Unsigned(t).value);
    assert t[..k][0] == t[0] && (k > 1 ==> t[..k][1] == t[1]);
  }

  lemma WholeNumeral(l: Numerals.Literal, t: Str, k: nat, rest: Str)
    requires k <= |t| && l.whole == t[..k]
    requires t[k..] == Numerals.PointText(l.point) + (Numerals.PowerText(l.power) + rest)
    ensures t == Numerals.UnsignedText(l) + rest
  {
    assert t == t[..k] + t[k..];
  }

  lemma NumeralAt(s: Str) returns (l: Numerals.Literal)
    requires StartsNumber(s) && LexNumber(s).Lexed?
    ensures NumeralOk(l) && s == Numerals.LiteralText(l) + LexNumber(s).rest
    ensures NumeralMeans(l, LexNumber(s).tok.num)
  {
    var negative := s[0] == MINUS;
    var t := if negative then s[1..] else s;
    var rest := Unsigned(t).value;
    var u := UnsignedOf(t);
    l := if negative then u.(sign := Numerals.MinusSign) else u;
    assert t[..|t| - |rest|] == Numerals.UnsignedText(u) && Numerals.UnsignedText(l) == Numerals.UnsignedText(u);
    LexNumberIs(s, negative, Numerals.UnsignedText(u), rest);
    if negative {
      MinusText(s, l, rest);
    } else {
      PlainText(s, l, rest);
    }
    NumeralValue(l);
  }

  lemma MinusText(s: Str, l: Numerals.Literal, rest: Str)
    requires s != [] && s[0] == MINUS && s[1..] == Numerals.UnsignedText(l) + rest && l.sign.MinusSign?
    ensures s == Numerals.LiteralText(l) + rest
  {
    assert s == [MINUS] + s[1..];
    Assoc([MINUS], Numerals.UnsignedText(l), rest);
  }

  lemma PlainText(s: Str, l: Numerals.Literal, rest: Str)
    requires s == Numerals.UnsignedText(l) + rest && l.sign.NoSign?
    ensures s == Numerals.LiteralText(l) + rest
  {
    assert [] + Numerals.UnsignedText(l) == Numerals.UnsignedText(l);
  }

  /** A token that is a value by itself. */
  lemma SimpleDoc(t: Str) returns (doc: Doc)
    requires t != [] && LexToken(t).Lexed? && !LexToken(t).tok.Punct?
    ensures DocOk(doc) && t == DocText(doc) + LexToken(t).rest && IsToken(doc, LexToken(t).tok)
  {
    if t[0] == QUOTE {
      var ls := KeyOf(t);
      doc := StringDoc(ls);
    } else if StartsNumber(t) {
      var l := NumeralAt(t);
      doc := NumberDoc(l);
    } else {
      doc := if LexToken(t).tok.NullTok? then NullDoc else BoolDoc(LexToken(t).tok.b);
      KeywordText(t);
    }
  }

  ghost predicate IsToken(doc: Doc, tok: Token) {
    match tok
    case NullTok => doc == NullDoc
    case Literal(b) => doc == BoolDoc(b)
    case Numeral(num) => doc.NumberDoc? && NumeralOk(doc.l) && NumeralMeans(doc.l, num)
    case Text(s) => doc.StringDoc? && s == Spelled(doc.ls)
    case _ => false
  }

  lemma TokenMeans(doc: Doc, tok: Token, rest: Str)
    requires DocOk(doc) && IsToken(doc, tok)
    ensures Get(tok, rest).Parsed? && Get(tok, rest).rest == rest && Means(doc, Get(tok, rest).value)
  {
  }

  lemma KeywordText(t: Str)
    ensures var r := LexLiteral(t);
      r.Lexed? ==>
        t == (if r.tok.NullTok? then Ascii("null") else if r.tok.b then Ascii("true") else Ascii("false")) + r.rest
  {
    assert Ascii("true") == TRUE_TEXT && Ascii("false") == FALSE_TEXT && Ascii("null") == NULL_TEXT;
  }

  lemma {:induction false} DocOf(t: Str, v: Value, rest: Str) returns (doc: Doc)
    requires t != [] && LexToken(t).Lexed? && Get(LexToken(t).tok, LexToken(t).rest) == Parsed(v, rest)
    ensures DocOk(doc) && t == DocText(doc) + rest && Means(doc, v)
    decreases |t|, 0
  {
    if !LexToken(t).tok.Punct? {
      doc := SimpleDoc(t);
      TokenMeans(doc, LexToken(t).tok, LexToken(t).rest);
    } else {
      if t[0] == LBRACKET {
        var lead;
        lead, doc := ItemsOf(t[1..], [], false, v, rest);
        ArrayFound(t, v, rest, lead, doc);
      } else {
        var lead;
        lead, doc := MembersOf(t[1..], map[], false, v, rest);
        ObjectFound(t, v, rest, lead, doc);
      }
    }
  }

  lemma ArrayFound(t: Str, v: Value, rest: Str, lead: Str, doc: Doc)
    requires t != [] && t[0] == LBRACKET && ItemsFound(t[1..], [], false, v, rest, lead, doc)
    ensures DocOk(doc) && t == DocText(doc) + rest && Means(doc, v)
  {
    AfterBracket(t, ItemsText(doc.items, false) + (doc.blank + ([RBRACKET] + rest)));
    ArrayText(doc.items, doc.blank, rest);
    MeansOfItems(doc, v);
  }

  lemma AfterBracket(t: Str, text: Str)
    requires t != [] && t[1..] == [] + text
    ensures t == [t[0]] + text
  {
    assert [] + text == text && t == [t[0]] + t[1..];
  }

  lemma MeansOfItems(doc: Doc, v: Value)
    requires doc.ArrayDoc? && v.Arr? && |v.items| == |doc.items|
    requires forall i | 0 <= i < |doc.items| :: Means(doc.items[i].doc, v.items[0 + i])
    ensures Means(doc, v)
  {
  }

  lemma ObjectFound(t: Str, v: Value, rest: Str, lead: Str, doc: Doc)
    requires t != [] && t[0] == LBRACE && MembersFound(t[1..], map[], false, v, rest, lead, doc)
    ensures DocOk(doc) && t == DocText(doc) + rest && Means(doc, v)
  {
    AfterBracket(t, MembersText(doc.members, false) + (doc.blank + ([RBRACE] + rest)));
    ObjectText(doc.members, doc.blank, rest);
    MeansOfExtends(doc, v.members);
  }

  /** The text before a part of an array or object: white space and the comma, and more white space. */
  lemma BeforePart(s: Str, more: bool, close: CodeUnit) returns (lead: Str, before: Str, t: Str)
    requires Lex(s).Lexed? && Separated(Lex(s), more, close).Lexed? && !Separated(Lex(s), more, close).tok.End?
    ensures Blank(lead) && Blank(before) && t != [] && |t| <= |s| && (!more ==> lead == [])
    ensures s == lead + (CommaIf(more) + (before + t)) && LexToken(t) == Separated(Lex(s), more, close)
  {
    var ws, u := BlankBefore(s);
    if more {
      lead := ws;
      assert u == [COMMA] + Lex(s).rest;
      before, t := BlankBefore(Lex(s).rest);
    } else {
      lead, before, t := [], ws, u;
      assert s == [] + ([] + (ws + u));
    }
  }

  /** One turn of the element loop, which does not end there. */
  lemma {:induction false} ItemAt(s: Str, done: seq<Value>, more: bool, v: Value, rest: Str)
    returns (lead: Str, before: Str, doc: Doc, value: Value, next: Str)
    requires GetItems(s, done, more) == Parsed(v, rest) && Lex(s).tok != Punct(RBRACKET)
    ensures Blank(lead) && Blank(before) && (!more ==> lead == []) && DocOk(doc) && Means(doc, value)
    ensures s == lead + (CommaIf(more) + (before + (DocText(doc) + next)))
    ensures |next| < |s| && GetItems(next, done + [value], true) == Parsed(v, rest)
    decreases |s|, 1
  {
    var t;
    lead, before, t := BeforePart(s, more, RBRACKET);
    var item := Get(LexToken(t).tok, LexToken(t).rest);
    value, next := item.value, item.rest;
    doc := DocOf(t, value, next);
  }

  /** What the element loop has read: `items` and the end of the array, after `lead`. */
  ghost predicate ItemsFound(s: Str, done: seq<Value>, more: bool, v: Value, rest: Str, lead: Str, doc: Doc) {
    && doc.ArrayDoc? && DocOk(doc) && Blank(lead) && (!more ==> lead == [])
    && s == lead + (ItemsText(doc.items, more) + (doc.blank + ([RBRACKET] + rest)))
    && v.Arr? && |v.items| == |done| + |doc.items| && v.items[..|done|] == done
    && forall i | 0 <= i < |doc.items| :: Means(doc.items[i].doc, v.items[|done| + i])
  }

  lemma {:induction false} ItemsOf(s: Str, done: seq<Value>, more: bool, v: Value, rest: Str)
    returns (lead: Str, doc: Doc)
    requires GetItems(s, done, more) == Parsed(v, rest)
    ensures ItemsFound(s, done, more, v, rest, lead, doc)
    decreases |s|, 2
  {
    if Lex(s).tok == Punct(RBRACKET) {
      var ws, t := BlankBefore(s);
      NoItems(ws, t, done, more, rest);
      lead, doc := [], ArrayDoc([], ws);
    } else {
      var before, first, value, next;
      lead, before, first, value, next := ItemAt(s, done, more, v, rest);
      var after, others := ItemsOf(next, done + [value], true, v, rest);
      var item := Item(before, first, after);
      FirstFound(s, done, more, v, rest, lead, item, value, next, others);
      doc := ArrayDoc([item] + others.items, others.blank);
    }
  }

  lemma FirstFound(
      s: Str, done: seq<Value>, more: bool, v: Value, rest: Str, lead: Str, item: Item, value: Value, next: Str,
      others: Doc)
    requires Blank(lead) && (!more ==> lead == []) && Blank(item.before) && DocOk(item.doc) && Means(item.doc, value)
    requires s == lead + (CommaIf(more) + (item.before + (DocText(item.doc) + next)))
    requires ItemsFound(next, done + [value], true, v, rest, item.after, others)
    ensures ItemsFound(s, done, more, v, rest, lead, ArrayDoc([item] + others.items, others.blank))
  {
    ItemsLayout(item, others.items, more, others.blank + ([RBRACKET] + rest));
    ItemsAreOk(item, others.items, others.blank);
    ItemsMean(item, others.items, done, done + [value], value, v.items);
  }

  lemma NoItems(ws: Str, t: Str, done: seq<Value>, more: bool, rest: Str)
    requires Blank(ws) && t != [] && t[0] == RBRACKET && t[1..] == rest
    ensures ItemsFound(ws + t, done, more, Arr(done), rest, [], ArrayDoc([], ws))
  {
    assert t == [RBRACKET] + rest;
    assert ws + t == [] + ([] + (ws + t));
  }

  lemma NoMembers(ws: Str, t: Str, done: map<Str, Value>, more: bool, rest: Str)
    requires Blank(ws) && t != [] && t[0] == RBRACE && t[1..] == rest
    ensures MembersFound(ws + t, done, more, Obj(done), rest, [], ObjectDoc([], ws))
  {
    assert t == [RBRACE] + rest;
    assert ws + t == [] + ([] + (ws + t));
  }

  lemma ItemsAreOk(first: Item, others: seq<Item>, blank: Str)
    requires ItemOk(first) && DocOk(ArrayDoc(others, blank))
    ensures DocOk(ArrayDoc([first] + others, blank))
  {
  }

  lemma ItemsMean(first: Item, others: seq<Item>, done: seq<Value>, one: seq<Value>, value: Value, values: seq<Value>)
    requires Means(first.doc, value) && one == done + [value] && |values| == |one| + |others| && values[..|one|] == one
    requires forall i | 0 <= i < |others| :: Means(others[i].doc, values[|one| + i])
    ensures values[..|done|] == done
    ensures var items := [first] + others;
      forall i | 0 <= i < |items| :: Means(items[i].doc, values[|done| + i])
  {
    assert values[|done|] == values[..|one|][|done|];
    assert values[..|done|] == values[..|one|][..|done|];
    var items := [first] + others;
    forall i | 0 <= i < |items| ensures Means(items[i].doc, values[|done| + i]) {
      if i > 0 {
        assert items[i] == others[i - 1] && values[|done| + i] == values[|one| + (i - 1)];
      }
    }
  }

  lemma ItemsLayout(first: Item, others: seq<Item>, more: bool, closing: Str)
    ensures CommaIf(more) + (first.before + (DocText(first.doc) + (first.after + (ItemsText(others, true) + closing))))
         == ItemsText([first] + others, more) + closing
  {
    assert ([first] + others)[1..] == others;
    ItemLayout(CommaIf(more), first.before, DocText(first.doc), first.after, ItemsText(others, true), closing);
  }

  lemma ColonAfterKey(s: Str) returns (afterKey: Str)
    requires Lex(s).Lexed? && Lex(s).tok == Punct(COLON)
    ensures Blank(afterKey) && s == afterKey + ([COLON] + Lex(s).rest)
  {
    var ws, t := BlankBefore(s);
    afterKey := ws;
    assert t == [COLON] + Lex(s).rest;
  }

  lemma KeyOf(t: Str) returns (key: seq<Letter>)
    requires t != [] && LexToken(t).Lexed? && LexToken(t).tok.Text?
    ensures LettersOk(key) && t == QuotedText(key) + LexToken(t).rest && LexToken(t).tok.s == Spelled(key)
  {
    key := LettersOf(t[1..], []);
    assert [] + Spelled(key) == Spelled(key);
    QuotedLayout(key, t, LexToken(t).rest);
  }

  lemma QuotedLayout(key: seq<Letter>, t: Str, rest: Str)
    requires t != [] && t[0] == QUOTE && t[1..] == LettersText(key) + (['"' as int] + rest)
    ensures t == QuotedText(key) + rest
  {
    assert t == [QUOTE] + t[1..];
  }

  /** One turn of the member loop, which does not end there. */
  lemma {:induction false} MemberAt(s: Str, done: map<Str, Value>, more: bool, v: Value, rest: Str)
    returns (lead: Str, m: Member, value: Value, next: Str)
    requires GetMembers(s, done, more) == Parsed(v, rest) && Lex(s).tok != Punct(RBRACE)
    ensures Blank(lead) && (!more ==> lead == []) && MemberOk(m) && Means(m.doc, value)
    ensures s == lead + (CommaIf(more) + (m.before + (QuotedText(m.key) + (m.afterKey + ([COLON] + (m.beforeValue
                   + (DocText(m.doc) + next)))))))
    ensures |next| < |s| && GetMembers(next, Assign(done, Spelled(m.key), value), true) == Parsed(v, rest)
    decreases |s|, 1
  {
    var before, t;
    lead, before, t := BeforePart(s, more, RBRACE);
    var tok := LexToken(t);
    var key := KeyOf(t);
    var afterKey := ColonAfterKey(tok.rest);
    var text := Lex(tok.rest).rest;
    value, next := GetNext(text).value, GetNext(text).rest;
    var beforeValue, u := BlankBefore(text);
    var doc := DocOf(u, value, next);
    m := Member(before, key, afterKey, beforeValue, doc, []);
  }

  /** What the member loop has read. */
  ghost predicate MembersFound(
      s: Str, done: map<Str, Value>, more: bool, v: Value, rest: Str, lead: Str, doc: Doc)
  {
    && doc.ObjectDoc? && DocOk(doc) && Blank(lead) && (!more ==> lead == [])
    && s == lead + (MembersText(doc.members, more) + (doc.blank + ([RBRACE] + rest)))
    && v.Obj? && Extends(done, doc.members, v.members)
  }

  lemma {:induction false} MembersOf(s: Str, done: map<Str, Value>, more: bool, v: Value, rest: Str)
    returns (lead: Str, doc: Doc)
    requires GetMembers(s, done, more) == Parsed(v, rest)
    ensures MembersFound(s, done, more, v, rest, lead, doc)
    decreases |s|, 2
  {
    if Lex(s).tok == Punct(RBRACE) {
      var ws, t := BlankBefore(s);
      NoMembers(ws, t, done, more, rest);
      lead, doc := [], ObjectDoc([], ws);
    } else {
      var m, value, next;
      lead, m, value, next := MemberAt(s, done, more, v, rest);
      var after, others := MembersOf(next, Assign(done, Spelled(m.key), value), true, v, rest);
      FirstMemberFound(s, done, more, v, rest, lead, m, value, next, after, others);
      doc := ObjectDoc([m.(after := after)] + others.members, others.blank);
    }
  }

  lemma FirstMemberFound(
      s: Str, done: map<Str, Value>, more: bool, v: Value, rest: Str, lead: Str, m: Member, value: Value, next: Str,
      after: Str, others: Doc)
    requires Blank(lead) && (!more ==> lead == []) && MemberOk(m) && Means(m.doc, value)
    requires s == lead + (CommaIf(more) + (m.before + (QuotedText(m.key) + (m.afterKey + ([COLON] + (m.beforeValue
                   + (DocText(m.doc) + next)))))))
    requires MembersFound(next, Assign(done, Spelled(m.key), value), true, v, rest, after, others)
    ensures MembersFound(s, done, more, v, rest, lead, ObjectDoc([m.(after := after)] + others.members, others.blank))
  {
    var first := m.(after := after);
    assert ([first] + others.members)[1..] == others.members;
    MembersAreOk(first, others.members, others.blank);
    MembersLayout(first, others.members, more, others.blank + ([RBRACE] + rest));
    ExtendsFirst(done, [first] + others.members, value, v.members);
  }

  lemma MembersAreOk(m: Member, others: seq<Member>, blank: Str)
    requires MemberOk(m) && DocOk(ObjectDoc(others, blank))
    ensures DocOk(ObjectDoc([m] + others, blank))
  {
  }

  lemma MembersLayout(m: Member, others: seq<Member>, more: bool, closing: Str)
    ensures CommaIf(more) + (m.before + (QuotedText(m.key) + (m.afterKey + ([COLON] + (m.beforeValue
              + (DocText(m.doc) + (m.after + (MembersText(others, true) + closing))))))))
         == MembersText([m] + others, more) + closing
  {
    assert ([m] + others)[1..] == others;
    MemberLayout(CommaIf(more), m, DocText(m.doc), MembersText(others, true), closing);
  }

  // ---------------------------------------------------------------- one meaning

  lemma {:induction false} MeaningIsUnique(doc: Doc, v: Value, w: Value)
    requires Means(doc, v) && Means(doc, w)
    ensures v == w
    decreases doc
  {
    match doc {
      case NumberDoc(l) => NumeralIsUnique(l, v.num, w.num);
      case ArrayDoc(items, _) =>
        forall i | 0 <= i < |items| ensures v.items[i] == w.items[i] {
          MeaningIsUnique(items[i].doc, v.items[i], w.items[i]);
        }
      case ObjectDoc(members, _) =>
        SameKeys(members, doc, v, w);
        SameKeys(members, doc, w, v);
        forall k | k in v.members ensures v.members[k] == w.members[k] {
          var i: nat :| i < |members| && Spelled(members[i].key) == k;
          var last := LastWith(members, k, i);
          MeaningIsUnique(members[last].doc, v.members[k], w.members[k]);
        }
        assert v.members == w.members;
      case _ =>
    }
  }

  lemma NumeralIsUnique(l: Numerals.Literal, a: Number, b: Number)
    requires NumeralOk(l) && NumeralMeans(l, a) && NumeralMeans(l, b)
    ensures a == b
  {
    if a.Int? && b.Int? {
      var m, n := if a.n < 0 then -a.n else a.n, if b.n < 0 then -b.n else b.n;
      Numerals.Cancel(m, n, Power10(Numerals.Down(l)));
    }
  }

  lemma {:induction false} LastWith(members: seq<Member>, k: Str, i: nat) returns (last: nat)
    requires i < |members| && Spelled(members[i].key) == k
    ensures IsLastWith(members, k, last)
    decreases |members| - i
  {
    if j :| i < j < |members| && Spelled(members[j].key) == k {
      last := LastWith(members, k, j);
    } else {
      last := i;
    }
  }

  lemma SameKeys(members: seq<Member>, doc: Doc, v: Value, w: Value)
    requires doc.ObjectDoc? && doc.members == members && Means(doc, v) && Means(doc, w)
    ensures forall k | k in v.members :: k in w.members
  {
    forall k | k in v.members ensures k in w.members {
      var i: nat :| i < |members| && Spelled(members[i].key) == k;
      var last := LastWith(members, k, i);
    }
  }

  // ---------------------------------------------------------------- main result

  /** The text is a JSON document between white space, and means `v`. */
  ghost predicate IsJson(s: Str, v: Value) {
    exists before, doc, after ::
      Blank(before) && DocOk(doc) && Blank(after) && s == before + (DocText(doc) + after) && Means(doc, v)
  }

  /** `JSON.parse` accepts exactly the JSON texts, each as what it means. */
  lemma ParseIsExact(s: Str, v: Value)
    ensures Parse(s) == Some(v) <==> IsJson(s, v)
  {
    if Parse(s) == Some(v) {
      ParsedIsJson(s, v);
    }
    if IsJson(s, v) {
      var before, doc, after :|
        Blank(before) && DocOk(doc) && Blank(after) && s == before + (DocText(doc) + after) && Means(doc, v);
      DocumentIsAccepted(before, doc, after);
      MeaningIsUnique(doc, v, Parse(s).value);
    }
  }

  lemma ParsedIsJson(s: Str, v: Value)
    requires Parse(s) == Some(v)
    ensures IsJson(s, v)
  {
    var rest := GetNext(s).rest;
    var before, t := BlankBefore(s);
    var doc := DocOf(t, v, rest);
    var after, u := BlankBefore(rest);
    assert u == [] && after + [] == after;
    assert s == before + (DocText(doc) + after);
  }

  /** What is printed is a JSON text. */
  lemma PrintedIsJson(v: Value, order: Order, gap: Str)
    requires !v.Undef? && WellFormed(v) && Enumerates(order) && AllSpace(gap)
    ensures IsJson(Serialize(v, order, gap, []), Normal(v))
  {
    ParseOfStringify(v, order, gap);
    ParseIsExact(Serialize(v, order, gap, []), Normal(v));
  }
}
