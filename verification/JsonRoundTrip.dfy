/** What printing a value and parsing the text gives back, for every value and every indentation. */
module JsonRoundTrip {
  import opened Text
  import opened Json3

  /** The value that survives: `undefined`, `NaN` and the infinities become `null` or vanish, an
      ArrayBuffer becomes an object without members, and a member named `__proto__` is lost. */
  function Normal(v: Value): Value {
    match v
    case Undef => Null
    case Num(n) => if n.Finite() then v else Null
    case Bin(_) => Obj(map[])
    case Arr(items) => Arr(seq(|items|, i requires 0 <= i < |items| => Normal(items[i])))
    case Obj(members) => Obj(map k | k in members && Survives(members, k) :: Normal(members[k]))
    case _ => v
  }

  predicate Survives(members: map<Str, Value>, k: Str)
    requires k in members
  {
    !members[k].Undef? && k != PROTO
  }

  /** Values that have a JSON text of their own. */
  predicate Plain(v: Value) {
    match v
    case Undef => false
    case Num(n) => n.Finite()
    case Bin(_) => false
    case Arr(items) => forall i | 0 <= i < |items| :: Plain(items[i])
    case Obj(members) => PROTO !in members && forall k | k in members :: Plain(members[k])
    case _ => true
  }

  /** Every non-integer number is represented by text that the lexer reads back as that number. */
  predicate WellFormed(v: Value) {
    match v
    case Num(Real(t)) =>
      StartsNumber(t) && LexNumber(t) == Lexed(Numeral(Real(t)), [])
    case Arr(items) => forall i | 0 <= i < |items| :: WellFormed(items[i])
    case Obj(members) => forall k | k in members :: WellFormed(members[k])
    case _ => true
  }

  predicate AllSpace(s: Str) {
    forall i | 0 <= i < |s| :: IsSpace(s[i])
  }

  /** Text that cannot continue a numeral. */
  predicate EndsNumeral(s: Str) {
    s == [] || (!IsDigit(s[0]) && s[0] != DOT && s[0] != 101 && s[0] != 69)
  }

  /** Text whose first token begins a value. */
  predicate StartsValue(s: Str) {
    var r := Lex(s);
    r.Lexed? && !r.tok.End? && (r.tok.Punct? ==> r.tok.c == LBRACKET || r.tok.c == LBRACE)
  }

  // ---------------------------------------------------------------- tokens

  lemma {:induction false} SkipSpace(ws: Str, s: Str)
    requires AllSpace(ws)
    ensures Lex(ws + s) == Lex(s)
  {
    if ws == [] {
      assert ws + s == s;
    } else {
      assert (ws + s)[1..] == ws[1..] + s;
      SkipSpace(ws[1..], s);
    }
  }

  lemma EscapeRoundTrip(c: CodeUnit, s: Str, value: Str)
    ensures LexString(Escape(c) + s, value) == LexString(s, value + [c])
  {
    var t := Escape(c) + s;
    if 92 == c || c == 34 || c == 8 || c == 12 || c == 10 || c == 13 || c == 9 {
      assert t[2..] == s;
    } else if c < 32 {
      assert t[6..] == s;
      assert t[2..6] == [48, 48, HexDigit(c / 16), HexDigit(c % 16)];
    } else {
      assert t[1..] == s;
    }
  }

  lemma {:induction false} StringRoundTrip(text: Str, rest: Str, value: Str)
    ensures LexString(EscapeAll(text) + [QUOTE] + rest, value) == Lexed(Text(value + text), rest)
  {
    if text == [] {
      assert EscapeAll(text) + [QUOTE] + rest == [QUOTE] + rest;
      assert value + text == value;
    } else {
      var tail := EscapeAll(text[1..]) + [QUOTE] + rest;
      EscapeFirst(text, rest);
      EscapeRoundTrip(text[0], tail, value);
      StringRoundTrip(text[1..], rest, value + [text[0]]);
      Assoc(value, [text[0]], text[1..]);
      assert [text[0]] + text[1..] == text;
    }
  }

  lemma EscapeFirst(text: Str, rest: Str)
    requires text != []
    ensures EscapeAll(text) + [QUOTE] + rest == Escape(text[0]) + (EscapeAll(text[1..]) + [QUOTE] + rest)
  {
    Assoc(Escape(text[0]), EscapeAll(text[1..]), [QUOTE]);
    Assoc(Escape(text[0]), EscapeAll(text[1..]) + [QUOTE], rest);
  }

  lemma QuoteRoundTrip(text: Str, rest: Str)
    ensures Lex(Quote(text) + rest) == Lexed(Text(text), rest)
  {
    assert (Quote(text) + rest)[1..] == EscapeAll(text) + [QUOTE] + rest;
    StringRoundTrip(text, rest, []);
    assert [] + text == text;
  }

  lemma DigitRunLocal(s: Str, rest: Str)
    requires rest == [] || !IsDigit(rest[0])
    ensures DigitRun(s + rest) == DigitRun(s)
  {
    var k := DigitRun(s);
    assert (s + rest)[..k] == s[..k];
    assert k < |s| ==> (s + rest)[k] == s[k];
    DigitRunIs(s + rest, k);
  }

  lemma SkipFractionLocal(s: Str, rest: Str)
    requires EndsNumeral(rest) && SkipFraction(s).Some?
    ensures SkipFraction(s + rest) == Some(SkipFraction(s).value + rest)
  {
    if s != [] && s[0] == DOT {
      DigitRunLocal(s[1..], rest);
      assert (s + rest)[1..] == s[1..] + rest;
      var k := DigitRun(s[1..]);
      assert (s[1..] + rest)[k..] == s[1..][k..] + rest;
    } else if s == [] {
      assert s + rest == rest;
    }
  }

  lemma DropDigitsLocal(t: Str, rest: Str)
    requires EndsNumeral(rest)
    ensures (t + rest)[DigitRun(t + rest)..] == t[DigitRun(t)..] + rest && DigitRun(t + rest) == DigitRun(t)
  {
    DigitRunLocal(t, rest);
  }

  lemma SkipExponentLocal(s: Str, rest: Str)
    requires EndsNumeral(rest) && SkipExponent(s).Some?
    ensures SkipExponent(s + rest) == Some(SkipExponent(s).value + rest)
  {
    if s == [] {
      assert s + rest == rest;
    } else if s[0] == 101 || s[0] == 69 {
      if s[1] == 43 || s[1] == MINUS {
        assert (s + rest)[2..] == s[2..] + rest;
        DropDigitsLocal(s[2..], rest);
      } else {
        assert (s + rest)[1..] == s[1..] + rest;
        DropDigitsLocal(s[1..], rest);
      }
    }
  }

  lemma SkipLocal(s: Str, rest: Str)
    requires EndsNumeral(rest) && SkipFractionAndExponent(s) == Some([])
    ensures SkipFractionAndExponent(s + rest) == Some(rest)
  {
    SkipFractionLocal(s, rest);
    SkipExponentLocal(SkipFraction(s).value, rest);
    assert [] + rest == rest;
  }

  lemma UnsignedLocal(t: Str, rest: Str)
    requires t != [] && IsDigit(t[0]) && Unsigned(t) == Some([]) && EndsNumeral(rest)
    ensures Unsigned(t + rest) == Some(rest)
  {
    var k := DigitRun(t);
    assert DigitRun(t + rest) == k by { DigitRunLocal(t, rest); }
    assert (t + rest)[k..] == t[k..] + rest;
    assert SkipFractionAndExponent((t + rest)[k..]) == Some(rest) by { SkipLocal(t[k..], rest); }
  }

  lemma NumeralBefore(s: Str, negative: bool, t: Str, rest: Str)
    requires StartsNumber(s) && negative == (s[0] == MINUS) && t == (if negative then s[1..] else s)
    requires Unsigned(t) == Some([]) && EndsNumeral(rest)
    ensures StartsNumber(s + rest) && LexNumber(s + rest) == Lexed(Numeral(NumeralOf(negative, t)), rest)
  {
    assert t + rest == if negative then (s + rest)[1..] else s + rest;
    UnsignedLocal(t, rest);
    assert (t + rest)[..|t|] == t;
    LexNumberIs(s + rest, negative, t, rest);
  }

  /** A numeral is read the same way whatever follows it, as long as that cannot continue it. */
  lemma NumeralLocal(s: Str, rest: Str)
    requires StartsNumber(s) && LexNumber(s).Lexed? && LexNumber(s).rest == [] && EndsNumeral(rest)
    ensures StartsNumber(s + rest) && LexNumber(s + rest) == Lexed(LexNumber(s).tok, rest)
  {
    var negative := s[0] == MINUS;
    var t := if negative then s[1..] else s;
    assert s + [] == s;
    NumeralBefore(s, negative, t, []);
    NumeralBefore(s, negative, t, rest);
  }

  lemma IntegerRoundTrip(n: int)
    ensures var s := NumberText(Int(n)); StartsNumber(s) && LexNumber(s) == Lexed(Numeral(Int(n)), [])
  {
    var a := if n < 0 then -n else n;
    var digits, s := Decimal(a), NumberText(Int(n));
    NaturalRoundTrip(a);
    assert digits[0] != MINUS && digits[..|digits|] == digits;
    assert n < 0 ==> ([MINUS] + digits)[1..] == digits;
    LexNumberIs(s, n < 0, digits, []);
    NumeralOfDigits(n < 0, a);
  }

  lemma NumeralOfDigits(negative: bool, a: nat)
    ensures NumeralOf(negative, Decimal(a)) == Int(if negative then 0 - a else a)
  {
    DecimalIsItsNumber(a);
  }

  lemma NaturalRoundTrip(a: nat)
    ensures IsDigit(Decimal(a)[0]) && Unsigned(Decimal(a)) == Some([])
  {
    var digits := Decimal(a);
    DecimalRoundTrip(a);
    assert IsDigit(digits[0]);
    assert digits[..|digits|] == digits && digits[|digits|..] == [];
    DigitRunIs(digits, |digits|);
  }

  lemma LexOnNumber(s: Str)
    requires StartsNumber(s)
    ensures Lex(s) == LexNumber(s)
  {
  }

  lemma NumberRoundTrip(n: Number, rest: Str)
    requires WellFormed(Num(n)) && n.Finite() && EndsNumeral(rest)
    ensures Lex(NumberText(n) + rest) == Lexed(Numeral(n), rest)
  {
    if n.Int? {
      IntegerRoundTrip(n.n);
    }
    NumeralLocal(NumberText(n), rest);
    LexOnNumber(NumberText(n) + rest);
  }

  lemma KeywordRoundTrip(rest: Str)
    ensures Lex(TRUE_TEXT + rest) == Lexed(Literal(true), rest)
    ensures Lex(FALSE_TEXT + rest) == Lexed(Literal(false), rest)
    ensures Lex(NULL_TEXT + rest) == Lexed(NullTok, rest)
  {
    assert (TRUE_TEXT + rest)[4..] == rest;
    assert (FALSE_TEXT + rest)[5..] == rest;
    assert (NULL_TEXT + rest)[4..] == rest;
    assert (TRUE_TEXT + rest)[0] == 116 && (FALSE_TEXT + rest)[0] == 102 && (NULL_TEXT + rest)[0] == 110;
  }

  // ---------------------------------------------------------------- brackets

  /** The text that the element loop of `get` still has to read: the parts, a comma before each one
      but the first, white space `ws` before each part, and the closing text. */
  function LoopText(parts: seq<Str>, hasMembers: bool, ws: Str, closing: Str): Str {
    if parts == [] then closing
    else
      (if hasMembers then [COMMA] else []) + (ws + (parts[0] + LoopText(parts[1..], true, ws, closing)))
  }

  lemma {:induction false} JoinIsLoopText(parts: seq<Str>, ws: Str, closing: Str)
    requires parts != []
    ensures Join(parts, [COMMA] + ws) + closing == parts[0] + LoopText(parts[1..], true, ws, closing)
  {
    if |parts| > 1 {
      JoinIsLoopText(parts[1..], ws, closing);
      var more := Join(parts[1..], [COMMA] + ws);
      assert parts[0] + ([COMMA] + ws) + more + closing
          == parts[0] + ([COMMA] + (ws + (more + closing)));
    }
  }

  function LineStart(gap: Str, indent: Str): Str {
    if gap == [] then [] else [NEWLINE] + (indent + gap)
  }

  function LineEnd(gap: Str, indent: Str): Str {
    if gap == [] then [] else [NEWLINE] + indent
  }

  lemma Regroup(a: Str, b: Str, c: Str, d: Str, e: Str)
    ensures a + b + c + d + e == a + (b + (c + (d + e)))
  {
  }

  lemma EncloseIsLoopText(open: CodeUnit, parts: seq<Str>, close: CodeUnit, gap: Str, indent: Str, rest: Str)
    ensures Enclose(open, parts, close, gap, indent) + rest
         == [open] + LoopText(parts, false, LineStart(gap, indent),
                              (if parts == [] then [] else LineEnd(gap, indent)) + ([close] + rest))
  {
    var ws, tail := LineStart(gap, indent), LineEnd(gap, indent);
    if parts == [] {
      assert [open, close] + rest == [open] + ([] + ([close] + rest));
    } else {
      JoinIsLoopText(parts, ws, tail + ([close] + rest));
      EnclosedParts(open, parts, close, gap, indent);
      EncloseRegroup([open], ws, Join(parts, [COMMA] + ws), tail, [close], rest);
    }
  }

  lemma EnclosedParts(open: CodeUnit, parts: seq<Str>, close: CodeUnit, gap: Str, indent: Str)
    requires parts != []
    ensures var ws, tail := LineStart(gap, indent), LineEnd(gap, indent);
      Enclose(open, parts, close, gap, indent) == [open] + ws + Join(parts, [COMMA] + ws) + tail + [close]
  {
    var ws := LineStart(gap, indent);
    if gap == [] {
      assert [COMMA] + ws == [COMMA];
    } else {
      assert [COMMA] + ws == [COMMA, NEWLINE] + (indent + gap);
      EncloseLines([open, NEWLINE] + (indent + gap), [open] + ws, Join(parts, [COMMA] + ws),
                   [NEWLINE], indent, [close]);
    }
  }

  lemma EncloseLines(a: Str, b: Str, joined: Str, c: Str, d: Str, e: Str)
    requires a == b
    ensures a + joined + c + d + e == b + joined + (c + d) + e
  {
  }

  lemma EncloseRegroup(a: Str, b: Str, c: Str, d: Str, e: Str, rest: Str)
    ensures a + b + c + d + e + rest == a + ([] + (b + (c + (d + (e + rest)))))
  {
  }

  lemma LoopTextEndsNumeral(parts: seq<Str>, ws: Str, tail: Str, close: CodeUnit, rest: Str)
    requires AllSpace(tail) && (close == RBRACKET || close == RBRACE)
    ensures EndsNumeral(LoopText(parts, true, ws, tail + ([close] + rest)))
  {
    var s := tail + ([close] + rest);
    assert s[0] == if tail == [] then close else tail[0];
    if parts != [] {
      assert LoopText(parts, true, ws, s)[0] == COMMA;
    }
  }

  lemma ClosingToken(tail: Str, close: CodeUnit, rest: Str)
    requires AllSpace(tail) && IsPunct(close)
    ensures Lex(tail + ([close] + rest)) == Lexed(Punct(close), rest)
  {
    SkipSpace(tail, [close] + rest);
    assert ([close] + rest)[1..] == rest;
  }

  /** Where the element loop stands after the comma and the white space before a part. */
  lemma PartToken(part: Str, hasMembers: bool, ws: Str, after: Str, close: CodeUnit)
    requires AllSpace(ws) && StartsValue(part + after) && (close == RBRACKET || close == RBRACE)
    ensures var first := Lex((if hasMembers then [COMMA] else []) + (ws + (part + after)));
      first.Lexed? && first.tok != Punct(close)
      && Separated(first, hasMembers, close) == Lex(part + after)
  {
    SkipSpace(ws, part + after);
    if hasMembers {
      assert ([COMMA] + (ws + (part + after)))[1..] == ws + (part + after);
    } else {
      assert [] + (ws + (part + after)) == ws + (part + after);
    }
  }

  /** One turn of the element loop. */
  lemma ItemStep(part: Str, item: Value, hasMembers: bool, ws: Str, after: Str, done: seq<Value>)
    requires AllSpace(ws) && StartsValue(part + after) && GetNext(part + after) == Parsed(item, after)
    ensures GetItems((if hasMembers then [COMMA] else []) + (ws + (part + after)), done, hasMembers)
         == GetItems(after, done + [item], true)
  {
    PartToken(part, hasMembers, ws, after, RBRACKET);
  }

  /** One turn of the member loop. */
  lemma MemberStep(
      key: Str, space: Str, text: Str, item: Value, hasMembers: bool, ws: Str, after: Str, done: map<Str, Value>)
    requires AllSpace(ws) && AllSpace(space) && GetNext(text + after) == Parsed(item, after)
    ensures GetMembers((if hasMembers then [COMMA] else []) + (ws + ((Quote(key) + [COLON] + space + text) + after)),
                       done, hasMembers)
         == GetMembers(after, Assign(done, key, item), true)
  {
    var part := Quote(key) + [COLON] + space + text;
    var afterKey := [COLON] + (space + (text + after));
    assert part + after == Quote(key) + afterKey by { Regroup(Quote(key), [COLON], space, text, after); }
    QuoteRoundTrip(key, afterKey);
    PartToken(part, hasMembers, ws, after, RBRACE);
    assert Lex(afterKey) == Lexed(Punct(COLON), space + (text + after)) by {
      assert afterKey[1..] == space + (text + after);
    }
    SkipSpace(space, text + after);
  }

  // ---------------------------------------------------------------- values

  lemma EmptyObject(rest: Str)
    ensures StartsValue([LBRACE, RBRACE] + rest)
    ensures GetNext([LBRACE, RBRACE] + rest) == Parsed(Obj(map[]), rest)
  {
    assert ([LBRACE, RBRACE] + rest)[1..] == [RBRACE] + rest;
    assert ([RBRACE] + rest)[1..] == rest;
    assert GetMembers([RBRACE] + rest, map[], false) == Parsed(Obj(map[]), rest);
  }

  /** Printing a value and reading it back, in front of any text that cannot continue a numeral. */
  lemma {:induction false} ValueRoundTrip(v: Value, order: Order, gap: Str, indent: Str, rest: Str)
    requires !v.Undef? && WellFormed(v) && Enumerates(order)
    requires AllSpace(gap) && AllSpace(indent) && EndsNumeral(rest)
    ensures StartsValue(Serialize(v, order, gap, indent) + rest)
    ensures GetNext(Serialize(v, order, gap, indent) + rest) == Parsed(Normal(v), rest)
    decreases v, 2
  {
    match v {
      case Null => KeywordRoundTrip(rest);
      case Bool(_) => KeywordRoundTrip(rest);
      case Num(n) =>
        if n.Finite() { NumberRoundTrip(n, rest); } else { KeywordRoundTrip(rest); }
      case String(s) => QuoteRoundTrip(s, rest);
      case Bin(_) =>
        EmptyObject(rest);
      case Arr(_) => ArrayRoundTrip(v, order, gap, indent, rest);
      case Obj(_) => ObjectRoundTrip(v, order, gap, indent, rest);
    }
  }

  lemma {:induction false} ArrayRoundTrip(v: Value, order: Order, gap: Str, indent: Str, rest: Str)
    requires v.Arr? && WellFormed(v) && Enumerates(order)
    requires AllSpace(gap) && AllSpace(indent)
    ensures StartsValue(Serialize(v, order, gap, indent) + rest)
    ensures GetNext(Serialize(v, order, gap, indent) + rest) == Parsed(Normal(v), rest)
    decreases v, 1
  {
    var parts := SerializeItems(v.items, order, gap, indent + gap);
    var tail := if parts == [] then [] else LineEnd(gap, indent);
    EncloseIsLoopText(LBRACKET, parts, RBRACKET, gap, indent, rest);
    var loop := LoopText(parts, false, LineStart(gap, indent), tail + ([RBRACKET] + rest));
    assert ([LBRACKET] + loop)[1..] == loop;
    ItemsRoundTrip(v.items, [], false, order, gap, indent + gap, LineStart(gap, indent), tail, rest);
    assert [] + Normal(v).items == Normal(v).items;
  }

  lemma {:induction false} ObjectRoundTrip(v: Value, order: Order, gap: Str, indent: Str, rest: Str)
    requires v.Obj? && WellFormed(v) && Enumerates(order)
    requires AllSpace(gap) && AllSpace(indent)
    ensures StartsValue(Serialize(v, order, gap, indent) + rest)
    ensures GetNext(Serialize(v, order, gap, indent) + rest) == Parsed(Normal(v), rest)
    decreases v, 1
  {
    var keys := order(v.members);
    var parts := SerializeMembers(v, keys, order, gap, indent + gap);
    var tail := if parts == [] then [] else LineEnd(gap, indent);
    EncloseIsLoopText(LBRACE, parts, RBRACE, gap, indent, rest);
    var loop := LoopText(parts, false, LineStart(gap, indent), tail + ([RBRACE] + rest));
    assert ([LBRACE] + loop)[1..] == loop;
    MembersRoundTrip(v, keys, map[], false, order, gap, indent + gap, LineStart(gap, indent), tail, rest);
    AssignAllIsNormal(v, keys);
  }

  lemma NormalCons(items: seq<Value>, done: seq<Value>)
    requires items != []
    ensures done + Normal(Arr(items)).items == done + [Normal(items[0])] + Normal(Arr(items[1..])).items
  {
  }

  lemma {:induction false} ItemsRoundTrip(
      items: seq<Value>, done: seq<Value>, hasMembers: bool, order: Order, gap: Str, indent: Str,
      ws: Str, tail: Str, rest: Str)
    requires forall i | 0 <= i < |items| :: WellFormed(items[i])
    requires Enumerates(order) && AllSpace(gap) && AllSpace(indent) && AllSpace(ws) && AllSpace(tail)
    ensures GetItems(LoopText(SerializeItems(items, order, gap, indent), hasMembers, ws, tail + ([RBRACKET] + rest)),
                     done, hasMembers)
         == Parsed(Arr(done + Normal(Arr(items)).items), rest)
    decreases items, 0
  {
    var parts := SerializeItems(items, order, gap, indent);
    var closing := tail + ([RBRACKET] + rest);
    if items == [] {
      ClosingToken(tail, RBRACKET, rest);
      assert done + Normal(Arr([])).items == done;
    } else {
      var after := LoopText(parts[1..], true, ws, closing);
      LoopTextEndsNumeral(parts[1..], ws, tail, RBRACKET, rest);
      if items[0].Undef? {
        KeywordRoundTrip(after);
      } else {
        ValueRoundTrip(items[0], order, gap, indent, after);
      }
      ItemStep(parts[0], Normal(items[0]), hasMembers, ws, after, done);
      assert parts[1..] == SerializeItems(items[1..], order, gap, indent);
      ItemsRoundTrip(items[1..], done + [Normal(items[0])], true, order, gap, indent, ws, tail, rest);
      NormalCons(items, done);
    }
  }

  /** The members that the loop of `get` assigns, in the order of their text. */
  function AssignAll(v: Value, keys: seq<Str>, done: map<Str, Value>): map<Str, Value>
    requires v.Obj?
    decreases |keys|
  {
    if keys == [] then done
    else if keys[0] in v.members && !v.members[keys[0]].Undef? then
      AssignAll(v, keys[1..], Assign(done, keys[0], Normal(v.members[keys[0]])))
    else AssignAll(v, keys[1..], done)
  }

  lemma {:induction false} MembersRoundTrip(
      v: Value, keys: seq<Str>, done: map<Str, Value>, hasMembers: bool, order: Order, gap: Str, indent: Str,
      ws: Str, tail: Str, rest: Str)
    requires v.Obj? && WellFormed(v)
    requires Enumerates(order) && AllSpace(gap) && AllSpace(indent) && AllSpace(ws) && AllSpace(tail)
    ensures GetMembers(
              LoopText(SerializeMembers(v, keys, order, gap, indent), hasMembers, ws, tail + ([RBRACE] + rest)),
              done, hasMembers)
         == Parsed(Obj(AssignAll(v, keys, done)), rest)
    decreases v, 0, |keys|
  {
    var parts := SerializeMembers(v, keys, order, gap, indent);
    var closing := tail + ([RBRACE] + rest);
    if keys == [] {
      ClosingToken(tail, RBRACE, rest);
    } else if keys[0] in v.members && !v.members[keys[0]].Undef? {
      var key, item := keys[0], v.members[keys[0]];
      var after := LoopText(parts[1..], true, ws, closing);
      LoopTextEndsNumeral(parts[1..], ws, tail, RBRACE, rest);
      var space := if gap == [] then [] else [SPACE];
      var text := Serialize(item, order, gap, indent);
      ValueRoundTrip(item, order, gap, indent, after);
      MemberStep(key, space, text, Normal(item), hasMembers, ws, after, done);
      assert parts[0] == Quote(key) + [COLON] + space + text;
      assert parts[1..] == SerializeMembers(v, keys[1..], order, gap, indent);
      MembersRoundTrip(v, keys[1..], Assign(done, key, Normal(item)), true, order, gap, indent, ws, tail, rest);
    } else {
      MembersRoundTrip(v, keys[1..], done, hasMembers, order, gap, indent, ws, tail, rest);
    }
  }

  lemma {:induction false} AssignAllGives(v: Value, keys: seq<Str>, done: map<Str, Value>)
    requires v.Obj?
    requires forall i, j | 0 <= i < j < |keys| :: keys[i] != keys[j]
    ensures forall k :: k in AssignAll(v, keys, done) <==>
      k in done || (k in keys && k in v.members && Survives(v.members, k))
    ensures forall k | k in AssignAll(v, keys, done) ::
      AssignAll(v, keys, done)[k]
      == if k in keys && k in v.members && Survives(v.members, k) then Normal(v.members[k]) else done[k]
    decreases |keys|
  {
    if keys != [] {
      var next := if keys[0] in v.members && !v.members[keys[0]].Undef?
        then Assign(done, keys[0], Normal(v.members[keys[0]])) else done;
      AssignAllGives(v, keys[1..], next);
      assert forall k :: k in keys <==> k == keys[0] || k in keys[1..];
      assert keys[0] !in keys[1..];
    }
  }

  lemma AssignAllIsNormal(v: Value, keys: seq<Str>)
    requires v.Obj? && IsEnumeration(keys, v.members.Keys)
    ensures AssignAll(v, keys, map[]) == Normal(v).members
  {
    AssignAllGives(v, keys, map[]);
  }

  lemma {:induction false} NormalIsIdentity(v: Value)
    ensures Normal(v) == v <==> Plain(v)
  {
    match v {
      case Arr(items) =>
        forall i | 0 <= i < |items| ensures Normal(items[i]) == items[i] <==> Plain(items[i]) {
          NormalIsIdentity(items[i]);
        }
        assert Normal(v) == v <==> Normal(v).items == items;
        assert Normal(v).items == items <==> forall i | 0 <= i < |items| :: Normal(v).items[i] == items[i];
      case Obj(members) =>
        forall k | k in members ensures Normal(members[k]) == members[k] <==> Plain(members[k]) {
          NormalIsIdentity(members[k]);
        }
        var normal := Normal(v).members;
        if normal == members {
          assert forall k | k in members :: k in normal && normal[k] == members[k];
        }
        if Plain(v) {
          assert forall k | k in members :: Survives(members, k);
          assert normal == members;
        }
      case _ =>
    }
  }

  // ---------------------------------------------------------------- main results

  /** `parse(stringify(v, null, width))` for every value, every blank indentation and every
      enumeration order of object keys. */
  lemma ParseOfStringify(v: Value, order: Order, gap: Str)
    requires !v.Undef? && WellFormed(v) && Enumerates(order) && AllSpace(gap)
    ensures Parse(Serialize(v, order, gap, [])) == Some(Normal(v))
  {
    ValueRoundTrip(v, order, gap, [], []);
    assert Serialize(v, order, gap, []) + [] == Serialize(v, order, gap, []);
  }

  /** The round trip is exact on the plain values and on no others. */
  lemma ParseOfStringifyIsExact(v: Value, order: Order, gap: Str)
    requires !v.Undef? && WellFormed(v) && Enumerates(order) && AllSpace(gap)
    ensures Parse(Serialize(v, order, gap, [])) == Some(v) <==> Plain(v)
  {
    ParseOfStringify(v, order, gap);
    NormalIsIdentity(v);
  }
}
