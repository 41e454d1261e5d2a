/** The JSON reader in the form of the source: an object with the text and an index into it, which the
    lexer and the parser move. Every method is proved to do what the function of the same name in `Json3`
    says of the text that is still unread, and to reset the object where that one aborts. The loops over
    digits, characters, items and members are those of the source. */
module JsonReader {
  import opened Text
  import opened Json3

  lemma LexNumberFails(s: Str, t: Str)
    requires StartsNumber(s) && t == (if s[0] == MINUS then s[1..] else s) && Unsigned(t) == None
    ensures LexNumber(s) == Json3.Abort
  {
  }

  /** The numeral between two indices of the text. */
  lemma LexNumberAt(source: Str, begin: nat, first: nat, index: nat)
    requires begin <= first <= index <= |source| && StartsNumber(source[begin..])
    requires first == if source[begin] == MINUS then begin + 1 else begin
    requires Unsigned(source[first..]) == Some(source[index..])
    ensures LexNumber(source[begin..])
         == Lexed(Numeral(NumeralOf(source[begin] == MINUS, source[first..index])), source[index..])
  {
    var s, t := source[begin..], source[first..];
    assert t == if s[0] == MINUS then s[1..] else s;
    SliceOfRest(source, first, index);
    assert |t| - |source[index..]| == index - first;
    LexNumberIs(s, s[0] == MINUS, source[first..index], source[index..]);
  }

  class Reader {
    var Index: nat
    var Source: Str

    ghost predicate Valid()
      reads this
    {
      Index <= |Source|
    }

    /** What is still unread. */
    ghost function Rest(): Str
      requires Valid()
      reads this
    {
      Source[Index..]
    }

    /** `abort`: forgets the source, as the code does before it throws. */
    ghost predicate Reset()
      reads this
    {
      Index == 0 && Source == []
    }

    constructor (source: Str)
      ensures Valid() && Rest() == source
    {
      Index, Source := 0, source;
    }

    method Abort()
      modifies this
      ensures Reset()
    {
      Index, Source := 0, [];
    }

    /** The first position at or after `from` that holds no decimal digit. */
    method SkipDigits(from: nat) returns (position: nat)
      requires from <= |Source|
      ensures from <= position <= |Source|
      ensures position == from + DigitRun(Source[from..])
      ensures Source[position..] == Source[from..][position - from..]
    {
      position := from;
      while position < |Source| && IsDigit(Source[position])
        invariant from <= position <= |Source|
        invariant forall i | from <= i < position :: IsDigit(Source[i])
      {
        position := position + 1;
      }
      SliceOfRest(Source, from, position);
      DigitRunIs(Source[from..], position - from);
    }

    /** The four digits of a `\u` escape whose first digit is at `Index`. */
    method LexHex() returns (unit: Option<CodeUnit>)
      requires Valid()
      modifies this
      ensures var s := old(Rest());
        if |s| >= 4 && IsHex(s[0]) && IsHex(s[1]) && IsHex(s[2]) && IsHex(s[3]) then
          Source == old(Source) && Valid() && Rest() == s[4..] && unit == Some(HexUnit(s[..4]))
        else unit == None && Reset()
    {
      ghost var s := Rest();
      var begin := Index;
      var position := Index + 4;
      while Index < position
        invariant Source == old(Source) && begin <= Index <= position && Valid()
        invariant forall i | begin <= i < Index :: IsHex(Source[i])
      {
        if Index == |Source| || !IsHex(Source[Index]) {
          assert Index < |Source| ==> s[Index - begin] == Source[Index];
          Abort();
          return None;
        }
        Index := Index + 1;
      }
      assert forall i | 0 <= i < 4 :: s[i] == Source[begin + i];
      assert Source[begin..Index] == s[..4];
      unit := Some(HexUnit(Source[begin..Index]));
    }

    /** An escape sequence; `Index` is at the backslash. */
    method LexEscape(value: Str) returns (unit: Option<CodeUnit>)
      requires Valid() && Rest() != [] && Rest()[0] == BACKSLASH
      modifies this
      ensures unit.Some? ==>
        Source == old(Source) && Valid() && |Rest()| < |old(Rest())|
        && LexString(Rest(), value + [unit.value]) == LexString(old(Rest()), value)
      ensures unit.None? ==> Reset() && LexString(old(Rest()), value).Abort?
    {
      ghost var s := Rest();
      Index := Index + 1;
      assert s[1..] == Rest();
      if Index == |Source| {
        Abort();
        return None;
      }
      assert s[1] == Source[Index];
      if Source[Index] == 117 {
        Index := Index + 1;
        assert s[2..] == Rest();
        assert |s| >= 6 ==> s[2..][4..] == s[6..] && s[2..6] == s[2..][..4];
        unit := LexHex();
      } else {
        unit := Unescape(Source[Index]);
        if unit.None? {
          Abort();
        } else {
          Index := Index + 1;
          assert s[2..] == Rest();
        }
      }
    }

    /** Characters that stand for themselves, from `Index` on. */
    method LexPlain(value: Str) returns (plain: Str)
      requires Valid() && Rest() != []
      requires Rest()[0] >= 32 && Rest()[0] != BACKSLASH && Rest()[0] != QUOTE
      modifies this`Index
      ensures Valid() && |Rest()| < |old(Rest())|
      ensures LexString(Rest(), value + plain) == LexString(old(Rest()), value)
    {
      var begin := Index;
      ghost var expected := LexString(Rest(), value);
      assert value + Source[begin..Index] == value;
      while Index < |Source| && Source[Index] >= 32 && Source[Index] != BACKSLASH && Source[Index] != QUOTE
        invariant begin <= Index && Valid()
        invariant LexString(Rest(), value + Source[begin..Index]) == expected
      {
        ghost var s := Rest();
        assert s[0] == Source[Index];
        assert value + Source[begin..Index] + [Source[Index]] == value + Source[begin..Index + 1];
        Index := Index + 1;
        assert s[1..] == Rest();
      }
      plain := Source[begin..Index];
    }

    /** A string token; `Index` is after the opening quote. */
    method LexStringToken() returns (tok: Option<Token>)
      requires Valid()
      modifies this
      ensures match LexString(old(Rest()), [])
        case Abort => tok == None && Reset()
        case Lexed(t, rest) => tok == Some(t) && Source == old(Source) && Valid() && Rest() == rest
    {
      ghost var expected := LexString(Rest(), []);
      var value: Str := [];
      while Index < |Source| && Source[Index] != QUOTE
        invariant Source == old(Source) && Valid()
        invariant LexString(Rest(), value) == expected
        decreases |Source| - Index
      {
        assert Rest()[0] == Source[Index];
        if Source[Index] < 32 {
          Abort();
          return None;
        } else if Source[Index] == BACKSLASH {
          var unit := LexEscape(value);
          if unit.None? {
            return None;
          }
          value := value + [unit.value];
        } else {
          var plain := LexPlain(value);
          value := value + plain;
        }
      }
      if Index < |Source| {
        assert Rest()[0] == QUOTE && Rest()[1..] == Source[Index + 1..];
        Index := Index + 1;
        return Some(Text(value));
      }
      Abort();
      return None;
    }

    /** One or more digits; `ok` is false where the code throws. */
    method LexSomeDigits() returns (ok: bool)
      requires Valid()
      modifies this`Index
      ensures Valid() && old(Index) <= Index
      ensures ok == (DigitRun(old(Rest())) > 0) && (ok ==> Rest() == old(Rest())[DigitRun(old(Rest()))..])
    {
      var position := SkipDigits(Index);
      ok := position != Index;
      Index := position;
    }

    /** An optional fraction; `ok` is false where the code throws. */
    method LexFraction() returns (ok: bool)
      requires Valid()
      modifies this`Index
      ensures Valid() && old(Index) <= Index
      ensures SkipFraction(old(Rest())) == if ok then Some(Rest()) else None
    {
      if Index < |Source| && Source[Index] == DOT {
        assert Rest()[1..] == Source[Index + 1..];
        Index := Index + 1;
        ok := LexSomeDigits();
        return;
      }
      return true;
    }

    /** An optional exponent; `ok` is false where the code throws. */
    method LexExponent() returns (ok: bool)
      requires Valid()
      modifies this`Index
      ensures Valid() && old(Index) <= Index
      ensures SkipExponent(old(Rest())) == if ok then Some(Rest()) else None
    {
      if Index < |Source| && (Source[Index] == 101 || Source[Index] == 69) {
        assert Rest()[1..] == Source[Index + 1..];
        assert |Rest()| > 1 ==> Rest()[2..] == Source[Index + 2..];
        Index := Index + 1;
        if Index < |Source| && (Source[Index] == 43 || Source[Index] == MINUS) {
          Index := Index + 1;
        }
        ok := LexSomeDigits();
        return;
      }
      return true;
    }

    method LexFractionAndExponent() returns (ok: bool)
      requires Valid()
      modifies this`Index
      ensures Valid() && old(Index) <= Index
      ensures SkipFractionAndExponent(old(Rest())) == if ok then Some(Rest()) else None
    {
      ok := LexFraction();
      if ok {
        ok := LexExponent();
      }
    }

    /** The unsigned part of a numeral at `Index`; `ok` is false where the code throws. */
    method LexUnsigned() returns (ok: bool)
      requires Valid() && Rest() != [] && IsDigit(Rest()[0])
      modifies this`Index
      ensures Valid() && old(Index) <= Index
      ensures Unsigned(old(Rest())) == if ok then Some(Rest()) else None
    {
      ghost var t := Rest();
      if Source[Index] == ZERO && Index + 1 < |Source| && IsDigit(Source[Index + 1]) {
        assert t[1] == Source[Index + 1];
        return false;
      }
      assert |t| > 1 ==> t[1] == Source[Index + 1];
      Index := SkipDigits(Index);
      assert t[DigitRun(t)..] == Rest();
      ok := LexFractionAndExponent();
    }

    /** A numeric token; `Index` is at its first character. */
    method LexNumberToken() returns (tok: Option<Token>)
      requires Valid() && StartsNumber(Rest())
      modifies this
      ensures match LexNumber(old(Rest()))
        case Abort => tok == None && Reset()
        case Lexed(t, rest) => tok == Some(t) && Source == old(Source) && Valid() && Rest() == rest
    {
      ghost var s := Rest();
      ghost var begin := Index;
      var isSigned := Source[Index] == MINUS;
      if isSigned {
        assert s[1..] == Source[Index + 1..];
        Index := Index + 1;
      }
      var first := Index;
      ghost var u := Rest();
      var ok := LexUnsigned();
      if !ok {
        LexNumberFails(s, u);
        Abort();
        return None;
      }
      LexNumberAt(Source, begin, first, Index);
      tok := Some(Numeral(NumeralOf(isSigned, Source[first..Index])));
    }

    /** `true`, `false` or `null` at `Index`. */
    method LexLiteralToken() returns (tok: Option<Token>)
      requires Valid()
      modifies this
      ensures match LexLiteral(old(Rest()))
        case Abort => tok == None && Reset()
        case Lexed(t, rest) => tok == Some(t) && Source == old(Source) && Valid() && Rest() == rest
    {
      if TRUE_TEXT <= Source[Index..] {
        Index := Index + 4;
        return Some(Literal(true));
      } else if FALSE_TEXT <= Source[Index..] {
        Index := Index + 5;
        return Some(Literal(false));
      } else if NULL_TEXT <= Source[Index..] {
        Index := Index + 4;
        return Some(NullTok);
      }
      Abort();
      return None;
    }

    /** The token at `Index`, where there is no white space. */
    method LexToken() returns (tok: Option<Token>)
      requires Valid() && Rest() != []
      modifies this
      ensures match Json3.LexToken(old(Rest()))
        case Abort => tok == None && Reset()
        case Lexed(t, rest) => tok == Some(t) && Source == old(Source) && Valid() && Rest() == rest
    {
      var c := Source[Index];
      assert Rest()[0] == c && Rest()[1..] == Source[Index + 1..];
      if IsPunct(c) {
        Index := Index + 1;
        return Some(Punct(c));
      } else if c == QUOTE {
        Index := Index + 1;
        tok := LexStringToken();
      } else if IsDigit(c) || (c == MINUS && Index + 1 < |Source| && IsDigit(Source[Index + 1])) {
        tok := LexNumberToken();
      } else if c == MINUS {
        Abort();
        return None;
      } else {
        tok := LexLiteralToken();
      }
    }

    method Lex() returns (tok: Option<Token>)
      requires Valid()
      modifies this
      ensures match Json3.Lex(old(Rest()))
        case Abort => tok == None && Reset()
        case Lexed(t, rest) => tok == Some(t) && Source == old(Source) && Valid() && Rest() == rest
    {
      ghost var expected := Json3.Lex(Rest());
      while Index < |Source|
        invariant Source == old(Source) && Valid()
        invariant Json3.Lex(Rest()) == expected
      {
        assert Rest()[0] == Source[Index] && Rest()[1..] == Source[Index + 1..];
        if IsSpace(Source[Index]) {
          Index := Index + 1;
        } else {
          assert expected == Json3.LexToken(Rest());
          tok := LexToken();
          return;
        }
      }
      return Some(End);
    }

    /** `get`: the value that starts with the token `tok`. */
    method Get(tok: Token) returns (value: Option<Value>)
      requires Valid()
      modifies this
      ensures match Json3.Get(tok, old(Rest()))
        case SyntaxError => value == None && Reset()
        case Parsed(v, rest) => value == Some(v) && Source == old(Source) && Valid() && Rest() == rest
      decreases |Source| - Index, 1
    {
      match tok {
        case Text(t) => return Some(String(t));
        case Numeral(n) => return Some(Num(n));
        case Literal(b) => return Some(Bool(b));
        case NullTok => return Some(Null);
        case End =>
          Abort();
          return None;
        case Punct(c) =>
          if c == LBRACKET {
            value := GetItems();
          } else if c == LBRACE {
            value := GetMembers();
          } else {
            Abort();
            return None;
          }
      }
    }

    method GetItems() returns (value: Option<Value>)
      requires Valid()
      modifies this
      ensures match Json3.GetItems(old(Rest()), [], false)
        case SyntaxError => value == None && Reset()
        case Parsed(v, rest) => value == Some(v) && Source == old(Source) && Valid() && Rest() == rest
      decreases |Source| - Index, 0
    {
      ghost var expected := Json3.GetItems(Rest(), [], false);
      var results: seq<Value> := [];
      var hasMembers := false;
      while true
        invariant Source == old(Source) && Valid() && old(Index) <= Index
        invariant Json3.GetItems(Rest(), results, hasMembers) == expected
        decreases |Source| - Index
      {
        var tok := Lex();
        if tok.None? {
          return None;
        }
        if tok.value == Punct(RBRACKET) {
          return Some(Arr(results));
        }
        if hasMembers {
          if tok.value != Punct(COMMA) {
            Abort();
            return None;
          }
          tok := Lex();
          if tok.None? {
            return None;
          }
          if tok.value == Punct(RBRACKET) {
            Abort();
            return None;
          }
        }
        if tok.value == Punct(COMMA) || tok.value.End? {
          Abort();
          return None;
        }
        var item := Get(tok.value);
        if item.None? {
          return None;
        }
        results := results + [item.value];
        hasMembers := true;
      }
    }

    method GetMembers() returns (value: Option<Value>)
      requires Valid()
      modifies this
      ensures match Json3.GetMembers(old(Rest()), map[], false)
        case SyntaxError => value == None && Reset()
        case Parsed(v, rest) => value == Some(v) && Source == old(Source) && Valid() && Rest() == rest
      decreases |Source| - Index, 0
    {
      ghost var expected := Json3.GetMembers(Rest(), map[], false);
      var results: map<Str, Value> := map[];
      var hasMembers := false;
      while true
        invariant Source == old(Source) && Valid() && old(Index) <= Index
        invariant Json3.GetMembers(Rest(), results, hasMembers) == expected
        decreases |Source| - Index
      {
        var tok := Lex();
        if tok.None? {
          return None;
        }
        if tok.value == Punct(RBRACE) {
          return Some(Obj(results));
        }
        if hasMembers {
          if tok.value != Punct(COMMA) {
            Abort();
            return None;
          }
          tok := Lex();
          if tok.None? {
            return None;
          }
          if tok.value == Punct(RBRACE) {
            Abort();
            return None;
          }
        }
        if !tok.value.Text? {
          Abort();
          return None;
        }
        var key := tok.value.s;
        var colon := Lex();
        if colon != Some(Punct(COLON)) {
          Abort();
          return None;
        }
        var item := GetNext();
        if item.None? {
          return None;
        }
        results := Assign(results, key, item.value);
        hasMembers := true;
      }
    }

    /** `get(lex())`. */
    method GetNext() returns (value: Option<Value>)
      requires Valid()
      modifies this
      ensures match Json3.GetNext(old(Rest()))
        case SyntaxError => value == None && Reset()
        case Parsed(v, rest) => value == Some(v) && Source == old(Source) && Valid() && Rest() == rest
      decreases |Source| - Index, 0
    {
      var tok := Lex();
      if tok.None? || tok.value.End? {
        Abort();
        return None;
      }
      value := Get(tok.value);
    }
  }

  /** `JSON.parse`. */
  method Parse(source: Str) returns (value: Option<Value>)
    ensures value == Json3.Parse(source)
  {
    var reader := new Reader(source);
    value := reader.GetNext();
    if value.Some? {
      var tok := reader.Lex();
      if tok != Some(End) {
        value := None;
      }
    }
  }
}
