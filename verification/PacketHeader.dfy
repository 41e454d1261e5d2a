/** The text form of a socket.io packet: type, attachment count, namespace, id and JSON text.
    `Encode` is `encodeAsString`, `DecodeString` is `decodeString`, with the JSON text uninterpreted. */
module PacketHeader {
  import opened Text

  /** 0 CONNECT, 1 DISCONNECT, 2 EVENT, 3 ACK, 4 ERROR, 5 BINARY_EVENT, 6 BINARY_ACK */
  type Kind = k: nat | k <= 6

  const BINARY_EVENT: Kind := 5
  const BINARY_ACK: Kind := 6

  const ROOT: Str := [SLASH]

  predicate IsBinary(kind: Kind) {
    kind == BINARY_EVENT || kind == BINARY_ACK
  }

  /** A packet about to be printed; `attachments` is printed for the binary types only. */
  datatype Outgoing = Outgoing(kind: Kind, attachments: nat, nsp: Str, id: Option<nat>, data: Option<Str>)

  /** What `decodeString` gives: a packet, the `parser error` packet, or a thrown error. */
  datatype Incoming =
    | Incoming(kind: Kind, attachments: Option<JsNumber>, nsp: Str, id: Option<JsNumber>, data: Option<Str>)
    | ParserError
    | IllegalAttachments

  // ---------------------------------------------------------------- encodeAsString

  function PrintsNsp(p: Outgoing): bool {
    p.nsp != [] && p.nsp != ROOT
  }

  function IdText(id: Option<nat>): Str {
    match id
    case None => []
    case Some(n) => Decimal(n)
  }

  function DataText(data: Option<Str>): Str {
    data.GetOr([])
  }

  function AttachmentsText(p: Outgoing): Str {
    if IsBinary(p.kind) then Decimal(p.attachments) + [MINUS] else []
  }

  function NspText(p: Outgoing): Str {
    if PrintsNsp(p) then p.nsp + (if p.id.Some? || p.data.Some? then [COMMA] else []) else []
  }

  function Encode(p: Outgoing): Str {
    [48 + p.kind] + (AttachmentsText(p) + (NspText(p) + (IdText(p.id) + DataText(p.data))))
  }

  // ---------------------------------------------------------------- decodeString

  /** `Number(c) == c` for one character. */
  predicate NumberLike(c: CodeUnit) {
    IsDigit(c) || IsBlank(c)
  }

  function IndexOf(s: Str, c: CodeUnit): (k: nat)
    ensures k <= |s| && c !in s[..k] && (k < |s| ==> s[k] == c)
  {
    if s == [] || s[0] == c then 0
    else
      var k := 1 + IndexOf(s[1..], c);
      assert s[..k] == [s[0]] + s[1..][..k - 1];
      k
  }

  function NumberRun(s: Str): (k: nat)
    ensures k <= |s| && (forall i | 0 <= i < k :: NumberLike(s[i])) && (k < |s| ==> !NumberLike(s[k]))
  {
    if s != [] && NumberLike(s[0]) then 1 + NumberRun(s[1..]) else 0
  }

  /** `Number(c)` as a packet type; no text, a blank and `0` all mean CONNECT. */
  function DecodeKind(s: Str): Option<Kind> {
    if s == [] || IsBlank(s[0]) then Some(0)
    else if IsDigit(s[0]) && s[0] <= 54 then Some(s[0] - 48)
    else None
  }

  /** The id and the data text, after the namespace. */
  function DecodeIdAndData(s: Str): (Option<JsNumber>, Option<Str>) {
    var k := NumberRun(s);
    (if k == 0 then None else Some(ToNumber(s[..k])), if k == |s| then None else Some(s[k..]))
  }

  /** The namespace and the text after it. */
  function DecodeNsp(s: Str): (Str, Str) {
    if s != [] && s[0] == SLASH then
      var k := IndexOf(s, COMMA);
      (s[..k], if k == |s| then [] else s[k + 1..])
    else (ROOT, s)
  }

  function DecodeBody(kind: Kind, attachments: Option<JsNumber>, s: Str): Incoming {
    var (nsp, rest) := DecodeNsp(s);
    var (id, data) := DecodeIdAndData(rest);
    Incoming(kind, attachments, nsp, id, data)
  }

  function Decode(s: Str): Incoming {
    match DecodeKind(s)
    case None => ParserError
    case Some(kind) =>
      var rest := if s == [] then [] else s[1..];
      if !IsBinary(kind) then DecodeBody(kind, None, rest)
      else
        var k := IndexOf(rest, MINUS);
        var count := ToNumber(rest[..k]);
        if count.NaN? || k == |rest| then IllegalAttachments
        else DecodeBody(kind, Some(count), rest[k + 1..])
  }

  /** The characters from position `from` up to the first `stop` or the end of the text. */
  method ScanUntil(str: Str, from: nat, stop: CodeUnit) returns (buf: Str, i: nat)
    requires from <= |str|
    ensures i == from + IndexOf(str[from..], stop)
    ensures buf == str[from..][..i - from] && str[from..][i - from..] == str[i..]
  {
    i, buf := from, [];
    while i < |str| && str[i] != stop
      invariant from <= i <= |str| && buf == str[from..i] && stop !in buf
    {
      buf := buf + [str[i]];
      i := i + 1;
    }
    SliceOfRest(str, from, i);
    IndexOfIs(str[from..], stop, i - from);
  }

  /** The characters from position `from` on that `Number` accepts one by one. */
  method ScanNumber(str: Str, from: nat) returns (buf: Str, i: nat)
    requires from <= |str|
    ensures i == from + NumberRun(str[from..])
    ensures buf == str[from..][..i - from] && str[from..][i - from..] == str[i..]
  {
    i, buf := from, [];
    while i < |str| && NumberLike(str[i])
      invariant from <= i <= |str| && buf == str[from..i]
      invariant forall j | from <= j < i :: NumberLike(str[j])
    {
      buf := buf + [str[i]];
      i := i + 1;
    }
    SliceOfRest(str, from, i);
    NumberRunIs(str[from..], i - from);
  }

  /** The part of `decodeString` after the attachment count; `from` is the next position to read. */
  method DecodeBodyAt(str: Str, from: nat, kind: Kind, attachments: Option<JsNumber>) returns (p: Incoming)
    requires from <= |str|
    ensures p == DecodeBody(kind, attachments, str[from..])
  {
    var i, nsp := from, ROOT;
    if i < |str| && str[i] == SLASH {
      nsp, i := ScanUntil(str, i, COMMA);
      assert i < |str| ==> str[from..][i - from + 1..] == str[i + 1..];
      i := if i == |str| then i else i + 1;
    }
    assert DecodeNsp(str[from..]) == (nsp, str[i..]);
    var id, data := DecodeIdAndDataAt(str, i);
    p := Incoming(kind, attachments, nsp, id, data);
  }

  method DecodeIdAndDataAt(str: Str, from: nat) returns (id: Option<JsNumber>, data: Option<Str>)
    requires from <= |str|
    ensures (id, data) == DecodeIdAndData(str[from..])
  {
    var text, j := ScanNumber(str, from);
    id := if j == from then None else Some(ToNumber(text));
    data := if j < |str| then Some(str[j..]) else None;
  }

  /** `decodeString`, which walks over the text with one index. */
  method DecodeString(str: Str) returns (p: Incoming)
    ensures p == Decode(str)
  {
    var kind := DecodeKind(str);
    if kind.None? {
      return ParserError;
    }
    var i := if str == [] then 0 else 1;
    if !IsBinary(kind.value) {
      p := DecodeBodyAt(str, i, kind.value, None);
    } else {
      var buf;
      buf, i := ScanUntil(str, i, MINUS);
      var count := ToNumber(buf);
      if count.NaN? || i == |str| {
        return IllegalAttachments;
      }
      assert str[1..][i - 1 + 1..] == str[i + 1..];
      p := DecodeBodyAt(str, i + 1, kind.value, Some(count));
    }
  }

  lemma {:induction false} IndexOfIs(s: Str, c: CodeUnit, k: nat)
    requires k <= |s| && c !in s[..k] && (k < |s| ==> s[k] == c)
    ensures IndexOf(s, c) == k
  {
    if k > 0 {
      assert s[0] == s[..k][0];
      assert s[1..][..k - 1] == s[..k][1..];
      IndexOfIs(s[1..], c, k - 1);
    }
  }

  lemma {:induction false} NumberRunIs(s: Str, k: nat)
    requires k <= |s| && (forall i | 0 <= i < k :: NumberLike(s[i])) && (k < |s| ==> !NumberLike(s[k]))
    ensures NumberRun(s) == k
  {
    if k > 0 {
      NumberRunIs(s[1..], k - 1);
    }
  }

  // ---------------------------------------------------------------- round trip

  /** The packet as the other side should see it. */
  function Expected(p: Outgoing): Incoming {
    Incoming(p.kind, if IsBinary(p.kind) then Some(Nat(p.attachments)) else None, p.nsp,
             match p.id { case None => None case Some(n) => Some(Nat(n)) }, p.data)
  }

  predicate DataIsSafe(data: Option<Str>) {
    data.None? || (data.value != [] && !NumberLike(data.value[0]))
  }

  predicate NspIsSafe(nsp: Str) { nsp != [] && nsp[0] == SLASH && COMMA !in nsp }

  /** A namespace that starts with a slash and has no comma, and a data text that does not read as
      an id, nor as a namespace when neither namespace nor id is printed before it. */
  predicate HeaderIsSafe(p: Outgoing) {
    && NspIsSafe(p.nsp) && DataIsSafe(p.data)
    && (p.data.Some? && p.data.value[0] == SLASH ==> p.nsp != ROOT || p.id.Some?)
  }

  lemma IdAndDataRoundTrip(id: Option<nat>, data: Option<Str>)
    ensures DecodeIdAndData(IdText(id) + DataText(data))
         == (match id { case None => None case Some(n) => Some(Nat(n)) }, data)
      <==> DataIsSafe(data)
  {
    var digits, text := IdText(id), DataText(data);
    var s := digits + text;
    var k := NumberRun(s);
    if text == [] || !NumberLike(text[0]) {
      NumberRunIs(s, |digits|);
      assert s[..|digits|] == digits && s[|digits|..] == text;
      if id.Some? {
        DecimalIsItsNumber(id.value);
      }
    } else {
      assert k < |s| ==> !NumberLike(s[k]);
      assert |s[k..]| < |text|;
    }
  }

  lemma NspRoundTrip(p: Outgoing)
    requires NspIsSafe(p.nsp)
    requires p.nsp == ROOT && p.id.None? && p.data.Some? && p.data.value != [] ==> p.data.value[0] != SLASH
    ensures DecodeNsp(NspText(p) + (IdText(p.id) + DataText(p.data))) == (p.nsp, IdText(p.id) + DataText(p.data))
  {
    var rest := IdText(p.id) + DataText(p.data);
    var s := NspText(p) + rest;
    if p.nsp == ROOT {
      assert s == rest;
    } else {
      assert s[..|p.nsp|] == p.nsp;
      IndexOfIs(s, COMMA, |p.nsp|);
      if p.id.Some? || p.data.Some? {
        assert s[|p.nsp| + 1..] == rest;
      }
    }
  }

  /** A namespace that does not come back. */
  lemma NspIsLost(p: Outgoing, rest: Str)
    requires !NspIsSafe(p.nsp)
    ensures DecodeNsp(NspText(p) + rest).0 != p.nsp
  {
    DecodedNspIsSafe(NspText(p) + rest);
  }

  lemma DecodedNspIsSafe(s: Str)
    ensures NspIsSafe(DecodeNsp(s).0)
  {
    if s != [] && s[0] == SLASH {
      assert s[..IndexOf(s, COMMA)][0] == SLASH;
    }
  }

  lemma BodyRoundTrip(p: Outgoing)
    ensures var s := NspText(p) + (IdText(p.id) + DataText(p.data));
      DecodeBody(p.kind, Expected(p).attachments, s) == Expected(p) <==> HeaderIsSafe(p)
  {
    var rest := IdText(p.id) + DataText(p.data);
    IdAndDataRoundTrip(p.id, p.data);
    if !NspIsSafe(p.nsp) {
      NspIsLost(p, rest);
    } else if p.nsp == ROOT && p.id.None? && p.data.Some? && p.data.value != [] && p.data.value[0] == SLASH {
      // the data text is taken for the namespace, and what is left is shorter
      assert NspText(p) + rest == p.data.value;
      assert |DecodeNsp(p.data.value).1| < |p.data.value|;
    } else {
      NspRoundTrip(p);
    }
  }

  function BodyText(p: Outgoing): Str { NspText(p) + (IdText(p.id) + DataText(p.data)) }

  lemma TextHeader(p: Outgoing)
    requires !IsBinary(p.kind)
    ensures Decode(Encode(p)) == DecodeBody(p.kind, None, BodyText(p))
  {
    assert Encode(p)[1..] == BodyText(p);
  }

  lemma CountThenBody(count: Str, body: Str)
    ensures var rest := count + [MINUS] + body;
      rest[..|count|] == count && rest[|count|] == MINUS && rest[|count| + 1..] == body
  {
  }

  /** The count of attachments is read back. */
  lemma BinaryHeader(p: Outgoing)
    requires IsBinary(p.kind)
    ensures Decode(Encode(p)) == DecodeBody(p.kind, Some(Nat(p.attachments)), BodyText(p))
  {
    DecimalIsItsNumber(p.attachments);
    DecodeCount(p.kind, Decimal(p.attachments), p.attachments, BodyText(p));
  }

  lemma DecodeCount(kind: Kind, count: Str, n: nat, body: Str)
    requires IsBinary(kind) && MINUS !in count && ToNumber(count) == Nat(n)
    ensures Decode([48 + kind] + (count + [MINUS] + body)) == DecodeBody(kind, Some(Nat(n)), body)
  {
    var rest := count + [MINUS] + body;
    CountThenBody(count, body);
    IndexOfIs(rest, MINUS, |count|);
    var s := [48 + kind] + rest;
    assert s[0] == 48 + kind && DecodeKind(s) == Some(kind) && s[1..] == rest;
  }

  /** The header comes back unchanged exactly when it is safe. */
  lemma HeaderRoundTrip(p: Outgoing)
    ensures Decode(Encode(p)) == Expected(p) <==> HeaderIsSafe(p)
  {
    if IsBinary(p.kind) {
      BinaryHeader(p);
    } else {
      TextHeader(p);
    }
    BodyRoundTrip(p);
  }
}
