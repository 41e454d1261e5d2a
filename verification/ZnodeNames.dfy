/** Sequential znodes: the server appends a counter, printed with ten digits, to a prefix. Clients sort
    the names as strings and take them for an order of arrival, which holds while the counter fits. Both
    recipes share this, the own name that follows the last slash of a path, and the predecessor in a
    listing. */
module ZnodeNames {
  import opened Text

  /** `String.compareTo(...) < 0` */
  predicate LexLess(a: Str, b: Str) {
    if b == [] then false
    else if a == [] then true
    else if a[0] != b[0] then a[0] < b[0]
    else LexLess(a[1..], b[1..])
  }

  const WIDTH := 10

  /** The last `w` decimal digits of `n`. */
  function Padded(n: nat, w: nat): (s: Str)
    ensures |s| == w && AllDigits(s)
  {
    if w == 0 then [] else Padded(n / 10, w - 1) + [48 + n % 10]
  }

  function Name(prefix: Str, n: nat): Str { prefix + Padded(n, WIDTH) }

  /** `path.substring(path.lastIndexOf("/") + 1)` */
  function ShortName(path: Str): Str {
    if SLASH !in path then path else ShortName(path[1..])
  }

  // ---------------------------------------------------------------- string order is number order

  lemma {:induction false} LexOfCommonPrefix(p: Str, a: Str, b: Str)
    ensures LexLess(p + a, p + b) <==> LexLess(a, b)
  {
    if p == [] {
      assert p + a == a && p + b == b;
    } else {
      assert (p + a)[1..] == p[1..] + a && (p + b)[1..] == p[1..] + b;
      LexOfCommonPrefix(p[1..], a, b);
    }
  }

  lemma {:induction false} LexOfLastDigit(a: Str, b: Str, c: CodeUnit, d: CodeUnit)
    requires |a| == |b|
    ensures LexLess(a + [c], b + [d]) <==> LexLess(a, b) || (a == b && c < d)
  {
    if a != [] {
      assert (a + [c])[1..] == a[1..] + [c] && (b + [d])[1..] == b[1..] + [d];
      assert (a + [c])[0] == a[0] && (b + [d])[0] == b[0];
      LexOfLastDigit(a[1..], b[1..], c, d);
      assert a == [a[0]] + a[1..] && b == [b[0]] + b[1..];
    }
  }

  lemma {:induction false} LexIsIrreflexive(a: Str)
    ensures !LexLess(a, a)
  {
    if a != [] {
      LexIsIrreflexive(a[1..]);
    }
  }

  lemma {:induction false} PaddedOrder(m: nat, n: nat, w: nat)
    requires m < Power10(w) && n < Power10(w)
    ensures LexLess(Padded(m, w), Padded(n, w)) <==> m < n
    ensures Padded(m, w) == Padded(n, w) <==> m == n
  {
    if w > 0 {
      PaddedOrder(m / 10, n / 10, w - 1);
      LexOfLastDigit(Padded(m / 10, w - 1), Padded(n / 10, w - 1), 48 + m % 10, 48 + n % 10);
      var a, b := Padded(m, w), Padded(n, w);
      assert a[..w - 1] == Padded(m / 10, w - 1) && b[..w - 1] == Padded(n / 10, w - 1);
      assert a[w - 1] == 48 + m % 10 && b[w - 1] == 48 + n % 10;
    }
  }

  function Zeros(k: nat): Str { seq(k, _ => '0' as int) }

  lemma {:induction false} PaddedIsDecimal(n: nat, w: nat)
    requires w > 0 && n < Power10(w)
    ensures |Decimal(n)| <= w && Padded(n, w) == Zeros(w - |Decimal(n)|) + Decimal(n)
    decreases w
  {
    if n >= 10 {
      assert w > 1 by { assert Power10(1) == 10; }
      PaddedIsDecimal(n / 10, w - 1);
    } else {
      PaddedDigit(n, w);
    }
  }

  lemma {:induction false} PaddedDigit(n: nat, w: nat)
    requires w > 0 && n < 10
    ensures Padded(n, w) == Zeros(w - 1) + [48 + n]
    decreases w
  {
    if w > 1 {
      PaddedDigit(0, w - 1);
      assert Zeros(w - 2) + [48] == Zeros(w - 1);
    }
  }

  /** The server prints the counter in base ten with zeros before it, ten digits in all. */
  lemma NameHasTenDigits(prefix: Str, n: nat)
    requires n < 10000000000
    ensures |Decimal(n)| <= 10 && Name(prefix, n) == prefix + (Zeros(10 - |Decimal(n)|) + Decimal(n))
    ensures Power10(WIDTH) == 10000000000
  {
    assert Power10(5) == 100000;
    assert Power10(10) == 10000000000;
    PaddedIsDecimal(n, 10);
  }

  /** The order of names is the order in which the server handed out the numbers, until the counter
      no longer fits the fixed width. */
  lemma NameOrder(prefix: Str, m: nat, n: nat)
    requires m < Power10(WIDTH) && n < Power10(WIDTH)
    ensures LexLess(Name(prefix, m), Name(prefix, n)) <==> m < n
    ensures Name(prefix, m) == Name(prefix, n) <==> m == n
  {
    LexOfCommonPrefix(prefix, Padded(m, WIDTH), Padded(n, WIDTH));
    PaddedOrder(m, n, WIDTH);
    assert Name(prefix, m)[|prefix|..] == Padded(m, WIDTH) && Name(prefix, n)[|prefix|..] == Padded(n, WIDTH);
  }

  lemma {:induction false} ShortNameOfPath(root: Str, name: Str)
    requires SLASH !in name
    ensures ShortName(root + [SLASH] + name) == name
  {
    var path := root + [SLASH] + name;
    assert path[|root|] == SLASH;
    if root == [] {
      assert path[1..] == name;
    } else {
      assert path[1..] == root[1..] + [SLASH] + name;
      ShortNameOfPath(root[1..], name);
    }
  }

  lemma NameHasNoSlash(prefix: Str, n: nat)
    requires SLASH !in prefix
    ensures SLASH !in Name(prefix, n)
  {
    var s := Padded(n, WIDTH);
    assert forall i | 0 <= i < |s| :: IsDigit(s[i]);
  }

  // ---------------------------------------------------------------- a listing of children

  /** The names of `numbers`, sorted as strings; numbers are not handed out twice. */
  ghost predicate SortedListing(listing: seq<Str>, prefix: Str, numbers: seq<nat>) {
    && |listing| == |numbers|
    && (forall i :: 0 <= i < |numbers| ==> numbers[i] < Power10(WIDTH) && listing[i] == Name(prefix, numbers[i]))
    && (forall i, j :: 0 <= i < j < |numbers| ==> numbers[i] != numbers[j])
    && (forall i, j :: 0 <= i < j < |listing| ==> !LexLess(listing[j], listing[i]))
  }

  lemma SortedNamesAreSortedNumbers(listing: seq<Str>, prefix: Str, numbers: seq<nat>)
    requires SortedListing(listing, prefix, numbers)
    ensures Increasing(numbers)
  {
    forall i, j | 0 <= i < j < |numbers| ensures numbers[i] < numbers[j] {
      NameOrder(prefix, numbers[j], numbers[i]);
    }
  }

  ghost predicate Increasing(numbers: seq<nat>) { forall i, j :: 0 <= i < j < |numbers| ==> numbers[i] < numbers[j] }

  ghost function Elements(numbers: seq<nat>): set<nat> { set n | n in numbers }

  // ---------------------------------------------------------------- the predecessor

  ghost predicate IsLeast(nodes: set<nat>, n: nat) {
    forall m :: m in nodes ==> n <= m
  }

  /** `p` is the greatest number below `n`. */
  ghost predicate IsPredecessor(nodes: set<nat>, n: nat, p: nat) {
    p in nodes && p < n && forall m :: m in nodes && m < n ==> m <= p
  }

  ghost function Greatest(s: set<nat>): (g: nat)
    requires s != {}
    ensures g in s && forall m :: m in s ==> m <= g
  {
    var x :| x in s;
    if s == {x} then x
    else
      var y := Greatest(s - {x});
      assert s == (s - {x}) + {x};
      if x < y then y else x
  }

  ghost function Predecessor(nodes: set<nat>, n: nat): (p: nat)
    requires !IsLeast(nodes, n)
    ensures IsPredecessor(nodes, n, p)
  {
    var below := set m | m in nodes && m < n;
    assert exists m :: m in nodes && m < n;
    var m :| m in nodes && m < n;
    assert m in below;
    assert forall k :: k in nodes && k < n ==> k in below;
    Greatest(below)
  }

  lemma PredecessorIsUnique(nodes: set<nat>, n: nat, p: nat)
    requires IsPredecessor(nodes, n, p)
    ensures !IsLeast(nodes, n) && Predecessor(nodes, n) == p
  {
  }
}
