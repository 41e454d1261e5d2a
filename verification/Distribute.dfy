/** `distribute`: places labels of given sizes on a line, each near its target, by merging overlapping
    labels into composites until no two composites overlap. */
module Distribute {
  import opened Text

  /** A label; `pos` stays absent on labels that do not fit. */
  datatype Box = Box(size: real, target: real, rank: Option<real>, pos: Option<real>)

  /** A composite of neighbouring labels. */
  datatype Composite = Composite(size: real, targets: seq<real>, pos: real)

  function Min(a: real, b: real): real {
    if a < b then a else b
  }

  function Max(a: real, b: real): real {
    if a < b then b else a
  }

  function Total(boxes: seq<Box>): real {
    if boxes == [] then 0.0 else boxes[0].size + Total(boxes[1..])
  }

  predicate NonNegative(boxes: seq<Box>) {
    forall i | 0 <= i < |boxes| :: boxes[i].size >= 0.0
  }

  // ---------------------------------------------------------------- stableSort

  predicate SortedBy(boxes: seq<Box>, key: Box -> real) {
    forall i, j | 0 <= i < j < |boxes| :: key(boxes[i]) <= key(boxes[j])
  }

  /** `b` before every box whose key is not smaller. */
  function Insert(b: Box, boxes: seq<Box>, key: Box -> real): seq<Box> {
    if boxes == [] || key(b) <= key(boxes[0]) then [b] + boxes
    else [boxes[0]] + Insert(b, boxes[1..], key)
  }

  /** The sorted order in which boxes with equal keys keep their order. */
  function StableSort(boxes: seq<Box>, key: Box -> real): seq<Box> {
    if boxes == [] then [] else Insert(boxes[0], StableSort(boxes[1..], key), key)
  }

  function WithKey(boxes: seq<Box>, key: Box -> real, k: real): seq<Box> {
    if boxes == [] then [] else (if key(boxes[0]) == k then [boxes[0]] else []) + WithKey(boxes[1..], key, k)
  }

  lemma {:induction false} InsertPermutes(b: Box, boxes: seq<Box>, key: Box -> real)
    ensures multiset(Insert(b, boxes, key)) == multiset{b} + multiset(boxes)
  {
    if boxes != [] {
      assert boxes == [boxes[0]] + boxes[1..];
      if key(b) > key(boxes[0]) {
        InsertPermutes(b, boxes[1..], key);
      }
    }
  }

  lemma {:induction false} InsertSorts(b: Box, boxes: seq<Box>, key: Box -> real)
    requires SortedBy(boxes, key)
    ensures SortedBy(Insert(b, boxes, key), key)
  {
    if boxes != [] && key(b) > key(boxes[0]) {
      InsertSorts(b, boxes[1..], key);
      InsertPermutes(b, boxes[1..], key);
      var rest := Insert(b, boxes[1..], key);
      forall j | 0 <= j < |rest| ensures key(boxes[0]) <= key(rest[j]) {
        assert rest[j] in multiset(rest);
        assert rest[j] == b || rest[j] in boxes[1..];
      }
    }
  }

  lemma {:induction false} InsertIsStable(b: Box, boxes: seq<Box>, key: Box -> real, k: real)
    ensures WithKey(Insert(b, boxes, key), key, k) == (if key(b) == k then [b] else []) + WithKey(boxes, key, k)
  {
    if boxes != [] && key(b) > key(boxes[0]) {
      InsertIsStable(b, boxes[1..], key, k);
      var head := if key(boxes[0]) == k then [boxes[0]] else [];
      assert Insert(b, boxes, key)[1..] == Insert(b, boxes[1..], key);
      assert key(b) == k ==> head == [];
    } else {
      assert Insert(b, boxes, key)[1..] == boxes;
    }
  }

  lemma {:induction false} StableSortSorts(boxes: seq<Box>, key: Box -> real)
    ensures SortedBy(StableSort(boxes, key), key) && multiset(StableSort(boxes, key)) == multiset(boxes)
  {
    if boxes != [] {
      StableSortSorts(boxes[1..], key);
      InsertSorts(boxes[0], StableSort(boxes[1..], key), key);
      InsertPermutes(boxes[0], StableSort(boxes[1..], key), key);
      assert boxes == [boxes[0]] + boxes[1..];
    }
  }

  /** Boxes with the same key keep their order. */
  lemma {:induction false} StableSortIsStable(boxes: seq<Box>, key: Box -> real, k: real)
    ensures WithKey(StableSort(boxes, key), key, k) == WithKey(boxes, key, k)
  {
    if boxes != [] {
      StableSortIsStable(boxes[1..], key, k);
      InsertIsStable(boxes[0], StableSort(boxes[1..], key), key, k);
    }
  }

  function ByTarget(b: Box): real {
    b.target
  }

  /** `(b.rank || 0) - (a.rank || 0)`: greater ranks first. */
  function ByRank(b: Box): real {
    -b.rank.GetOr(0.0)
  }

  // ---------------------------------------------------------------- which labels are kept

  /** The number of labels after which the sizes exceed `len`; none are needed for a negative `len`. */
  function Excess(boxes: seq<Box>, len: real): (d: nat)
    requires Total(boxes) > len
    ensures d <= |boxes| && (d == 0 <==> len < 0.0)
  {
    if len < 0.0 then 0
    else if boxes[0].size > len then 1
    else 1 + Excess(boxes[1..], len - boxes[0].size)
  }

  /** Where `splice(d - 1, ...)` cuts a list of `n`: an index of -1 counts from the end. */
  function CutAt(n: nat, d: nat): (k: nat)
    requires d <= n
    ensures k <= n
  {
    if d > 0 then d - 1 else if n > 0 then n - 1 else 0
  }

  function Kept(boxes: seq<Box>, len: real): seq<Box> {
    if Total(boxes) > len then
      var ranked := StableSort(boxes, ByRank);
      if Total(ranked) > len then ranked[..CutAt(|ranked|, Excess(ranked, len))] else ranked
    else boxes
  }

  function Dropped(boxes: seq<Box>, len: real): seq<Box> {
    if Total(boxes) > len then
      var ranked := StableSort(boxes, ByRank);
      if Total(ranked) > len then ranked[CutAt(|ranked|, Excess(ranked, len))..] else []
    else []
  }

  // ---------------------------------------------------------------- composites

  function Single(b: Box): Composite {
    Composite(b.size, [b.target], 0.0)
  }

  function Singles(boxes: seq<Box>): (cs: seq<Composite>)
    ensures |cs| == |boxes|
  {
    if boxes == [] then [] else [Single(boxes[0])] + Singles(boxes[1..])
  }

  function MinOf(s: seq<real>): real
    requires s != []
  {
    if |s| == 1 then s[0] else Min(s[0], MinOf(s[1..]))
  }

  function MaxOf(s: seq<real>): real
    requires s != []
  {
    if |s| == 1 then s[0] else Max(s[0], MaxOf(s[1..]))
  }

  /** A composite centred on its targets, as far as the line allows. */
  function Centred(c: Composite, len: real): Composite {
    if c.targets == [] then c
    else
      var middle := (MinOf(c.targets) + MaxOf(c.targets)) / 2.0;
      c.(pos := Min(Max(0.0, middle - c.size / 2.0), len - c.size))
  }

  function CentredAll(cs: seq<Composite>, len: real): (r: seq<Composite>)
    ensures |r| == |cs|
  {
    if cs == [] then [] else [Centred(cs[0], len)] + CentredAll(cs[1..], len)
  }

  predicate Overlap(a: Composite, b: Composite) {
    a.pos + a.size > b.pos
  }

  function Merged(a: Composite, b: Composite, len: real): Composite {
    var size := a.size + b.size;
    Composite(size, a.targets + b.targets, if a.pos + size > len then len - size else a.pos)
  }

  /** One pass over the composites from index `d` down; each one that its left neighbour overlaps is
      merged into it. */
  function Pass(cs: seq<Composite>, d: nat, len: real): (r: seq<Composite>)
    requires d < |cs| || d == 0
    ensures |r| <= |cs|
    decreases d
  {
    if d == 0 then cs
    else if Overlap(cs[d - 1], cs[d]) then Pass(cs[..d - 1] + [Merged(cs[d - 1], cs[d], len)] + cs[d + 1..], d - 1, len)
    else Pass(cs, d - 1, len)
  }

  function LastIndex<T>(s: seq<T>): nat {
    if s == [] then 0 else |s| - 1
  }

  /** Centring and merging until nothing overlaps any more. */
  function Settle(cs: seq<Composite>, len: real): seq<Composite>
    decreases |cs|
  {
    var centred := CentredAll(cs, len);
    var passed := Pass(centred, LastIndex(cs), len);
    if |passed| < |cs| then Settle(passed, len) else passed
  }

  // ---------------------------------------------------------------- positions

  /** Labels side by side from `at` on. */
  function SideBySide(boxes: seq<Box>, at: real): (r: seq<Box>)
    ensures |r| == |boxes|
  {
    if boxes == [] then []
    else [boxes[0].(pos := Some(at))] + SideBySide(boxes[1..], at + boxes[0].size)
  }

  /** Each composite places as many labels as it has targets. */
  function PlaceAll(boxes: seq<Box>, cs: seq<Composite>): seq<Box>
    decreases |cs|
  {
    if cs == [] then boxes
    else
      var n := if |cs[0].targets| <= |boxes| then |cs[0].targets| else |boxes|;
      SideBySide(boxes[..n], cs[0].pos) + PlaceAll(boxes[n..], cs[1..])
  }

  /** The kept labels in target order, with their positions. */
  function Placed(boxes: seq<Box>, len: real): seq<Box>
  {
    var kept := StableSort(Kept(boxes, len), ByTarget);
    PlaceAll(kept, Settle(Singles(kept), len))
  }

  /** The whole of `distribute`. */
  function Distributed(boxes: seq<Box>, len: real): seq<Box>
  {
    StableSort(Placed(boxes, len) + Dropped(boxes, len), ByTarget)
  }

  // ---------------------------------------------------------------- the loops

  method Sum(boxes: seq<Box>) returns (p: real)
    ensures p == Total(boxes)
  {
    p := 0.0;
    var d := |boxes|;
    while d > 0
      invariant 0 <= d <= |boxes| && p == Total(boxes[d..])
    {
      d := d - 1;
      assert boxes[d..][0] == boxes[d] && boxes[d..][1..] == boxes[d + 1..];
      p := p + boxes[d].size;
    }
    assert boxes[0..] == boxes;
  }

  method CountExcess(boxes: seq<Box>, len: real) returns (d: nat)
    requires Total(boxes) > len
    ensures d == Excess(boxes, len)
  {
    var p := 0.0;
    d := 0;
    assert boxes[0..] == boxes;
    while p <= len
      invariant d <= |boxes|
      invariant p <= len ==> Total(boxes[d..]) > len - p && Excess(boxes, len) == d + Excess(boxes[d..], len - p)
      invariant p > len ==> d == Excess(boxes, len)
      decreases |boxes| - d
    {
      assert d < |boxes|;
      assert boxes[d..][0] == boxes[d] && boxes[d..][1..] == boxes[d + 1..];
      p := p + boxes[d].size;
      d := d + 1;
    }
  }

  method Centre(cs: seq<Composite>, len: real) returns (a: seq<Composite>)
    ensures a == CentredAll(cs, len)
  {
    a := cs;
    var d := |a|;
    assert CentredAll([], len) == [];
    while d > 0
      invariant 0 <= d <= |a| == |cs| && a[..d] == cs[..d] && a[d..] == CentredAll(cs[d..], len)
    {
      d := d - 1;
      assert cs[d..][0] == cs[d] && cs[d..][1..] == cs[d + 1..];
      a := a[d := Centred(a[d], len)];
      assert a[d..] == [a[d]] + a[d + 1..];
    }
    assert a[0..] == a && cs[0..] == cs;
  }

  method MergeOverlapping(cs: seq<Composite>, len: real) returns (a: seq<Composite>, merged: bool)
    ensures a == Pass(cs, LastIndex(cs), len)
    ensures merged <==> |a| < |cs|
  {
    a, merged := cs, false;
    var d := |a|;
    while d > 0
      invariant 0 <= d <= |a| <= |cs| && (merged <==> |a| < |cs|)
      invariant Pass(a, if d == 0 then 0 else d - 1, len) == Pass(cs, LastIndex(cs), len)
    {
      d := d - 1;
      if 0 < d && a[d - 1].pos + a[d - 1].size > a[d].pos {
        a := a[..d - 1] + [Merged(a[d - 1], a[d], len)] + a[d + 1..];
        merged := true;
      }
    }
  }

  /** The inner loop: the labels of one composite, the first of them at `at`. */
  method PlaceGroup(group: seq<Box>, at: real) returns (k: seq<Box>)
    ensures k == SideBySide(group, at)
  {
    k := [];
    var pos := at;
    assert group[0..] == group;
    for t := 0 to |group|
      invariant k + SideBySide(group[t..], pos) == SideBySide(group, at)
    {
      assert group[t..][0] == group[t] && group[t..][1..] == group[t + 1..];
      Assoc(k, [group[t].(pos := Some(pos))], SideBySide(group[t + 1..], pos + group[t].size));
      k := k + [group[t].(pos := Some(pos))];
      pos := pos + group[t].size;
    }
    assert k + [] == k;
  }

  lemma PlaceAllAt(boxes: seq<Box>, d: nat, a: seq<Composite>, i: nat, n: nat)
    requires d <= |boxes| && i < |a|
    requires n == if |a[i].targets| <= |boxes| - d then |a[i].targets| else |boxes| - d
    ensures PlaceAll(boxes[d..], a[i..])
      == SideBySide(boxes[d..d + n], a[i].pos) + PlaceAll(boxes[d + n..], a[i + 1..])
  {
    assert a[i..][0] == a[i] && a[i..][1..] == a[i + 1..];
    assert boxes[d..][..n] == boxes[d..d + n] && boxes[d..][n..] == boxes[d + n..];
  }

  /** The labels of composite `i`, which start at `d`. */
  method PlaceNext(boxes: seq<Box>, d: nat, a: seq<Composite>, i: nat, k: seq<Box>) returns (r: seq<Box>, e: nat)
    requires d <= |boxes| && i < |a|
    ensures e <= |boxes| && r + PlaceAll(boxes[e..], a[i + 1..]) == k + PlaceAll(boxes[d..], a[i..])
  {
    var n := if |a[i].targets| <= |boxes| - d then |a[i].targets| else |boxes| - d;
    PlaceAllAt(boxes, d, a, i, n);
    var group := PlaceGroup(boxes[d..d + n], a[i].pos);
    Assoc(k, group, PlaceAll(boxes[d + n..], a[i + 1..]));
    r, e := k + group, d + n;
  }

  method PlaceLabels(boxes: seq<Box>, a: seq<Composite>) returns (k: seq<Box>)
    ensures k == PlaceAll(boxes, a)
  {
    k := [];
    var d := 0;
    assert boxes[0..] == boxes && a[0..] == a;
    for i := 0 to |a|
      invariant 0 <= d <= |boxes| && k + PlaceAll(boxes[d..], a[i..]) == PlaceAll(boxes, a)
    {
      k, d := PlaceNext(boxes, d, a, i, k);
    }
    k := k + boxes[d..];
  }

  method DistributeBoxes(boxes: seq<Box>, len: real) returns (k: seq<Box>)
    ensures k == Distributed(boxes, len)
  {
    k := boxes;
    var e: seq<Box> := [];
    var total := Sum(boxes);
    if total > len {
      k := StableSort(k, ByRank);
      TotalOfSorted(boxes, ByRank);
      var d := CountExcess(k, len);
      var cut := CutAt(|k|, d);
      e := k[cut..];
      k := k[..cut];
    }
    k := StableSort(k, ByTarget);
    var a := Singles(k);
    var f := true;
    while f
      invariant f ==> Settle(a, len) == Settle(Singles(k), len)
      invariant !f ==> a == Settle(Singles(k), len)
      decreases |a|, f
    {
      a := Centre(a, len);
      a, f := MergeOverlapping(a, len);
    }
    k := PlaceLabels(k, a);
    k := k + e;
    k := StableSort(k, ByTarget);
  }

  // ---------------------------------------------------------------- sorting keeps the total

  lemma {:induction false} TotalOfInsert(b: Box, boxes: seq<Box>, key: Box -> real)
    ensures Total(Insert(b, boxes, key)) == b.size + Total(boxes)
  {
    if boxes != [] && key(b) > key(boxes[0]) {
      TotalOfInsert(b, boxes[1..], key);
    }
  }

  lemma {:induction false} TotalOfSorted(boxes: seq<Box>, key: Box -> real)
    ensures Total(StableSort(boxes, key)) == Total(boxes)
  {
    if boxes != [] {
      TotalOfSorted(boxes[1..], key);
      TotalOfInsert(boxes[0], StableSort(boxes[1..], key), key);
    }
  }

  lemma NonNegativeSorted(boxes: seq<Box>, key: Box -> real)
    requires NonNegative(boxes)
    ensures NonNegative(StableSort(boxes, key))
  {
    StableSortSorts(boxes, key);
    var sorted := StableSort(boxes, key);
    forall i | 0 <= i < |sorted| ensures sorted[i].size >= 0.0 {
      assert sorted[i] in multiset(sorted);
      assert sorted[i] in boxes;
    }
  }

  // ---------------------------------------------------------------- which labels are kept

  lemma {:induction false} ExcessIsFirst(boxes: seq<Box>, len: real)
    requires Total(boxes) > len >= 0.0
    ensures var d := Excess(boxes, len);
      Total(boxes[..d - 1]) <= len < Total(boxes[..d - 1]) + boxes[d - 1].size
  {
    var d := Excess(boxes, len);
    if boxes[0].size > len {
      assert boxes[..0] == [];
    } else {
      ExcessIsFirst(boxes[1..], len - boxes[0].size);
      assert boxes[..d - 1] == [boxes[0]] + boxes[1..][..d - 2];
    }
  }

  lemma KeptThenDropped(boxes: seq<Box>, len: real)
    requires len >= 0.0 && Total(boxes) > len
    ensures Dropped(boxes, len) != []
    ensures Kept(boxes, len) + Dropped(boxes, len) == StableSort(boxes, ByRank)
    ensures Total(Kept(boxes, len)) <= len < Total(Kept(boxes, len)) + Dropped(boxes, len)[0].size
  {
    TotalOfSorted(boxes, ByRank);
    var ranked := StableSort(boxes, ByRank);
    var cut := Excess(ranked, len) - 1;
    assert Kept(boxes, len) == ranked[..cut] && Dropped(boxes, len) == ranked[cut..];
    CutAtExcess(ranked, len, cut);
  }

  lemma CutAtExcess(ranked: seq<Box>, len: real, cut: int)
    requires Total(ranked) > len >= 0.0 && cut == Excess(ranked, len) - 1
    ensures 0 <= cut < |ranked| && ranked[..cut] + ranked[cut..] == ranked
    ensures Total(ranked[..cut]) <= len < Total(ranked[..cut]) + ranked[cut..][0].size
  {
    ExcessIsFirst(ranked, len);
  }

  /** Where labels are dropped, none of them has a greater rank than one that is kept. */
  lemma DroppedRankLowest(boxes: seq<Box>, len: real)
    ensures forall a, b | a in Dropped(boxes, len) && b in Kept(boxes, len) :: a.rank.GetOr(0.0) <= b.rank.GetOr(0.0)
  {
    StableSortSorts(boxes, ByRank);
    TotalOfSorted(boxes, ByRank);
    if Total(boxes) > len {
      var ranked := StableSort(boxes, ByRank);
      BehindTheCut(ranked, CutAt(|ranked|, Excess(ranked, len)));
    }
  }

  lemma BehindTheCut(ranked: seq<Box>, cut: nat)
    requires cut <= |ranked| && SortedBy(ranked, ByRank)
    ensures forall a, b | a in ranked[cut..] && b in ranked[..cut] :: a.rank.GetOr(0.0) <= b.rank.GetOr(0.0)
  {
    forall a, b | a in ranked[cut..] && b in ranked[..cut] ensures a.rank.GetOr(0.0) <= b.rank.GetOr(0.0) {
      var i :| 0 <= i < |ranked[..cut]| && ranked[..cut][i] == b;
      var j :| 0 <= j < |ranked[cut..]| && ranked[cut..][j] == a;
      assert ByRank(ranked[i]) <= ByRank(ranked[cut + j]);
    }
  }

  /** The kept labels fit; labels are dropped only if all together do not fit, and then the kept ones
      are the longest prefix in rank order that fits. */
  lemma KeptIsRankPrefix(boxes: seq<Box>, len: real)
    requires len >= 0.0 && NonNegative(boxes)
    ensures Total(Kept(boxes, len)) <= len && NonNegative(Kept(boxes, len))
    ensures multiset(Kept(boxes, len)) + multiset(Dropped(boxes, len)) == multiset(boxes)
    ensures Dropped(boxes, len) == [] <==> Total(boxes) <= len
    ensures Total(boxes) > len ==>
      Kept(boxes, len) + Dropped(boxes, len) == StableSort(boxes, ByRank)
      && Total(Kept(boxes, len)) + Dropped(boxes, len)[0].size > len
  {
    if Total(boxes) > len {
      KeptThenDropped(boxes, len);
      StableSortSorts(boxes, ByRank);
      NonNegativeSorted(boxes, ByRank);
      var kept, ranked := Kept(boxes, len), StableSort(boxes, ByRank);
      assert forall i | 0 <= i < |kept| :: kept[i] == ranked[i];
    }
  }

  lemma SameLength(boxes: seq<Box>)
    ensures |StableSort(boxes, ByRank)| == |boxes|
  {
    StableSortSorts(boxes, ByRank);
    assert |multiset(StableSort(boxes, ByRank))| == |multiset(boxes)|;
  }

  /** A negative length drops one label, the last in rank order, and keeps the others. */
  lemma NegativeLengthDropsOne(boxes: seq<Box>, len: real)
    requires NonNegative(boxes) && boxes != [] && len < 0.0
    ensures |StableSort(boxes, ByRank)| == |boxes|
    ensures Kept(boxes, len) == StableSort(boxes, ByRank)[..|boxes| - 1]
    ensures Dropped(boxes, len) == StableSort(boxes, ByRank)[|boxes| - 1..]
  {
    TotalIsNonNegative(boxes);
    TotalOfSorted(boxes, ByRank);
    SameLength(boxes);
  }

  /** What is kept fits on lines of length at least 0, and on no others. */
  lemma KeptFitsIffLengthIsNotNegative(boxes: seq<Box>, len: real)
    requires NonNegative(boxes)
    ensures Total(Kept(boxes, len)) <= len <==> len >= 0.0
  {
    if len >= 0.0 {
      KeptIsRankPrefix(boxes, len);
    } else if boxes != [] {
      NegativeLengthDropsOne(boxes, len);
      NonNegativeSorted(boxes, ByRank);
      SameLength(boxes);
      var kept, ranked := Kept(boxes, len), StableSort(boxes, ByRank);
      assert forall i | 0 <= i < |kept| :: kept[i] == ranked[i];
      TotalIsNonNegative(kept);
    }
  }

  // ---------------------------------------------------------------- composites cover the labels

  function Targets(boxes: seq<Box>): seq<real> {
    if boxes == [] then [] else [boxes[0].target] + Targets(boxes[1..])
  }

  /** The composites stand for consecutive, non-empty groups of the labels, and for all of them; the
      size of each composite is the total size of its group. */
  predicate Covers(cs: seq<Composite>, boxes: seq<Box>)
    decreases |cs|
  {
    if cs == [] then boxes == []
    else
      var n := |cs[0].targets|;
      && 0 < n <= |boxes| && cs[0].targets == Targets(boxes[..n]) && cs[0].size == Total(boxes[..n])
      && Covers(cs[1..], boxes[n..])
  }

  lemma {:induction false} TotalOfConcat(a: seq<Box>, b: seq<Box>)
    ensures Total(a + b) == Total(a) + Total(b)
  {
    if a == [] {
      assert a + b == b;
    } else {
      assert (a + b)[1..] == a[1..] + b;
      TotalOfConcat(a[1..], b);
    }
  }

  lemma {:induction false} TargetsOfConcat(a: seq<Box>, b: seq<Box>)
    ensures Targets(a + b) == Targets(a) + Targets(b) && |Targets(a)| == |a|
  {
    if a == [] {
      assert a + b == b;
    } else {
      assert (a + b)[1..] == a[1..] + b;
      TargetsOfConcat(a[1..], b);
    }
  }

  lemma {:induction false} SinglesCover(boxes: seq<Box>)
    ensures Covers(Singles(boxes), boxes)
  {
    if boxes != [] {
      SinglesCover(boxes[1..]);
      assert boxes[..1] == [boxes[0]] && boxes[..1][1..] == [];
      assert Singles(boxes)[1..] == Singles(boxes[1..]);
    }
  }

  lemma {:induction false} CentredCover(cs: seq<Composite>, len: real, boxes: seq<Box>)
    requires Covers(cs, boxes)
    ensures Covers(CentredAll(cs, len), boxes)
    decreases |cs|
  {
    if cs != [] {
      CentredCover(cs[1..], len, boxes[|cs[0].targets|..]);
      assert CentredAll(cs, len)[1..] == CentredAll(cs[1..], len);
    }
  }

  function MergedAt(cs: seq<Composite>, d: nat, len: real): seq<Composite>
    requires 0 < d < |cs|
  {
    cs[..d - 1] + [Merged(cs[d - 1], cs[d], len)] + cs[d + 1..]
  }

  /** Merging two neighbours conserves size and keeps every label in its place. */
  lemma {:induction false} MergeCovers(cs: seq<Composite>, d: nat, len: real, boxes: seq<Box>)
    requires Covers(cs, boxes) && 0 < d < |cs|
    ensures Covers(MergedAt(cs, d, len), boxes)
    decreases d
  {
    var n := |cs[0].targets|;
    if d == 1 {
      assert cs[..0] == [];
      FirstTwoCovered(cs, boxes);
      MergedCovers(Merged(cs[0], cs[1], len), cs, boxes);
    } else {
      MergeCovers(cs[1..], d - 1, len, boxes[n..]);
      RestOfMerged(cs, d, len);
    }
  }

  lemma FirstTwoCovered(cs: seq<Composite>, boxes: seq<Box>)
    requires Covers(cs, boxes) && |cs| >= 2
    ensures var n, m := |cs[0].targets|, |cs[1].targets|;
      && 0 < n && 0 < m && n + m <= |boxes| && Covers(cs[2..], boxes[n + m..])
      && cs[0].targets + cs[1].targets == Targets(boxes[..n + m])
      && cs[0].size + cs[1].size == Total(boxes[..n + m])
  {
    var n, m := |cs[0].targets|, |cs[1].targets|;
    FirstCovered(cs, boxes);
    SecondCovered(cs, boxes, n);
    FirstLabels(boxes, n, m);
    assert cs[1].targets == Targets(boxes[n..][..m]) && cs[1].size == Total(boxes[n..][..m]);
  }

  lemma SecondCovered(cs: seq<Composite>, boxes: seq<Box>, n: nat)
    requires |cs| >= 2 && n <= |boxes| && Covers(cs[1..], boxes[n..])
    ensures var later, m := boxes[n..], |cs[1].targets|;
      && 0 < m <= |later| && cs[1].targets == Targets(later[..m]) && cs[1].size == Total(later[..m])
      && Covers(cs[2..], later[m..])
  {
    assert cs[1..][0] == cs[1] && cs[1..][1..] == cs[2..];
    FirstCovered(cs[1..], boxes[n..]);
  }

  lemma FirstCovered(cs: seq<Composite>, boxes: seq<Box>)
    requires Covers(cs, boxes) && cs != []
    ensures var n := |cs[0].targets|;
      && 0 < n <= |boxes| && cs[0].targets == Targets(boxes[..n]) && cs[0].size == Total(boxes[..n])
      && Covers(cs[1..], boxes[n..])
  {
  }

  lemma FirstLabels(boxes: seq<Box>, n: nat, m: nat)
    requires n + m <= |boxes|
    ensures Targets(boxes[..n]) + Targets(boxes[n..][..m]) == Targets(boxes[..n + m])
    ensures Total(boxes[..n]) + Total(boxes[n..][..m]) == Total(boxes[..n + m])
    ensures boxes[n..][m..] == boxes[n + m..]
  {
    assert boxes[..n + m] == boxes[..n] + boxes[n..][..m];
    TotalOfConcat(boxes[..n], boxes[n..][..m]);
    TargetsOfConcat(boxes[..n], boxes[n..][..m]);
  }

  lemma MergedCovers(merged: Composite, cs: seq<Composite>, boxes: seq<Box>)
    requires |cs| >= 2 && 0 < |merged.targets| <= |boxes|
    requires merged.targets == Targets(boxes[..|merged.targets|]) && merged.size == Total(boxes[..|merged.targets|])
    requires Covers(cs[2..], boxes[|merged.targets|..])
    ensures Covers([] + [merged] + cs[2..], boxes)
  {
    assert ([] + [merged] + cs[2..])[1..] == cs[2..];
  }

  lemma RestOfMerged(cs: seq<Composite>, d: nat, len: real)
    requires 1 < d < |cs|
    ensures MergedAt(cs, d, len)[0] == cs[0] && MergedAt(cs, d, len)[1..] == MergedAt(cs[1..], d - 1, len)
  {
    assert cs[..d - 1][1..] == cs[1..][..d - 2] && cs[1..][d..] == cs[d + 1..];
    assert cs[..d - 1] == [cs[0]] + cs[..d - 1][1..];
  }

  lemma {:induction false} PassCovers(cs: seq<Composite>, d: nat, len: real, boxes: seq<Box>)
    requires Covers(cs, boxes) && (d < |cs| || d == 0)
    ensures Covers(Pass(cs, d, len), boxes)
    decreases d
  {
    if d > 0 {
      if Overlap(cs[d - 1], cs[d]) {
        MergeCovers(cs, d, len, boxes);
        PassCovers(MergedAt(cs, d, len), d - 1, len, boxes);
      } else {
        PassCovers(cs, d - 1, len, boxes);
      }
    }
  }

  /** A pass that merges nothing has found no overlap. */
  lemma {:induction false} PassWithoutMerge(cs: seq<Composite>, d: nat, len: real)
    requires (d < |cs| || d == 0) && |Pass(cs, d, len)| == |cs|
    ensures Pass(cs, d, len) == cs && forall i | 0 < i <= d :: !Overlap(cs[i - 1], cs[i])
    decreases d
  {
    if d > 0 {
      if !Overlap(cs[d - 1], cs[d]) {
        PassWithoutMerge(cs, d - 1, len);
      }
    }
  }

  predicate Separate(cs: seq<Composite>) {
    forall i | 0 < i < |cs| :: !Overlap(cs[i - 1], cs[i])
  }

  predicate AllCentred(cs: seq<Composite>, len: real) {
    forall i | 0 <= i < |cs| :: cs[i] == Centred(cs[i], len)
  }

  lemma {:induction false} CentredAllIsCentred(cs: seq<Composite>, len: real)
    ensures AllCentred(CentredAll(cs, len), len)
  {
    if cs != [] {
      CentredAllIsCentred(cs[1..], len);
    }
  }

  /** Where the loop ends: the composites still cover the labels, each is centred on its targets as far
      as the line allows, and none overlaps the next. */
  lemma {:induction false} SettleIsSound(cs: seq<Composite>, len: real, boxes: seq<Box>)
    requires Covers(cs, boxes)
    ensures Covers(Settle(cs, len), boxes) && AllCentred(Settle(cs, len), len) && Separate(Settle(cs, len))
    decreases |cs|
  {
    var centred := CentredAll(cs, len);
    var passed := Pass(centred, LastIndex(cs), len);
    CentredCover(cs, len, boxes);
    PassCovers(centred, LastIndex(cs), len, boxes);
    if |passed| < |cs| {
      SettleIsSound(passed, len, boxes);
    } else {
      PassWithoutMerge(centred, LastIndex(cs), len);
      CentredAllIsCentred(cs, len);
    }
  }

  // ---------------------------------------------------------------- positions

  /** The labels stand one after the other, without overlap, between `from` and `to`. */
  predicate InLine(boxes: seq<Box>, from: real, to: real) {
    if boxes == [] then from <= to
    else boxes[0].pos.Some? && from <= boxes[0].pos.value && InLine(boxes[1..], boxes[0].pos.value + boxes[0].size, to)
  }

  lemma {:induction false} SideBySideInLine(boxes: seq<Box>, at: real)
    ensures InLine(SideBySide(boxes, at), at, at + Total(boxes))
  {
    if boxes != [] {
      SideBySideInLine(boxes[1..], at + boxes[0].size);
      assert SideBySide(boxes, at)[1..] == SideBySide(boxes[1..], at + boxes[0].size);
    }
  }

  lemma {:induction false} InLineConcat(a: seq<Box>, b: seq<Box>, from: real, mid: real, to: real)
    requires InLine(a, from, mid) && InLine(b, mid, to)
    ensures InLine(a + b, from, to)
  {
    if a == [] {
      assert a + b == b;
      InLineFrom(b, from, mid, to);
    } else {
      assert (a + b)[1..] == a[1..] + b;
      InLineConcat(a[1..], b, a[0].pos.value + a[0].size, mid, to);
    }
  }

  lemma InLineFrom(boxes: seq<Box>, from: real, later: real, to: real)
    requires InLine(boxes, later, to) && from <= later
    ensures InLine(boxes, from, to)
  {
  }

  predicate AllWithin(cs: seq<Composite>, len: real) {
    forall i | 0 <= i < |cs| :: 0.0 <= cs[i].pos && cs[i].pos + cs[i].size <= len
  }

  lemma {:induction false} PlaceAllInLine(boxes: seq<Box>, cs: seq<Composite>, from: real, len: real)
    requires Covers(cs, boxes) && Separate(cs) && AllWithin(cs, len)
    requires if cs == [] then from <= len else from <= cs[0].pos
    ensures InLine(PlaceAll(boxes, cs), from, len)
    decreases |cs|
  {
    if cs != [] {
      var n := |cs[0].targets|;
      var end := cs[0].pos + cs[0].size;
      assert |cs| > 1 ==> !Overlap(cs[0], cs[1]) && cs[1..][0] == cs[1];
      assert forall i | 0 < i < |cs[1..]| :: cs[1..][i - 1] == cs[i] && cs[1..][i] == cs[i + 1];
      PlaceAllInLine(boxes[n..], cs[1..], end, len);
      SideBySideInLine(boxes[..n], cs[0].pos);
      InLineFrom(SideBySide(boxes[..n], cs[0].pos), from, cs[0].pos, end);
      InLineConcat(SideBySide(boxes[..n], cs[0].pos), PlaceAll(boxes[n..], cs[1..]), from, end, len);
    }
  }

  /** Placing changes nothing but positions. */
  predicate SameLabels(placed: seq<Box>, boxes: seq<Box>) {
    |placed| == |boxes| && forall i | 0 <= i < |boxes| :: placed[i] == boxes[i].(pos := placed[i].pos)
  }

  lemma {:induction false} SideBySideSame(boxes: seq<Box>, at: real)
    ensures SameLabels(SideBySide(boxes, at), boxes)
  {
    if boxes != [] {
      SideBySideSame(boxes[1..], at + boxes[0].size);
    }
  }

  lemma {:induction false} PlaceAllSame(boxes: seq<Box>, cs: seq<Composite>)
    ensures SameLabels(PlaceAll(boxes, cs), boxes)
    decreases |cs|
  {
    if cs != [] {
      var n := if |cs[0].targets| <= |boxes| then |cs[0].targets| else |boxes|;
      SideBySideSame(boxes[..n], cs[0].pos);
      PlaceAllSame(boxes[n..], cs[1..]);
      assert boxes == boxes[..n] + boxes[n..];
    }
  }

  lemma {:induction false} GroupsFit(cs: seq<Composite>, boxes: seq<Box>)
    requires Covers(cs, boxes) && NonNegative(boxes)
    ensures 0.0 <= Total(boxes) && forall i | 0 <= i < |cs| :: 0.0 <= cs[i].size <= Total(boxes)
    decreases |cs|
  {
    if cs != [] {
      var n := |cs[0].targets|;
      GroupsFit(cs[1..], boxes[n..]);
      assert boxes == boxes[..n] + boxes[n..];
      TotalOfConcat(boxes[..n], boxes[n..]);
      TotalIsNonNegative(boxes[..n]);
    }
  }

  lemma {:induction false} TotalIsNonNegative(boxes: seq<Box>)
    requires NonNegative(boxes)
    ensures Total(boxes) >= 0.0
  {
    if boxes != [] {
      TotalIsNonNegative(boxes[1..]);
    }
  }

  lemma {:induction false} InLineMeans(boxes: seq<Box>, from: real, to: real)
    requires InLine(boxes, from, to) && NonNegative(boxes)
    ensures from <= to
    ensures forall i | 0 <= i < |boxes| ::
      boxes[i].pos.Some? && from <= boxes[i].pos.value && boxes[i].pos.value + boxes[i].size <= to
    ensures forall i, j | 0 <= i < j < |boxes| :: boxes[i].pos.value + boxes[i].size <= boxes[j].pos.value
  {
    if boxes != [] {
      InLineMeans(boxes[1..], boxes[0].pos.value + boxes[0].size, to);
    }
  }

  // ---------------------------------------------------------------- main results

  lemma PlacedInLine(boxes: seq<Box>, len: real)
    requires len >= 0.0 && NonNegative(boxes)
    ensures var kept := StableSort(Kept(boxes, len), ByTarget);
      SameLabels(Placed(boxes, len), kept) && NonNegative(kept) && InLine(Placed(boxes, len), 0.0, len)
  {
    KeptIsRankPrefix(boxes, len);
    var kept := StableSort(Kept(boxes, len), ByTarget);
    TotalOfSorted(Kept(boxes, len), ByTarget);
    NonNegativeSorted(Kept(boxes, len), ByTarget);
    var cs := Settle(Singles(kept), len);
    SinglesCover(kept);
    SettleIsSound(Singles(kept), len, kept);
    GroupsFit(cs, kept);
    assert AllWithin(cs, len) by { CentredWithin(cs, kept, len); }
    PlaceAllInLine(kept, cs, 0.0, len);
    PlaceAllSame(kept, cs);
  }

  lemma {:induction false} CentredWithin(cs: seq<Composite>, boxes: seq<Box>, len: real)
    requires Covers(cs, boxes) && AllCentred(cs, len)
    requires forall i | 0 <= i < |cs| :: cs[i].size <= len
    ensures AllWithin(cs, len)
    decreases |cs|
  {
    if cs != [] {
      assert cs[0] == Centred(cs[0], len) && cs[0].targets != [];
      assert forall i | 0 <= i < |cs[1..]| :: cs[1..][i] == cs[i + 1];
      CentredWithin(cs[1..], boxes[|cs[0].targets|..], len);
    }
  }

  /** Positions inside the line, and no label over a later one. */
  predicate WellPlaced(placed: seq<Box>, len: real) {
    && (forall i | 0 <= i < |placed| ::
          placed[i].pos.Some? && 0.0 <= placed[i].pos.value && placed[i].pos.value + placed[i].size <= len)
    && (forall i, j | 0 <= i < j < |placed| :: placed[i].pos.value + placed[i].size <= placed[j].pos.value)
  }

  /** Every kept label gets a position inside the line; in target order no label overlaps a later one. */
  lemma KeptAreWellPlaced(boxes: seq<Box>, len: real)
    requires len >= 0.0 && NonNegative(boxes)
    ensures SameLabels(Placed(boxes, len), StableSort(Kept(boxes, len), ByTarget))
    ensures SortedBy(Placed(boxes, len), ByTarget) && WellPlaced(Placed(boxes, len), len)
  {
    var placed, kept := Placed(boxes, len), StableSort(Kept(boxes, len), ByTarget);
    PlacedInLine(boxes, len);
    assert NonNegative(placed) by {
      forall i | 0 <= i < |placed| ensures placed[i].size >= 0.0 {
        assert placed[i].size == kept[i].size;
      }
    }
    InLineMeans(placed, 0.0, len);
    StableSortSorts(Kept(boxes, len), ByTarget);
    forall i | 0 <= i < |placed| ensures ByTarget(placed[i]) == ByTarget(kept[i]) {
    }
  }

  /** The result: the placed labels, and the dropped ones as they were, in target order. */
  lemma ResultIsPlacedAndDropped(boxes: seq<Box>, len: real)
    ensures SortedBy(Distributed(boxes, len), ByTarget)
    ensures multiset(Distributed(boxes, len)) == multiset(Placed(boxes, len)) + multiset(Dropped(boxes, len))
  {
    StableSortSorts(Placed(boxes, len) + Dropped(boxes, len), ByTarget);
  }

  // ---------------------------------------------------------------- where the labels stand

  /** Where a group stands from `first` to `last` target: centred, but not before 0, and not beyond the end of
      the line. */
  function StartOf(first: real, last: real, size: real, len: real): real {
    var start := (first + last) / 2.0 - size / 2.0;
    var raised := if start < 0.0 then 0.0 else start;
    if raised > len - size then len - size else raised
  }

  /** Neighbours side by side, of which the first stands so that the group is centred between its first and
      last targets. */
  predicate IsGroup(group: seq<Box>, len: real) {
    && group != [] && (forall i | 0 <= i < |group| :: group[i].pos.Some?)
    && group[0].pos.value == StartOf(group[0].target, group[|group| - 1].target, Total(group), len)
    && (forall i | 0 < i < |group| :: group[i].pos.value == group[i - 1].pos.value + group[i - 1].size)
  }

  ghost predicate InGroups(placed: seq<Box>, len: real)
    decreases |placed|
  {
    placed == [] || exists n | 0 < n <= |placed| :: IsGroup(placed[..n], len) && InGroups(placed[n..], len)
  }

  lemma {:induction false} LeastAndGreatest(boxes: seq<Box>)
    requires boxes != [] && SortedBy(boxes, ByTarget)
    ensures |Targets(boxes)| == |boxes|
    ensures MinOf(Targets(boxes)) == boxes[0].target && MaxOf(Targets(boxes)) == boxes[|boxes| - 1].target
  {
    assert forall i | 0 <= i < |boxes| :: ByTarget(boxes[i]) == boxes[i].target;
    if |boxes| > 1 {
      LeastAndGreatest(boxes[1..]);
      assert ByTarget(boxes[0]) <= ByTarget(boxes[1]) && ByTarget(boxes[0]) <= ByTarget(boxes[|boxes| - 1]);
    }
  }

  lemma {:induction false} SideBySideIs(boxes: seq<Box>, at: real)
    ensures var r := SideBySide(boxes, at);
      && Total(r) == Total(boxes) && SameLabels(r, boxes) && (forall i | 0 <= i < |r| :: r[i].pos.Some?)
      && (r != [] ==> r[0].pos.value == at)
      && (forall i | 0 < i < |r| :: r[i].pos.value == r[i - 1].pos.value + r[i - 1].size)
  {
    if boxes != [] {
      SideBySideIs(boxes[1..], at + boxes[0].size);
    }
  }

  lemma GroupOfComposite(boxes: seq<Box>, c: Composite, len: real)
    requires boxes != [] && SortedBy(boxes, ByTarget)
    requires c.targets == Targets(boxes) && c.size == Total(boxes) && c == Centred(c, len)
    ensures IsGroup(SideBySide(boxes, c.pos), len)
  {
    LeastAndGreatest(boxes);
    SideBySideIs(boxes, c.pos);
    var group := SideBySide(boxes, c.pos);
    assert group[0].target == boxes[0].target && group[|group| - 1].target == boxes[|boxes| - 1].target;
  }

  lemma {:induction false} PlaceAllInGroups(boxes: seq<Box>, cs: seq<Composite>, len: real)
    requires Covers(cs, boxes) && AllCentred(cs, len) && SortedBy(boxes, ByTarget)
    ensures InGroups(PlaceAll(boxes, cs), len)
    decreases |cs|
  {
    if cs != [] {
      var n := |cs[0].targets|;
      assert forall i | 0 <= i < |cs[1..]| :: cs[1..][i] == cs[i + 1];
      PlaceAllInGroups(boxes[n..], cs[1..], len);
      GroupOfComposite(boxes[..n], cs[0], len);
      var group, rest := SideBySide(boxes[..n], cs[0].pos), PlaceAll(boxes[n..], cs[1..]);
      assert (group + rest)[..n] == group && (group + rest)[n..] == rest;
    }
  }

  /** The placed labels stand in groups side by side, each centred between its targets as far as the line
      allows; a label alone in its group stands centred on its target. */
  lemma PlacedInGroups(boxes: seq<Box>, len: real)
    ensures InGroups(Placed(boxes, len), len)
  {
    var kept := StableSort(Kept(boxes, len), ByTarget);
    StableSortSorts(Kept(boxes, len), ByTarget);
    SinglesCover(kept);
    SettleIsSound(Singles(kept), len, kept);
    PlaceAllInGroups(kept, Settle(Singles(kept), len), len);
  }

  // ---------------------------------------------------------------- labels that need not move

  /** Where a label would stand alone. */
  function OwnPlace(b: Box, len: real): real { StartOf(b.target, b.target, b.size, len) }

  predicate OwnPlacesAreFree(boxes: seq<Box>, len: real) {
    forall i | 0 < i < |boxes| :: OwnPlace(boxes[i - 1], len) + boxes[i - 1].size <= OwnPlace(boxes[i], len)
  }

  predicate AtOwnPlaces(placed: seq<Box>, len: real) {
    forall i | 0 <= i < |placed| :: placed[i].pos == Some(OwnPlace(placed[i], len))
  }

  lemma {:induction false} CentredSingles(boxes: seq<Box>, len: real)
    ensures var cs := CentredAll(Singles(boxes), len);
      |cs| == |boxes| && forall i | 0 <= i < |boxes| ::
        cs[i] == Composite(boxes[i].size, [boxes[i].target], OwnPlace(boxes[i], len))
  {
    if boxes != [] {
      CentredSingles(boxes[1..], len);
      assert Singles(boxes)[1..] == Singles(boxes[1..]);
    }
  }

  lemma {:induction false} PassWithoutOverlap(cs: seq<Composite>, d: nat, len: real)
    requires (d < |cs| || d == 0) && Separate(cs)
    ensures Pass(cs, d, len) == cs
    decreases d
  {
    if d > 0 {
      PassWithoutOverlap(cs, d - 1, len);
    }
  }

  lemma {:induction false} PlaceSingles(boxes: seq<Box>, cs: seq<Composite>, len: real)
    requires |cs| == |boxes| && forall i | 0 <= i < |boxes| ::
      cs[i] == Composite(boxes[i].size, [boxes[i].target], OwnPlace(boxes[i], len))
    ensures AtOwnPlaces(PlaceAll(boxes, cs), len)
    decreases |boxes|
  {
    if boxes != [] {
      PlaceSingles(boxes[1..], cs[1..], len);
      assert SideBySide(boxes[..1], cs[0].pos) == [boxes[0].(pos := Some(cs[0].pos))];
      assert PlaceAll(boxes, cs) == [boxes[0].(pos := Some(cs[0].pos))] + PlaceAll(boxes[1..], cs[1..]);
    }
  }

  lemma FreeLabelsStay(kept: seq<Box>, len: real)
    requires OwnPlacesAreFree(kept, len)
    ensures AtOwnPlaces(PlaceAll(kept, Settle(Singles(kept), len)), len)
  {
    var centred := CentredAll(Singles(kept), len);
    CentredSingles(kept, len);
    assert Separate(centred) by {
      forall i | 0 < i < |centred| ensures !Overlap(centred[i - 1], centred[i]) {
        assert OwnPlace(kept[i - 1], len) + kept[i - 1].size <= OwnPlace(kept[i], len);
      }
    }
    PassWithoutOverlap(centred, LastIndex(Singles(kept)), len);
    PlaceSingles(kept, centred, len);
  }

  /** All kept labels stand where each would stand alone, exactly if they do not overlap there. */
  lemma LabelsStayIffFree(boxes: seq<Box>, len: real)
    requires len >= 0.0 && NonNegative(boxes)
    ensures AtOwnPlaces(Placed(boxes, len), len) <==> OwnPlacesAreFree(StableSort(Kept(boxes, len), ByTarget), len)
  {
    var placed, kept := Placed(boxes, len), StableSort(Kept(boxes, len), ByTarget);
    KeptAreWellPlaced(boxes, len);
    if OwnPlacesAreFree(kept, len) {
      FreeLabelsStay(kept, len);
    }
    if AtOwnPlaces(placed, len) {
      forall i | 0 < i < |kept| ensures OwnPlace(kept[i - 1], len) + kept[i - 1].size <= OwnPlace(kept[i], len) {
        assert placed[i - 1].pos.value + placed[i - 1].size <= placed[i].pos.value;
      }
    }
  }

  // ---------------------------------------------------------------- merging stays on the line

  predicate EndOnLine(cs: seq<Composite>, len: real) {
    forall i | 0 <= i < |cs| :: cs[i].pos + cs[i].size <= len
  }

  /** A pass never moves a composite beyond the end of the line. */
  lemma {:induction false} PassStaysOnLine(cs: seq<Composite>, d: nat, len: real)
    requires (d < |cs| || d == 0) && EndOnLine(cs, len)
    ensures EndOnLine(Pass(cs, d, len), len)
    decreases d
  {
    if d > 0 {
      if Overlap(cs[d - 1], cs[d]) {
        assert EndOnLine(MergedAt(cs, d, len), len);
        PassStaysOnLine(MergedAt(cs, d, len), d - 1, len);
      } else {
        PassStaysOnLine(cs, d - 1, len);
      }
    }
  }

  // ---------------------------------------------------------------- merging stops at a gap

  function SizeFrom(cs: seq<Composite>): real {
    if cs == [] then 0.0 else cs[0].size + SizeFrom(cs[1..])
  }

  /** Each composite and all that follow it fit on the line. */
  predicate Roomy(cs: seq<Composite>, len: real) {
    forall k | 0 <= k < |cs| :: cs[k].size >= 0.0 && cs[k].pos + SizeFrom(cs[k..]) <= len
  }

  lemma {:induction false} PassIsLocal(a: seq<Composite>, b: seq<Composite>, d: nat, len: real)
    requires d < |a|
    ensures Pass(a + b, d, len) == Pass(a, d, len) + b
    decreases d
  {
    if d > 0 {
      if Overlap(a[d - 1], a[d]) {
        assert MergedAt(a + b, d, len) == MergedAt(a, d, len) + b;
        PassIsLocal(MergedAt(a, d, len), b, d - 1, len);
      } else {
        PassIsLocal(a, b, d - 1, len);
      }
    }
  }

  lemma {:induction false} SizeIsNotNegative(cs: seq<Composite>)
    requires forall k | 0 <= k < |cs| :: cs[k].size >= 0.0
    ensures SizeFrom(cs) >= 0.0
  {
    if cs != [] {
      SizeIsNotNegative(cs[1..]);
    }
  }

  lemma {:induction false} MergedSize(cs: seq<Composite>, d: nat, k: nat, len: real)
    requires k < d < |cs|
    ensures SizeFrom(MergedAt(cs, d, len)[k..]) == SizeFrom(cs[k..])
    decreases d - k
  {
    var merged := MergedAt(cs, d, len);
    assert cs[k..][1..] == cs[k + 1..] && merged[k..][1..] == merged[k + 1..];
    if k == d - 1 {
      assert cs[d..][1..] == cs[d + 1..] && merged[d..] == cs[d + 1..];
    } else {
      MergedSize(cs, d, k + 1, len);
    }
  }

  /** Where there is room, a merged composite stays at its left edge. */
  lemma MergedIsRoomy(cs: seq<Composite>, d: nat, len: real)
    requires 0 < d < |cs| && Roomy(cs, len)
    ensures MergedAt(cs, d, len)[d - 1].pos == cs[d - 1].pos && Roomy(MergedAt(cs, d, len), len)
  {
    var merged := MergedAt(cs, d, len);
    assert cs[d - 1..][1..] == cs[d..] && cs[d..][1..] == cs[d + 1..];
    SizeIsNotNegative(cs[d + 1..]);
    forall k | 0 <= k < |merged| ensures merged[k].size >= 0.0 && merged[k].pos + SizeFrom(merged[k..]) <= len {
      if k < d {
        MergedSize(cs, d, k, len);
      } else {
        assert merged[k..] == cs[k + 1..];
      }
    }
  }

  /** The composites after one turn of the pass. */
  function Next(cs: seq<Composite>, d: nat, len: real): (r: seq<Composite>)
    requires 0 < d < |cs|
    ensures d <= |r|
  {
    if Overlap(cs[d - 1], cs[d]) then MergedAt(cs, d, len) else cs
  }

  lemma PassIsNext(cs: seq<Composite>, d: nat, len: real)
    requires 0 < d < |cs|
    ensures Pass(cs, d, len) == Pass(Next(cs, d, len), d - 1, len)
  {
  }

  lemma NextBehind(left: seq<Composite>, right: seq<Composite>, d: nat, k: nat, len: real)
    requires 0 < k < |right| && d == |left| + k
    ensures Next(left + right, d, len) == left + Next(right, k, len)
  {
    var cs := left + right;
    assert cs[d - 1] == right[k - 1] && cs[d] == right[k];
    assert MergedAt(cs, d, len) == left + MergedAt(right, k, len);
  }

  /** What a pass merges on one side of a gap does not depend on the other side, and nothing is merged across
      it, where there is room. */
  lemma {:induction false} PassStopsAtGap(left: seq<Composite>, right: seq<Composite>, d: nat, k: nat, len: real)
    requires left != [] && k < |right| && d == |left| + k
    requires Roomy(right, len) && !Overlap(left[|left| - 1], right[0])
    ensures Pass(left + right, d, len) == Pass(left, |left| - 1, len) + Pass(right, k, len)
    decreases k
  {
    var whole, before, behind := Pass(left + right, d, len), Pass(left, |left| - 1, len), Pass(right, k, len);
    if k == 0 {
      PassAtGap(left, right, d, len);
      PassOfNothing(right, k, len);
      assert behind == right && whole == before + right;
    } else {
      var next := Next(right, k, len);
      var rest := Pass(next, k - 1, len);
      PassBehind(left, right, d, k, len);
      RoomyAfter(right, k, len);
      PassStopsAtGap(left, next, d - 1, k - 1, len);
      assert behind == rest && whole == before + rest;
    }
    assert whole == before + behind;
  }

  lemma PassAtGap(left: seq<Composite>, right: seq<Composite>, d: nat, len: real)
    requires left != [] && right != [] && d == |left| && !Overlap(left[d - 1], right[0])
    ensures Pass(left + right, d, len) == Pass(left, |left| - 1, len) + right
  {
    var cs := left + right;
    assert cs[d - 1] == left[d - 1] && cs[d] == right[0];
    PassIsNext(cs, d, len);
    PassIsLocal(left, right, d - 1, len);
  }

  lemma PassOfNothing(cs: seq<Composite>, d: nat, len: real)
    requires d == 0
    ensures Pass(cs, d, len) == cs
  {
  }

  lemma RoomyAfter(cs: seq<Composite>, d: nat, len: real)
    requires 0 < d < |cs| && Roomy(cs, len)
    ensures Roomy(Next(cs, d, len), len) && Next(cs, d, len)[0].pos == cs[0].pos
  {
    if Overlap(cs[d - 1], cs[d]) {
      MergedIsRoomy(cs, d, len);
    }
  }

  lemma PassBehind(left: seq<Composite>, right: seq<Composite>, d: nat, k: nat, len: real)
    requires 0 < k < |right| && d == |left| + k
    ensures Pass(left + right, d, len) == Pass(left + Next(right, k, len), d - 1, len)
    ensures Pass(right, k, len) == Pass(Next(right, k, len), k - 1, len)
  {
    PassIsNext(left + right, d, len);
    PassIsNext(right, k, len);
    NextBehind(left, right, d, k, len);
  }
}
