/** The k-d tree of a chart series: nearest-point search against a linear scan. Distances are compared
    by their squares. */
module KdTree {

  datatype Point = Point(index: nat, clientX: real, plotY: real)

  datatype Tree = Nil | Node(point: Point, left: Tree, right: Tree)

  /** `kdAxisArray[axis]`: the horizontal or the vertical coordinate. */
  function Coordinate(p: Point, axis: nat): real {
    if axis == 0 then p.clientX else p.plotY
  }

  function Square(r: real): real {
    r * r
  }

  /** The square of `dist`, or of `distX` when only the horizontal distance is compared. */
  function Distance(a: Point, b: Point, compareX: bool): real {
    if compareX then Square(a.clientX - b.clientX)
    else Square(a.clientX - b.clientX) + Square(a.plotY - b.plotY)
  }

  // ---------------------------------------------------------------- buildKDTree

  predicate Sorted(ps: seq<Point>, axis: nat) {
    forall i, j | 0 <= i < j < |ps| :: Coordinate(ps[i], axis) <= Coordinate(ps[j], axis)
  }

  /** What the array sort of the browser promises: a sorted permutation, stable or not. */
  ghost predicate IsSorter(sort: (seq<Point>, nat) -> seq<Point>) {
    forall ps, axis: nat ::
      |sort(ps, axis)| == |ps| && multiset(sort(ps, axis)) == multiset(ps) && Sorted(sort(ps, axis), axis)
  }

  function Build(ps: seq<Point>, depth: nat, dims: nat, sort: (seq<Point>, nat) -> seq<Point>): Tree
    decreases |ps|
  {
    if ps == [] || dims == 0 then Nil
    else
      var s := sort(ps, depth % dims);
      var half := |s| / 2;
      if |s| != |ps| then Nil
      else Node(s[half], Build(s[..half], depth + 1, dims, sort), Build(s[half + 1..], depth + 1, dims, sort))
  }

  /** `buildKDTree` starts counting depth at the number of dimensions. */
  function BuildKDTree(ps: seq<Point>, dims: nat, sort: (seq<Point>, nat) -> seq<Point>): Tree {
    Build(ps, dims, dims, sort)
  }

  // ---------------------------------------------------------------- searchKDTree

  /** The two quantities that the search compares: the distance of a point from the query, and how
      far the query is from the line through a point that divides an axis. */
  datatype Metric = Metric(distance: Point -> real, toLine: (Point, nat) -> real)

  function MetricOf(q: Point, compareX: bool): Metric {
    Metric(p => Distance(q, p, compareX), (p, axis: nat) => Square(Coordinate(q, axis) - Coordinate(p, axis)))
  }

  function Search(q: Point, t: Tree, depth: nat, dims: nat, m: Metric): Point
    requires t.Node? && dims > 0
    decreases t
  {
    var near, far := Near(q, t, depth % dims), Far(q, t, depth % dims);
    var best := if near.Nil? then t.point else Closer(Search(q, near, depth + 1, dims, m), t.point, m);
    if far.Node? && m.toLine(t.point, depth % dims) < m.distance(best) then
      Closer(Search(q, far, depth + 1, dims, m), best, m)
    else best
  }

  /** The side of the dividing line on which the query lies, and the other side. */
  function Near(q: Point, t: Tree, axis: nat): Tree
    requires t.Node?
  {
    if Coordinate(q, axis) - Coordinate(t.point, axis) < 0.0 then t.left else t.right
  }

  function Far(q: Point, t: Tree, axis: nat): Tree
    requires t.Node?
  {
    if Coordinate(q, axis) - Coordinate(t.point, axis) < 0.0 then t.right else t.left
  }

  /** The first point if it is strictly closer, else the second. */
  function Closer(a: Point, b: Point, m: Metric): Point {
    if m.distance(a) < m.distance(b) then a else b
  }

  function SearchKDTree(q: Point, t: Tree, dims: nat, compareX: bool): Point
    requires t.Node? && dims > 0
  {
    Search(q, t, dims, dims, MetricOf(q, compareX))
  }

  // ---------------------------------------------------------------- the tree holds the points

  function Points(t: Tree): set<Point> {
    match t
    case Nil => {}
    case Node(p, left, right) => {p} + Points(left) + Points(right)
  }

  function SetOf(ps: seq<Point>): set<Point> {
    set p | p in ps
  }

  /** Left of a node nothing is greater on the axis of its depth, right of it nothing is smaller. */
  ghost predicate Divided(t: Tree, depth: nat, dims: nat)
    requires dims > 0
  {
    match t
    case Nil => true
    case Node(p, left, right) =>
      var axis := depth % dims;
      && (forall r | r in Points(left) :: Coordinate(r, axis) <= Coordinate(p, axis))
      && (forall r | r in Points(right) :: Coordinate(p, axis) <= Coordinate(r, axis))
      && Divided(left, depth + 1, dims) && Divided(right, depth + 1, dims)
  }

  lemma SameElements(ps: seq<Point>, s: seq<Point>)
    requires multiset(s) == multiset(ps)
    ensures SetOf(ps) == SetOf(s)
  {
    forall r ensures r in ps <==> r in s {
      assert r in multiset(ps) <==> r in multiset(s);
    }
  }

  /** The middle of the sorted points, and what is on either side of it. */
  lemma SplitAtHalf(ps: seq<Point>, s: seq<Point>, axis: nat, half: nat)
    requires half < |s| && Sorted(s, axis) && multiset(s) == multiset(ps)
    ensures SetOf(ps) == {s[half]} + SetOf(s[..half]) + SetOf(s[half + 1..])
    ensures forall r | r in SetOf(s[..half]) :: Coordinate(r, axis) <= Coordinate(s[half], axis)
    ensures forall r | r in SetOf(s[half + 1..]) :: Coordinate(s[half], axis) <= Coordinate(r, axis)
  {
    SameElements(ps, s);
    assert s == s[..half] + [s[half]] + s[half + 1..];
  }

  lemma {:induction false} BuildDivides(ps: seq<Point>, depth: nat, dims: nat, sort: (seq<Point>, nat) -> seq<Point>)
    requires dims > 0 && IsSorter(sort)
    ensures Points(Build(ps, depth, dims, sort)) == SetOf(ps)
    ensures Divided(Build(ps, depth, dims, sort), depth, dims)
    decreases |ps|
  {
    if ps != [] {
      var axis := depth % dims;
      var s := sort(ps, axis);
      var half := |s| / 2;
      BuildDivides(s[..half], depth + 1, dims, sort);
      BuildDivides(s[half + 1..], depth + 1, dims, sort);
      SplitAtHalf(ps, s, axis, half);
    }
  }

  // ---------------------------------------------------------------- pruning is safe

  lemma SquareGrows(a: real, b: real)
    requires 0.0 <= a <= b || b <= a <= 0.0
    ensures Square(a) <= Square(b)
  {
    assert Square(b) - Square(a) == (b - a) * (b + a);
    if 0.0 <= a {
      assert (b - a) * (b + a) >= 0.0;
    } else {
      assert (a - b) * (-(b + a)) >= 0.0;
    }
  }

  lemma SquareIsPositive(r: real)
    ensures Square(r) >= 0.0
  {
    SquareGrows(0.0, r);
  }

  predicate Beyond(q: Point, p: Point, r: Point, axis: nat) {
    var a, b, c := Coordinate(q, axis), Coordinate(p, axis), Coordinate(r, axis);
    if a < b then b <= c else c <= b
  }

  /** A point beyond a dividing line is at least as far away as the line. */
  ghost predicate LinesBound(q: Point, dims: nat, m: Metric) {
    forall p, r, axis: nat | axis < dims && Beyond(q, p, r, axis) :: m.toLine(p, axis) <= m.distance(r)
  }

  /** The axes that the search divides by are among those that the distance counts. */
  predicate AxesAreCounted(dims: nat, compareX: bool) {
    dims == 1 || (dims == 2 && !compareX)
  }

  lemma CountedAxesBound(q: Point, dims: nat, compareX: bool)
    requires AxesAreCounted(dims, compareX)
    ensures LinesBound(q, dims, MetricOf(q, compareX))
  {
    forall p, r, axis: nat | axis < dims && Beyond(q, p, r, axis)
      ensures Square(Coordinate(q, axis) - Coordinate(p, axis)) <= Distance(q, r, compareX)
    {
      SquareGrows(Coordinate(q, axis) - Coordinate(p, axis), Coordinate(q, axis) - Coordinate(r, axis));
      SquareIsPositive(q.clientX - r.clientX);
      SquareIsPositive(q.plotY - r.plotY);
    }
  }

  ghost predicate IsNearest(best: Point, ps: set<Point>, m: Metric) {
    best in ps && forall r | r in ps :: m.distance(best) <= m.distance(r)
  }

  lemma NearestOfBoth(a: Point, ps: set<Point>, b: Point, rs: set<Point>, m: Metric)
    requires IsNearest(a, ps, m) && IsNearest(b, rs, m)
    ensures IsNearest(Closer(a, b, m), ps + rs, m)
  {
  }

  lemma {:induction false} SearchFindsNearest(q: Point, t: Tree, depth: nat, dims: nat, m: Metric)
    requires t.Node? && dims > 0 && Divided(t, depth, dims) && LinesBound(q, dims, m)
    ensures IsNearest(Search(q, t, depth, dims, m), Points(t), m)
    decreases t
  {
    var axis := depth % dims;
    var near, far, best := Near(q, t, axis), Far(q, t, axis), t.point;
    assert IsNearest(best, {t.point}, m);
    if near.Node? {
      SearchFindsNearest(q, near, depth + 1, dims, m);
      best := Closer(Search(q, near, depth + 1, dims, m), t.point, m);
      NearestOfBoth(Search(q, near, depth + 1, dims, m), Points(near), t.point, {t.point}, m);
    }
    var some := Points(near) + {t.point};
    assert IsNearest(best, some, m);
    assert Points(t) == Points(far) + some;
    if far.Node? && m.toLine(t.point, axis) < m.distance(best) {
      SearchFindsNearest(q, far, depth + 1, dims, m);
      NearestOfBoth(Search(q, far, depth + 1, dims, m), Points(far), best, some, m);
    } else {
      forall r | r in Points(far) ensures m.distance(best) <= m.distance(r) {
        assert Beyond(q, t.point, r, axis);
      }
    }
  }

  /** The search agrees with a scan of all points, on one axis or two with the full distance, and on
      one axis with the horizontal distance. */
  lemma SearchEqualsScan(ps: seq<Point>, q: Point, dims: nat, compareX: bool, sort: (seq<Point>, nat) -> seq<Point>)
    requires ps != [] && AxesAreCounted(dims, compareX) && IsSorter(sort)
    ensures BuildKDTree(ps, dims, sort).Node?
    ensures var best := SearchKDTree(q, BuildKDTree(ps, dims, sort), dims, compareX);
      best in ps && forall r | r in ps :: Distance(q, best, compareX) <= Distance(q, r, compareX)
  {
    var t, m := BuildKDTree(ps, dims, sort), MetricOf(q, compareX);
    BuildDivides(ps, dims, dims, sort);
    CountedAxesBound(q, dims, compareX);
    SearchFindsNearest(q, t, dims, dims, m);
    forall r | r in ps
      ensures Distance(q, SearchKDTree(q, t, dims, compareX), compareX) <= Distance(q, r, compareX)
    {
      assert r in Points(t);
      assert m.distance(r) == Distance(q, r, compareX);
    }
  }

  // ---------------------------------------------------------------- two axes, horizontal distance

  /** A sorted permutation of a strictly sorted sequence is that sequence. */
  lemma {:induction false} StrictlySortedIsUnique(s: seq<Point>, t: seq<Point>, axis: nat)
    requires forall i, j | 0 <= i < j < |s| :: Coordinate(s[i], axis) < Coordinate(s[j], axis)
    requires Sorted(t, axis) && multiset(t) == multiset(s) && |t| == |s|
    ensures t == s
    decreases |s|
  {
    if s != [] {
      SameHead(s, t, axis);
      SameTail(s, t);
      StrictlySortedIsUnique(s[1..], t[1..], axis);
    }
  }

  lemma SameTail(s: seq<Point>, t: seq<Point>)
    requires s != [] && t != [] && s[0] == t[0] && multiset(t) == multiset(s)
    ensures multiset(t[1..]) == multiset(s[1..])
    ensures t[1..] == s[1..] ==> t == s
  {
    assert s == [s[0]] + s[1..] && t == [t[0]] + t[1..];
    assert multiset(t[1..]) == multiset(t) - multiset{s[0]};
    assert multiset(s[1..]) == multiset(s) - multiset{s[0]};
  }

  lemma SameHead(s: seq<Point>, t: seq<Point>, axis: nat)
    requires forall i, j | 0 <= i < j < |s| :: Coordinate(s[i], axis) < Coordinate(s[j], axis)
    requires Sorted(t, axis) && multiset(t) == multiset(s) && |t| == |s| > 0
    ensures t[0] == s[0]
  {
    assert s[0] in multiset(s) && t[0] in multiset(t);
    var i :| 0 <= i < |s| && s[i] == t[0];
    var j :| 0 <= j < |t| && t[j] == s[0];
    assert Coordinate(t[0], axis) <= Coordinate(t[j], axis);
  }

  /** The tree of four points that are given from left to right. */
  lemma ExampleTree(ps: seq<Point>, sort: (seq<Point>, nat) -> seq<Point>)
    requires |ps| == 4 && IsSorter(sort) && ps[1].plotY < ps[0].plotY
    requires forall i, j | 0 <= i < j < |ps| :: Coordinate(ps[i], 0) < Coordinate(ps[j], 0)
    ensures BuildKDTree(ps, 2, sort)
      == Node(ps[2], Node(ps[0], Node(ps[1], Nil, Nil), Nil), Node(ps[3], Nil, Nil))
  {
    StrictlySortedIsUnique(ps, sort(ps, 0), 0);
    BuildFromSorted(ps, ps, 2, sort);
    assert ps[..2] == [ps[0], ps[1]];
    assert ps[3..] == [ps[3]];
    PairTree(ps[0], ps[1], sort);
    SingleTree(ps[3], 3, sort);
  }

  lemma PairTree(a: Point, b: Point, sort: (seq<Point>, nat) -> seq<Point>)
    requires b.plotY < a.plotY && IsSorter(sort)
    ensures Build([a, b], 3, 2, sort) == Node(a, Node(b, Nil, Nil), Nil)
  {
    assert multiset([b, a]) == multiset([a, b]);
    StrictlySortedIsUnique([b, a], sort([a, b], 1), 1);
    SingleTree(b, 4, sort);
    BuildFromSorted([a, b], [b, a], 3, sort);
    assert [b, a][..1] == [b] && [b, a][2..] == [];
  }

  lemma BuildFromSorted(ps: seq<Point>, s: seq<Point>, depth: nat, sort: (seq<Point>, nat) -> seq<Point>)
    requires ps != [] && |s| == |ps| && sort(ps, depth % 2) == s
    ensures Build(ps, depth, 2, sort)
      == Node(s[|s| / 2], Build(s[..|s| / 2], depth + 1, 2, sort), Build(s[|s| / 2 + 1..], depth + 1, 2, sort))
  {
  }

  /** With two axes and the horizontal distance, dividing by the vertical axis loses the nearest
      point: `b` is nearer to the query than the point `a` that the search returns, whatever the sort. */
  lemma HorizontalDistanceOnTwoAxes(sort: (seq<Point>, nat) -> seq<Point>)
    requires IsSorter(sort)
    ensures var a, b := Point(0, -3.0, 10.0), Point(1, -1.0, 0.0);
      var ps := [a, b, Point(2, 5.0, 0.0), Point(3, 6.0, 0.0)];
      var q := Point(4, 0.0, 20.0);
      var t := BuildKDTree(ps, 2, sort);
      t.Node? && SearchKDTree(q, t, 2, true) == a && b in ps && Distance(q, b, true) < Distance(q, a, true)
  {
    var a, b, c, d := Point(0, -3.0, 10.0), Point(1, -1.0, 0.0), Point(2, 5.0, 0.0), Point(3, 6.0, 0.0);
    var q := Point(4, 0.0, 20.0);
    ExampleTree([a, b, c, d], sort);
    SearchLeft(q, a, b);
    var m := MetricOf(q, true);
    assert m.distance(a) == 9.0 && m.distance(c) == 25.0 && m.toLine(c, 0) == 25.0;
    assert Distance(q, b, true) == 1.0;
  }

  lemma SingleTree(p: Point, depth: nat, sort: (seq<Point>, nat) -> seq<Point>)
    requires IsSorter(sort)
    ensures Build([p], depth, 2, sort) == Node(p, Nil, Nil)
  {
    StrictlySortedIsUnique([p], sort([p], depth % 2), depth % 2);
    assert [p][..0] == [] && [p][1..] == [];
  }

  /** The vertical gap of 10 hides `b`, which is 1 away horizontally, behind `a`, which is 3 away. */
  lemma SearchLeft(q: Point, a: Point, b: Point)
    requires q == Point(4, 0.0, 20.0) && a == Point(0, -3.0, 10.0) && b == Point(1, -1.0, 0.0)
    ensures Search(q, Node(a, Node(b, Nil, Nil), Nil), 3, 2, MetricOf(q, true)) == a
  {
    var m := MetricOf(q, true);
    assert m.distance(a) == 9.0 && m.toLine(a, 1) == 100.0;
  }

  ghost predicate FindsNearest(
      ps: seq<Point>, q: Point, dims: nat, compareX: bool, sort: (seq<Point>, nat) -> seq<Point>)
    requires dims > 0
  {
    var t := BuildKDTree(ps, dims, sort);
    t.Node? &&
    var best := SearchKDTree(q, t, dims, compareX);
    best in ps && forall r | r in ps :: Distance(q, best, compareX) <= Distance(q, r, compareX)
  }

  /** Of the four settings that `searchKDTree` can be called with, it is right in exactly the three whose
      distance counts every axis that the tree is divided by. */
  lemma SearchIsRightIffAxesAreCounted(dims: nat, compareX: bool, sort: (seq<Point>, nat) -> seq<Point>)
    requires (dims == 1 || dims == 2) && IsSorter(sort)
    ensures (forall ps, q | ps != [] :: FindsNearest(ps, q, dims, compareX, sort)) <==> AxesAreCounted(dims, compareX)
  {
    if AxesAreCounted(dims, compareX) {
      forall ps, q | ps != [] ensures FindsNearest(ps, q, dims, compareX, sort) {
        SearchEqualsScan(ps, q, dims, compareX, sort);
      }
    } else {
      var a, b := Point(0, -3.0, 10.0), Point(1, -1.0, 0.0);
      var ps := [a, b, Point(2, 5.0, 0.0), Point(3, 6.0, 0.0)];
      HorizontalDistanceOnTwoAxes(sort);
      assert !FindsNearest(ps, Point(4, 0.0, 20.0), 2, true, sort);
    }
  }

  // ---------------------------------------------------------------- the search of a chart

  /** The number of axes, from whether `findNearestPointBy` names y. */
  function Axes(byY: bool): nat { if byY then 2 else 1 }

  /** What the pointer, the only caller, passes for `compareX`. */
  function ComparesX(noShared: bool, byY: bool): bool { !noShared && !byY }

  function Gap(a: real, b: real): real { if a < b then b - a else a - b }

  lemma LesserSquare(a: real, b: real, c: real)
    requires Square(a - b) <= Square(a - c)
    ensures Gap(a, b) <= Gap(a, c)
  {
    var x, y := Gap(a, b), Gap(a, c);
    assert Square(x) == Square(a - b) && Square(y) == Square(a - c);
    if y < x {
      SquareGrowsStrictly(y, x - y);
    }
  }

  lemma Positive(a: real, b: real)
    requires a > 0.0 && b > 0.0
    ensures a * b > 0.0
  {
  }

  lemma SquareGrowsStrictly(y: real, d: real)
    requires y >= 0.0 && d > 0.0
    ensures Square(y + d) > Square(y)
  {
    Positive(d, d + y + y);
    assert Square(y + d) - Square(y) == d * (d + y + y);
  }

  /** The sum of the squared horizontal and vertical gaps. */
  function SquaredGaps(a: Point, b: Point): real {
    Gap(a.clientX, b.clientX) * Gap(a.clientX, b.clientX) + Gap(a.plotY, b.plotY) * Gap(a.plotY, b.plotY)
  }

  lemma DistanceIsSquaredGaps(a: Point, b: Point)
    ensures Distance(a, b, false) == SquaredGaps(a, b)
  {
    SquareOfGap(a.clientX, b.clientX);
    SquareOfGap(a.plotY, b.plotY);
  }

  lemma LesserGaps(q: Point, a: Point, b: Point, compareX: bool)
    requires Distance(q, a, compareX) <= Distance(q, b, compareX)
    ensures if compareX then Gap(q.clientX, a.clientX) <= Gap(q.clientX, b.clientX)
            else SquaredGaps(q, a) <= SquaredGaps(q, b)
  {
    if compareX {
      LesserSquare(q.clientX, a.clientX, b.clientX);
    } else {
      DistanceIsSquaredGaps(q, a);
      DistanceIsSquaredGaps(q, b);
    }
  }

  lemma SquareOfGap(a: real, b: real)
    ensures Square(a - b) == Gap(a, b) * Gap(a, b)
  {
  }

  /** Every search that a chart makes agrees with a scan: unless points are shared or found by y, no point has
      a smaller horizontal gap to the query, and otherwise none is nearer in the plane. */
  lemma ChartSearchIsExact(ps: seq<Point>, q: Point, noShared: bool, byY: bool, sort: (seq<Point>, nat) -> seq<Point>)
    requires ps != [] && IsSorter(sort)
    ensures var t := BuildKDTree(ps, Axes(byY), sort);
      && t.Node? && Points(t) == SetOf(ps) && Divided(t, if byY then 2 else 1, if byY then 2 else 1)
      && var best := SearchKDTree(q, t, Axes(byY), ComparesX(noShared, byY));
         best in ps && forall r | r in ps ::
           if !noShared && !byY then Gap(q.clientX, best.clientX) <= Gap(q.clientX, r.clientX)
           else SquaredGaps(q, best) <= SquaredGaps(q, r)
  {
    var dims, compareX := Axes(byY), ComparesX(noShared, byY);
    SearchEqualsScan(ps, q, dims, compareX, sort);
    BuildDivides(ps, dims, dims, sort);
    var best := SearchKDTree(q, BuildKDTree(ps, dims, sort), dims, compareX);
    forall r | r in ps
      ensures if compareX then Gap(q.clientX, best.clientX) <= Gap(q.clientX, r.clientX)
              else SquaredGaps(q, best) <= SquaredGaps(q, r)
    {
      LesserGaps(q, best, r, compareX);
    }
  }

  // ---------------------------------------------------------------- which of several nearest points

  /** The points in the order in which the search comes to prefer them: a node, the side of the query, the
      other side. */
  function Visit(q: Point, t: Tree, depth: nat, dims: nat): seq<Point>
    requires dims > 0
    decreases t
  {
    if t.Nil? then []
    else
      [t.point] + Visit(q, Near(q, t, depth % dims), depth + 1, dims)
      + Visit(q, Far(q, t, depth % dims), depth + 1, dims)
  }

  /** A scan that keeps the first of several nearest points. */
  function FirstNearest(ps: seq<Point>, m: Metric): Point
    requires ps != []
  {
    if |ps| == 1 then ps[0] else Closer(ps[|ps| - 1], FirstNearest(ps[..|ps| - 1], m), m)
  }

  lemma {:induction false} FirstNearestIsFirst(ps: seq<Point>, m: Metric) returns (k: nat)
    requires ps != []
    ensures k < |ps| && FirstNearest(ps, m) == ps[k]
    ensures forall j | 0 <= j < |ps| :: m.distance(ps[k]) <= m.distance(ps[j])
    ensures forall j | 0 <= j < k :: m.distance(ps[k]) < m.distance(ps[j])
    decreases |ps|
  {
    if |ps| == 1 {
      k := 0;
    } else {
      var front := ps[..|ps| - 1];
      k := FirstNearestIsFirst(front, m);
      assert forall j | 0 <= j < |front| :: front[j] == ps[j];
      if m.distance(ps[|ps| - 1]) < m.distance(ps[k]) {
        k := |ps| - 1;
      }
    }
  }

  lemma {:induction false} FirstNearestOfBoth(a: seq<Point>, b: seq<Point>, m: Metric)
    requires a != [] && b != []
    ensures FirstNearest(a + b, m) == Closer(FirstNearest(b, m), FirstNearest(a, m), m)
    decreases |b|
  {
    assert (a + b)[..|a + b| - 1] == a + b[..|b| - 1];
    if |b| == 1 {
      assert a + b[..0] == a;
    } else {
      FirstNearestOfBoth(a, b[..|b| - 1], m);
    }
  }

  lemma {:induction false} VisitsPoints(q: Point, t: Tree, depth: nat, dims: nat)
    requires dims > 0
    ensures SetOf(Visit(q, t, depth, dims)) == Points(t) && (t.Node? ==> Visit(q, t, depth, dims) != [])
    decreases t
  {
    if t.Node? {
      VisitsPoints(q, t.left, depth + 1, dims);
      VisitsPoints(q, t.right, depth + 1, dims);
      var axis := depth % dims;
      SetOfThree(t.point, Visit(q, Near(q, t, axis), depth + 1, dims), Visit(q, Far(q, t, axis), depth + 1, dims));
    }
  }

  lemma SetOfThree(p: Point, a: seq<Point>, b: seq<Point>)
    ensures SetOf([p] + a + b) == {p} + SetOf(a) + SetOf(b)
  {
  }

  /** Of several nearest points the search returns the one that it visits first. */
  lemma {:induction false} SearchIsFirstNearest(q: Point, t: Tree, depth: nat, dims: nat, m: Metric)
    requires t.Node? && dims > 0 && Divided(t, depth, dims) && LinesBound(q, dims, m)
    ensures Visit(q, t, depth, dims) != [] && Search(q, t, depth, dims, m) == FirstNearest(Visit(q, t, depth, dims), m)
    decreases t
  {
    var axis := depth % dims;
    var near, far := Near(q, t, axis), Far(q, t, axis);
    var nearest := [t.point] + Visit(q, near, depth + 1, dims);
    VisitsPoints(q, near, depth + 1, dims);
    VisitsPoints(q, far, depth + 1, dims);
    if near.Node? {
      SearchIsFirstNearest(q, near, depth + 1, dims, m);
      FirstNearestOfBoth([t.point], Visit(q, near, depth + 1, dims), m);
    }
    var best := FirstNearest(nearest, m);
    if far.Node? {
      SearchIsFirstNearest(q, far, depth + 1, dims, m);
      FirstNearestOfBoth(nearest, Visit(q, far, depth + 1, dims), m);
      if m.toLine(t.point, axis) >= m.distance(best) {
        FarIsNotNearer(q, t, depth, dims, m, best);
      }
    } else {
      assert nearest + [] == nearest;
    }
  }

  lemma FarIsNotNearer(q: Point, t: Tree, depth: nat, dims: nat, m: Metric, best: Point)
    requires t.Node? && dims > 0 && Divided(t, depth, dims) && LinesBound(q, dims, m)
    requires Far(q, t, depth % dims).Node? && m.toLine(t.point, depth % dims) >= m.distance(best)
    ensures var far := Visit(q, Far(q, t, depth % dims), depth + 1, dims);
      far != [] && Closer(FirstNearest(far, m), best, m) == best
  {
    var axis := depth % dims;
    var far := Visit(q, Far(q, t, axis), depth + 1, dims);
    VisitsPoints(q, Far(q, t, axis), depth + 1, dims);
    var k := FirstNearestIsFirst(far, m);
    assert far[k] in SetOf(far);
    assert Beyond(q, t.point, far[k], axis);
  }
}
