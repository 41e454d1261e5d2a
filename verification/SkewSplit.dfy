/** Queries rewritten against skew: rows are aggregated bucket by bucket, and then again. A table is a
    set of rows with identity, a bucketing any function of the row. */
module SkewSplit {
  import opened Text
  import opened TopRows

  ghost function InBucket<T(!new)>(rows: set<T>, bucket: T -> int, b: int): set<T> {
    set x | x in rows && bucket(x) == b
  }

  ghost function InBuckets<T(!new)>(rows: set<T>, bucket: T -> int, buckets: set<int>): set<T> {
    set x | x in rows && bucket(x) in buckets
  }

  ghost function BucketsOf<T(!new)>(rows: set<T>, bucket: T -> int): set<int> { set x | x in rows :: bucket(x) }

  // ---------------------------------------------------------------- top three

  /** The inner query: `row_number() over (partition by <bucket> order by sales desc) <= n`. */
  ghost predicate TopPerBucket<T(!new)>(inner: set<T>, rows: set<T>, n: nat, sales: T -> int, bucket: T -> int) {
    inner <= rows &&
    forall b :: IsTop(InBucket(inner, bucket, b), InBucket(rows, bucket, b), n, sales)
  }

  /** A row that its bucket dropped leaves a full bucket of rows at least as good. */
  lemma DroppedRow<T(!new)>(inner: set<T>, rows: set<T>, n: nat, sales: T -> int, bucket: T -> int, y: T)
    requires TopPerBucket(inner, rows, n, sales, bucket) && y in rows - inner
    ensures var full := InBucket(inner, bucket, bucket(y));
      |full| == n && full <= inner && |inner| >= n && |rows| > n && forall z :: z in full ==> sales(y) <= sales(z)
  {
    var full, all := InBucket(inner, bucket, bucket(y)), InBucket(rows, bucket, bucket(y));
    assert IsTop(full, all, n, sales);
    assert y in all && y !in full;
    SubsetCardinality(full, all);
    SubsetCardinality(full, inner);
    SubsetCardinality(all, rows);
  }

  /** The top of the bucket tops is a top of the whole table. */
  lemma TopOfTops<T(!new)>(result: set<T>, inner: set<T>, rows: set<T>, n: nat, sales: T -> int, bucket: T -> int)
    requires TopPerBucket(inner, rows, n, sales, bucket) && IsTop(result, inner, n, sales)
    ensures IsTop(result, rows, n, sales)
  {
    if rows <= inner {
      assert inner == rows;
    } else {
      var y :| y in rows && y !in inner;
      DroppedRow(inner, rows, n, sales, bucket, y);
    }
    forall x, y | x in result && y in rows - result ensures sales(y) <= sales(x) {
      if y !in inner {
        DroppedRow(inner, rows, n, sales, bucket, y);
        var full := InBucket(inner, bucket, bucket(y));
        if sales(x) < sales(y) {
          assert full <= result;
          SubsetCardinality(full, result);
        }
      }
    }
  }

  /** The rewritten query and the flat one have the same sales, whatever ties they break how. */
  lemma SplitTopIsTheTop<T(!new)>(result: set<T>, inner: set<T>, flat: set<T>, rows: set<T>, n: nat,
                                  sales: T -> int, bucket: T -> int, t: int)
    requires TopPerBucket(inner, rows, n, sales, bucket) && IsTop(result, inner, n, sales)
    requires IsTop(flat, rows, n, sales)
    ensures |result| == |flat| && |AtLeast(result, sales, t)| == |AtLeast(flat, sales, t)|
  {
    TopOfTops(result, inner, rows, n, sales, bucket);
    TopIsUnique(result, flat, rows, n, sales, t);
  }

  // ---------------------------------------------------------------- sums

  ghost function Sum<T>(s: set<T>, value: T -> real): real {
    if s == {} then 0.0
    else
      var x :| x in s;
      Sum(s - {x}, value) + value(x)
  }

  lemma Member<T>(s: set<T>) returns (x: T)
    requires s != {}
    ensures x in s
  {
    x :| x in s;
  }

  lemma {:induction false} SumAdd<T>(s: set<T>, x: T, value: T -> real)
    requires x !in s
    ensures Sum(s + {x}, value) == Sum(s, value) + value(x)
    decreases |s|
  {
    assert x in s + {x};
    var y :| y in s + {x} && Sum(s + {x}, value) == Sum(s + {x} - {y}, value) + value(y);
    if y == x {
      assert s + {x} - {x} == s;
    } else {
      assert s + {x} - {y} == (s - {y}) + {x} && s == (s - {y}) + {y};
      SumAdd(s - {y}, x, value);
      SumAdd(s - {y}, y, value);
    }
  }

  lemma {:induction false} SumOfUnion<T>(a: set<T>, b: set<T>, value: T -> real)
    requires a !! b
    ensures Sum(a + b, value) == Sum(a, value) + Sum(b, value)
    decreases |b|
  {
    if b == {} {
      assert a + b == a;
    } else {
      var x :| x in b;
      assert a + b == (a + (b - {x})) + {x} && b == (b - {x}) + {x};
      SumOfUnion(a, b - {x}, value);
      SumAdd(a + (b - {x}), x, value);
      SumAdd(b - {x}, x, value);
    }
  }

  /** The inner aggregate of each bucket. */
  ghost function PartialSum<T(!new)>(rows: set<T>, bucket: T -> int, value: T -> real): int -> real {
    (b: int) => Sum(InBucket(rows, bucket, b), value)
  }

  lemma {:induction false} PartialSumsOf<T(!new)>(rows: set<T>, bucket: T -> int, value: T -> real, buckets: set<int>)
    ensures Sum(buckets, PartialSum(rows, bucket, value)) == Sum(InBuckets(rows, bucket, buckets), value)
    decreases |buckets|
  {
    if buckets == {} {
      assert InBuckets(rows, bucket, buckets) == {};
    } else {
      var b := Member(buckets);
      var rest := buckets - {b};
      PartialSumsOf(rows, bucket, value, rest);
      assert buckets == rest + {b};
      SumAdd(rest, b, PartialSum(rows, bucket, value));
      assert InBuckets(rows, bucket, buckets) == InBuckets(rows, bucket, rest) + InBucket(rows, bucket, b);
      SumOfUnion(InBuckets(rows, bucket, rest), InBucket(rows, bucket, b), value);
    }
  }

  /** `sum` of the partial sums is the flat sum, even for a random bucketing; with the value 1 on the
      rows that count and 0 elsewhere this is `count`. */
  lemma SplitSumIsTheSum<T(!new)>(rows: set<T>, bucket: T -> int, value: T -> real)
    ensures Sum(BucketsOf(rows, bucket), PartialSum(rows, bucket, value)) == Sum(rows, value)
  {
    PartialSumsOf(rows, bucket, value, BucketsOf(rows, bucket));
    assert InBuckets(rows, bucket, BucketsOf(rows, bucket)) == rows;
  }

  // ---------------------------------------------------------------- distinct counts

  /** The users of some rows; rows without a user do not count. */
  ghost function Users<T(!new), U>(rows: set<T>, uid: T -> Option<U>): set<U> {
    set x | x in rows && uid(x).Some? :: uid(x).value
  }

  ghost function PartialDistinct<T(!new), U>(rows: set<T>, bucket: T -> int, uid: T -> Option<U>): int -> real {
    (b: int) => |Users(InBucket(rows, bucket, b), uid)| as real
  }

  /** All rows of a user are in one bucket. */
  ghost predicate Unsplit<T(!new), U>(rows: set<T>, bucket: T -> int, uid: T -> Option<U>) {
    forall x, y :: x in rows && y in rows && uid(x).Some? && uid(x) == uid(y) ==> bucket(x) == bucket(y)
  }

  lemma CardinalityOfUnion<U>(a: set<U>, b: set<U>)
    ensures |a + b| <= |a| + |b|
    ensures |a + b| == |a| + |b| <==> a !! b
  {
    assert a + b == a + (b - a);
    SubsetCardinality(b - a, b);
    if a !! b {
      assert b - a == b;
    }
  }

  lemma OneMoreBucket<T(!new), U>(rows: set<T>, bucket: T -> int, uid: T -> Option<U>, rest: set<int>, b: int)
    requires b !in rest
    ensures var before, added := InBuckets(rows, bucket, rest), InBucket(rows, bucket, b);
      && Users(InBuckets(rows, bucket, rest + {b}), uid) == Users(before, uid) + Users(added, uid)
      && (Unsplit(InBuckets(rows, bucket, rest + {b}), bucket, uid) <==>
          Unsplit(before, bucket, uid) && Users(before, uid) !! Users(added, uid))
  {
    var before, added := InBuckets(rows, bucket, rest), InBucket(rows, bucket, b);
    assert InBuckets(rows, bucket, rest + {b}) == before + added;
    var all := before + added;
    if !(Users(before, uid) !! Users(added, uid)) {
      var u :| u in Users(before, uid) && u in Users(added, uid);
      var x :| x in before && uid(x) == Some(u);
      var y :| y in added && uid(y) == Some(u);
      assert x in all && y in all && bucket(x) != bucket(y);
    } else if Unsplit(before, bucket, uid) {
      forall x, y | x in all && y in all && uid(x).Some? && uid(x) == uid(y) ensures bucket(x) == bucket(y) {
        var u := uid(x).value;
        assert x in before ==> u in Users(before, uid);
        assert y in before ==> u in Users(before, uid);
        assert x in added ==> u in Users(added, uid);
        assert y in added ==> u in Users(added, uid);
      }
    }
  }

  lemma {:induction false} PartialDistinctsOf<T(!new), U>(rows: set<T>, bucket: T -> int, uid: T -> Option<U>,
                                                          buckets: set<int>)
    ensures var total := Sum(buckets, PartialDistinct(rows, bucket, uid));
      var some := InBuckets(rows, bucket, buckets);
      total >= |Users(some, uid)| as real && (total == |Users(some, uid)| as real <==> Unsplit(some, bucket, uid))
    decreases |buckets|
  {
    if buckets == {} {
      assert InBuckets(rows, bucket, buckets) == {};
    } else {
      var b := Member(buckets);
      var rest := buckets - {b};
      PartialDistinctsOf(rows, bucket, uid, rest);
      assert buckets == rest + {b};
      SumAdd(rest, b, PartialDistinct(rows, bucket, uid));
      OneMoreBucket(rows, bucket, uid, rest, b);
      CardinalityOfUnion(Users(InBuckets(rows, bucket, rest), uid), Users(InBucket(rows, bucket, b), uid));
    }
  }

  /** The sum of the distinct counts of the buckets never falls short of the flat distinct count, and
      equals it exactly when no user is split over two buckets. */
  lemma SplitDistinctIsExactIffUnsplit<T(!new), U>(rows: set<T>, bucket: T -> int, uid: T -> Option<U>)
    ensures var total := Sum(BucketsOf(rows, bucket), PartialDistinct(rows, bucket, uid));
      && total >= |Users(rows, uid)| as real
      && (total == |Users(rows, uid)| as real <==> Unsplit(rows, bucket, uid))
  {
    PartialDistinctsOf(rows, bucket, uid, BucketsOf(rows, bucket));
    assert InBuckets(rows, bucket, BucketsOf(rows, bucket)) == rows;
  }

  /** A bucket computed from the user alone, as `mod(hash_code(uid), 4)` is, is right for every table. */
  lemma BucketOfUserIsExact<T(!new), U>(rows: set<T>, hash: Option<U> -> int, bucket: T -> int, uid: T -> Option<U>)
    requires forall x :: x in rows ==> bucket(x) == hash(uid(x))
    ensures Sum(BucketsOf(rows, bucket), PartialDistinct(rows, bucket, uid)) == |Users(rows, uid)| as real
  {
    SplitDistinctIsExactIffUnsplit(rows, bucket, uid);
  }

  // ---------------------------------------------------------------- the queries

  /** `group by <key>` */
  ghost function GroupOf<T(!new), K>(rows: set<T>, key: T -> K, k: K): set<T> { set x | x in rows && key(x) == k }

  ghost function Flat<T(!new), K>(rows: set<T>, key: T -> K, aggregate: set<T> -> real): map<K, real> {
    map k | k in (set x | x in rows :: key(x)) :: aggregate(GroupOf(rows, key, k))
  }

  /** The inner query: `group by <key>, <bucket>`. */
  ghost function Inner<T(!new), K>(rows: set<T>, key: T -> K, bucket: T -> int, aggregate: set<T> -> real)
    : map<(K, int), real>
  {
    map p | p in (set x | x in rows :: (key(x), bucket(x))) ::
      aggregate(InBucket(GroupOf(rows, key, p.0), bucket, p.1))
  }

  ghost function PartsOf<K(!new)>(inner: map<(K, int), real>, k: K): set<int> {
    set p | p in inner && p.0 == k :: p.1
  }

  ghost function PartAt<K>(inner: map<(K, int), real>, k: K): int -> real {
    (b: int) => if (k, b) in inner then inner[(k, b)] else 0.0
  }

  /** The outer query: `sum(<partial>) ... group by <key>`. */
  ghost function Outer<K(!new)>(inner: map<(K, int), real>): map<K, real> {
    map k | k in (set p | p in inner :: p.0) :: Sum(PartsOf(inner, k), PartAt(inner, k))
  }

  ghost function SumAggregate<T>(value: T -> real): set<T> -> real { (s: set<T>) => Sum(s, value) }

  ghost function DistinctAggregate<T(!new), U>(uid: T -> Option<U>): set<T> -> real {
    (s: set<T>) => |Users(s, uid)| as real
  }

  lemma {:induction false} SumOfSame<T>(s: set<T>, f: T -> real, g: T -> real)
    requires forall x :: x in s ==> f(x) == g(x)
    ensures Sum(s, f) == Sum(s, g)
    decreases |s|
  {
    if s != {} {
      var x := Member(s);
      assert s == (s - {x}) + {x};
      SumOfSame(s - {x}, f, g);
      SumAdd(s - {x}, x, f);
      SumAdd(s - {x}, x, g);
    }
  }

  /** The rewritten query has the groups of the flat one, and in each the sum over its buckets. */
  lemma OuterOfInner<T(!new), K(!new)>(rows: set<T>, key: T -> K, bucket: T -> int, aggregate: set<T> -> real,
                                       parts: int -> real, k: K)
    requires forall b :: parts(b) == aggregate(InBucket(GroupOf(rows, key, k), bucket, b))
    ensures var outer := Outer(Inner(rows, key, bucket, aggregate));
      && (k in outer <==> k in Flat(rows, key, aggregate))
      && (k in outer ==> outer[k] == Sum(BucketsOf(GroupOf(rows, key, k), bucket), parts))
  {
    var inner, group := Inner(rows, key, bucket, aggregate), GroupOf(rows, key, k);
    forall b ensures b in PartsOf(inner, k) <==> b in BucketsOf(group, bucket) {
      if b in PartsOf(inner, k) {
        assert (k, b) in inner;
        var x :| x in rows && (key(x), bucket(x)) == (k, b);
        assert x in group;
      }
      if b in BucketsOf(group, bucket) {
        var x :| x in group && bucket(x) == b;
        assert (key(x), bucket(x)) in inner;
      }
    }
    assert PartsOf(inner, k) == BucketsOf(group, bucket);
    SumOfSame(PartsOf(inner, k), PartAt(inner, k), parts);
    forall x | x in rows && key(x) == k ensures k in Outer(inner) {
      assert (k, bucket(x)) in inner;
    }
  }

  /** The two-level sum is the flat one, group by group, for any bucketing. */
  lemma SplitSumQuery<T(!new), K(!new)>(rows: set<T>, key: T -> K, bucket: T -> int, value: T -> real)
    ensures Outer(Inner(rows, key, bucket, SumAggregate(value))) == Flat(rows, key, SumAggregate(value))
  {
    var outer, flat := Outer(Inner(rows, key, bucket, SumAggregate(value))), Flat(rows, key, SumAggregate(value));
    forall k ensures (k in outer <==> k in flat) && (k in outer ==> outer[k] == flat[k]) {
      var group := GroupOf(rows, key, k);
      OuterOfInner(rows, key, bucket, SumAggregate(value), PartialSum(group, bucket, value), k);
      SplitSumIsTheSum(group, bucket, value);
    }
  }

  lemma DistinctOfGroup<T(!new), K(!new), U>(rows: set<T>, key: T -> K, bucket: T -> int, uid: T -> Option<U>, k: K)
    ensures var outer, flat := Outer(Inner(rows, key, bucket, DistinctAggregate(uid))),
                               Flat(rows, key, DistinctAggregate(uid));
      && (k in outer <==> k in flat)
      && (k in outer ==> (outer[k] == flat[k] <==> Unsplit(GroupOf(rows, key, k), bucket, uid)))
  {
    var group := GroupOf(rows, key, k);
    OuterOfInner(rows, key, bucket, DistinctAggregate(uid), PartialDistinct(group, bucket, uid), k);
    SplitDistinctIsExactIffUnsplit(group, bucket, uid);
  }

  ghost function UnsplitGroup<T(!new), K, U>(
      rows: set<T>, key: T -> K, bucket: T -> int, uid: T -> Option<U>): K -> bool
  {
    (k: K) => Unsplit(GroupOf(rows, key, k), bucket, uid)
  }

  lemma SameMapsIff<K(!new)>(a: map<K, real>, b: map<K, real>, good: K -> bool)
    requires forall k :: k in a <==> k in b
    requires forall k :: if k in a then a[k] == b[k] <==> good(k) else good(k)
    ensures a == b <==> forall k :: good(k)
  {
    if forall k :: good(k) {
      forall k ensures k in a ==> k in b && a[k] == b[k] {
        assert good(k);
      }
    }
  }

  /** The two-level distinct count is the flat one exactly when no group has a user in two buckets. */
  lemma SplitDistinctQuery<T(!new), K(!new), U>(rows: set<T>, key: T -> K, bucket: T -> int, uid: T -> Option<U>)
    ensures Outer(Inner(rows, key, bucket, DistinctAggregate(uid))) == Flat(rows, key, DistinctAggregate(uid))
       <==> forall k :: UnsplitGroup(rows, key, bucket, uid)(k)
  {
    var outer, flat := Outer(Inner(rows, key, bucket, DistinctAggregate(uid))), Flat(rows, key, DistinctAggregate(uid));
    var good := UnsplitGroup(rows, key, bucket, uid);
    forall k
      ensures (k in outer <==> k in flat)
      ensures if k in outer then outer[k] == flat[k] <==> good(k) else good(k)
    {
      DistinctOfGroup(rows, key, bucket, uid, k);
      if k !in flat {
        assert GroupOf(rows, key, k) == {};
      }
    }
    SameMapsIff(outer, flat, good);
  }
}
