/** What it means to keep the `n` rows with the largest sales, ties broken in any way. Rows are told
    apart by identity, so a table is a set. */
module TopRows {

  ghost predicate IsTop<T(!new)>(kept: set<T>, rows: set<T>, n: nat, sales: T -> int) {
    && kept <= rows && |kept| == (if |rows| <= n then |rows| else n)
    && forall x, y :: x in kept && y in rows - kept ==> sales(y) <= sales(x)
  }

  ghost function AtLeast<T>(rows: set<T>, sales: T -> int, t: int): (s: set<T>)
    ensures s <= rows
  {
    set x | x in rows && t <= sales(x)
  }

  lemma SubsetCardinality<T>(a: set<T>, b: set<T>)
    requires a <= b
    ensures |a| <= |b| && (|a| == |b| ==> a == b)
  {
    assert b == a + (b - a);
  }

  /** For every threshold the number kept at or above it is what it must be; this fixes the kept sales
      as a multiset. */
  lemma TopCounts<T(!new)>(kept: set<T>, rows: set<T>, n: nat, sales: T -> int, t: int)
    requires IsTop(kept, rows, n, sales)
    ensures var m := |AtLeast(rows, sales, t)|; |AtLeast(kept, sales, t)| == if m <= n then m else n
  {
    var all := AtLeast(rows, sales, t);
    SubsetCardinality(kept, rows);
    if x :| x in kept && sales(x) < t {
      assert AtLeast(kept, sales, t) == all;
      SubsetCardinality(all, kept);
    } else {
      assert AtLeast(kept, sales, t) == kept;
      SubsetCardinality(kept, all);
      SubsetCardinality(all, rows);
    }
  }

  /** Any two choices of the top rows have the same sales. */
  lemma TopIsUnique<T(!new)>(a: set<T>, b: set<T>, rows: set<T>, n: nat, sales: T -> int, t: int)
    requires IsTop(a, rows, n, sales) && IsTop(b, rows, n, sales)
    ensures |AtLeast(a, sales, t)| == |AtLeast(b, sales, t)|
  {
    TopCounts(a, rows, n, sales, t);
    TopCounts(b, rows, n, sales, t);
  }

  /** The condition on counts is also enough: rows kept with these counts are top rows. */
  lemma CountsMakeTop<T(!new)>(kept: set<T>, rows: set<T>, n: nat, sales: T -> int)
    requires kept <= rows && |kept| == (if |rows| <= n then |rows| else n)
    requires forall t :: |AtLeast(kept, sales, t)| >=
               if |AtLeast(rows, sales, t)| <= |kept| then |AtLeast(rows, sales, t)| else |kept|
    ensures IsTop(kept, rows, n, sales)
  {
    forall x, y | x in kept && y in rows - kept ensures sales(y) <= sales(x) {
      var t := sales(y);
      var a, b := AtLeast(kept, sales, t), AtLeast(rows, sales, t);
      assert a <= b && y in b && y !in a;
      SubsetCardinality(a, b);
      SubsetCardinality(a, kept);
      assert |a| == |kept|;
      assert x in a;
    }
  }
}
