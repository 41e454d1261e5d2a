/** The top-N aggregate function: a bounded heap of commodities and the list that was last put out, from
    which changes are retracted and collected. */
module TopN {
  import opened TopRows

  /** A commodity object; `id` stands for its identity, by which `contains` compares. */
  datatype Commodity = Commodity(id: nat, atime: int, pid: string, sales: int)

  datatype Row = Row(atime: int, pid: string, sales: int)

  function RowOf(c: Commodity): Row { Row(c.atime, c.pid, c.sales) }

  datatype Change = Retract(row: Row) | Collect(row: Row)

  /** What a downstream table holds after some changes. */
  ghost function View(out: seq<Change>): multiset<Row> {
    if out == [] then multiset{}
    else
      var before, last := View(out[..|out| - 1]), out[|out| - 1];
      if last.Retract? then before - multiset{last.row} else before + multiset{last.row}
  }

  /** Every retraction finds its row. */
  ghost predicate Sound(out: seq<Change>) {
    forall i :: 0 <= i < |out| && out[i].Retract? ==> out[i].row in View(out[..i])
  }

  /** The rows of a set of commodities, with their multiplicity. */
  ghost function RowsOf(s: set<Commodity>): multiset<Row> {
    if s == {} then multiset{}
    else
      var x :| x in s;
      RowsOf(s - {x}) + multiset{RowOf(x)}
  }

  lemma {:induction false} RowsOfAdd(s: set<Commodity>, x: Commodity)
    requires x !in s
    ensures RowsOf(s + {x}) == RowsOf(s) + multiset{RowOf(x)}
    decreases |s|
  {
    assert x in s + {x};
    var y :| y in s + {x} && RowsOf(s + {x}) == RowsOf(s + {x} - {y}) + multiset{RowOf(y)};
    if y == x {
      assert s + {x} - {x} == s;
    } else {
      assert s + {x} - {y} == (s - {y}) + {x} && s == (s - {y}) + {y};
      RowsOfAdd(s - {y}, x);
      RowsOfAdd(s - {y}, y);
    }
  }

  lemma RowsOfRemove(s: set<Commodity>, x: Commodity)
    requires x in s
    ensures RowsOf(s - {x}) == RowsOf(s) - multiset{RowOf(x)} && RowOf(x) in RowsOf(s)
  {
    RowsOfAdd(s - {x}, x);
    assert s - {x} + {x} == s;
  }

  lemma ViewOne(out: seq<Change>, c: Change)
    requires Sound(out) && (c.Retract? ==> c.row in View(out))
    ensures Sound(out + [c])
    ensures View(out + [c]) == if c.Retract? then View(out) - multiset{c.row} else View(out) + multiset{c.row}
  {
    assert (out + [c])[..|out|] == out;
    assert forall i :: 0 <= i < |out| ==> (out + [c])[..i] == out[..i];
  }

  ghost function Elements(s: seq<Commodity>): set<Commodity> { set x | x in s }

  lemma ElementsOne(s: seq<Commodity>, c: Commodity)
    ensures Elements(s + [c]) == Elements(s) + {c}
  {
  }

  /** The changes are sound and leave exactly the rows of `s` downstream. */
  ghost predicate Shows(out: seq<Change>, s: set<Commodity>) { Sound(out) && View(out) == RowsOf(s) }

  lemma ShowsLess(out: seq<Change>, s: set<Commodity>, x: Commodity)
    requires Shows(out, s) && x in s
    ensures Shows(out + [Retract(RowOf(x))], s - {x})
  {
    RowsOfRemove(s, x);
    ViewOne(out, Retract(RowOf(x)));
  }

  lemma ShowsMore(out: seq<Change>, s: set<Commodity>, x: Commodity)
    requires Shows(out, s) && x !in s
    ensures Shows(out + [Collect(RowOf(x))], s + {x})
  {
    RowsOfAdd(s, x);
    ViewOne(out, Collect(RowOf(x)));
  }

  ghost predicate NoDuplicates(s: seq<Commodity>) { forall i, j :: 0 <= i < j < |s| ==> s[i] != s[j] }

  /** What is still shown when the first `i` of the last list have been looked at. */
  ghost function Shown(last: seq<Commodity>, i: nat, heap: set<Commodity>): set<Commodity>
    requires i <= |last|
  {
    Elements(last[i..]) + Elements(last[..i]) * heap
  }

  lemma ShownStep(last: seq<Commodity>, i: nat, heap: set<Commodity>)
    requires i < |last| && NoDuplicates(last)
    ensures last[i] in Shown(last, i, heap)
    ensures Shown(last, i + 1, heap) ==
            if last[i] in heap then Shown(last, i, heap) else Shown(last, i, heap) - {last[i]}
  {
    assert last[i..] == [last[i]] + last[i + 1..];
    assert last[..i + 1] == last[..i] + [last[i]];
    ElementsOne(last[..i], last[i]);
    assert Elements(last[i..]) == {last[i]} + Elements(last[i + 1..]);
    assert last[i] !in Elements(last[i + 1..]) && last[i] !in Elements(last[..i]);
  }

  function Sales(c: Commodity): int { c.sales }

  lemma {:induction false} LeastExists(heap: set<Commodity>)
    requires heap != {}
    ensures exists m :: m in heap && forall x :: x in heap ==> m.sales <= x.sales
    decreases |heap|
  {
    var y :| y in heap;
    if heap != {y} {
      assert heap - {y} != {};
      LeastExists(heap - {y});
      var m :| m in heap - {y} && forall x :: x in heap - {y} ==> m.sales <= x.sales;
      var least := if y.sales < m.sales then y else m;
      assert least in heap && forall x :: x in heap ==> least.sales <= x.sales;
    }
  }

  /** A heap that is not full takes any commodity. */
  lemma AddKeepsTop(heap: set<Commodity>, seen: set<Commodity>, n: nat, c: Commodity)
    requires IsTop(heap, seen, n, Sales) && |heap| < n && c !in seen
    ensures IsTop(heap + {c}, seen + {c}, n, Sales)
  {
    if |seen| > n {
    } else {
      SubsetCardinality(heap, seen);
    }
  }

  /** A full heap gives up one of its least for anything better. */
  lemma ReplaceKeepsTop(heap: set<Commodity>, seen: set<Commodity>, n: nat, c: Commodity, min: Commodity)
    requires IsTop(heap, seen, n, Sales) && |heap| >= n && c !in seen
    requires min in heap && forall x :: x in heap ==> min.sales <= x.sales
    ensures IsTop(if min.sales < c.sales then heap - {min} + {c} else heap, seen + {c}, n, Sales)
  {
    var kept := if min.sales < c.sales then heap - {min} + {c} else heap;
    forall x, y | x in kept && y in seen + {c} - kept ensures y.sales <= x.sales {
      assert y == c || y == min || y in seen - heap;
    }
  }

  // ---------------------------------------------------------------- the accumulator

  /** The accumulator, with the collector it emits to; `seen` is what has been accumulated. */
  class TopNAccumulator {
    const topSize: nat
    var heap: set<Commodity>
    var last: seq<Commodity>
    var created: nat
    var out: seq<Change>
    ghost var seen: set<Commodity>

    /** The heap holds the top of what was seen. */
    ghost predicate HeapOk()
      reads this`heap, this`seen, this`created
    {
      topSize > 0 && IsTop(heap, seen, topSize, Sales) && forall c :: c in seen ==> c.id < created
    }

    ghost predicate Valid()
      reads this
    {
      HeapOk() && NoDuplicates(last) && Shows(out, Elements(last))
    }

    constructor (topSize: nat)
      requires topSize > 0
      ensures Valid() && seen == {} && heap == {} && out == [] && this.topSize == topSize
    {
      this.topSize := topSize;
      heap, last, created, out, seen := {}, [], 0, [], {};
    }

    /** `peek`: any of the least elements may come first. */
    method Peek() returns (min: Commodity)
      requires heap != {}
      ensures min in heap && forall x :: x in heap ==> min.sales <= x.sales
    {
      LeastExists(heap);
      min :| min in heap && forall x :: x in heap ==> min.sales <= x.sales;
    }

    /** The branches of `accumulate`. */
    method Offer(added: Commodity)
      requires topSize > 0 && IsTop(heap, seen, topSize, Sales) && added !in seen
      modifies this`heap
      ensures IsTop(heap, seen + {added}, topSize, Sales) && heap <= old(heap) + {added}
      ensures forall x :: x in old(heap) - heap ==> x.sales < added.sales
    {
      if |heap| < topSize {
        AddKeepsTop(heap, seen, topSize, added);
        heap := heap + {added};
      } else {
        var min := Peek();
        ReplaceKeepsTop(heap, seen, topSize, added, min);
        if min.sales < added.sales {
          heap := heap - {min} + {added};
        }
      }
    }

    /** What is seen grows by one commodity with these values; it displaces only smaller sales. */
    method Accumulate(atime: int, pid: string, sales: int)
      requires Valid()
      modifies this`heap, this`created, this`seen
      ensures Valid()
      ensures exists c :: c !in old(seen) && RowOf(c) == Row(atime, pid, sales)
                          && seen == old(seen) + {c} && heap <= old(heap) + {c}
      ensures forall x :: x in old(heap) - heap ==> x.sales < sales
    {
      var added := Commodity(created, atime, pid, sales);
      assert added !in seen && forall c :: c in seen + {added} ==> c.id < created + 1;
      created := created + 1;
      Offer(added);
      seen := seen + {added};
      assert HeapOk();
      assert added !in old(seen) && RowOf(added) == Row(atime, pid, sales);
    }

    method RetractIfGone(i: nat)
      requires i < |last| && NoDuplicates(last) && Shows(out, Shown(last, i, heap))
      modifies this`out
      ensures Shows(out, Shown(last, i + 1, heap)) && old(out) <= out
    {
      ShownStep(last, i, heap);
      if last[i] !in heap {
        ShowsLess(out, Shown(last, i, heap), last[i]);
        out := out + [Retract(RowOf(last[i]))];
      }
    }

    /** Retracts what is no longer in the heap. */
    method RetractGone() returns (ghost kept: set<Commodity>)
      requires NoDuplicates(last) && Shows(out, Elements(last))
      modifies this`out
      ensures Shows(out, kept) && old(out) <= out
      ensures kept == Elements(last) * heap
    {
      kept := Elements(last);
      assert last[0..] == last && Shown(last, 0, heap) == Elements(last);
      for i := 0 to |last|
        invariant old(out) <= out && Shows(out, Shown(last, i, heap))
      {
        RetractIfGone(i);
      }
      assert last[..|last|] == last && Elements(last[|last|..]) == {};
      kept := Shown(last, |last|, heap);
    }

    /** Collects what was not put out before, in any order. */
    method CollectNew(ghost kept: set<Commodity>)
      requires Shows(out, kept) && kept == Elements(last) * heap
      modifies this`out
      ensures Shows(out, heap) && old(out) <= out
    {
      var todo := heap;
      ghost var shown := kept;
      while todo != {}
        invariant todo <= heap && old(out) <= out && Shows(out, shown)
        invariant forall x :: x in shown <==> x in heap && (x in last || x !in todo)
        decreases |todo|
      {
        var c :| c in todo;
        if last == [] || c !in last {
          ShowsMore(out, shown, c);
          out := out + [Collect(RowOf(c))];
          shown := shown + {c};
        }
        todo := todo - {c};
      }
      assert shown == heap;
    }

    /** Saves what is in the heap, in any order. */
    method Remember()
      modifies this`last
      ensures Elements(last) == heap
      ensures NoDuplicates(last)
    {
      last := [];
      var todo := heap;
      while todo != {}
        invariant todo <= heap && Elements(last) == heap - todo
        invariant NoDuplicates(last)
        decreases |todo|
      {
        var c :| c in todo;
        assert c !in Elements(last);
        ElementsOne(last, c);
        last := last + [c];
        todo := todo - {c};
      }
    }

    method EmitChanges()
      requires NoDuplicates(last) && Shows(out, Elements(last))
      modifies this`out
      ensures Shows(out, heap) && old(out) <= out
    {
      ghost var kept := RetractGone();
      CollectNew(kept);
    }

    /** The changes put out so far make up the heap again, whatever was accumulated since the last call. */
    method EmitUpdateWithRetract()
      requires Valid()
      modifies this`last, this`out
      ensures Valid() && old(out) <= out && Shows(out, heap)
    {
      EmitChanges();
      Remember();
    }
  }
}
