/** The broadcast-rule matcher: rules and items arrive in any order; for every rule and colour an item
    of the rule's first shape is paired with the next item of that colour that has the second shape. */
module PatternMatcher {

  datatype Color = RED | GREEN | BLUE

  datatype Shape = RECTANGLE | TRIANGLE | CIRCLE

  datatype Item = Item(color: Color, shape: Shape)

  datatype Rule = Rule(first: Shape, second: Shape)

  /** A pair that was put out, and the number of the rule that did it (the printed text leaves it out). */
  datatype Match = Match(rule: nat, first: Item, second: Item)

  datatype Event = RuleArrives(rule: Rule) | ItemArrives(item: Item)

  // ---------------------------------------------------------------- what should be put out

  /** `i` is of the first shape and `j` is the first item after it of the second shape. */
  ghost predicate IsMatch(rule: Rule, items: seq<Item>, i: nat, j: nat) {
    && i < j < |items| && items[i].shape == rule.first && items[j].shape == rule.second
    && forall m :: i < m < j ==> items[m].shape != rule.second
  }

  /** `i` is of the first shape and nothing after it is of the second. */
  ghost predicate IsWaiting(rule: Rule, items: seq<Item>, i: nat) {
    && i < |items| && items[i].shape == rule.first
    && forall m :: i < m < |items| ==> items[m].shape != rule.second
  }

  /** The waiting positions, in order. */
  ghost function Waiting(rule: Rule, items: seq<Item>): seq<nat> {
    if items == [] then []
    else
      var n := |items| - 1;
      (if items[n].shape == rule.second then [] else Waiting(rule, items[..n])) +
      (if items[n].shape == rule.first then [n] else [])
  }

  ghost function PairUp(firsts: seq<nat>, j: nat): seq<(nat, nat)> {
    if firsts == [] then [] else PairUp(firsts[..|firsts| - 1], j) + [(firsts[|firsts| - 1], j)]
  }

  /** The matching positions, in the order in which the second item arrives. */
  ghost function Pairs(rule: Rule, items: seq<Item>): seq<(nat, nat)> {
    if items == [] then []
    else
      var n := |items| - 1;
      Pairs(rule, items[..n]) + if items[n].shape == rule.second then PairUp(Waiting(rule, items[..n]), n) else []
  }

  lemma {:induction false} WaitingIs(rule: Rule, items: seq<Item>, i: nat)
    ensures i in Waiting(rule, items) <==> IsWaiting(rule, items, i)
  {
    if items != [] {
      var n := |items| - 1;
      WaitingIs(rule, items[..n], i);
      if i < n && items[n].shape != rule.second {
        assert IsWaiting(rule, items, i) <==> IsWaiting(rule, items[..n], i);
      }
    }
  }

  lemma {:induction false} PairUpIs(firsts: seq<nat>, j: nat, p: (nat, nat))
    ensures p in PairUp(firsts, j) <==> p.0 in firsts && p.1 == j
  {
    if firsts != [] {
      PairUpIs(firsts[..|firsts| - 1], j, p);
      assert firsts == firsts[..|firsts| - 1] + [firsts[|firsts| - 1]];
    }
  }

  /** Exactly the matches are paired. */
  lemma {:induction false} PairsAreMatches(rule: Rule, items: seq<Item>, i: nat, j: nat)
    ensures (i, j) in Pairs(rule, items) <==> IsMatch(rule, items, i, j)
  {
    if items != [] {
      var n := |items| - 1;
      PairsAreMatches(rule, items[..n], i, j);
      WaitingIs(rule, items[..n], i);
      PairUpIs(Waiting(rule, items[..n]), n, (i, j));
      if j < n {
        assert IsMatch(rule, items, i, j) <==> IsMatch(rule, items[..n], i, j);
      }
      if j == n && items[n].shape == rule.second {
        assert IsMatch(rule, items, i, j) <==> IsWaiting(rule, items[..n], i);
      }
    }
  }

  ghost predicate Before(p: (nat, nat), q: (nat, nat)) { p.1 < q.1 || (p.1 == q.1 && p.0 < q.0) }

  ghost predicate Ordered(pairs: seq<(nat, nat)>) { forall a, b :: 0 <= a < b < |pairs| ==> Before(pairs[a], pairs[b]) }

  ghost predicate Increasing(positions: seq<nat>, n: nat) {
    && (forall a, b :: 0 <= a < b < |positions| ==> positions[a] < positions[b])
    && (forall a :: 0 <= a < |positions| ==> positions[a] < n)
  }

  lemma {:induction false} WaitingIsIncreasing(rule: Rule, items: seq<Item>)
    ensures Increasing(Waiting(rule, items), |items|)
  {
    if items != [] {
      var n := |items| - 1;
      WaitingIsIncreasing(rule, items[..n]);
      assert Increasing(Waiting(rule, items[..n]), n);
    }
  }

  lemma {:induction false} PairUpIsOrdered(firsts: seq<nat>, j: nat)
    requires Increasing(firsts, j)
    ensures |PairUp(firsts, j)| == |firsts|
    ensures forall a :: 0 <= a < |firsts| ==> PairUp(firsts, j)[a] == (firsts[a], j)
    ensures Ordered(PairUp(firsts, j))
  {
    if firsts != [] {
      PairUpIsOrdered(firsts[..|firsts| - 1], j);
    }
  }

  /** No match is put out twice, and they come in order of arrival. */
  lemma {:induction false} PairsAreOrdered(rule: Rule, items: seq<Item>)
    ensures Ordered(Pairs(rule, items))
    ensures forall a :: 0 <= a < |Pairs(rule, items)| ==> Pairs(rule, items)[a].1 < |items|
  {
    if items != [] {
      var n := |items| - 1;
      PairsAreOrdered(rule, items[..n]);
      WaitingIsIncreasing(rule, items[..n]);
      PairUpIsOrdered(Waiting(rule, items[..n]), n);
    }
  }

  // ---------------------------------------------------------------- one rule, one colour

  /** The list kept for a rule, and the pairs put out for it. */
  datatype Tracked = Tracked(partial: seq<Item>, matched: seq<(Item, Item)>)

  function With(firsts: seq<Item>, second: Item): seq<(Item, Item)> {
    if firsts == [] then [] else With(firsts[..|firsts| - 1], second) + [(firsts[|firsts| - 1], second)]
  }

  /** One item: it completes what waits, and then may wait itself. */
  function Next(rule: Rule, t: Tracked, item: Item): Tracked {
    var hit := item.shape == rule.second;
    Tracked((if hit then [] else t.partial) + (if item.shape == rule.first then [item] else []),
            t.matched + if hit then With(t.partial, item) else [])
  }

  function Track(rule: Rule, items: seq<Item>): Tracked {
    if items == [] then Tracked([], [])
    else Next(rule, Track(rule, items[..|items| - 1]), items[|items| - 1])
  }

  /** The items at some positions, and the pairs at some pairs of positions. */
  ghost function ItemsAt(items: seq<Item>, positions: seq<nat>): seq<Item>
    requires Increasing(positions, |items|)
  {
    if positions == [] then []
    else ItemsAt(items, positions[..|positions| - 1]) + [items[positions[|positions| - 1]]]
  }

  ghost predicate InRange(pairs: seq<(nat, nat)>, n: nat) {
    forall a :: 0 <= a < |pairs| ==> pairs[a].0 < n && pairs[a].1 < n
  }

  ghost function PairsAt(items: seq<Item>, pairs: seq<(nat, nat)>): seq<(Item, Item)>
    requires InRange(pairs, |items|)
  {
    if pairs == [] then []
    else
      var p := pairs[|pairs| - 1];
      PairsAt(items, pairs[..|pairs| - 1]) + [(items[p.0], items[p.1])]
  }

  lemma {:induction false} ItemsAtOfLonger(items: seq<Item>, n: nat, positions: seq<nat>)
    requires n <= |items| && Increasing(positions, n)
    ensures ItemsAt(items, positions) == ItemsAt(items[..n], positions)
  {
    if positions != [] {
      ItemsAtOfLonger(items, n, positions[..|positions| - 1]);
    }
  }

  lemma {:induction false} PairsAtOfLonger(items: seq<Item>, n: nat, pairs: seq<(nat, nat)>)
    requires n <= |items| && InRange(pairs, n)
    ensures PairsAt(items, pairs) == PairsAt(items[..n], pairs)
  {
    if pairs != [] {
      PairsAtOfLonger(items, n, pairs[..|pairs| - 1]);
    }
  }

  lemma {:induction false} PairsAtOfConcat(items: seq<Item>, a: seq<(nat, nat)>, b: seq<(nat, nat)>)
    requires InRange(a, |items|) && InRange(b, |items|)
    ensures InRange(a + b, |items|) && PairsAt(items, a + b) == PairsAt(items, a) + PairsAt(items, b)
  {
    if b == [] {
      assert a + b == a;
    } else {
      var k := |b| - 1;
      assert (a + b)[..|a + b| - 1] == a + b[..k];
      PairsAtOfConcat(items, a, b[..k]);
    }
  }

  lemma {:induction false} PairUpIsWith(items: seq<Item>, firsts: seq<nat>, j: nat)
    requires j < |items| && Increasing(firsts, j)
    ensures InRange(PairUp(firsts, j), |items|)
    ensures PairsAt(items, PairUp(firsts, j)) == With(ItemsAt(items[..j], firsts), items[j])
  {
    PairUpIsOrdered(firsts, j);
    if firsts != [] {
      var k := |firsts| - 1;
      PairUpIsWith(items, firsts[..k], j);
      var a := ItemsAt(items[..j], firsts);
      assert a[..|a| - 1] == ItemsAt(items[..j], firsts[..k]);
    }
  }

  /** The incremental form keeps the items at the waiting positions and puts out the matches. */
  lemma {:induction false} TrackIsTheMatches(rule: Rule, items: seq<Item>)
    ensures Increasing(Waiting(rule, items), |items|) && InRange(Pairs(rule, items), |items|)
    ensures Track(rule, items).partial == ItemsAt(items, Waiting(rule, items))
    ensures Track(rule, items).matched == PairsAt(items, Pairs(rule, items))
  {
    WaitingIsIncreasing(rule, items);
    if items != [] {
      var n := |items| - 1;
      TrackIsTheMatches(rule, items[..n]);
      WaitingStep(rule, items);
      PairsStep(rule, items);
    }
  }

  lemma WaitingStep(rule: Rule, items: seq<Item>)
    requires items != []
    requires var n := |items| - 1;
      Increasing(Waiting(rule, items[..n]), n) &&
      Track(rule, items[..n]).partial == ItemsAt(items[..n], Waiting(rule, items[..n]))
    ensures Increasing(Waiting(rule, items), |items|)
    ensures Track(rule, items).partial == ItemsAt(items, Waiting(rule, items))
  {
    var n := |items| - 1;
    var kept := if items[n].shape == rule.second then [] else Waiting(rule, items[..n]);
    ItemsAtOfLonger(items, n, kept);
    WaitingIsIncreasing(rule, items);
    if items[n].shape == rule.first {
      assert (kept + [n])[..|kept|] == kept;
    } else {
      assert kept + [] == kept;
    }
  }

  lemma PairsStep(rule: Rule, items: seq<Item>)
    requires items != []
    requires var n := |items| - 1;
      Increasing(Waiting(rule, items[..n]), n) && InRange(Pairs(rule, items[..n]), n) &&
      Track(rule, items[..n]).partial == ItemsAt(items[..n], Waiting(rule, items[..n])) &&
      Track(rule, items[..n]).matched == PairsAt(items[..n], Pairs(rule, items[..n]))
    ensures InRange(Pairs(rule, items), |items|)
    ensures Track(rule, items).matched == PairsAt(items, Pairs(rule, items))
  {
    var n := |items| - 1;
    var w, before := Waiting(rule, items[..n]), Pairs(rule, items[..n]);
    PairsAtOfLonger(items, n, before);
    PairUpIsWith(items, w, n);
    PairsAtOfConcat(items, before, if items[n].shape == rule.second then PairUp(w, n) else []);
  }

  /** What is put out for the items of one colour since the rule: one pair for each match, none twice, in
      the order of arrival. */
  lemma MatchesAreExact(rule: Rule, items: seq<Item>)
    ensures InRange(Pairs(rule, items), |items|) && Ordered(Pairs(rule, items))
    ensures forall i: nat, j: nat :: (i, j) in Pairs(rule, items) <==> IsMatch(rule, items, i, j)
    ensures Track(rule, items).matched == PairsAt(items, Pairs(rule, items))
  {
    TrackIsTheMatches(rule, items);
    PairsAreOrdered(rule, items);
    forall i: nat, j: nat ensures (i, j) in Pairs(rule, items) <==> IsMatch(rule, items, i, j) {
      PairsAreMatches(rule, items, i, j);
    }
  }

  // ---------------------------------------------------------------- histories

  /** The rules of a history, in order of arrival. */
  ghost function Rules(history: seq<Event>): seq<Rule> {
    if history == [] then []
    else
      var e := history[|history| - 1];
      Rules(history[..|history| - 1]) + if e.RuleArrives? then [e.rule] else []
  }

  /** The items of a colour that arrive after rule `k` does. */
  ghost function Since(history: seq<Event>, k: nat, color: Color): seq<Item> {
    if history == [] || k >= |Rules(history[..|history| - 1])| then []
    else
      var e := history[|history| - 1];
      Since(history[..|history| - 1], k, color) + if e.ItemArrives? && e.item.color == color then [e.item] else []
  }

  /** What was put out for a rule and a colour. */
  function PutOut(out: seq<Match>, k: nat, color: Color): seq<(Item, Item)> {
    if out == [] then []
    else
      var m := out[|out| - 1];
      PutOut(out[..|out| - 1], k, color) + if m.rule == k && m.second.color == color then [(m.first, m.second)] else []
  }

  lemma RuleAdded(history: seq<Event>, rule: Rule)
    ensures Rules(history + [RuleArrives(rule)]) == Rules(history) + [rule]
    ensures forall k: nat, color :: Since(history + [RuleArrives(rule)], k, color) ==
              if k < |Rules(history)| then Since(history, k, color) else []
  {
    assert (history + [RuleArrives(rule)])[..|history|] == history;
  }

  lemma ItemAdded(history: seq<Event>, item: Item)
    ensures Rules(history + [ItemArrives(item)]) == Rules(history)
    ensures forall k: nat, color :: k < |Rules(history)| ==>
      Since(history + [ItemArrives(item)], k, color) ==
      Since(history, k, color) + if item.color == color then [item] else []
  {
    assert (history + [ItemArrives(item)])[..|history|] == history;
  }

  /** The broadcast map holds the rules that arrived under their numbers. */
  ghost predicate RulesAre(counter: nat, ruleState: map<nat, Rule>, rules: seq<Rule>) {
    && counter == |rules|
    && (forall k: nat :: k in ruleState <==> k < counter)
    && (forall k: nat :: k < counter ==> ruleState[k] == rules[k])
  }

  lemma RulesGrow(counter: nat, ruleState: map<nat, Rule>, rules: seq<Rule>, rule: Rule)
    requires RulesAre(counter, ruleState, rules)
    ensures RulesAre(counter + 1, ruleState[counter := rule], rules + [rule])
  {
  }

  /** What is kept and was put out for rule `k` and a colour. */
  ghost function View(partials: map<(Color, nat), seq<Item>>, out: seq<Match>, k: nat, color: Color): Tracked {
    Tracked(if (color, k) in partials then partials[(color, k)] else [], PutOut(out, k, color))
  }

  /** The lists kept and the pairs put out are those of the items since each rule. */
  ghost predicate ViewsOk(partials: map<(Color, nat), seq<Item>>, out: seq<Match>, history: seq<Event>) {
    forall k: nat, color :: View(partials, out, k, color)
      == if k < |Rules(history)| then Track(Rules(history)[k], Since(history, k, color)) else Tracked([], [])
  }

  /** Nothing is kept or put out for a rule that has just arrived. */
  lemma RuleKeepsViews(partials: map<(Color, nat), seq<Item>>, out: seq<Match>, history: seq<Event>, rule: Rule)
    requires ViewsOk(partials, out, history)
    ensures ViewsOk(partials, out, history + [RuleArrives(rule)])
  {
    RuleAdded(history, rule);
  }

  lemma ItemKeepsViews(partials: map<(Color, nat), seq<Item>>, out: seq<Match>,
                       later: map<(Color, nat), seq<Item>>, laterOut: seq<Match>, history: seq<Event>, item: Item)
    requires ViewsOk(partials, out, history)
    requires forall k: nat, color :: View(later, laterOut, k, color) ==
               if k < |Rules(history)| && color == item.color
               then Next(Rules(history)[k], View(partials, out, k, color), item) else View(partials, out, k, color)
    ensures ViewsOk(later, laterOut, history + [ItemArrives(item)])
  {
    ItemAdded(history, item);
    forall k: nat, color | k < |Rules(history)|
      ensures View(later, laterOut, k, color)
           == Track(Rules(history)[k], Since(history + [ItemArrives(item)], k, color))
    {
      assert (Since(history, k, color) + [item])[..|Since(history, k, color)|] == Since(history, k, color);
      assert Since(history, k, color) + [] == Since(history, k, color);
    }
  }

  // ---------------------------------------------------------------- the operator

  class MatchFunction {
    var counter: nat
    /** `RulesBroadcastState`; the number stands for the key `Rule_<number>`. */
    var ruleState: map<nat, Rule>
    /** The map state `items` of every colour. */
    var partialMatches: map<(Color, nat), seq<Item>>
    var out: seq<Match>
    ghost var history: seq<Event>

    ghost function Shown(k: nat, color: Color): Tracked
      reads this`partialMatches, this`out
    {
      View(partialMatches, out, k, color)
    }

    ghost predicate RulesOk()
      reads this`counter, this`ruleState, this`history
    {
      RulesAre(counter, ruleState, Rules(history))
    }

    /** Besides, no empty list is kept. */
    ghost predicate Valid()
      reads this
    {
      RulesOk() && ViewsOk(partialMatches, out, history) && forall x :: x in partialMatches ==> partialMatches[x] != []
    }

    constructor ()
      ensures Valid() && history == [] && out == []
    {
      counter, ruleState, partialMatches, out, history := 0, map[], map[], [], [];
    }

    method ProcessBroadcastElement(rule: Rule)
      requires Valid()
      modifies this
      ensures Valid() && history == old(history) + [RuleArrives(rule)] && out == old(out)
    {
      RuleAdded(history, rule);
      RuleKeepsViews(partialMatches, out, history, rule);
      RulesGrow(counter, ruleState, Rules(history), rule);
      history := history + [RuleArrives(rule)];
      ruleState := ruleState[counter := rule];
      counter := counter + 1;
    }

    /** Puts out a pair for every waiting item. */
    method Collect(k: nat, partials: seq<Item>, item: Item)
      modifies this`out
      ensures PutOut(out, k, item.color) == old(PutOut(out, k, item.color)) + With(partials, item)
      ensures forall j: nat, color ::
        j != k || color != item.color ==> PutOut(out, j, color) == old(PutOut(out, j, color))
    {
      for i := 0 to |partials|
        invariant PutOut(out, k, item.color) == old(PutOut(out, k, item.color)) + With(partials[..i], item)
        invariant forall j: nat, color :: j != k || color != item.color ==>
                    PutOut(out, j, color) == old(PutOut(out, j, color))
      {
        var m := Match(k, partials[i], item);
        forall j: nat, color
          ensures PutOut(out + [m], j, color)
               == PutOut(out, j, color) + if j == k && item.color == color then [(m.first, item)] else []
        {
          assert (out + [m])[..|out|] == out;
        }
        assert partials[..i + 1][..i] == partials[..i];
        out := out + [m];
      }
      assert partials[..|partials|] == partials;
    }

    /** The body of the loop over the rules. */
    method ApplyRule(k: nat, item: Item)
      requires k in ruleState && forall x :: x in partialMatches ==> partialMatches[x] != []
      modifies this`out, this`partialMatches
      ensures Shown(k, item.color) == Next(ruleState[k], old(Shown(k, item.color)), item)
      ensures forall j: nat, color :: j != k || color != item.color ==> Shown(j, color) == old(Shown(j, color))
      ensures forall x :: x in partialMatches ==> partialMatches[x] != []
    {
      var rule := ruleState[k];
      var partials := if (item.color, k) in partialMatches then partialMatches[(item.color, k)] else [];
      if item.shape == rule.second && partials != [] {
        Collect(k, partials, item);
        partials := [];
      }
      if item.shape == rule.first {
        partials := partials + [item];
      }
      if partials == [] {
        partialMatches := partialMatches - {(item.color, k)};
      } else {
        partialMatches := partialMatches[(item.color, k) := partials];
      }
    }

    /** The loop over the rules, which are visited in any order. */
    method ApplyRules(item: Item)
      requires forall x :: x in partialMatches ==> partialMatches[x] != []
      modifies this`out, this`partialMatches
      ensures forall x :: x in partialMatches ==> partialMatches[x] != []
      ensures forall k: nat, color :: k !in ruleState || color != item.color ==> Shown(k, color) == old(Shown(k, color))
      ensures forall k: nat :: k in ruleState ==>
                Shown(k, item.color) == Next(ruleState[k], old(Shown(k, item.color)), item)
    {
      var todo := ruleState.Keys;
      while todo != {}
        invariant todo <= ruleState.Keys
        invariant forall x :: x in partialMatches ==> partialMatches[x] != []
        invariant forall k: nat, color :: k in todo || color != item.color || k !in ruleState ==>
                    Shown(k, color) == old(Shown(k, color))
        invariant forall k: nat :: k in ruleState && k !in todo ==>
                    Shown(k, item.color) == Next(ruleState[k], old(Shown(k, item.color)), item)
        decreases |todo|
      {
        var k :| k in todo;
        ApplyRule(k, item);
        todo := todo - {k};
      }
    }

    method ProcessElement(item: Item)
      requires Valid()
      modifies this
      ensures Valid() && history == old(history) + [ItemArrives(item)]
    {
      ItemAdded(history, item);
      ApplyRules(item);
      forall k: nat, color
        ensures View(partialMatches, out, k, color) ==
                  if k < counter && color == item.color
                  then Next(Rules(history)[k], View(old(partialMatches), old(out), k, color), item)
                  else View(old(partialMatches), old(out), k, color)
      {
        assert Shown(k, color) == View(partialMatches, out, k, color);
        assert old(Shown(k, color)) == View(old(partialMatches), old(out), k, color);
      }
      ItemKeepsViews(old(partialMatches), old(out), partialMatches, out, history, item);
      history := history + [ItemArrives(item)];
    }

    /** After any rules and items in any order, each rule has put out, for each colour, exactly the
        matches among the items that came after it. */
    method Process(events: seq<Event>)
      requires Valid() && history == [] && out == []
      modifies this
      ensures Valid() && history == events
      ensures forall k: nat, color :: k < |Rules(events)| ==>
                && InRange(Pairs(Rules(events)[k], Since(events, k, color)), |Since(events, k, color)|)
                && PutOut(out, k, color)
                   == PairsAt(Since(events, k, color), Pairs(Rules(events)[k], Since(events, k, color)))
    {
      for i := 0 to |events|
        invariant Valid() && history == events[..i]
      {
        assert events[..i + 1] == events[..i] + [events[i]];
        match events[i]
        case RuleArrives(rule) => ProcessBroadcastElement(rule);
        case ItemArrives(item) => ProcessElement(item);
      }
      assert events[..|events|] == events;
      forall k: nat, color | k < |Rules(events)|
        ensures InRange(Pairs(Rules(events)[k], Since(events, k, color)), |Since(events, k, color)|)
        ensures PutOut(out, k, color)
             == PairsAt(Since(events, k, color), Pairs(Rules(events)[k], Since(events, k, color)))
      {
        MatchesAreExact(Rules(events)[k], Since(events, k, color));
        assert View(partialMatches, out, k, color) == Track(Rules(history)[k], Since(history, k, color));
      }
    }
  }
}
