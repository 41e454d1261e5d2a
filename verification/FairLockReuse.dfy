/** The latch of a lock instance is counted down once and never reset. When is it safe to call `lock` on
    an instance that has waited before? */
module FairLockReuse {
  import opened Runs
  import opened ZnodeNames
  import opened FairLock

  /** The client holds the lock, or its next steps alone bring it there: its latch is counted down or is
      going to be, or it is to list the nodes and has the least. */
  ghost predicate CanBeGranted(w: World, h: nat) {
    h < |w.clients| &&
    match w.clients[h].phase
    case Outside => false
    case HasNode(n) => w.clients[h].spent || IsLeast(w.nodes, n)
    case MustWatch(_, _) => w.clients[h].spent
    case Awaiting(_, p) => w.clients[h].spent || (h, p) in w.fired
    case Holding(_) => true
  }

  ghost predicate LineIsStuck(w: World) { forall h: nat :: !CanBeGranted(w, h) }

  /** `lock` is called on a spent instance only when nobody can be granted the lock. */
  ghost predicate CarefulStep(w: World, e: Event) {
    e.Create? && Enabled(w, e) && w.clients[e.c].spent ==> LineIsStuck(w)
  }

  ghost predicate Careful(w: World, events: seq<Event>)
    decreases |events|
  {
    events == [] || (CarefulStep(w, events[0]) && Careful(Step(w, events[0]), events[1..]))
  }

  /** Whatever clients do from here on, with careful calls only, keeps the lock exclusive. */
  ghost predicate SafeForever(w: World) {
    forall events :: Careful(w, events) ==> Exclusive(Run(w, events))
  }

  // ---------------------------------------------------------------- when it is not safe

  /** What is not safe after a careful step is not safe before it. */
  lemma OneStepMore(w: World, e: Event)
    requires !SafeForever(Step(w, e)) && CarefulStep(w, e)
    ensures !SafeForever(w)
  {
    var events :| Careful(Step(w, e), events) && !Exclusive(Run(Step(w, e), events));
    assert ([e] + events)[1..] == events;
    assert Careful(w, [e] + events) && !Exclusive(Run(w, [e] + events));
  }

  /** A spent instance has created its node behind that of `h`. */
  ghost predicate SpentBehind(w: World, h: nat, c: nat) {
    && h < |w.clients| && c < |w.clients| && h != c && w.clients[c].spent && w.clients[c].phase.Waits()
    && (w.clients[c].phase.HasNode? ==> !IsLeast(w.nodes, w.clients[c].phase.n))
  }

  /** The spent instance does not wait, although another one holds the lock. */
  lemma SpentLatchDoesNotWait(w: World, h: nat, c: nat)
    requires SpentBehind(w, h, c) && w.clients[h].phase.Holding?
    ensures !SafeForever(w)
    decreases if w.clients[c].phase.HasNode? then 2 else if w.clients[c].phase.MustWatch? then 1 else 0
  {
    match w.clients[c].phase {
      case HasNode(_) =>
        SpentLatchDoesNotWait(Step(w, List(c)), h, c);
        OneStepMore(w, List(c));
      case MustWatch(_, _) =>
        SpentLatchDoesNotWait(Step(w, SetWatch(c)), h, c);
        OneStepMore(w, SetWatch(c));
      case Awaiting(_, _) =>
        var v := Step(w, Return(c));
        assert v.clients[c].phase.Holding? && v.clients[h].phase.Holding?;
        assert Careful(v, []) && !Exclusive(Run(v, []));
        OneStepMore(w, Return(c));
    }
  }

  ghost function StepsToGo(c: Client): nat {
    match c.phase
    case HasNode(_) => 4
    case MustWatch(_, _) => 3
    case Awaiting(_, _) => if c.spent then 1 else 2
    case _ => 0
  }

  /** The step by which a client comes nearer to the lock. */
  ghost function NextStep(w: World, h: nat): Event
    requires CanBeGranted(w, h) && !w.clients[h].phase.Holding?
  {
    match w.clients[h].phase
    case HasNode(_) => List(h)
    case MustWatch(_, _) => SetWatch(h)
    case Awaiting(_, p) => if w.clients[h].spent then Return(h) else Deliver(h, p)
  }

  /** First `h` comes to hold the lock, then the spent instance does not wait. */
  lemma {:induction false} NotSafeBehind(w: World, h: nat, c: nat)
    requires CanBeGranted(w, h) && SpentBehind(w, h, c)
    ensures !SafeForever(w)
    decreases StepsToGo(w.clients[h])
  {
    if w.clients[h].phase.Holding? {
      SpentLatchDoesNotWait(w, h, c);
    } else {
      var e := NextStep(w, h);
      NotSafeBehind(Step(w, e), h, c);
      OneStepMore(w, e);
    }
  }

  // ---------------------------------------------------------------- when it is safe

  /** `n` is the least number from `from` on. */
  ghost predicate LeastFrom(nodes: set<nat>, from: nat, n: nat) {
    from <= n && forall m :: m in nodes && from <= m ==> n <= m
  }

  /** A client beside a node that is never going to be deleted: only those from number `from` on can be
      granted the lock, and these in order. */
  ghost predicate BehindOk(w: World, from: nat, first: nat, c: Client) {
    && (!c.phase.Outside? ==> c.phase.n in w.nodes)
    && (c.phase.Holding? || (c.phase.Waits() && c.spent) ==> LeastFrom(w.nodes, from, c.phase.n))
    && (c.phase.HasNode? ==> c.phase.n != first)
    && (c.phase.MustWatch? || c.phase.Awaiting? ==> NextFrom(w.nodes, from, c.phase.n, c.phase.p))
  }

  ghost predicate NextFrom(nodes: set<nat>, from: nat, n: nat, p: nat) {
    && p < n && (forall m :: m in nodes ==> m <= p || n <= m)
    && (from <= n ==> p in nodes || LeastFrom(nodes, from, n))
  }

  ghost predicate BehindOwners(w: World, from: nat, first: nat) {
    && (forall c :: 0 <= c < |w.clients| ==> BehindOk(w, from, first, w.clients[c]))
    && (forall c, d :: 0 <= c < |w.clients| && 0 <= d < |w.clients| && c != d ==>
          Distinct(w.clients[c].phase, w.clients[d].phase))
  }

  ghost predicate BehindWatches(w: World, from: nat) {
    && (forall x :: x in w.watches ==> x.1 in w.nodes && (from <= x.1 ==> WaitsFor(w, x.0, x.1)))
    && (forall x :: x in w.fired ==> x.1 !in w.nodes && from <= x.1 && WaitsFor(w, x.0, x.1))
  }

  /** The least node `first` stays for ever, because its owner is not going to be granted the lock. */
  ghost predicate Behind(w: World, from: nat, first: nat) {
    && first in w.nodes && IsLeast(w.nodes, first) && first < from < w.next
    && (forall m :: m in w.nodes ==> m < w.next)
    && BehindOwners(w, from, first) && BehindWatches(w, from)
  }

  lemma BehindIsExclusive(w: World, from: nat, first: nat)
    requires Behind(w, from, first)
    ensures Exclusive(w)
  {
    forall c, d | 0 <= c < |w.clients| && 0 <= d < |w.clients| && w.clients[c].phase.Holding?
      && w.clients[d].phase.Holding? ensures c == d
    {
      assert BehindOk(w, from, first, w.clients[c]) && BehindOk(w, from, first, w.clients[d]);
      assert Distinct(w.clients[c].phase, w.clients[d].phase) || c == d;
    }
  }

  lemma BehindCreate(w: World, from: nat, first: nat, c: nat, n: nat)
    requires Behind(w, from, first) && Enabled(w, Create(c, n)) && !w.clients[c].spent
    ensures Behind(Created(w, c, n), from, first)
  {
    var v := Created(w, c, n);
    forall d | 0 <= d < |v.clients| ensures BehindOk(v, from, first, v.clients[d]) {
      assert BehindOk(w, from, first, w.clients[d]);
    }
  }

  lemma BehindList(w: World, from: nat, first: nat, c: nat)
    requires Behind(w, from, first) && Enabled(w, List(c))
    ensures Behind(Step(w, List(c)), from, first)
  {
    var n := w.clients[c].phase.n;
    assert BehindOk(w, from, first, w.clients[c]);
    var v := Moved(w, c, MustWatch(n, Predecessor(w.nodes, n)));
    forall d | 0 <= d < |v.clients| ensures BehindOk(v, from, first, v.clients[d]) {
      assert BehindOk(w, from, first, w.clients[d]);
    }
  }

  lemma BehindWatch(w: World, from: nat, first: nat, c: nat, n: nat, p: nat)
    requires Behind(w, from, first) && c < |w.clients| && w.clients[c].phase == MustWatch(n, p)
    ensures Behind(Watched(w, c, n, p), from, first)
  {
    var v := Watched(w, c, n, p);
    assert BehindOk(w, from, first, w.clients[c]);
    forall d | 0 <= d < |v.clients| ensures BehindOk(v, from, first, v.clients[d]) {
      assert BehindOk(w, from, first, w.clients[d]);
    }
  }

  lemma BehindDeliver(w: World, from: nat, first: nat, c: nat, p: nat)
    requires Behind(w, from, first) && c < |w.clients| && (c, p) in w.fired
    ensures Behind(Delivered(w, c, p), from, first)
  {
    var v := Delivered(w, c, p);
    assert BehindOk(w, from, first, w.clients[c]);
    forall d | 0 <= d < |v.clients| ensures BehindOk(v, from, first, v.clients[d]) {
      assert BehindOk(w, from, first, w.clients[d]);
    }
  }

  lemma BehindReturn(w: World, from: nat, first: nat, c: nat, n: nat)
    requires Behind(w, from, first) && Enabled(w, Return(c)) && n == w.clients[c].phase.n
    ensures Behind(Moved(w, c, Holding(n)), from, first)
  {
    var v := Moved(w, c, Holding(n));
    assert BehindOk(w, from, first, w.clients[c]);
    forall d | 0 <= d < |v.clients| ensures BehindOk(v, from, first, v.clients[d]) {
      assert BehindOk(w, from, first, w.clients[d]);
    }
  }

  lemma BehindUnlock(w: World, from: nat, first: nat, c: nat, n: nat)
    requires Behind(w, from, first) && c < |w.clients| && w.clients[c].phase == Holding(n)
    ensures Behind(Unlocked(w, c, n), from, first)
  {
    var v := Unlocked(w, c, n);
    assert BehindOk(w, from, first, w.clients[c]);
    forall d | 0 <= d < |v.clients| ensures BehindOk(v, from, first, v.clients[d]) {
      assert BehindOk(w, from, first, w.clients[d]);
      assert Distinct(w.clients[c].phase, w.clients[d].phase) || c == d;
    }
  }

  /** A spent instance that calls `lock` when nobody can be granted it starts the line anew. */
  lemma BehindReuse(w: World, from: nat, first: nat, c: nat, n: nat)
    requires Behind(w, from, first) && Enabled(w, Create(c, n)) && LineIsStuck(w)
    ensures Behind(Created(w, c, n), n, first)
  {
    var v := Created(w, c, n);
    forall d: nat | d < |v.clients| ensures BehindOk(v, n, first, v.clients[d]) {
      assert BehindOk(w, from, first, w.clients[d]) && !CanBeGranted(w, d);
    }
    forall d: nat, p: nat ensures (d, p) !in w.fired {
      assert !CanBeGranted(w, d);
    }
  }

  lemma BehindStep(w: World, from: nat, first: nat, e: Event) returns (later: nat)
    requires Behind(w, from, first) && CarefulStep(w, e)
    ensures from <= later && Behind(Step(w, e), later, first)
  {
    later := from;
    if Enabled(w, e) {
      match e {
        case Create(c, n) =>
          if w.clients[c].spent {
            BehindReuse(w, from, first, c, n);
            later := n;
          } else {
            BehindCreate(w, from, first, c, n);
          }
        case List(c) => BehindList(w, from, first, c);
        case SetWatch(c) => BehindWatch(w, from, first, c, w.clients[c].phase.n, w.clients[c].phase.p);
        case Deliver(c, p) => BehindDeliver(w, from, first, c, p);
        case Return(c) => BehindReturn(w, from, first, c, w.clients[c].phase.n);
        case Unlock(c) => BehindUnlock(w, from, first, c, w.clients[c].phase.n);
      }
    }
  }

  /** The least node stays for ever, and whoever is granted the lock came later and in order. */
  lemma {:induction false} BehindRun(w: World, from: nat, first: nat, events: seq<Event>)
    requires Behind(w, from, first) && Careful(w, events)
    ensures exists later: nat :: from <= later && Behind(Run(w, events), later, first)
    decreases |events|
  {
    if events != [] {
      var later := BehindStep(w, from, first, events[0]);
      BehindRun(Step(w, events[0]), later, first, events[1..]);
      var last: nat :| later <= last && Behind(Run(Step(w, events[0]), events[1..]), last, first);
      assert Behind(Run(w, events), last, first);
    } else {
      assert Behind(Run(w, events), from, first);
    }
  }

  /** Behind a node whose owner cannot be granted the lock, a spent instance is the first that can. */
  lemma StuckLineIsBehind(w: World, c: nat, n: nat, first: nat)
    requires Inv(w) && c < |w.clients| && w.clients[c].phase.Outside? && w.next <= n
    requires first in w.nodes && IsLeast(w.nodes, first) && LineIsStuck(w)
    ensures Behind(Created(w, c, n), n, first)
  {
    var v := Created(w, c, n);
    FirstIsLeast(w, first);
    forall d: nat | d < |v.clients| ensures BehindOk(v, n, first, v.clients[d]) {
      assert ClientOk(w, w.clients[d]) && !CanBeGranted(w, d);
    }
    forall d: nat, p: nat ensures (d, p) !in w.fired {
      if d < |w.clients| {
        assert ClientOk(w, w.clients[d]) && !CanBeGranted(w, d);
      }
    }
  }

  // ---------------------------------------------------------------- exactly when

  /** The queue is in order, or what there is of it is behind a node that stays. */
  ghost predicate Orderly(w: World) {
    Inv(w) || exists from: nat, first: nat :: Behind(w, from, first)
  }

  lemma OrderlyIsExclusive(w: World)
    requires Orderly(w)
    ensures Exclusive(w)
  {
    if Inv(w) {
      InvIsExclusive(w);
    } else {
      var from: nat, first: nat :| Behind(w, from, first);
      BehindIsExclusive(w, from, first);
    }
  }

  lemma StepStaysOrderly(w: World, e: Event)
    requires Orderly(w) && CarefulStep(w, e)
    ensures Orderly(Step(w, e))
  {
    if !Inv(w) {
      var from: nat, first: nat :| Behind(w, from, first);
      var later := BehindStep(w, from, first, e);
    } else if e.Create? && Enabled(w, e) && w.clients[e.c].spent && w.nodes != {} {
      var m :| m in w.nodes;
      FirstIsLeast(w, m);
      StuckLineIsBehind(w, e.c, e.n, w.created[|w.unlocked|]);
    } else {
      StepKeeps(w, e);
    }
  }

  lemma {:induction false} RunStaysOrderly(w: World, events: seq<Event>)
    requires Orderly(w) && Careful(w, events)
    ensures Orderly(Run(w, events))
    decreases |events|
  {
    if events != [] {
      StepStaysOrderly(w, events[0]);
      RunStaysOrderly(Step(w, events[0]), events[1..]);
    }
  }

  lemma OrderlyIsSafe(w: World)
    requires Orderly(w)
    ensures SafeForever(w)
  {
    forall events | Careful(w, events) ensures Exclusive(Run(w, events)) {
      RunStaysOrderly(w, events);
      OrderlyIsExclusive(Run(w, events));
    }
  }

  lemma CallIsSafeIff(w: World, c: nat, n: nat)
    requires Orderly(w) && Enabled(w, Create(c, n))
    ensures SafeForever(Created(w, c, n)) <==> !w.clients[c].spent || LineIsStuck(w)
  {
    var v := Created(w, c, n);
    assert v == Step(w, Create(c, n));
    if CarefulStep(w, Create(c, n)) {
      StepStaysOrderly(w, Create(c, n));
      OrderlyIsSafe(v);
    } else {
      var h: nat :| CanBeGranted(w, h);
      var k := w.clients[h].phase.n;
      assert k in w.nodes && k < n by {
        if Inv(w) {
          assert ClientOk(w, w.clients[h]);
        } else {
          var from: nat, first: nat :| Behind(w, from, first);
          assert BehindOk(w, from, first, w.clients[h]);
        }
      }
      NotSafeBehind(v, h, c);
    }
  }

  /** After any run in which spent instances were reused carefully, calling `lock` on an instance that is
      outside is safe exactly if it has not waited before or nobody can be granted the lock. */
  lemma ReuseIsSafeIff(clients: nat, past: seq<Event>, c: nat, n: nat)
    requires Careful(Start(clients), past)
    requires var w := Run(Start(clients), past); c < |w.clients| && w.next <= n && w.clients[c].phase.Outside?
    ensures var w := Run(Start(clients), past);
      SafeForever(Created(w, c, n)) <==> !w.clients[c].spent || forall h: nat :: !CanBeGranted(w, h)
  {
    RunStaysOrderly(Start(clients), past);
    CallIsSafeIff(Run(Start(clients), past), c, n);
  }

  lemma {:induction false} SafeThroughoutIff(w: World, events: seq<Event>)
    requires Orderly(w)
    ensures Careful(w, events) <==> forall i :: 0 <= i <= |events| ==> SafeForever(Run(w, events[..i]))
    decreases |events|
  {
    OrderlyIsSafe(w);
    assert events[..0] == [] && Run(w, events[..0]) == w;
    if events != [] {
      var v, rest := Step(w, events[0]), events[1..];
      forall i | 0 <= i <= |rest| ensures Run(w, events[..i + 1]) == Run(v, rest[..i]) {
        assert events[..i + 1][1..] == rest[..i];
      }
      if CarefulStep(w, events[0]) {
        StepStaysOrderly(w, events[0]);
        SafeThroughoutIff(v, rest);
        forall i | 1 <= i <= |events| ensures Run(w, events[..i]) == Run(v, rest[..i - 1]) {
          assert events[..i][1..] == rest[..i - 1];
        }
      } else {
        CallIsSafeIff(w, events[0].c, events[0].n);
        assert rest[..0] == [] && Run(v, rest[..0]) == v;
      }
    }
  }

  /** Over all runs from the start: at every point of a run all careful ways to go on are exclusive exactly
      if every reuse in it was careful. */
  lemma CarefulIffSafeThroughout(clients: nat, events: seq<Event>)
    ensures Careful(Start(clients), events) <==>
      forall i :: 0 <= i <= |events| ==> SafeForever(Run(Start(clients), events[..i]))
  {
    StartIsOrderly(clients);
    SafeThroughoutIff(Start(clients), events);
  }

  lemma StartIsOrderly(clients: nat)
    ensures Orderly(Start(clients))
  {
  }

  /** A call that finds no nodes is careful. */
  lemma {:induction false} FreshOrAloneIsCareful(w: World, events: seq<Event>)
    requires Inv(w) && FreshOrAlone(w, events)
    ensures Careful(w, events)
    decreases |events|
  {
    if events != [] {
      forall h: nat | CanBeGranted(w, h) ensures w.nodes != {} {
        assert ClientOk(w, w.clients[h]);
      }
      StepKeeps(w, events[0]);
      FreshOrAloneIsCareful(Step(w, events[0]), events[1..]);
    }
  }

  // ---------------------------------------------------------------- it does happen

  predicate NoCreates(events: seq<Event>) { forall e :: e in events ==> !e.Create? }

  lemma {:induction false} NoCreatesAreCareful(w: World, events: seq<Event>)
    requires NoCreates(events)
    ensures Careful(w, events)
    decreases |events|
  {
    if events != [] {
      NoCreatesAreCareful(Step(w, events[0]), events[1..]);
    }
  }

  // Two clients: the second waits once for the first, then the first holds the lock again.

  const BOTH_CREATE: seq<Event> := [Create(0, 0), Create(1, 1), List(0)]
  const ONE_WAITS: seq<Event> := [List(1), SetWatch(1), Unlock(0)]
  const ONE_HOLDS: seq<Event> := [Deliver(1, 0), Return(1), Unlock(1)]
  const ZERO_AGAIN: seq<Event> := [Create(0, 2), List(0)]

  lemma BothCreate()
    ensures var w := Run(Start(2), BOTH_CREATE);
      && w.nodes == {0, 1} && w.fired == {} && w.watches == {} && w.next == 2
      && w.clients == [Client(Holding(0), false), Client(HasNode(1), false)]
    ensures Careful(Start(2), BOTH_CREATE)
  {
    RunThree(Step, Start(2), Create(0, 0), Create(1, 1), List(0));
    assert Start(2).clients == [Client(Outside, false), Client(Outside, false)];
    var v := Step(Step(Start(2), Create(0, 0)), Create(1, 1));
    assert v.clients == [Client(HasNode(0), false), Client(HasNode(1), false)] && v.nodes == {0, 1};
    assert BOTH_CREATE[1..] == [Create(1, 1), List(0)] && [Create(1, 1), List(0)][1..] == [List(0)];
    NoCreatesAreCareful(v, [List(0)]);
    assert Careful(Step(Start(2), Create(0, 0)), [Create(1, 1), List(0)]);
  }

  lemma OneWaits(w: World)
    requires w.nodes == {0, 1} && w.fired == {} && w.watches == {} && w.next == 2
    requires w.clients == [Client(Holding(0), false), Client(HasNode(1), false)]
    ensures var v := Run(w, ONE_WAITS);
      && v.nodes == {1} && v.fired == {(1, 0)} && v.watches == {} && v.next == 2
      && v.clients == [Client(Outside, false), Client(Awaiting(1, 0), false)]
  {
    RunThree(Step, w, List(1), SetWatch(1), Unlock(0));
    var u := Step(w, List(1));
    assert 0 in w.nodes && IsPredecessor(w.nodes, 1, 0);
    assert u.clients == [Client(Holding(0), false), Client(MustWatch(1, 0), false)];
    var t := Step(u, SetWatch(1));
    assert t.watches == {(1, 0)} && t.clients == [Client(Holding(0), false), Client(Awaiting(1, 0), false)];
    assert Step(t, Unlock(0)).fired == {(1, 0)};
  }

  lemma OneHolds(w: World)
    requires w.nodes == {1} && w.fired == {(1, 0)} && w.watches == {} && w.next == 2
    requires w.clients == [Client(Outside, false), Client(Awaiting(1, 0), false)]
    ensures var v := Run(w, ONE_HOLDS);
      && v.nodes == {} && v.fired == {} && v.watches == {} && v.next == 2
      && v.clients == [Client(Outside, false), Client(Outside, true)]
  {
    RunThree(Step, w, Deliver(1, 0), Return(1), Unlock(1));
    var u := Step(w, Deliver(1, 0));
    assert u.clients == [Client(Outside, false), Client(Awaiting(1, 0), true)] && u.fired == {};
    assert Step(u, Return(1)).clients == [Client(Outside, false), Client(Holding(1), true)];
  }

  lemma ZeroAgain(w: World)
    requires w.nodes == {} && w.fired == {} && w.watches == {} && w.next == 2
    requires w.clients == [Client(Outside, false), Client(Outside, true)]
    ensures Careful(w, ZERO_AGAIN)
    ensures Run(w, ZERO_AGAIN).clients == [Client(Holding(2), false), Client(Outside, true)]
    ensures Run(w, ZERO_AGAIN).nodes == {2}
  {
    RunTwo(Step, w, Create(0, 2), List(0));
    NoCreatesAreCareful(Step(w, Create(0, 2)), [List(0)]);
    assert ZERO_AGAIN[1..] == [List(0)];
  }

  lemma {:induction false} CarefulConcat(w: World, a: seq<Event>, b: seq<Event>)
    requires Careful(w, a) && Careful(Run(w, a), b)
    ensures Careful(w, a + b)
    decreases |a|
  {
    if a == [] {
      assert a + b == b;
    } else {
      assert (a + b)[1..] == a[1..] + b;
      CarefulConcat(Step(w, a[0]), a[1..], b);
    }
  }

  lemma CarefulThenNoCreates(a: seq<Event>, b: seq<Event>)
    requires Careful(Start(2), a) && NoCreates(b)
    ensures Careful(Start(2), a + b) && Run(Start(2), a + b) == Run(Run(Start(2), a), b)
  {
    NoCreatesAreCareful(Run(Start(2), a), b);
    CarefulConcat(Start(2), a, b);
    RunConcat(Step, Start(2), a, b);
  }

  const SECOND_HAS_WAITED: seq<Event> := BOTH_CREATE + ONE_WAITS + ONE_HOLDS

  lemma SecondHasWaited()
    ensures var w := Run(Start(2), SECOND_HAS_WAITED);
      && w.nodes == {} && w.fired == {} && w.watches == {} && w.next == 2
      && w.clients == [Client(Outside, false), Client(Outside, true)]
    ensures Careful(Start(2), SECOND_HAS_WAITED)
  {
    BothCreate();
    CarefulThenNoCreates(BOTH_CREATE, ONE_WAITS);
    OneWaits(Run(Start(2), BOTH_CREATE));
    CarefulThenNoCreates(BOTH_CREATE + ONE_WAITS, ONE_HOLDS);
    OneHolds(Run(Start(2), BOTH_CREATE + ONE_WAITS));
  }

  lemma SpentWhileHeldAt(w: World, past: seq<Event>)
    requires w == Run(Start(2), past) && Careful(Start(2), past)
    requires w.clients == [Client(Holding(2), false), Client(Outside, true)] && w.nodes == {2}
    ensures CanBeGranted(w, 0) && !SafeForever(Created(w, 1, w.next))
  {
    assert CanBeGranted(w, 0);
    ReuseIsSafeIff(2, past, 1, w.next);
  }

  /** A careful run comes to where the first client holds the lock and the second is spent: a
      call of `lock` on the second is not safe there. */
  lemma SpentWhileHeld()
    ensures var past := SECOND_HAS_WAITED + ZERO_AGAIN;
      var w := Run(Start(2), past);
      && Careful(Start(2), past) && CanBeGranted(w, 0)
      && w.clients == [Client(Holding(2), false), Client(Outside, true)]
      && !SafeForever(Created(w, 1, w.next))
  {
    SecondHasWaited();
    var v := Run(Start(2), SECOND_HAS_WAITED);
    ZeroAgain(v);
    CarefulConcat(Start(2), SECOND_HAS_WAITED, ZERO_AGAIN);
    RunConcat(Step, Start(2), SECOND_HAS_WAITED, ZERO_AGAIN);
    SpentWhileHeldAt(Run(v, ZERO_AGAIN), SECOND_HAS_WAITED + ZERO_AGAIN);
  }
}
