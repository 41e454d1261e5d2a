/** The fair lock on sequential ephemeral znodes, as steps of any number of clients. Nodes vanish
    only through `unlock`. */
module FairLock {
  import opened Text
  import opened Runs
  import opened ZnodeNames

  /** Where one instance is in its code. A watching client remembers the node it watches. */
  datatype Phase =
    | Outside
    | HasNode(n: nat)
    | MustWatch(n: nat, p: nat)
    | Awaiting(n: nat, p: nat)
    | Holding(n: nat)
  {
    predicate Waits() { !Outside? && !Holding? }
  }

  /** An instance; `spent` says that its `waitLatch` has been counted down. */
  datatype Client = Client(phase: Phase, spent: bool)

  /** After `getChildren`: the owner of the least node holds the lock, others watch their predecessor. */
  ghost function OnListed(n: nat, nodes: set<nat>): Phase {
    if IsLeast(nodes, n) then Holding(n) else MustWatch(n, Predecessor(nodes, n))
  }

  // ---------------------------------------------------------------- the instance

  const LOCK_NAME: Str := [47, 109, 121, 108, 111, 99, 107]                  // /mylock
  const NODE_PREFIX: Str := [109, 121, 108, 111, 99, 107, 95]                // mylock_

  function PathOf(name: Str): Str { LOCK_NAME + [SLASH] + name }

  /** What `lock` does after listing the children. */
  datatype Decision = Granted | Watch(path: Str)

  class LockClient {
    var lockZnode: Option<Str>
    var waitLatch: nat

    constructor ()
      ensures lockZnode == None && waitLatch == 1
    {
      lockZnode, waitLatch := None, 1;
    }

    method Created(path: Str)
      modifies this
      ensures lockZnode == Some(path) && waitLatch == old(waitLatch)
    {
      lockZnode := Some(path);
    }

    /** The part of `lock` between `getChildren` and `exists`, on the sorted children; the decision is
        that of `OnListed` on the numbers of the nodes. */
    method Decide(minPath: seq<Str>, ghost numbers: seq<nat>, ghost n: nat) returns (r: Decision)
      requires SortedListing(minPath, NODE_PREFIX, numbers) && n in numbers
      requires lockZnode == Some(PathOf(Name(NODE_PREFIX, n)))
      ensures r.Granted? <==> OnListed(n, Elements(numbers)) == Holding(n)
      ensures r.Watch? ==> exists p :: OnListed(n, Elements(numbers)) == MustWatch(n, p)
                                       && r.path == PathOf(Name(NODE_PREFIX, p))
    {
      var path := lockZnode.value;
      SortedNamesAreSortedNumbers(minPath, NODE_PREFIX, numbers);
      if path != [] && minPath[0] != [] && path == PathOf(minPath[0]) {
        PathIsItsNumber(n, numbers[0]);
        return Granted;
      }
      PathIsItsNumber(n, numbers[0]);
      var own := ShortName(path);
      NameHasNoSlash(NODE_PREFIX, n);
      ShortNameOfPath(LOCK_NAME, Name(NODE_PREFIX, n));
      NameOrder(NODE_PREFIX, numbers[0], n);
      var watchNode := NameBefore(minPath, own, numbers, n);
      r := Watch(PathOf(watchNode.value));
    }

    /** The loop from the end of the sorted names down to the first that is less than the own name. */
    method NameBefore(minPath: seq<Str>, own: Str, ghost numbers: seq<nat>, ghost n: nat)
      returns (watchNode: Option<Str>)
      requires SortedListing(minPath, NODE_PREFIX, numbers) && Increasing(numbers) && n in numbers
      requires own == Name(NODE_PREFIX, n) && numbers[0] < n
      ensures !IsLeast(Elements(numbers), n)
      ensures watchNode == Some(Name(NODE_PREFIX, Predecessor(Elements(numbers), n)))
    {
      watchNode := None;
      var i := |minPath| - 1;
      while i >= 0
        invariant -1 <= i < |minPath| && watchNode == None
        invariant forall j :: i < j < |minPath| ==> n <= numbers[j]
      {
        NameOrder(NODE_PREFIX, numbers[i], n);
        if LexLess(minPath[i], own) {
          watchNode := Some(minPath[i]);
          break;
        }
        i := i - 1;
      }
      LastBelowIsPredecessor(numbers, n, i);
    }

    /** The watcher. */
    method Process(nodeDeleted: bool)
      modifies this
      ensures lockZnode == old(lockZnode)
      ensures waitLatch == if nodeDeleted && old(waitLatch) > 0 then old(waitLatch) - 1 else old(waitLatch)
    {
      if nodeDeleted && waitLatch > 0 {
        waitLatch := waitLatch - 1;
      }
    }
  }

  lemma LastBelowIsPredecessor(numbers: seq<nat>, n: nat, i: int)
    requires Increasing(numbers) && numbers != [] && numbers[0] < n && -1 <= i < |numbers|
    requires (i >= 0 ==> numbers[i] < n) && forall j :: i < j < |numbers| ==> n <= numbers[j]
    ensures i >= 0 && !IsLeast(Elements(numbers), n) && Predecessor(Elements(numbers), n) == numbers[i]
  {
    assert numbers[0] in Elements(numbers);
    assert IsPredecessor(Elements(numbers), n, numbers[i]) by {
      forall m | m in Elements(numbers) && m < n ensures m <= numbers[i] {
        var j :| 0 <= j < |numbers| && numbers[j] == m;
      }
    }
    PredecessorIsUnique(Elements(numbers), n, numbers[i]);
  }

  lemma PathIsItsNumber(m: nat, n: nat)
    requires m < Power10(WIDTH) && n < Power10(WIDTH)
    ensures PathOf(Name(NODE_PREFIX, m)) == PathOf(Name(NODE_PREFIX, n)) <==> m == n
    ensures PathOf(Name(NODE_PREFIX, m)) != [] && Name(NODE_PREFIX, n) != []
  {
    NameOrder(NODE_PREFIX, m, n);
    var a, b := PathOf(Name(NODE_PREFIX, m)), PathOf(Name(NODE_PREFIX, n));
    assert a[|LOCK_NAME| + 1..] == Name(NODE_PREFIX, m) && b[|LOCK_NAME| + 1..] == Name(NODE_PREFIX, n);
  }

  // ---------------------------------------------------------------- the system

  /** ZooKeeper and its clients. `next` bounds the counter from above, `watches` holds the deletion
      watches that are set, `fired` the events on their way; both pair a client with a node. Three logs
      record the numbers created, granted (when `lock` returns) and deleted. */
  datatype World = World(
    next: nat, nodes: set<nat>, watches: set<(nat, nat)>, fired: set<(nat, nat)>, clients: seq<Client>,
    created: seq<nat>, granted: seq<nat>, unlocked: seq<nat>)

  datatype Event =
    | Create(c: nat, n: nat)
    | List(c: nat)
    | SetWatch(c: nat)
    | Deliver(c: nat, p: nat)
    | Return(c: nat)
    | Unlock(c: nat)

  ghost function Start(clients: nat): World {
    World(0, {}, {}, {}, seq(clients, _ => Client(Outside, false)), [], [], [])
  }

  /** Whether a client can take this step now; the counter never goes back. */
  ghost predicate Enabled(w: World, e: Event) {
    e.c < |w.clients| &&
    match e
    case Create(c, n) => w.clients[c].phase.Outside? && w.next <= n
    case List(c) => w.clients[c].phase.HasNode?
    case SetWatch(c) => w.clients[c].phase.MustWatch?
    case Deliver(c, p) => (c, p) in w.fired
    case Return(c) => w.clients[c].phase.Awaiting? && w.clients[c].spent
    case Unlock(c) => w.clients[c].phase.Holding?
  }

  /** Moves a client to a phase; arriving at `Holding` is the return of `lock`. */
  ghost function Moved(w: World, c: nat, phase: Phase): World
    requires c < |w.clients|
  {
    w.(clients := w.clients[c := w.clients[c].(phase := phase)],
       granted := if phase.Holding? then w.granted + [phase.n] else w.granted)
  }

  ghost function Created(w: World, c: nat, n: nat): World
    requires c < |w.clients|
  {
    Moved(w, c, HasNode(n)).(next := n + 1, nodes := w.nodes + {n}, created := w.created + [n])
  }

  /** `exists` sets a deletion watch only when the node is still there; `lock` waits in either case. */
  ghost function Watched(w: World, c: nat, n: nat, p: nat): World
    requires c < |w.clients|
  {
    Moved(w, c, Awaiting(n, p)).(watches := if p in w.nodes then w.watches + {(c, p)} else w.watches)
  }

  ghost function Delivered(w: World, c: nat, p: nat): World
    requires c < |w.clients|
  {
    w.(fired := w.fired - {(c, p)}, clients := w.clients[c := w.clients[c].(spent := true)])
  }

  /** Deletes the node and fires the watches on it. */
  ghost function Unlocked(w: World, c: nat, n: nat): World
    requires c < |w.clients|
  {
    Moved(w, c, Outside).(
      nodes := w.nodes - {n}, unlocked := w.unlocked + [n],
      fired := w.fired + (set x | x in w.watches && x.1 == n), watches := set x | x in w.watches && x.1 != n)
  }

  ghost function Step(w: World, e: Event): World {
    if !Enabled(w, e) then w
    else
      match e
      case Create(c, n) => Created(w, c, n)
      case List(c) => Moved(w, c, OnListed(w.clients[c].phase.n, w.nodes))
      case SetWatch(c) => Watched(w, c, w.clients[c].phase.n, w.clients[c].phase.p)
      case Deliver(c, p) => Delivered(w, c, p)
      case Return(c) => Moved(w, c, Holding(w.clients[c].phase.n))
      case Unlock(c) => Unlocked(w, c, w.clients[c].phase.n)
  }

  ghost function Run(w: World, events: seq<Event>): World { RunOf(Step, w, events) }

  /** `lock` is called on an instance that has already waited once only when nobody else is in line. */
  ghost predicate FreshOrAlone(w: World, events: seq<Event>)
    decreases |events|
  {
    events == [] ||
    ((events[0].Create? && Enabled(w, events[0]) && w.clients[events[0].c].spent ==> w.nodes == {}) &&
     FreshOrAlone(Step(w, events[0]), events[1..]))
  }

  // ---------------------------------------------------------------- the invariant

  /** Locks were granted and released in the order of creation, one at a time; the nodes that exist are
      those created and not yet deleted. */
  ghost predicate LogsOk(w: World) {
    && Increasing(w.created) && (forall n :: n in w.created ==> n < w.next)
    && w.granted <= w.created && w.unlocked <= w.granted && |w.granted| <= |w.unlocked| + 1
    && (forall i :: 0 <= i < |w.created| ==> (w.created[i] in w.nodes <==> |w.unlocked| <= i))
    && (forall n :: n in w.nodes ==> n in w.created)
  }

  /** Nothing lies between `p` and `n`, and once `p` is gone `n` is the least. */
  ghost predicate IsNext(nodes: set<nat>, n: nat, p: nat) {
    && p < n && (forall m :: m in nodes ==> m <= p || n <= m)
    && (p in nodes || IsLeast(nodes, n))
  }

  ghost predicate ClientOk(w: World, c: Client) {
    && (!c.phase.Outside? ==> c.phase.n in w.nodes)
    && (c.phase.Holding? ==> |w.granted| == |w.unlocked| + 1 && c.phase.n == w.granted[|w.unlocked|])
    && (c.phase.Waits() ==> |w.granted| <= |w.unlocked| || c.phase.n != w.granted[|w.unlocked|])
    && (c.phase.MustWatch? || c.phase.Awaiting? ==> IsNext(w.nodes, c.phase.n, c.phase.p))
    && (c.phase.MustWatch? ==> !c.spent) && (c.phase.HasNode? && c.spent ==> IsLeast(w.nodes, c.phase.n))
    && (c.phase.Awaiting? && c.spent ==> c.phase.p !in w.nodes)
  }

  ghost predicate WaitsFor(w: World, c: nat, p: nat) {
    c < |w.clients| && w.clients[c].phase.Awaiting? && w.clients[c].phase.p == p && !w.clients[c].spent
  }

  ghost predicate Distinct(a: Phase, b: Phase) { a.Outside? || b.Outside? || a.n != b.n }

  ghost predicate WatchesOk(w: World) {
    && (forall x :: x in w.watches ==> WaitsFor(w, x.0, x.1) && x.1 in w.nodes)
    && (forall x :: x in w.fired ==> WaitsFor(w, x.0, x.1) && x.1 !in w.nodes)
  }

  ghost predicate OwnersOk(w: World) {
    && (forall c :: 0 <= c < |w.clients| ==> ClientOk(w, w.clients[c]))
    && (forall c, d :: 0 <= c < |w.clients| && 0 <= d < |w.clients| && c != d ==>
          Distinct(w.clients[c].phase, w.clients[d].phase))
  }

  ghost predicate Inv(w: World) { LogsOk(w) && OwnersOk(w) && WatchesOk(w) }

  /** The node next in line. */
  lemma FirstIsLeast(w: World, n: nat)
    requires LogsOk(w) && n in w.nodes
    ensures |w.unlocked| < |w.created| && w.created[|w.unlocked|] in w.nodes
    ensures IsLeast(w.nodes, w.created[|w.unlocked|])
    ensures IsLeast(w.nodes, n) <==> n == w.created[|w.unlocked|]
  {
    forall m | m in w.nodes ensures |w.unlocked| < |w.created| && w.created[|w.unlocked|] <= m {
      var i :| 0 <= i < |w.created| && w.created[i] == m;
    }
  }

  lemma CreatedLogs(w: World, c: nat, n: nat)
    requires LogsOk(w) && c < |w.clients| && w.next <= n
    ensures LogsOk(Created(w, c, n))
  {
    forall i | 0 <= i < |w.created| ensures w.created[i] < n {
      assert w.created[i] in w.created;
    }
  }

  lemma CreatedClient(w: World, c: nat, n: nat, d: nat)
    requires LogsOk(w) && OwnersOk(w) && c < |w.clients| && d < |w.clients| && w.next <= n
    requires w.clients[c].phase.Outside? && (w.clients[c].spent ==> w.nodes == {})
    ensures ClientOk(Created(w, c, n), Created(w, c, n).clients[d])
    ensures d != c ==> Distinct(HasNode(n), w.clients[d].phase)
  {
    assert ClientOk(w, w.clients[d]);
    assert forall m :: m in w.nodes ==> m < n;
  }

  lemma CreateKeeps(w: World, c: nat, n: nat)
    requires Inv(w) && c < |w.clients| && w.clients[c].phase.Outside? && w.next <= n
    requires w.clients[c].spent ==> w.nodes == {}
    ensures Inv(Created(w, c, n))
  {
    CreatedLogs(w, c, n);
    var v := Created(w, c, n);
    forall d | 0 <= d < |v.clients|
      ensures ClientOk(v, v.clients[d]) && (d != c ==> Distinct(HasNode(n), w.clients[d].phase))
    {
      CreatedClient(w, c, n, d);
    }
    assert forall m :: m in w.nodes ==> m < n;
  }

  /** A client whose node is the least is granted the lock, and nobody else holds it. */
  lemma GrantKeeps(w: World, c: nat, n: nat)
    requires Inv(w) && c < |w.clients| && w.clients[c].phase.Waits() && w.clients[c].phase.n == n
    requires IsLeast(w.nodes, n) && (w.clients[c].phase.Awaiting? ==> w.clients[c].spent)
    ensures Inv(Moved(w, c, Holding(n))) && |w.granted| == |w.unlocked|
  {
    FirstIsLeast(w, n);
    assert ClientOk(w, w.clients[c]);
    var v := Moved(w, c, Holding(n));
    forall d | 0 <= d < |v.clients| ensures ClientOk(v, v.clients[d]) {
      assert ClientOk(w, w.clients[d]);
      assert Distinct(w.clients[c].phase, w.clients[d].phase) || c == d;
    }
  }

  lemma ListKeeps(w: World, c: nat, n: nat)
    requires Inv(w) && c < |w.clients| && w.clients[c].phase == HasNode(n) && !IsLeast(w.nodes, n)
    ensures Inv(Moved(w, c, MustWatch(n, Predecessor(w.nodes, n))))
  {
    var v := Moved(w, c, MustWatch(n, Predecessor(w.nodes, n)));
    forall d | 0 <= d < |v.clients| ensures ClientOk(v, v.clients[d]) {
      assert ClientOk(w, w.clients[d]);
    }
  }

  lemma WatchKeeps(w: World, c: nat, n: nat, p: nat)
    requires Inv(w) && c < |w.clients| && w.clients[c].phase == MustWatch(n, p)
    ensures Inv(Watched(w, c, n, p))
  {
    var v := Watched(w, c, n, p);
    forall d | 0 <= d < |v.clients| ensures ClientOk(v, v.clients[d]) {
      assert ClientOk(w, w.clients[d]);
    }
  }

  lemma DeliverKeeps(w: World, c: nat, p: nat)
    requires Inv(w) && c < |w.clients| && (c, p) in w.fired
    ensures Inv(Delivered(w, c, p))
  {
    var v := Delivered(w, c, p);
    forall d | 0 <= d < |v.clients| ensures ClientOk(v, v.clients[d]) {
      assert ClientOk(w, w.clients[d]);
    }
  }

  lemma UnlockKeeps(w: World, c: nat, n: nat)
    requires Inv(w) && c < |w.clients| && w.clients[c].phase == Holding(n)
    ensures Inv(Unlocked(w, c, n))
  {
    FirstIsLeast(w, n);
    assert ClientOk(w, w.clients[c]);
    var v := Unlocked(w, c, n);
    forall d | 0 <= d < |v.clients| ensures ClientOk(v, v.clients[d]) {
      assert ClientOk(w, w.clients[d]);
      assert Distinct(w.clients[c].phase, w.clients[d].phase) || c == d;
    }
    assert LogsOk(v);
  }

  lemma StepKeeps(w: World, e: Event)
    requires Inv(w) && (e.Create? && Enabled(w, e) && w.clients[e.c].spent ==> w.nodes == {})
    ensures Inv(Step(w, e))
  {
    if Enabled(w, e) {
      match e {
        case Create(c, n) => CreateKeeps(w, c, n);
        case List(c) =>
          var n := w.clients[c].phase.n;
          if IsLeast(w.nodes, n) { GrantKeeps(w, c, n); } else { ListKeeps(w, c, n); }
        case SetWatch(c) => WatchKeeps(w, c, w.clients[c].phase.n, w.clients[c].phase.p);
        case Deliver(c, p) => DeliverKeeps(w, c, p);
        case Return(c) => GrantKeeps(w, c, w.clients[c].phase.n);
        case Unlock(c) => UnlockKeeps(w, c, w.clients[c].phase.n);
      }
    }
  }

  // ---------------------------------------------------------------- over all runs

  lemma {:induction false} RunKeeps(w: World, events: seq<Event>)
    requires Inv(w) && FreshOrAlone(w, events)
    ensures Inv(Run(w, events))
    decreases |events|
  {
    if events != [] {
      StepKeeps(w, events[0]);
      RunKeeps(Step(w, events[0]), events[1..]);
    }
  }

  /** At most one client is between the return of `lock` and `unlock`. */
  ghost predicate Exclusive(w: World) {
    forall c, d :: 0 <= c < |w.clients| && 0 <= d < |w.clients| ==>
      (w.clients[c].phase.Holding? && w.clients[d].phase.Holding? ==> c == d)
  }

  lemma InvIsExclusive(w: World)
    requires Inv(w)
    ensures Exclusive(w)
  {
    forall c, d | 0 <= c < |w.clients| && 0 <= d < |w.clients| && w.clients[c].phase.Holding?
      && w.clients[d].phase.Holding? ensures c == d
    {
      assert ClientOk(w, w.clients[c]) && ClientOk(w, w.clients[d]);
      assert Distinct(w.clients[c].phase, w.clients[d].phase) || c == d;
    }
  }

  /** Mutual exclusion, and first come first served: the numbers granted are the first numbers created,
      in their order, without gaps. */
  lemma FairLockIsSafe(clients: nat, events: seq<Event>)
    requires FreshOrAlone(Start(clients), events)
    ensures var w := Run(Start(clients), events);
      Exclusive(w) && Increasing(w.created) && w.granted <= w.created && w.unlocked <= w.granted
  {
    RunKeeps(Start(clients), events);
    InvIsExclusive(Run(Start(clients), events));
  }

  /** Clients wait for different nodes, so that no deletion wakes more than one of them. */
  lemma NoHerd(clients: nat, events: seq<Event>)
    requires FreshOrAlone(Start(clients), events)
    ensures var w := Run(Start(clients), events);
      forall c: nat, d: nat, p: nat :: WaitsBehind(w, c, p) && WaitsBehind(w, d, p) ==> c == d
  {
    RunKeeps(Start(clients), events);
    var w := Run(Start(clients), events);
    forall c: nat, d: nat, p: nat | WaitsBehind(w, c, p) && WaitsBehind(w, d, p) ensures c == d {
      assert ClientOk(w, w.clients[c]) && ClientOk(w, w.clients[d]);
      assert Distinct(w.clients[c].phase, w.clients[d].phase) || c == d;
    }
  }

  ghost predicate WaitsBehind(w: World, c: nat, p: nat) {
    && c < |w.clients| && (w.clients[c].phase.MustWatch? || w.clients[c].phase.Awaiting?)
    && w.clients[c].phase.p == p
  }
}
