/** Leader election on sequential ephemeral znodes, as steps of any number of processes that may die
    or lose their session at any time. */
module LeaderElection {
  import opened Text
  import opened Runs
  import opened ZnodeNames

  /** Where a process is. `Listed` holds the children as they were listed; `registered` says whether
      `exists` found the watched node. */
  datatype Phase =
    | Starting
    | HasNode(n: nat)
    | Listed(n: nat, listing: set<nat>)
    | MustWatch(n: nat, p: nat)
    | Watching(n: nat, p: nat, registered: bool)
    | Leader(n: nat)

  /** A process is alive as long as it runs and the server keeps its session. */
  datatype Process = Process(phase: Phase, running: bool, session: bool) {
    predicate Alive() { running && session }
  }

  /** `attemptForLeaderPosition` on the numbers of the listed nodes. */
  ghost function OnListed(n: nat, listing: set<nat>): Phase {
    if IsLeast(listing, n) then Leader(n) else MustWatch(n, Predecessor(listing, n))
  }

  // ---------------------------------------------------------------- the object

  const ROOT: Str := [47, 101, 108, 101, 99, 116, 105, 111, 110]     // /election
  const NODE_PREFIX: Str := [112, 95]                                // p_

  function PathOf(name: Str): Str { ROOT + [SLASH] + name }

  /** What an attempt comes to. `NotListed` is the failing `get(-2)` when the own node is missing. */
  datatype Outcome = Elected | Watch(path: Str) | NotListed

  function IndexOf(listing: seq<Str>, name: Str): (k: int)
    ensures k == -1 <==> name !in listing
    ensures k != -1 ==> 0 <= k < |listing| && listing[k] == name
  {
    if listing == [] then -1
    else if listing[0] == name then 0
    else
      var k := IndexOf(listing[1..], name);
      if k == -1 then -1 else k + 1
  }

  lemma SortedBelow(numbers: seq<nat>, k: nat)
    requires k < |numbers| && Increasing(numbers)
    ensures k == 0 ==> IsLeast(Elements(numbers), numbers[k])
    ensures k > 0 ==> IsPredecessor(Elements(numbers), numbers[k], numbers[k - 1])
  {
    if k > 0 {
      assert numbers[k - 1] in Elements(numbers);
      forall m | m in Elements(numbers) && m < numbers[k] ensures m <= numbers[k - 1] {
        var i :| 0 <= i < |numbers| && numbers[i] == m;
      }
    }
  }

  class ProcessNode {
    var processNodePath: Str
    var watchedNodePath: Option<Str>

    constructor (path: Str)
      ensures processNodePath == path && watchedNodePath == None
    {
      processNodePath, watchedNodePath := path, None;
    }

    /** `attemptForLeaderPosition` on the sorted children. */
    method Attempt(childNodePaths: seq<Str>, ghost numbers: seq<nat>, ghost n: nat) returns (r: Outcome)
      requires SortedListing(childNodePaths, NODE_PREFIX, numbers)
      requires n < Power10(WIDTH) && processNodePath == PathOf(Name(NODE_PREFIX, n))
      modifies this`watchedNodePath
      ensures r.NotListed? <==> n !in numbers
      ensures r.Elected? ==> OnListed(n, Elements(numbers)) == Leader(n)
      ensures r.Watch? ==> watchedNodePath == Some(r.path) &&
                           exists p :: OnListed(n, Elements(numbers)) == MustWatch(n, p)
                                       && r.path == PathOf(Name(NODE_PREFIX, p))
      ensures !r.Watch? ==> watchedNodePath == old(watchedNodePath)
    {
      NameHasNoSlash(NODE_PREFIX, n);
      ShortNameOfPath(ROOT, Name(NODE_PREFIX, n));
      SortedNamesAreSortedNumbers(childNodePaths, NODE_PREFIX, numbers);
      forall i | 0 <= i < |numbers| ensures childNodePaths[i] == Name(NODE_PREFIX, n) <==> numbers[i] == n {
        NameOrder(NODE_PREFIX, numbers[i], n);
      }
      var index := IndexOf(childNodePaths, ShortName(processNodePath));
      if index == -1 {
        return NotListed;
      }
      SortedBelow(numbers, index);
      if index == 0 {
        return Elected;
      }
      watchedNodePath := Some(PathOf(childNodePaths[index - 1]));
      PredecessorIsUnique(Elements(numbers), n, numbers[index - 1]);
      r := Watch(watchedNodePath.value);
    }

    /** Whether a deletion event makes the process try again. */
    method Process(nodeDeleted: bool, path: Str) returns (attempt: bool)
      ensures attempt <==> nodeDeleted && watchedNodePath == Some(path)
    {
      attempt := nodeDeleted && watchedNodePath == Some(path);
    }
  }

  // ---------------------------------------------------------------- the system

  /** ZooKeeper and the processes. Listing and watching are separate steps. When a process dies its node
      goes later, when its session expires; a session may also expire under a process that goes on
      running. `nodes` maps the number of each node to its owner; watches and the
      events on their way pair a process with a node; `declared` lists the numbers of the processes that
      declared themselves leader while they had a session. */
  datatype World = World(
    next: nat, nodes: map<nat, nat>, watches: set<(nat, nat)>, fired: set<(nat, nat)>, procs: seq<Process>,
    declared: seq<nat>)

  datatype Event =
    | Create(c: nat, n: nat)
    | List(c: nat)
    | Decide(c: nat)
    | SetWatch(c: nat)
    | Deliver(c: nat, p: nat)
    | Crash(c: nat)
    | Expire(c: nat)

  ghost function Start(procs: nat): World {
    World(0, map[], {}, {}, seq(procs, _ => Process(Starting, true, true)), [])
  }

  /** Whether a step can be taken. Only deciding on a listing needs no session. */
  ghost predicate Enabled(w: World, e: Event) {
    e.c < |w.procs| && (e.Expire? || w.procs[e.c].running) && (e.Decide? || e.Crash? || w.procs[e.c].session) &&
    match e
    case Create(c, n) => w.procs[c].phase.Starting? && w.next <= n
    case List(c) => w.procs[c].phase.HasNode?
    case Decide(c) => w.procs[c].phase.Listed?
    case SetWatch(c) => w.procs[c].phase.MustWatch?
    case Deliver(c, p) => (c, p) in w.fired
    case Crash(c) => true
    case Expire(c) => true
  }

  ghost function Moved(w: World, c: nat, phase: Phase): World
    requires c < |w.procs|
  {
    w.(procs := w.procs[c := w.procs[c].(phase := phase)])
  }

  ghost function Created(w: World, c: nat, n: nat): World
    requires c < |w.procs|
  {
    Moved(w, c, HasNode(n)).(next := n + 1, nodes := w.nodes[n := c])
  }

  ghost function Decided(w: World, c: nat, phase: Phase): World
    requires c < |w.procs|
  {
    Moved(w, c, phase).(declared := if phase.Leader? && w.procs[c].session then w.declared + [phase.n] else w.declared)
  }

  /** `watchNode`, whose answer is not looked at. */
  ghost function Watched(w: World, c: nat, n: nat, p: nat): World
    requires c < |w.procs|
  {
    Moved(w, c, Watching(n, p, p in w.nodes)).(watches := if p in w.nodes then w.watches + {(c, p)} else w.watches)
  }

  /** The process tries again if the event is for the node it watches. */
  ghost function Delivered(w: World, c: nat, p: nat): World
    requires c < |w.procs|
  {
    var phase := w.procs[c].phase;
    Moved(w, c, if phase.Watching? && phase.p == p then HasNode(phase.n) else phase).(fired := w.fired - {(c, p)})
  }

  ghost function Deleted(w: World, n: nat): World {
    w.(nodes := w.nodes - {n},
       fired := w.fired + (set x | x in w.watches && x.1 == n), watches := set x | x in w.watches && x.1 != n)
  }

  /** The server ends a session and deletes its node. */
  ghost function Expired(w: World, c: nat): World
    requires c < |w.procs|
  {
    var v := w.(procs := w.procs[c := w.procs[c].(session := false)]);
    if w.procs[c].phase.Starting? then v else Deleted(v, w.procs[c].phase.n)
  }

  ghost function Crashed(w: World, c: nat): World
    requires c < |w.procs|
  {
    w.(procs := w.procs[c := w.procs[c].(running := false)])
  }

  ghost function Step(w: World, e: Event): World {
    if !Enabled(w, e) then w
    else
      match e
      case Create(c, n) => Created(w, c, n)
      case List(c) => Moved(w, c, Listed(w.procs[c].phase.n, w.nodes.Keys))
      case Decide(c) => Decided(w, c, OnListed(w.procs[c].phase.n, w.procs[c].phase.listing))
      case SetWatch(c) => Watched(w, c, w.procs[c].phase.n, w.procs[c].phase.p)
      case Deliver(c, p) => Delivered(w, c, p)
      case Crash(c) => Crashed(w, c)
      case Expire(c) => Expired(w, c)
  }

  ghost function Run(w: World, events: seq<Event>): World { RunOf(Step, w, events) }

  // ---------------------------------------------------------------- the invariant

  ghost predicate OwnedBy(w: World, n: nat, c: nat) {
    c < |w.procs| && w.procs[c].session && !w.procs[c].phase.Starting? && w.procs[c].phase.n == n
  }

  ghost predicate NodesOk(w: World) {
    forall n :: n in w.nodes ==> n < w.next && OwnedBy(w, n, w.nodes[n])
  }

  /** A listing stays good: later nodes have greater numbers. */
  ghost predicate StillCovers(nodes: map<nat, nat>, n: nat, listing: set<nat>) {
    n in listing && forall m :: m in nodes ==> m in listing || n < m
  }

  /** No node stands between the watched one and the own one. */
  ghost predicate IsNextBelow(nodes: map<nat, nat>, n: nat, p: nat) {
    p < n && forall m :: m in nodes ==> m <= p || n <= m
  }

  ghost predicate PhaseOk(w: World, c: nat, phase: Phase) {
    && (phase.Listed? ==> StillCovers(w.nodes, phase.n, phase.listing))
    && (phase.MustWatch? || phase.Watching? ==> IsNextBelow(w.nodes, phase.n, phase.p))
    && (phase.Watching? && phase.registered ==> (c, phase.p) in w.watches || (c, phase.p) in w.fired)
    && (phase.Watching? && !phase.registered ==> phase.p !in w.nodes)
    && (phase.Leader? ==> IsLeast(w.nodes.Keys, phase.n))
  }

  /** A process in session owns its node; a leader in session is the last one declared. */
  ghost predicate LiveOk(w: World, c: nat, phase: Phase)
    requires !phase.Starting?
  {
    && phase.n in w.nodes && w.nodes[phase.n] == c
    && (phase.Leader? ==> w.declared != [] && phase.n == w.declared[|w.declared| - 1])
  }

  ghost predicate ProcOk(w: World, c: nat)
    requires c < |w.procs|
  {
    var p := w.procs[c];
    p.phase.Starting? || (p.phase.n < w.next && (p.session ==> LiveOk(w, c, p.phase) && PhaseOk(w, c, p.phase)))
  }

  ghost predicate ProcsOk(w: World) { forall c :: 0 <= c < |w.procs| ==> ProcOk(w, c) }

  /** Leaders were declared in the order of their numbers, and what is left is not older than they are. */
  ghost predicate DeclaredOk(w: World) {
    && Increasing(w.declared)
    && (forall d :: d in w.declared ==> d < w.next)
    && (forall d, m :: d in w.declared && m in w.nodes ==> d <= m)
    && (forall m :: m in w.nodes && m in w.declared ==>
          w.nodes[m] < |w.procs| && w.procs[w.nodes[m]].phase == Leader(m))
  }

  ghost predicate Waits(w: World, c: nat, p: nat) {
    c < |w.procs| && w.procs[c].phase.Watching? && w.procs[c].phase.p == p && w.procs[c].phase.registered
  }

  /** Watches are on nodes that exist, events on their way are of nodes that are gone. */
  ghost predicate WatchesOk(w: World) {
    && (forall x :: x in w.watches ==> Waits(w, x.0, x.1) && x.1 in w.nodes)
    && (forall x :: x in w.fired ==> Waits(w, x.0, x.1) && x.1 !in w.nodes && x.1 < w.next)
  }

  ghost predicate Inv(w: World) { NodesOk(w) && ProcsOk(w) && DeclaredOk(w) && WatchesOk(w) }

  lemma CreateKeeps(w: World, c: nat, n: nat)
    requires Inv(w) && Enabled(w, Create(c, n))
    ensures Inv(Created(w, c, n))
  {
    var v := Created(w, c, n);
    forall d | 0 <= d < |v.procs| ensures ProcOk(v, d) {
      assert ProcOk(w, d);
    }
  }

  lemma ListKeeps(w: World, c: nat, n: nat)
    requires Inv(w) && Enabled(w, List(c)) && n == w.procs[c].phase.n
    ensures Inv(Moved(w, c, Listed(n, w.nodes.Keys)))
  {
    var v := Moved(w, c, Listed(n, w.nodes.Keys));
    assert ProcOk(w, c);
    forall d | 0 <= d < |v.procs| ensures ProcOk(v, d) {
      assert ProcOk(w, d);
    }
  }

  lemma LeaderKeeps(w: World, c: nat, n: nat)
    requires Inv(w) && Enabled(w, Decide(c)) && w.procs[c].session
    requires n == w.procs[c].phase.n && IsLeast(w.procs[c].phase.listing, n)
    ensures Inv(Decided(w, c, Leader(n)))
  {
    var v := Decided(w, c, Leader(n));
    assert ProcOk(w, c) && IsLeast(w.nodes.Keys, n);
    assert n !in w.declared;
    forall i | 0 <= i < |w.declared| ensures w.declared[i] < n {
      assert w.declared[i] in w.declared;
    }
    forall d | 0 <= d < |v.procs| ensures ProcOk(v, d) {
      assert ProcOk(w, d);
    }
  }

  lemma FollowerKeeps(w: World, c: nat, n: nat, p: nat)
    requires Inv(w) && Enabled(w, Decide(c)) && n == w.procs[c].phase.n && IsNextBelow(w.nodes, n, p)
    ensures Inv(Decided(w, c, MustWatch(n, p)))
  {
    var v := Decided(w, c, MustWatch(n, p));
    forall d | 0 <= d < |v.procs| ensures ProcOk(v, d) {
      assert ProcOk(w, d);
    }
  }

  lemma WatchKeeps(w: World, c: nat, n: nat, p: nat)
    requires Inv(w) && Enabled(w, SetWatch(c)) && w.procs[c].phase == MustWatch(n, p)
    ensures Inv(Watched(w, c, n, p))
  {
    var v := Watched(w, c, n, p);
    forall d | 0 <= d < |v.procs| ensures ProcOk(v, d) {
      assert ProcOk(w, d);
    }
  }

  lemma DeliverKeeps(w: World, c: nat, p: nat)
    requires Inv(w) && Enabled(w, Deliver(c, p))
    ensures Inv(Delivered(w, c, p))
  {
    var v := Delivered(w, c, p);
    forall d | 0 <= d < |v.procs| ensures ProcOk(v, d) {
      assert ProcOk(w, d);
    }
  }

  lemma ExpireKeeps(w: World, c: nat)
    requires Inv(w) && Enabled(w, Expire(c))
    ensures Inv(Expired(w, c))
  {
    var v := Expired(w, c);
    assert ProcOk(w, c);
    forall d | 0 <= d < |v.procs| ensures ProcOk(v, d) {
      assert ProcOk(w, d);
    }
  }

  /** What a process decides whose session has expired concerns nobody else. */
  lemma StaleDecisionKeeps(w: World, c: nat, phase: Phase)
    requires Inv(w) && Enabled(w, Decide(c)) && !w.procs[c].session
    requires !phase.Starting? && !phase.Watching? && phase.n == w.procs[c].phase.n
    ensures Inv(Decided(w, c, phase))
  {
    var v := Decided(w, c, phase);
    forall d | 0 <= d < |v.procs| ensures ProcOk(v, d) {
      assert ProcOk(w, d);
    }
  }

  lemma CrashKeeps(w: World, c: nat)
    requires Inv(w) && Enabled(w, Crash(c))
    ensures Inv(Crashed(w, c))
  {
    var v := Crashed(w, c);
    forall d | 0 <= d < |v.procs| ensures ProcOk(v, d) {
      assert ProcOk(w, d);
    }
  }

  lemma StepKeeps(w: World, e: Event)
    requires Inv(w)
    ensures Inv(Step(w, e))
  {
    if Enabled(w, e) {
      match e {
        case Create(c, n) => CreateKeeps(w, c, n);
        case List(c) => ListKeeps(w, c, w.procs[c].phase.n);
        case Decide(c) =>
          var n, listing := w.procs[c].phase.n, w.procs[c].phase.listing;
          if !w.procs[c].session { StaleDecisionKeeps(w, c, OnListed(n, listing)); }
          else if IsLeast(listing, n) { LeaderKeeps(w, c, n); }
          else {
            assert ProcOk(w, c);
            FollowerKeeps(w, c, n, Predecessor(listing, n));
          }
        case SetWatch(c) => WatchKeeps(w, c, w.procs[c].phase.n, w.procs[c].phase.p);
        case Deliver(c, p) => DeliverKeeps(w, c, p);
        case Crash(c) => CrashKeeps(w, c);
        case Expire(c) => ExpireKeeps(w, c);
      }
    }
  }

  // ---------------------------------------------------------------- over all runs

  lemma {:induction false} RunKeeps(w: World, events: seq<Event>)
    requires Inv(w)
    ensures Inv(Run(w, events))
    decreases |events|
  {
    if events != [] {
      StepKeeps(w, events[0]);
      RunKeeps(Step(w, events[0]), events[1..]);
    }
  }

  ghost predicate Leads(w: World, c: nat) {
    c < |w.procs| && w.procs[c].Alive() && w.procs[c].phase.Leader?
  }

  /** At most one live process has declared itself leader; it owns the least node, and it is the last
      that declared itself. Successive leaders have increasing numbers. */
  lemma ElectionIsSafe(procs: nat, events: seq<Event>)
    ensures var w := Run(Start(procs), events);
      && (forall c: nat, d: nat :: Leads(w, c) && Leads(w, d) ==> c == d)
      && (forall c: nat :: Leads(w, c) ==> w.procs[c].phase.n in w.nodes && IsLeast(w.nodes.Keys, w.procs[c].phase.n))
      && (forall c: nat :: Leads(w, c) ==> w.declared != [] && w.procs[c].phase.n == w.declared[|w.declared| - 1])
      && Increasing(w.declared)
  {
    RunKeeps(Start(procs), events);
    var w := Run(Start(procs), events);
    forall c: nat | Leads(w, c)
      ensures w.procs[c].phase.n in w.nodes && w.nodes[w.procs[c].phase.n] == c
      ensures IsLeast(w.nodes.Keys, w.procs[c].phase.n)
      ensures w.declared != [] && w.procs[c].phase.n == w.declared[|w.declared| - 1]
    {
      assert ProcOk(w, c);
    }
  }

  /** The own node of a live process is always among the children it listed, so an attempt does not fail. */
  lemma OwnNodeIsListed(procs: nat, events: seq<Event>, c: nat)
    ensures var w := Run(Start(procs), events);
      c < |w.procs| && w.procs[c].Alive() && w.procs[c].phase.Listed? ==> w.procs[c].phase.n in w.procs[c].phase.listing
  {
    RunKeeps(Start(procs), events);
    var w := Run(Start(procs), events);
    if c < |w.procs| {
      assert ProcOk(w, c);
    }
  }

  /** Live processes wait for different nodes, so that no deletion wakes more than one of them. */
  lemma NoHerd(procs: nat, events: seq<Event>)
    ensures var w := Run(Start(procs), events);
      forall c: nat, d: nat, p: nat :: WaitsFor(w, c, p) && WaitsFor(w, d, p) ==> c == d
  {
    RunKeeps(Start(procs), events);
    var w := Run(Start(procs), events);
    forall c: nat, d: nat, p: nat | WaitsFor(w, c, p) && WaitsFor(w, d, p) ensures c == d {
      assert ProcOk(w, c) && ProcOk(w, d);
    }
  }

  ghost predicate WaitsFor(w: World, c: nat, p: nat) {
    && c < |w.procs| && w.procs[c].Alive()
    && (w.procs[c].phase.MustWatch? || w.procs[c].phase.Watching?) && w.procs[c].phase.p == p
  }

  // ---------------------------------------------------------------- when a leader is missing

  /** Nothing is left to do: every started process that lives leads or watches, no event is on its
      way to a live one and no session is left to expire. */
  ghost predicate Quiet(w: World) {
    && (forall c :: 0 <= c < |w.procs| && w.procs[c].Alive() ==>
          w.procs[c].phase.Starting? || w.procs[c].phase.Leader? || w.procs[c].phase.Watching?)
    && (forall x :: x in w.fired && x.0 < |w.procs| ==> !w.procs[x.0].Alive())
    && (forall n :: n in w.nodes && w.nodes[n] < |w.procs| ==> w.procs[w.nodes[n]].Alive())
  }

  /** The node it was to watch had vanished before the watch was set. */
  ghost predicate Missed(w: World, c: nat) {
    && c < |w.procs| && w.procs[c].Alive() && w.procs[c].phase.Watching? && !w.procs[c].phase.registered
  }

  /** When everything has settled, the owner of the least node leads exactly when it did not miss. */
  lemma SettledLeader(procs: nat, events: seq<Event>, n: nat)
    ensures var w := Run(Start(procs), events);
      Quiet(w) && n in w.nodes && IsLeast(w.nodes.Keys, n) ==> (Leads(w, w.nodes[n]) <==> !Missed(w, w.nodes[n]))
  {
    RunKeeps(Start(procs), events);
    var w := Run(Start(procs), events);
    if Quiet(w) && n in w.nodes && IsLeast(w.nodes.Keys, n) {
      var c := w.nodes[n];
      assert ProcOk(w, c);
    }
  }

  lemma MissedStays(w: World, e: Event, c: nat)
    requires Inv(w) && Missed(w, c) && IsLeast(w.nodes.Keys, w.procs[c].phase.n)
    requires e != Crash(c) && e != Expire(c)
    ensures Missed(Step(w, e), c) && IsLeast(Step(w, e).nodes.Keys, w.procs[c].phase.n)
    ensures Step(w, e).procs[c] == w.procs[c]
  {
    assert ProcOk(w, c);
  }

  /** A process whose node is the least and that missed stays without a leader around it for as long as
      it lives: the answer of `watchNode` is ignored, and nothing wakes it. */
  lemma {:induction false} MissedWatchLeavesNoLeader(w: World, events: seq<Event>, c: nat)
    requires Inv(w) && Missed(w, c) && IsLeast(w.nodes.Keys, w.procs[c].phase.n)
    requires Crash(c) !in events && Expire(c) !in events
    ensures Missed(Run(w, events), c)
    ensures forall d: nat :: !Leads(Run(w, events), d)
    decreases |events|
  {
    if events != [] {
      MissedStays(w, events[0], c);
      StepKeeps(w, events[0]);
      MissedWatchLeavesNoLeader(Step(w, events[0]), events[1..], c);
    } else {
      assert ProcOk(w, c);
      forall d: nat ensures !Leads(w, d) {
        if d < |w.procs| {
          assert ProcOk(w, d);
        }
      }
    }
  }

  /** Two processes, of which the second goes its way alone. */
  ghost function Two(nodes: map<nat, nat>, first: Process, second: Phase): World {
    World(2, nodes, {}, {}, [first, Process(second, true, true)], [])
  }

  const LISTS_AND_DIES: seq<Event> := [List(1), Decide(1)] + ([Crash(0), Expire(0)] + [SetWatch(1)])

  lemma MissedWatchStages()
    ensures Step(Step(Start(2), Create(0, 0)), Create(1, 1))
         == Two(map[0 := 0, 1 := 1], Process(HasNode(0), true, true), HasNode(1))
    ensures Step(Two(map[0 := 0, 1 := 1], Process(HasNode(0), true, true), HasNode(1)), List(1))
         == Two(map[0 := 0, 1 := 1], Process(HasNode(0), true, true), Listed(1, {0, 1}))
  {
    assert Start(2).procs == [Process(Starting, true, true), Process(Starting, true, true)];
    assert map[0 := 0, 1 := 1].Keys == {0, 1};
  }

  lemma MissedWatchLaterStages()
    ensures Step(Two(map[0 := 0, 1 := 1], Process(HasNode(0), true, true), Listed(1, {0, 1})), Decide(1))
         == Two(map[0 := 0, 1 := 1], Process(HasNode(0), true, true), MustWatch(1, 0))
    ensures Step(Two(map[0 := 0, 1 := 1], Process(HasNode(0), true, true), MustWatch(1, 0)), Crash(0))
         == Two(map[0 := 0, 1 := 1], Process(HasNode(0), false, true), MustWatch(1, 0))
    ensures Step(Two(map[0 := 0, 1 := 1], Process(HasNode(0), false, true), MustWatch(1, 0)), Expire(0))
         == Two(map[1 := 1], Process(HasNode(0), false, false), MustWatch(1, 0))
    ensures Step(Two(map[1 := 1], Process(HasNode(0), false, false), MustWatch(1, 0)), SetWatch(1))
         == Two(map[1 := 1], Process(HasNode(0), false, false), Watching(1, 0, false))
  {
    assert 0 in {0, 1};
    assert IsPredecessor({0, 1}, 1, 0);
    var v := Two(map[0 := 0, 1 := 1], Process(HasNode(0), false, true), MustWatch(1, 0));
    assert v.nodes - {0} == map[1 := 1];
    assert Expired(v, 0).fired == {} && Expired(v, 0).watches == {};
  }

  /** And this does happen: the first process dies between the second one's listing and its watch. */
  lemma MissedWatchHappens()
    ensures var w := Run(Start(2), [Create(0, 0), Create(1, 1)] + LISTS_AND_DIES);
      Missed(w, 1) && w.nodes.Keys == {1} && IsLeast(w.nodes.Keys, w.procs[1].phase.n)
  {
    MissedWatchStages();
    MissedWatchLaterStages();
    RunConcat(Step, Start(2), [Create(0, 0), Create(1, 1)], LISTS_AND_DIES);
    RunTwo(Step, Start(2), Create(0, 0), Create(1, 1));
    var v := Two(map[0 := 0, 1 := 1], Process(HasNode(0), true, true), HasNode(1));
    RunConcat(Step, v, [List(1), Decide(1)], [Crash(0), Expire(0)] + [SetWatch(1)]);
    RunTwo(Step, v, List(1), Decide(1));
    var u := Two(map[0 := 0, 1 := 1], Process(HasNode(0), true, true), MustWatch(1, 0));
    RunConcat(Step, u, [Crash(0), Expire(0)], [SetWatch(1)]);
    RunTwo(Step, u, Crash(0), Expire(0));
    var t := Two(map[1 := 1], Process(HasNode(0), false, false), MustWatch(1, 0));
    assert Run(t, [SetWatch(1)]) == Run(Step(t, SetWatch(1)), []);
    assert Step(t, SetWatch(1)).nodes.Keys == {1};
  }
}
