/** A process that goes on running after its session expired may take itself for the leader beside a new
    one. When does the election stay exclusive among all running processes? */
module ElectionExpiry {
  import opened Runs
  import opened ZnodeNames
  import opened LeaderElection

  /** A running process that has declared itself leader, in session or not. */
  ghost predicate Believes(w: World, c: nat) {
    c < |w.procs| && w.procs[c].running && w.procs[c].phase.Leader?
  }

  ghost predicate OneBeliever(w: World) { forall c: nat, d: nat :: Believes(w, c) && Believes(w, d) ==> c == d }

  /** The process leads, or the listing that it holds will make it declare itself leader. */
  ghost predicate Committed(phase: Phase) {
    phase.Leader? || (phase.Listed? && IsLeast(phase.listing, phase.n))
  }

  /** No session expires under a running process that is committed. */
  ghost predicate GentleExpiries(w: World, events: seq<Event>)
    decreases |events|
  {
    events == [] ||
    ((events[0].Expire? && Enabled(w, events[0]) && w.procs[events[0].c].running ==>
        !Committed(w.procs[events[0].c].phase)) &&
     GentleExpiries(Step(w, events[0]), events[1..]))
  }

  ghost predicate NoStaleLeader(w: World) {
    forall c: nat :: c < |w.procs| && w.procs[c].running && !w.procs[c].session ==> !Committed(w.procs[c].phase)
  }

  // ---------------------------------------------------------------- exclusive without stale leaders

  lemma {:induction false} RunStaysGentle(w: World, events: seq<Event>)
    requires NoStaleLeader(w) && GentleExpiries(w, events)
    ensures NoStaleLeader(Run(w, events))
    decreases |events|
  {
    if events != [] {
      assert NoStaleLeader(Step(w, events[0]));
      RunStaysGentle(Step(w, events[0]), events[1..]);
    }
  }

  lemma NoStaleLeaderIsExclusive(w: World)
    requires Inv(w) && NoStaleLeader(w)
    ensures OneBeliever(w)
  {
    forall c: nat, d: nat | Believes(w, c) && Believes(w, d) ensures c == d {
      assert ProcOk(w, c) && ProcOk(w, d);
    }
  }

  /** In every run in which sessions expire gently, at most one running process takes itself for the
      leader. */
  lemma GentleElectionIsExclusive(procs: nat, events: seq<Event>)
    requires GentleExpiries(Start(procs), events)
    ensures OneBeliever(Run(Start(procs), events))
  {
    RunKeeps(Start(procs), events);
    RunStaysGentle(Start(procs), events);
    NoStaleLeaderIsExclusive(Run(Start(procs), events));
  }

  // ---------------------------------------------------------------- two leaders otherwise

  /** Whatever happens from here on, with gentle expiries only, no two running processes take themselves
      for the leader. */
  ghost predicate SafeForever(w: World) {
    forall events :: GentleExpiries(w, events) ==> OneBeliever(Run(w, events))
  }

  /** A live process may come to lead, unless its listing tells it to watch, or it watches, a node that
      had vanished before the watch was set. */
  ghost predicate CanStillLead(w: World, d: nat) {
    d < |w.procs| && w.procs[d].Alive() &&
    match w.procs[d].phase
    case Starting => true
    case HasNode(_) => true
    case Listed(n, listing) => IsLeast(listing, n) || Predecessor(listing, n) in w.nodes
    case MustWatch(_, p) => p in w.nodes
    case Watching(_, _, registered) => registered
    case Leader(_) => true
  }

  /** A leader that has lost its session goes on running beside a live process. */
  ghost predicate StaleBeside(w: World, c: nat, d: nat) {
    && c < |w.procs| && d < |w.procs| && d != c && w.procs[d].Alive()
    && w.procs[c].running && !w.procs[c].session && w.procs[c].phase.Leader?
  }

  /** What is not safe after a gentle step is not safe before it. */
  lemma OneStepMore(w: World, e: Event)
    requires !SafeForever(Step(w, e))
    requires e.Expire? && Enabled(w, e) && w.procs[e.c].running ==> !Committed(w.procs[e.c].phase)
    ensures !SafeForever(w)
  {
    var events :| GentleExpiries(Step(w, e), events) && !OneBeliever(Run(Step(w, e), events));
    assert ([e] + events)[1..] == events;
    assert GentleExpiries(w, [e] + events) && !OneBeliever(Run(w, [e] + events));
  }

  lemma SecondLeader(w: World, c: nat, d: nat)
    requires StaleBeside(w, c, d) && w.procs[d].phase.Leader?
    ensures !SafeForever(w)
  {
    assert Believes(w, c) && Believes(w, d);
    assert GentleExpiries(w, []) && !OneBeliever(Run(w, []));
  }

  /** The owner of a node dies, and its session expires. */
  ghost function OwnerGone(w: World, m: nat): World
    requires m in w.nodes
  {
    Step(Step(w, Crash(w.nodes[m])), Expire(w.nodes[m]))
  }

  lemma OwnerGoes(w: World, c: nat, d: nat, m: nat)
    requires Inv(w) && StaleBeside(w, c, d) && m in w.nodes
    requires w.procs[d].phase.Starting? || w.procs[d].phase.n != m
    ensures var v := OwnerGone(w, m);
      && Inv(v) && StaleBeside(v, c, d) && v.procs[d] == w.procs[d] && v.nodes == w.nodes - {m}
      && ((d, m) in w.watches ==> (d, m) in v.fired)
    ensures !SafeForever(OwnerGone(w, m)) ==> !SafeForever(w)
  {
    var o := w.nodes[m];
    assert OwnedBy(w, m, o);
    var u := Step(w, Crash(o));
    StepKeeps(w, Crash(o));
    StepKeeps(u, Expire(o));
    assert !u.procs[o].running && u.nodes == w.nodes && u.watches == w.watches;
    if !SafeForever(OwnerGone(w, m)) {
      OneStepMore(u, Expire(o));
      OneStepMore(w, Crash(o));
    }
  }

  /** With the owners of all other nodes gone, a process that has a node becomes leader. */
  lemma {:induction false} OwnerOfNodeCanLead(w: World, c: nat, d: nat)
    requires Inv(w) && StaleBeside(w, c, d) && w.procs[d].phase.HasNode?
    ensures !SafeForever(w)
    decreases |w.nodes|
  {
    var n := w.procs[d].phase.n;
    assert ProcOk(w, d);
    if m :| m in w.nodes && m != n {
      OwnerGoes(w, c, d, m);
      assert |w.nodes - {m}| < |w.nodes| by { assert w.nodes == (w.nodes - {m})[m := w.nodes[m]]; }
      OwnerOfNodeCanLead(OwnerGone(w, m), c, d);
    } else {
      assert w.nodes.Keys == {n};
      var u := Step(w, List(d));
      assert u.procs[d].phase == Listed(n, {n});
      SecondLeader(Step(u, Decide(d)), c, d);
      OneStepMore(u, Decide(d));
      OneStepMore(w, List(d));
    }
  }

  /** A watch that is set reports the end of its node. */
  lemma WatcherCanLead(w: World, c: nat, d: nat)
    requires Inv(w) && StaleBeside(w, c, d) && w.procs[d].phase.Watching? && w.procs[d].phase.registered
    ensures !SafeForever(w)
  {
    var p := w.procs[d].phase.p;
    assert ProcOk(w, d);
    if (d, p) in w.fired {
      StepKeeps(w, Deliver(d, p));
      OwnerOfNodeCanLead(Step(w, Deliver(d, p)), c, d);
      OneStepMore(w, Deliver(d, p));
    } else {
      OwnerGoes(w, c, d, p);
      var v := OwnerGone(w, p);
      StepKeeps(v, Deliver(d, p));
      OwnerOfNodeCanLead(Step(v, Deliver(d, p)), c, d);
      OneStepMore(v, Deliver(d, p));
    }
  }

  lemma FollowerCanLead(w: World, c: nat, d: nat)
    requires Inv(w) && StaleBeside(w, c, d) && CanStillLead(w, d) && w.procs[d].phase.MustWatch?
    ensures !SafeForever(w)
  {
    StepKeeps(w, SetWatch(d));
    WatcherCanLead(Step(w, SetWatch(d)), c, d);
    OneStepMore(w, SetWatch(d));
  }

  lemma ListerCanLead(w: World, c: nat, d: nat)
    requires Inv(w) && StaleBeside(w, c, d) && CanStillLead(w, d) && w.procs[d].phase.Listed?
    ensures !SafeForever(w)
  {
    var v := Step(w, Decide(d));
    StepKeeps(w, Decide(d));
    if v.procs[d].phase.Leader? {
      SecondLeader(v, c, d);
    } else {
      FollowerCanLead(v, c, d);
    }
    OneStepMore(w, Decide(d));
  }

  lemma StaleLeaderIsNotSafe(w: World, c: nat, d: nat)
    requires Inv(w) && StaleBeside(w, c, d) && CanStillLead(w, d)
    ensures !SafeForever(w)
  {
    match w.procs[d].phase {
      case Starting =>
        StepKeeps(w, Create(d, w.next));
        OwnerOfNodeCanLead(Step(w, Create(d, w.next)), c, d);
        OneStepMore(w, Create(d, w.next));
      case HasNode(_) => OwnerOfNodeCanLead(w, c, d);
      case Listed(_, _) => ListerCanLead(w, c, d);
      case MustWatch(_, _) => FollowerCanLead(w, c, d);
      case Watching(_, _, _) => WatcherCanLead(w, c, d);
      case Leader(_) => SecondLeader(w, c, d);
    }
  }

  lemma CommittedIsNotSafe(w: World, c: nat, d: nat)
    requires Inv(w) && c < |w.procs| && d != c && CanStillLead(w, d)
    requires w.procs[c].running && !w.procs[c].session && Committed(w.procs[c].phase)
    ensures !SafeForever(w)
  {
    if w.procs[c].phase.Leader? {
      StaleLeaderIsNotSafe(w, c, d);
    } else {
      StepKeeps(w, Decide(c));
      StaleLeaderIsNotSafe(Step(w, Decide(c)), c, d);
      OneStepMore(w, Decide(c));
    }
  }

  // ---------------------------------------------------------------- safe among processes that are stuck

  /** The session of `c` is over, and no other process leads or can come to lead. */
  ghost predicate OthersAreStuck(w: World, c: nat) {
    && c < |w.procs| && !w.procs[c].session
    && forall d: nat :: d < |w.procs| && d != c && w.procs[d].running ==>
         !Committed(w.procs[d].phase) && !CanStillLead(w, d)
  }

  lemma OthersStayStuck(w: World, e: Event, c: nat)
    requires Inv(w) && OthersAreStuck(w, c)
    ensures OthersAreStuck(Step(w, e), c)
  {
    if Enabled(w, e) {
      var v := Step(w, e);
      assert !e.Create? && !e.List? && !e.Deliver?;
      forall d: nat | d < |v.procs| && d != c && v.procs[d].running
        ensures !Committed(v.procs[d].phase) && !CanStillLead(v, d)
      {
        assert !Committed(w.procs[d].phase) && !CanStillLead(w, d);
      }
    }
  }

  lemma {:induction false} StuckIsSafe(w: World, c: nat, events: seq<Event>)
    requires Inv(w) && OthersAreStuck(w, c)
    ensures OneBeliever(Run(w, events))
    decreases |events|
  {
    if events == [] {
      assert forall d: nat :: Believes(w, d) ==> d == c;
    } else {
      StepKeeps(w, events[0]);
      OthersStayStuck(w, events[0], c);
      StuckIsSafe(Step(w, events[0]), c, events[1..]);
    }
  }

  // ---------------------------------------------------------------- exactly when

  /** After any gentle run, the expiry of a live process's session is safe exactly if the process neither
      leads nor holds a listing that makes it lead, or no other process can ever lead. */
  lemma ExpiryIsSafeIff(procs: nat, past: seq<Event>, c: nat)
    requires GentleExpiries(Start(procs), past)
    requires var w := Run(Start(procs), past); c < |w.procs| && w.procs[c].Alive()
    ensures var w := Run(Start(procs), past);
      SafeForever(Expired(w, c)) <==>
        !Committed(w.procs[c].phase) || forall d: nat :: d != c ==> !CanStillLead(Expired(w, c), d)
  {
    var w := Run(Start(procs), past);
    RunKeeps(Start(procs), past);
    RunStaysGentle(Start(procs), past);
    var v := Expired(w, c);
    ExpireKeeps(w, c);
    if !Committed(w.procs[c].phase) {
      forall events | GentleExpiries(v, events) ensures OneBeliever(Run(v, events)) {
        RunKeeps(v, events);
        RunStaysGentle(v, events);
        NoStaleLeaderIsExclusive(Run(v, events));
      }
    } else if d: nat :| d != c && CanStillLead(v, d) {
      CommittedIsNotSafe(v, c, d);
    } else {
      forall d: nat | d < |v.procs| && d != c && v.procs[d].running
        ensures !Committed(v.procs[d].phase) && !CanStillLead(v, d)
      {
        assert v.procs[d] == w.procs[d] && !CanStillLead(v, d);
      }
      forall events | GentleExpiries(v, events) ensures OneBeliever(Run(v, events)) {
        StuckIsSafe(v, c, events);
      }
    }
  }

  /** The usual case: while another live process is about to start, has a node, or has set its watch in
      time, the session of a live leader never expires safely. */
  lemma LeaderBesideCandidate(procs: nat, past: seq<Event>, c: nat, d: nat)
    requires GentleExpiries(Start(procs), past)
    requires var w := Run(Start(procs), past);
      && Leads(w, c) && d < |w.procs| && d != c && w.procs[d].Alive()
      && (w.procs[d].phase.Starting? || w.procs[d].phase.HasNode? ||
          (w.procs[d].phase.Watching? && w.procs[d].phase.registered))
    ensures !SafeForever(Expired(Run(Start(procs), past), c))
  {
    assert CanStillLead(Expired(Run(Start(procs), past), c), d);
    ExpiryIsSafeIff(procs, past, c);
  }
}
