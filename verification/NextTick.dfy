/** The `process.nextTick` queue: items run from an array with an index, may enqueue further items and
    may throw, after which a timer resumes the drain. Proved against a plain first-in-first-out list. */
module NextTick {
  import opened Text
  import opened Runs

  /** What an item does when it runs: it enqueues other items, in order, and then throws or returns.
      Every finite run is described by such trees. */
  datatype Item = Item(name: int, spawns: seq<Item>, throws: bool)

  /** How many items will run in all. */
  function Size(items: seq<Item>): nat
    decreases items
  {
    if items == [] then 0 else 1 + Size(items[0].spawns) + Size(items[1..])
  }

  lemma {:induction false} SizeOfConcat(a: seq<Item>, b: seq<Item>)
    ensures Size(a + b) == Size(a) + Size(b)
  {
    if a == [] {
      assert a + b == b;
    } else {
      assert (a + b)[1..] == a[1..] + b;
      SizeOfConcat(a[1..], b);
    }
  }

  // ---------------------------------------------------------------- the plain queue

  /** A list of waiting items; `ran` and `enqueued` record the past, `threw` says that an item threw and
      the drain has not been resumed. */
  datatype Work = Work(ran: seq<Item>, pending: seq<Item>, enqueued: seq<Item>, threw: bool)

  function RunFirst(w: Work): Work
    requires w.pending != []
  {
    var item := w.pending[0];
    Work(w.ran + [item], w.pending[1..] + item.spawns, w.enqueued + item.spawns, item.throws)
  }

  lemma RunFirstShrinks(w: Work)
    requires w.pending != []
    ensures Size(RunFirst(w).pending) < Size(w.pending)
  {
    SizeOfConcat(w.pending[1..], w.pending[0].spawns);
  }

  /** Runs items from the front until none is left or one throws. */
  function Drain(w: Work): Work
    decreases Size(w.pending)
  {
    if w.pending == [] then w.(threw := false)
    else
      RunFirstShrinks(w);
      if w.pending[0].throws then RunFirst(w) else Drain(RunFirst(w))
  }

  lemma DrainOfNothing(w: Work)
    requires w.pending == []
    ensures Drain(w) == w.(threw := false)
  {
  }

  /** The queue together with its timers. */
  datatype Ticks = Ticks(work: Work, drainTimers: nat, cleanUpTimers: nat)

  const START: Ticks := Ticks(Work([], [], [], false), 0, 0)

  datatype Event = Enqueue(item: Item) | DrainTimer | CleanUpTimer

  function Enqueued(t: Ticks, item: Item): Ticks {
    var w := t.work;
    Ticks(w.(pending := w.pending + [item], enqueued := w.enqueued + [item]),
          if w.pending == [] && !w.threw then t.drainTimers + 1 else t.drainTimers, t.cleanUpTimers)
  }

  /** A drain leaves a clean-up timer behind exactly when an item throws. */
  function Drained(t: Ticks): Ticks {
    var w := Drain(t.work);
    t.(work := w, cleanUpTimers := if w.threw then t.cleanUpTimers + 1 else t.cleanUpTimers)
  }

  function Step(t: Ticks, e: Event): Ticks {
    match e
    case Enqueue(item) => Enqueued(t, item)
    case DrainTimer =>
      if t.drainTimers == 0 then t
      else if t.work.threw then t.(drainTimers := t.drainTimers - 1)
      else Drained(t.(drainTimers := t.drainTimers - 1))
    case CleanUpTimer =>
      if t.cleanUpTimers == 0 then t
      else if !t.work.threw then t.(cleanUpTimers := t.cleanUpTimers - 1)
      else Drained(t.(cleanUpTimers := t.cleanUpTimers - 1))
  }

  ghost function Run(t: Ticks, events: seq<Event>): Ticks { RunOf(Step, t, events) }

  /** Running the item at `k` of an array whose items before `k` have run, with `queue` to follow. */
  lemma RunAt(ran: seq<Item>, current: seq<Item>, k: nat, queue: seq<Item>, enqueued: seq<Item>)
    requires k < |current|
    ensures var w := Work(ran, current[k..] + queue, enqueued, false);
      w.pending != [] && RunFirst(w) == Work(ran + [current[k]], current[k + 1..] + (queue + current[k].spawns),
                                             enqueued + current[k].spawns, current[k].throws)
  {
    assert (current[k..] + queue)[1..] == current[k + 1..] + queue;
    Assoc(current[k + 1..], queue, current[k].spawns);
  }

  // ---------------------------------------------------------------- the queue in the code

  class Ticker {
    var queue: seq<Item>
    var draining: bool
    var currentQueue: Option<seq<Item>>
    var queueIndex: int
    var drainTimers: nat
    var cleanUpTimers: nat
    ghost var ran: seq<Item>
    ghost var enqueued: seq<Item>

    /** Between events: a queue that is draining was left by an item that threw, at `queueIndex`. */
    ghost predicate Valid()
      reads this
    {
      if draining then currentQueue.Some? && 0 <= queueIndex < |currentQueue.value|
      else currentQueue.None? && queueIndex == -1
    }

    ghost function Pending(): seq<Item>
      reads this
      requires Valid()
    {
      if draining then currentQueue.value[queueIndex + 1..] + queue else queue
    }

    ghost function Model(): Ticks
      reads this
      requires Valid()
    {
      Ticks(Work(ran, Pending(), enqueued, draining), drainTimers, cleanUpTimers)
    }

    constructor ()
      ensures Valid() && Model() == START
    {
      queue, draining, currentQueue, queueIndex := [], false, None, -1;
      drainTimers, cleanUpTimers, ran, enqueued := 0, 0, [], [];
    }

    /** `process.nextTick` */
    method Push(item: Item)
      modifies this`queue, this`drainTimers, this`enqueued
      ensures queue == old(queue) + [item] && enqueued == old(enqueued) + [item]
      ensures drainTimers == if |old(queue)| == 0 && !draining then old(drainTimers) + 1 else old(drainTimers)
    {
      queue := queue + [item];
      enqueued := enqueued + [item];
      if |queue| == 1 && !draining {
        drainTimers := drainTimers + 1;
      }
    }

    /** Runs one item of a drain. */
    method RunItem(item: Item)
      requires draining
      modifies this`queue, this`drainTimers, this`enqueued, this`ran
      ensures queue == old(queue) + item.spawns && enqueued == old(enqueued) + item.spawns
      ensures ran == old(ran) + [item] && drainTimers == old(drainTimers)
    {
      ran := ran + [item];
      for i := 0 to |item.spawns|
        invariant queue == old(queue) + item.spawns[..i] && enqueued == old(enqueued) + item.spawns[..i]
        invariant ran == old(ran) + [item] && drainTimers == old(drainTimers)
      {
        Push(item.spawns[i]);
        assert item.spawns[..i + 1] == item.spawns[..i] + [item.spawns[i]];
      }
      assert item.spawns[..|item.spawns|] == item.spawns;
    }

    /** The work left when the queue is a whole array of which the items up to `queueIndex` have run. */
    ghost function Rest(): Work
      reads this
      requires -1 <= queueIndex < |queue| || (queueIndex == -1 && queue == [])
    {
      Work(ran, queue[queueIndex + 1..], enqueued, false)
    }

    /** The work left in the middle of a pass over `currentQueue`. */
    ghost function InPass(): Work
      reads this
      requires currentQueue.Some? && 0 <= queueIndex <= |currentQueue.value|
    {
      Work(ran, currentQueue.value[queueIndex..] + queue, enqueued, false)
    }

    /** The inner loop of `drainQueue`: one pass over `currentQueue`, ended by an item that throws. */
    method RunPass() returns (threw: bool)
      requires draining && currentQueue.Some? && 0 <= queueIndex <= |currentQueue.value|
      modifies this`queue, this`queueIndex, this`drainTimers, this`enqueued, this`ran
      ensures drainTimers == old(drainTimers)
      ensures threw ==>
        && 0 <= queueIndex < |currentQueue.value|
        && Work(ran, currentQueue.value[queueIndex + 1..] + queue, enqueued, true) == Drain(old(InPass()))
      ensures !threw ==> Drain(Work(ran, queue, enqueued, false)) == Drain(old(InPass()))
      ensures !threw ==> if old(queueIndex) < |currentQueue.value| then Size(queue) < Size(old(InPass()).pending)
                         else queue == old(queue)
    {
      threw := false;
      while queueIndex < |currentQueue.value|
        invariant old(queueIndex) <= queueIndex <= |currentQueue.value| && !threw
        invariant Drain(InPass()) == Drain(old(InPass()))
        invariant if queueIndex == old(queueIndex)
          then queue == old(queue) && ran == old(ran) && enqueued == old(enqueued)
          else Size(InPass().pending) < Size(old(InPass()).pending)
        invariant drainTimers == old(drainTimers)
      {
        RunAt(ran, currentQueue.value, queueIndex, queue, enqueued);
        RunFirstShrinks(InPass());
        RunItem(currentQueue.value[queueIndex]);
        if currentQueue.value[queueIndex].throws {
          threw := true;
          return;
        }
        queueIndex := queueIndex + 1;
      }
      assert currentQueue.value[queueIndex..] + queue == queue;
    }

    /** The body of the loop of `drainQueue`. */
    method RunQueue() returns (threw: bool)
      requires draining && -1 <= queueIndex < |queue|
      modifies this`queue, this`currentQueue, this`queueIndex, this`drainTimers, this`enqueued, this`ran
      ensures drainTimers == old(drainTimers)
      ensures threw ==> Valid() && Work(ran, Pending(), enqueued, true) == Drain(old(Rest()))
      ensures !threw ==> queueIndex == -1 && Drain(Rest()) == Drain(old(Rest()))
      ensures !threw ==> Size(queue[0..]) < Size(old(queue[queueIndex + 1..])) || queue == []
    {
      ghost var before := Rest();
      currentQueue := Some(queue);
      queue := [];
      queueIndex := queueIndex + 1;
      assert currentQueue.value[queueIndex..] + queue == before.pending;
      threw := RunPass();
      if !threw {
        queueIndex := -1;
        assert queue[0..] == queue;
      }
    }

    /** The end of `drainQueue`, which clears its timer. */
    method EndDrain()
      requires queueIndex == -1 && cleanUpTimers > 0 && queue == []
      modifies this`currentQueue, this`draining, this`cleanUpTimers
      ensures !draining && Valid() && Pending() == [] && cleanUpTimers == old(cleanUpTimers) - 1
    {
      currentQueue := None;
      draining := false;
      cleanUpTimers := cleanUpTimers - 1;
    }

    /** `drainQueue`, called with the part of the queue up to `queueIndex` already run. */
    method DrainQueue()
      requires -1 <= queueIndex < |queue| || (queueIndex == -1 && queue == [])
      requires !draining
      modifies this
      ensures Valid() && drainTimers == old(drainTimers)
      ensures Work(ran, Pending(), enqueued, draining) == Drain(old(Rest()))
      ensures cleanUpTimers == if draining then old(cleanUpTimers) + 1 else old(cleanUpTimers)
    {
      cleanUpTimers := cleanUpTimers + 1;
      draining := true;
      var threw := RunQueues();
      if !threw {
        EndDrain();
      }
    }

    /** The loop of `drainQueue`. */
    method RunQueues() returns (threw: bool)
      requires draining && (-1 <= queueIndex < |queue| || (queueIndex == -1 && queue == []))
      modifies this`queue, this`currentQueue, this`queueIndex, this`drainTimers, this`enqueued, this`ran
      ensures drainTimers == old(drainTimers)
      ensures threw ==> Valid() && Work(ran, Pending(), enqueued, true) == Drain(old(Rest()))
      ensures !threw ==> queueIndex == -1 && queue == [] && Work(ran, [], enqueued, false) == Drain(old(Rest()))
    {
      ghost var goal := Drain(Rest());
      threw := false;
      var len := |queue|;
      while len != 0
        invariant draining && !threw && len == |queue|
        invariant -1 <= queueIndex < |queue| || (queueIndex == -1 && queue == [])
        invariant Drain(Rest()) == goal
        invariant drainTimers == old(drainTimers)
        decreases Size(queue[queueIndex + 1..]), len
      {
        threw := RunQueue();
        if threw {
          return;
        }
        len := |queue|;
      }
      DrainOfNothing(Rest());
    }

    /** `cleanUpNextTick` */
    method CleanUp()
      requires Valid()
      modifies this
      ensures Valid()
      ensures Model() == if old(draining) then Drained(old(Model()).(work := old(Model()).work.(threw := false)))
                         else old(Model())
    {
      if !draining || currentQueue.None? {
        return;
      }
      draining := false;
      if |currentQueue.value| > 0 {
        assert (currentQueue.value + queue)[queueIndex + 1..] == currentQueue.value[queueIndex + 1..] + queue;
        queue := currentQueue.value + queue;
      } else {
        assert false;
      }
      if |queue| > 0 {
        DrainQueue();
      }
    }

    /** Whatever happens next: a call from outside the queue, or a timer that fires. */
    method Handle(e: Event)
      requires Valid()
      modifies this
      ensures Valid() && Model() == Step(old(Model()), e)
    {
      match e
      case Enqueue(item) => EnqueueFromOutside(item);
      case DrainTimer => DrainTimerFires();
      case CleanUpTimer => CleanUpTimerFires();
    }

    method CleanUpTimerFires()
      requires Valid()
      modifies this
      ensures Valid() && Model() == Step(old(Model()), CleanUpTimer)
    {
      if cleanUpTimers > 0 {
        cleanUpTimers := cleanUpTimers - 1;
        CleanUp();
      }
    }

    method DrainTimerFires()
      requires Valid()
      modifies this
      ensures Valid() && Model() == Step(old(Model()), DrainTimer)
    {
      if drainTimers > 0 {
        drainTimers := drainTimers - 1;
        if !draining {
          assert queue[0..] == queue;
          DrainQueue();
        }
      }
    }

    method EnqueueFromOutside(item: Item)
      requires Valid()
      modifies this
      ensures Valid() && Model() == Enqueued(old(Model()), item)
    {
      ghost var pending := Pending();
      if draining {
        Assoc(currentQueue.value[queueIndex + 1..], queue, [item]);
      }
      Push(item);
      assert Pending() == pending + [item];
    }
  }

  // ---------------------------------------------------------------- over all runs

  /** Every item enqueued has run or is waiting, in the order of enqueueing; while items wait there is a
      timer that will go on, and only an item that threw leaves a clean-up timer. */
  ghost predicate Fifo(t: Ticks) {
    && t.work.ran + t.work.pending == t.work.enqueued
    && (t.work.pending != [] ==> t.drainTimers > 0 || t.work.threw)
    && t.cleanUpTimers == (if t.work.threw then 1 else 0)
  }

  lemma RunFirstKeepsOrder(w: Work)
    requires w.pending != [] && w.ran + w.pending == w.enqueued
    ensures RunFirst(w).ran + RunFirst(w).pending == RunFirst(w).enqueued
  {
    var spawns := w.pending[0].spawns;
    assert w.pending == [w.pending[0]] + w.pending[1..];
    Assoc(w.ran, [w.pending[0]], w.pending[1..]);
    Assoc(w.ran + [w.pending[0]], w.pending[1..], spawns);
  }

  /** A drain keeps the order and leaves nothing behind unless an item threw; if something was waiting
      at least its first item has run. */
  lemma {:induction false} DrainKeepsOrder(w: Work)
    requires w.ran + w.pending == w.enqueued
    ensures var d := Drain(w);
      && d.ran + d.pending == d.enqueued
      && (!d.threw ==> d.pending == [])
      && w.enqueued <= d.enqueued
      && w.ran + w.pending[..if w.pending == [] then 0 else 1] <= d.ran
    decreases Size(w.pending)
  {
    if w.pending != [] {
      RunFirstKeepsOrder(w);
      RunFirstShrinks(w);
      if !w.pending[0].throws {
        DrainKeepsOrder(RunFirst(w));
      }
    }
  }

  /** Exactly the items before the one that threw ran before it: the drain stops there. */
  lemma {:induction false} DrainStopsAtThrow(w: Work)
    ensures w.ran <= Drain(w).ran && (Drain(w).threw ==> |w.ran| < |Drain(w).ran|)
    ensures forall i :: |w.ran| <= i < |Drain(w).ran| ==>
              (Drain(w).ran[i].throws <==> Drain(w).threw && i == |Drain(w).ran| - 1)
    decreases Size(w.pending)
  {
    if w.pending != [] {
      RunFirstShrinks(w);
      if !w.pending[0].throws {
        DrainStopsAtThrow(RunFirst(w));
      }
    }
  }

  lemma StepKeeps(t: Ticks, e: Event)
    requires Fifo(t)
    ensures Fifo(Step(t, e)) && t.work.ran <= Step(t, e).work.ran && t.work.enqueued <= Step(t, e).work.enqueued
  {
    if e.Enqueue? {
      Assoc(t.work.ran, t.work.pending, [e.item]);
    } else {
      DrainKeepsOrder(t.work);
      DrainKeepsOrder(t.work.(threw := false));
    }
  }

  /** In every run the items that ran are the first ones enqueued, in order and once each, and when no
      timer is left all of them have run: none is skipped, not even after one that threw. */
  lemma {:induction false} EveryItemRunsOnceInOrder(t: Ticks, events: seq<Event>)
    requires Fifo(t)
    ensures var u := Run(t, events);
      && Fifo(u) && t.work.ran <= u.work.ran && u.work.ran <= u.work.enqueued
      && (u.drainTimers == 0 && u.cleanUpTimers == 0 ==> u.work.ran == u.work.enqueued)
    decreases |events|
  {
    if events == [] {
      assert t.work.pending == [] ==> t.work.ran + [] == t.work.ran;
    } else {
      StepKeeps(t, events[0]);
      EveryItemRunsOnceInOrder(Step(t, events[0]), events[1..]);
    }
  }

  /** The same from the start, and then letting the timers fire runs everything. */
  lemma RunsFromTheStart(events: seq<Event>)
    ensures var u := Run(START, events);
      && u.work.ran <= u.work.enqueued
      && (u.drainTimers == 0 && u.cleanUpTimers == 0 ==> u.work.ran == u.work.enqueued)
    ensures var u := Run(START, events);
      var v := Run(Step(u, DrainTimer), Firings(Size(u.work.pending) + 1));
      u.work.enqueued <= v.work.enqueued && v.work.ran == v.work.enqueued
  {
    EveryItemRunsOnceInOrder(START, events);
    var u := Run(START, events);
    TimersFinishTheWork(u, Size(u.work.pending));
    StepKeeps(u, DrainTimer);
    EnqueuedStays(Step(u, DrainTimer), Firings(Size(u.work.pending) + 1));
  }

  lemma {:induction false} EnqueuedStays(t: Ticks, events: seq<Event>)
    requires Fifo(t)
    ensures t.work.enqueued <= Run(t, events).work.enqueued
    decreases |events|
  {
    if events != [] {
      StepKeeps(t, events[0]);
      EnqueuedStays(Step(t, events[0]), events[1..]);
    }
  }

  function SpawnsOf(items: seq<Item>): seq<Item> {
    if items == [] then [] else items[0].spawns + SpawnsOf(items[1..])
  }

  lemma {:induction false} DrainEnqueues(w: Work)
    ensures w.ran <= Drain(w).ran
    ensures Drain(w).enqueued == w.enqueued + SpawnsOf(Drain(w).ran[|w.ran|..])
    decreases Size(w.pending)
  {
    DrainStopsAtThrow(w);
    if w.pending == [] {
      assert Drain(w).ran[|w.ran|..] == [];
    } else {
      RunFirstShrinks(w);
      var v := RunFirst(w);
      DrainStopsAtThrow(v);
      var more := Drain(w).ran[|v.ran|..];
      assert Drain(w).ran[|w.ran|..] == [w.pending[0]] + more;
      if w.pending[0].throws {
        assert more == [] && w.pending[0].spawns + [] == w.pending[0].spawns;
      } else {
        DrainEnqueues(v);
        Assoc(w.enqueued, w.pending[0].spawns, SpawnsOf(more));
      }
    }
  }

  /** What a run enqueues: each item handed in, and whatever the items that run enqueue themselves. */
  ghost function HandedIn(t: Ticks, events: seq<Event>): seq<Item>
    decreases |events|
  {
    if events == [] then []
    else
      var u := Step(t, events[0]);
      (if events[0].Enqueue? then [events[0].item]
       else if |t.work.ran| <= |u.work.ran| then SpawnsOf(u.work.ran[|t.work.ran|..]) else [])
      + HandedIn(u, events[1..])
  }

  lemma StepEnqueues(t: Ticks, e: Event)
    ensures Step(t, e).work.enqueued == t.work.enqueued +
      if e.Enqueue? then [e.item]
      else if |t.work.ran| <= |Step(t, e).work.ran| then SpawnsOf(Step(t, e).work.ran[|t.work.ran|..]) else []
  {
    DrainEnqueues(t.work);
    assert t.work.ran[|t.work.ran|..] == [] && t.work.enqueued + [] == t.work.enqueued;
  }

  /** Nothing that was handed in is missing from what is enqueued, and nothing else is in it. */
  lemma {:induction false} EnqueuedIsHandedIn(t: Ticks, events: seq<Event>)
    ensures Run(t, events).work.enqueued == t.work.enqueued + HandedIn(t, events)
    decreases |events|
  {
    if events == [] {
      assert t.work.enqueued + [] == t.work.enqueued;
    } else {
      var u := Step(t, events[0]);
      StepEnqueues(t, events[0]);
      EnqueuedIsHandedIn(u, events[1..]);
      Assoc(t.work.enqueued, u.work.enqueued[|t.work.enqueued|..], HandedIn(u, events[1..]));
      assert u.work.enqueued == t.work.enqueued + u.work.enqueued[|t.work.enqueued|..];
    }
  }

  /** A timer that fires on a waiting queue makes progress: after a throw it is the clean-up timer that
      resumes, at the item after the one that threw. */
  lemma TimerResumes(t: Ticks)
    requires Fifo(t) && t.work.pending != []
    ensures var u := Step(t, if t.work.threw then CleanUpTimer else DrainTimer);
      t.work.ran + [t.work.pending[0]] <= u.work.ran
  {
    DrainKeepsOrder(t.work);
    DrainKeepsOrder(t.work.(threw := false));
    assert t.work.pending[..1] == [t.work.pending[0]];
  }

  /** As many clean-up timers as there are items are enough to finish any work. */
  function Firings(n: nat): seq<Event> { if n == 0 then [] else [CleanUpTimer] + Firings(n - 1) }

  lemma {:induction false} DrainShrinks(w: Work)
    ensures Size(Drain(w).pending) <= Size(w.pending)
    ensures w.pending != [] ==> Size(Drain(w).pending) < Size(w.pending)
    decreases Size(w.pending)
  {
    if w.pending != [] {
      RunFirstShrinks(w);
      if !w.pending[0].throws {
        DrainShrinks(RunFirst(w));
      }
    }
  }

  /** After any run, letting the timers fire runs everything. */
  lemma {:induction false} TimersFinishTheWork(t: Ticks, n: nat)
    requires Fifo(t) && Size(t.work.pending) <= n
    ensures var u := Run(Step(t, DrainTimer), Firings(n + 1)); u.work.ran == u.work.enqueued
  {
    StepKeeps(t, DrainTimer);
    DrainShrinks(t.work);
    var u := Step(t, DrainTimer);
    if !u.work.threw && u.work.pending != [] {
      DrainKeepsOrder(t.work);
    }
    CleanUpsFinishTheWork(u, n + 1);
  }

  lemma {:induction false} CleanUpsFinishTheWork(t: Ticks, n: nat)
    requires Fifo(t) && Size(t.work.pending) < n && (t.work.threw || t.work.pending == [])
    ensures var u := Run(t, Firings(n)); u.work.ran == u.work.enqueued
    decreases n
  {
    var u := Step(t, CleanUpTimer);
    assert Firings(n)[0] == CleanUpTimer && Firings(n)[1..] == Firings(n - 1);
    StepKeeps(t, CleanUpTimer);
    DrainKeepsOrder(t.work.(threw := false));
    DrainShrinks(t.work.(threw := false));
    if u.work.pending == [] {
      NothingLeft(u, n - 1);
    } else {
      CleanUpsFinishTheWork(u, n - 1);
    }
  }

  lemma {:induction false} NothingLeft(t: Ticks, n: nat)
    requires Fifo(t) && t.work.pending == []
    ensures var u := Run(t, Firings(n)); u.work.ran == u.work.enqueued
    decreases n
  {
    assert t.work.ran + [] == t.work.ran;
    if n > 0 {
      StepKeeps(t, CleanUpTimer);
      assert Firings(n)[1..] == Firings(n - 1);
      NothingLeft(Step(t, CleanUpTimer), n - 1);
    }
  }
}
