/** What a socket of `WriteBuffer` can still do: when `close()` is sure to hand over everything, and when
    a socket whose probe failed can still send and close. */
module WriteBufferProgress {
  import opened Text
  import opened Runs
  import opened WriteBuffer

  // ---------------------------------------------------------------- nothing gets stuck

  /** A write that was begun is going to drain, and a `close()` that waits has something to wait for. */
  ghost predicate Lively<P>(s: Socket<P>) {
    && (s.transport.state == TOpen && !s.transport.writable ==> s.transport.drains > 0)
    && (s.closeOnDrain ==> s.writeBuffer != [])
    && (s.closeOnUpgrade ==> s.upgrading && s.prevBufferLen == 0)
    && (s.ready == Closing ==> CloseListens(s))
    && (!s.greeted ==> s.probe.None?)
  }

  /** A packet is not left in the buffer of a socket that could write it. */
  ghost predicate Prompt<P>(s: Socket<P>) {
    s.transport.writable && s.greeted && !s.upgrading ==> s.writeBuffer == []
  }

  /** The invariant of a socket, closed or not. */
  ghost predicate Going<P>(s: Socket<P>) {
    Inv(s) && (s.ready != Closed ==> Lively(s) && Prompt(s))
  }

  ghost predicate LivelyOrClosed<P>(s: Socket<P>) { s.ready == Closed || (Lively(s) && Prompt(s)) }

  lemma FlushIsLively<P>(s: Socket<P>)
    requires Lively(s)
    ensures LivelyOrClosed(Flush(s))
  {
  }

  lemma SendIsLively<P>(s: Socket<P>, p: P)
    requires Lively(s) && Prompt(s)
    ensures LivelyOrClosed(SendPacket(s, p))
  {
    if s.ready != Closing && s.ready != Closed {
      FlushIsLively(s.(writeBuffer := s.writeBuffer + [p], accepted := s.accepted + [p]));
    }
  }

  lemma OnDrainIsLively<P>(s: Socket<P>)
    requires Lively(s.(transport := s.transport.(writable := true))) && s.transport.writable
    ensures LivelyOrClosed(OnDrain(s))
  {
    if Spliced(s).writeBuffer != [] {
      FlushIsLively(Spliced(s));
    }
  }

  lemma OnPausedIsLively<P>(s: Socket<P>)
    requires Lively(s) && s.upgrading && s.greeted
    ensures LivelyOrClosed(OnPaused(s))
  {
    if s.probe.Some? && s.ready != Closed && !s.closeOnUpgrade {
      FlushIsLively(Switched(s, s.probe.value).(upgrading := false));
    }
  }

  lemma DrainedIsLively<P>(s: Socket<P>)
    requires Live(s) && Lively(s) && Prompt(s)
    ensures LivelyOrClosed(TransportDrained(s))
  {
    if s.transport.drains > 0 {
      var r := s.(transport := s.transport.(writable := true, drains := s.transport.drains - 1));
      OnDrainKeeps(r);
      OnDrainIsLively(r);
      var t := OnDrain(r);
      if t.ready != Closed && t.waitDrain && !t.waitPoll {
        OnPausedIsLively(t.(waitDrain := false));
      }
    }
  }

  lemma PollDoneIsLively<P>(s: Socket<P>)
    requires Live(s) && Lively(s) && Prompt(s)
    ensures LivelyOrClosed(PollDone(s))
  {
    if s.transport.polling && s.transport.state != TOpening && s.transport.state != TOpen
       && s.waitPoll && !s.waitDrain {
      OnPausedIsLively(s.(transport := s.transport.(polling := false), waitPoll := false));
    }
  }

  lemma PongIsLively<P>(s: Socket<P>)
    requires Live(s) && Lively(s) && Prompt(s)
    ensures LivelyOrClosed(Pong(s))
  {
    if s.probe.Some? && !s.upgrading && !s.transport.polling && s.transport.writable {
      OnPausedIsLively(Pausing(s.(upgrading := true)));
    }
  }

  lemma GreetedIsLively<P>(s: Socket<P>)
    requires Live(s) && Lively(s) && Prompt(s)
    ensures LivelyOrClosed(Greeted(s))
  {
    if s.transport.state == TOpen && !s.greeted {
      FlushIsLively(s.(ready := Open, greeted := true));
    }
  }

  lemma CloseIsLively<P>(s: Socket<P>)
    requires Live(s) && Lively(s) && Prompt(s)
    ensures LivelyOrClosed(Close(s))
  {
  }

  lemma ProbeIsLively<P>(s: Socket<P>)
    requires Live(s) && Lively(s) && Prompt(s)
    ensures LivelyOrClosed(Probing(s)) && LivelyOrClosed(ProbeReady(s)) && LivelyOrClosed(Failed(s))
  {
  }

  lemma LiveStepIsLively<P>(s: Socket<P>, e: Event<P>)
    requires Live(s) && Lively(s) && Prompt(s)
    ensures LivelyOrClosed(LiveStep(s, e))
  {
    match e {
      case Send(p) => SendIsLively(s, p);
      case CloseCalled => CloseIsLively(s);
      case TransportOpened => assert LivelyOrClosed(Opened(s));
      case Handshake => GreetedIsLively(s);
      case Drained => DrainedIsLively(s);
      case PollCompleted => PollDoneIsLively(s);
      case ProbeOpened => ProbeIsLively(s);
      case ProbeDrained => ProbeIsLively(s);
      case ProbePong => PongIsLively(s);
      case ProbeFailed => ProbeIsLively(s);
      case ConnectionLost => assert OnClose(s, Lost).ready == Closed;
    }
  }

  lemma StepGoesOn<P>(s: Socket<P>, e: Event<P>)
    requires Going(s)
    ensures Going(Step(s, e))
  {
    StepKeeps(s, e);
    if s.ready != Closed {
      LiveStepIsLively(s, e);
    }
  }

  lemma {:induction false} RunGoesOn<P>(s: Socket<P>, events: seq<Event<P>>)
    requires Going(s)
    ensures Going(Run(s, events))
    decreases |events|
  {
    if events != [] {
      StepGoesOn(s, events[0]);
      RunGoesOn(Step(s, events[0]), events[1..]);
    }
  }

  // ---------------------------------------------------------------- a socket that is not upgrading

  /** A greeted socket whose write is under way and that is not upgrading. */
  ghost predicate Writing<P>(s: Socket<P>) {
    Going(s) && s.ready != Closed && s.greeted && !s.upgrading && !s.transport.writable
  }

  /** The end of the write hands over what was accepted meanwhile. */
  lemma DrainHandsOver<P>(s: Socket<P>)
    requires Writing(s) && s.prevBufferLen < |s.writeBuffer|
    ensures var u := Step(s, Drained);
      Writing(u) && u.handed == s.accepted && u.accepted == s.accepted && u.ready == s.ready
      && u.prevBufferLen == |u.writeBuffer|
  {
    StepGoesOn(s, Drained);
  }

  lemma LastDrainCloses<P>(s: Socket<P>)
    requires Writing(s) && s.ready == Closing && s.prevBufferLen == |s.writeBuffer|
    ensures Step(s, Drained).ending == Forced
    ensures Step(s, Drained).handed == s.accepted && Step(s, Drained).accepted == s.accepted
  {
    assert s.handed + [] == s.handed;
  }

  lemma {:induction false} ClosedStays<P>(s: Socket<P>, events: seq<Event<P>>)
    requires s.ready == Closed
    ensures Run(s, events) == s
    decreases |events|
  {
    if events != [] {
      ClosedStays(s, events[1..]);
    }
  }

  lemma ClosingDrains<P>(s: Socket<P>)
    requires Writing(s) && s.ready == Closing
    ensures var u := Step(Step(s, Drained), Drained); u.ending == Forced && u.handed == u.accepted
  {
    if s.prevBufferLen < |s.writeBuffer| {
      DrainHandsOver(s);
      LastDrainCloses(Step(s, Drained));
    } else {
      LastDrainCloses(s);
      StepGoesOn(s, Drained);
    }
  }

  /** Closing and at most two drains finish such a socket. */
  lemma FreeSocketFinishes<P>(s: Socket<P>)
    requires Going(s) && s.ready != Closed && s.greeted && !s.upgrading
    ensures var u := Step(Step(Step(s, CloseCalled), Drained), Drained); u.ending == Forced && u.handed == u.accepted
  {
    var t := Step(s, CloseCalled);
    FreeSocketCloses(s);
    if t.ready == Closed {
      assert Step(t, Drained) == t;
    } else {
      ClosingDrains(t);
    }
  }

  lemma FreeSocketCloses<P>(s: Socket<P>)
    requires Going(s) && s.ready != Closed && s.greeted && !s.upgrading
    ensures var t := Step(s, CloseCalled);
      if t.ready == Closed then t.ending == Forced && t.handed == t.accepted else Writing(t) && t.ready == Closing
  {
    StepGoesOn(s, CloseCalled);
    assert s.handed + [] == s.handed;
  }

  /** A packet sent on an open one is handed over at once or at the next drain. */
  lemma FreeSocketDelivers<P>(s: Socket<P>, p: P)
    requires Going(s) && s.ready == Open && s.greeted && !s.upgrading
    ensures var t := Step(s, Send(p));
      t.handed == s.accepted + [p] || Step(t, Drained).handed == s.accepted + [p]
  {
    var t := Step(s, Send(p));
    StepGoesOn(s, Send(p));
    if t.prevBufferLen < |t.writeBuffer| {
      DrainHandsOver(t);
    } else {
      assert t.handed + [] == t.handed;
    }
  }

  // ---------------------------------------------------------------- a probe that fails

  /** Some course of events in which the connection holds closes the socket with everything handed
      over. */
  ghost predicate CanFinish<P(!new)>(s: Socket<P>) {
    exists events :: ConnectionLost !in events
      && Run(s, events).ending == Forced && Run(s, events).handed == Run(s, events).accepted
  }

  /** Some course of events in which the connection holds hands over everything accepted so far and a
      packet that is sent now. */
  ghost predicate CanDeliver<P(!new)>(s: Socket<P>, p: P) {
    exists events :: ConnectionLost !in events && Run(Step(s, Send(p)), events).handed == s.accepted + [p]
  }

  /** A probe that failed after its pong, while the pause was waiting: `upgrading` is not reset. */
  predicate Stalled<P>(s: Socket<P>) {
    s.ready != Closed && s.upgrading && s.probe.None?
  }

  /** A step of a stalled socket that hands over nothing and leaves it stalled. */
  ghost predicate StaysStalled<P>(s: Socket<P>, t: Socket<P>) {
    t.ready != Closed && t.upgrading && t.probe.None? && t.handed == s.handed
  }

  lemma StalledOnDrain<P>(s: Socket<P>)
    requires Stalled(s)
    ensures StaysStalled(s, OnDrain(s))
  {
  }

  lemma StalledDrained<P>(s: Socket<P>)
    requires Stalled(s)
    ensures StaysStalled(s, TransportDrained(s))
  {
    if s.transport.drains > 0 {
      var r := s.(transport := s.transport.(writable := true, drains := s.transport.drains - 1));
      StalledOnDrain(r);
      StalledPauseHears(OnDrain(r));
    }
  }

  lemma StalledPauseHears<P>(s: Socket<P>)
    requires Stalled(s)
    ensures StaysStalled(s, PauseHearsDrain(s))
  {
  }

  lemma StalledClose<P>(s: Socket<P>)
    requires Stalled(s)
    ensures StaysStalled(s, Close(s))
  {
  }

  lemma StalledOtherwise<P>(s: Socket<P>)
    requires Stalled(s)
    ensures StaysStalled(s, PollDone(s)) && StaysStalled(s, Opened(s))
  {
  }

  lemma StalledStays<P>(s: Socket<P>, e: Event<P>)
    requires Stalled(s) && Live(s) && e != ConnectionLost
    ensures StaysStalled(s, Step(s, e))
  {
    match e {
      case Drained => StalledDrained(s);
      case CloseCalled => StalledClose(s);
      case PollCompleted => StalledOtherwise(s);
      case TransportOpened => StalledOtherwise(s);
      case Send(p) => assert StaysStalled(s, SendPacket(s, p));
      case Handshake => assert Greeted(s) == s;
      case ProbeOpened => assert Probing(s) == s;
      case ProbeDrained => assert ProbeReady(s) == s;
      case ProbePong => assert Pong(s) == s;
      case ProbeFailed => assert Failed(s) == s;
      case ConnectionLost =>
    }
  }

  /** From then on nothing is ever handed over and `close()` never completes, until the connection is
      lost. */
  lemma {:induction false} FailedUpgradeStalls<P>(s: Socket<P>, events: seq<Event<P>>)
    requires Stalled(s) && Live(s) && ConnectionLost !in events
    ensures Stalled(Run(s, events)) && Live(Run(s, events)) && Run(s, events).handed == s.handed
    decreases |events|
  {
    if events != [] {
      StalledStays(s, events[0]);
      StepKeeps(s, events[0]);
      FailedUpgradeStalls(Step(s, events[0]), events[1..]);
    }
  }

  /** After any run with a probe under way: when the probe fails, the socket can still be closed with
      everything handed over exactly if the upgrade had not begun or a `close()` with nothing left in the
      buffer was waiting for its end. */
  lemma FailedProbeCanFinishIff<P(!new)>(polling: bool, past: seq<Event<P>>)
    requires var s := Run(Initial<P>(polling), past); s.ready != Closed && s.probe.Some?
    ensures var s := Run(Initial<P>(polling), past);
      CanFinish(Step(s, ProbeFailed)) <==> if s.closeOnUpgrade then s.writeBuffer == [] else !s.upgrading
  {
    var s := Run(Initial<P>(polling), past);
    RunGoesOn(Initial<P>(polling), past);
    var t := Step(s, ProbeFailed);
    StepGoesOn(s, ProbeFailed);
    if s.closeOnUpgrade {
      ClosedWithBuffer(s);
    } else if s.upgrading {
      forall events | ConnectionLost !in events ensures Run(t, events).ending != Forced {
        FailedUpgradeStalls(t, events);
      }
    } else {
      FreeSocketFinishes(t);
      RunThree(Step, t, CloseCalled, Drained, Drained);
      assert CanFinish(t) by {
        var events: seq<Event<P>> := [CloseCalled, Drained, Drained];
        assert ConnectionLost !in events;
      }
    }
  }

  lemma ClosedWithBuffer<P(!new)>(s: Socket<P>)
    requires Going(s) && s.ready != Closed && s.probe.Some? && s.closeOnUpgrade
    ensures CanFinish(Step(s, ProbeFailed)) <==> s.writeBuffer == []
  {
    var t := Step(s, ProbeFailed);
    assert s.writeBuffer[0..] == s.writeBuffer && |s.accepted| == |s.handed| + |s.writeBuffer|;
    assert s.handed + [] == s.handed;
    if s.writeBuffer == [] {
      assert Run(t, []) == t;
    } else {
      forall events ensures Run(t, events) == t {
        ClosedStays(t, events);
      }
    }
  }

  /** After any run of an open socket with a probe under way: when the probe fails, the socket can still
      send exactly if the upgrade had not begun. */
  lemma FailedProbeCanSendIff<P(!new)>(polling: bool, past: seq<Event<P>>, p: P)
    requires var s := Run(Initial<P>(polling), past); s.ready == Open && s.probe.Some?
    ensures var s := Run(Initial<P>(polling), past); CanDeliver(Step(s, ProbeFailed), p) <==> !s.upgrading
  {
    var s := Run(Initial<P>(polling), past);
    RunGoesOn(Initial<P>(polling), past);
    var t := Step(s, ProbeFailed);
    StepGoesOn(s, ProbeFailed);
    if !s.upgrading {
      FreeSocketDelivers(t, p);
      var u := Step(t, Send(p));
      assert Run(u, []) == u;
      var drain: seq<Event<P>> := [Drained];
      assert drain[1..] == [] && Run(u, drain) == Run(Step(u, Drained), []);
      assert ConnectionLost !in drain;
    } else {
      forall events | ConnectionLost !in events ensures |Run(Step(t, Send(p)), events).handed| <= |t.accepted| {
        NothingMoreIsHanded(t, p, events);
      }
    }
  }

  lemma NothingMoreIsHanded<P>(t: Socket<P>, p: P, events: seq<Event<P>>)
    requires Going(t) && (t.ready == Closed || Stalled(t)) && ConnectionLost !in events
    ensures |Run(Step(t, Send(p)), events).handed| <= |t.accepted|
  {
    if t.ready == Closed {
      ClosedStays(t, events);
    } else {
      StalledStays(t, Send(p));
      StepKeeps(t, Send(p));
      FailedUpgradeStalls(Step(t, Send(p)), events);
    }
  }

  /** The stall happens: a packet that is sent between the pong and the failure is never handed over. */
  lemma StallHappens<P>(p: P)
    ensures var s := Run(Initial<P>(true),
                         [TransportOpened, Handshake, ProbeOpened] + [ProbePong, Send(p), ProbeFailed]);
      Stalled(s) && s.ready == Open && s.accepted == [p] && s.handed == []
  {
    RunConcat(Step, Initial<P>(true), [TransportOpened, Handshake, ProbeOpened], [ProbePong, Send(p), ProbeFailed]);
    RunThree(Step, Initial<P>(true), TransportOpened, Handshake, ProbeOpened);
    ProbeUnderWay<P>();
    StallFollows(Run(Initial<P>(true), [TransportOpened, Handshake, ProbeOpened]), p);
  }

  /** An open socket whose probe has connected, before anything was sent. */
  ghost predicate FreshProbe<P>(s: Socket<P>) {
    && s.ready == Open && s.probe.Some? && !s.upgrading && !s.closeOnUpgrade && s.accepted == [] && s.handed == []
    && s.transport == Transport(TOpen, true, 0, true) && s.writeBuffer == []
  }

  lemma ProbeUnderWay<P>()
    ensures FreshProbe(Step(Step(Step(Initial<P>(true), TransportOpened), Handshake), ProbeOpened))
  {
    var s := Step(Initial<P>(true), TransportOpened);
    assert s.transport == Transport(TOpen, true, 0, true) && !s.greeted && s.writeBuffer == [];
    var t := Step(s, Handshake);
    assert t.transport == s.transport && t.greeted && t.ready == Open && t.probe.None?;
  }

  lemma StallFollows<P>(s: Socket<P>, p: P)
    requires FreshProbe(s)
    ensures var t := Run(s, [ProbePong, Send(p), ProbeFailed]);
      Stalled(t) && t.ready == Open && t.accepted == [p] && t.handed == []
  {
    RunThree(Step, s, ProbePong, Send(p), ProbeFailed);
    var t := Step(s, ProbePong);
    assert t.upgrading && t.probe.Some? && t.ready == Open && !t.closeOnUpgrade && t.writeBuffer == []
           && t.accepted == [] && t.handed == [];
    var u := Step(t, Send(p));
    assert u.upgrading && u.probe.Some? && u.ready == Open && !u.closeOnUpgrade && u.accepted == [p] && u.handed == [];
  }

  // ---------------------------------------------------------------- close() that comes too early

  /** A socket over polling polls at least until the handshake. */
  ghost predicate PollsFirst<P>(s: Socket<P>) { !s.greeted ==> s.transport.polling }

  lemma DrainedPollsFirst<P>(s: Socket<P>)
    requires Going(s) && s.ready != Closed && PollsFirst(s)
    ensures PollsFirst(TransportDrained(s))
  {
    if s.transport.drains > 0 {
      var t := OnDrain(s.(transport := s.transport.(writable := true, drains := s.transport.drains - 1)));
      assert t.greeted == s.greeted && t.transport.polling == s.transport.polling;
    }
  }

  lemma PausePollsFirst<P>(s: Socket<P>)
    requires Going(s) && s.ready != Closed && PollsFirst(s)
    ensures PollsFirst(PollDone(s)) && PollsFirst(Pong(s))
  {
  }

  lemma StepPollsFirst<P>(s: Socket<P>, e: Event<P>)
    requires Going(s) && PollsFirst(s)
    ensures PollsFirst(Step(s, e))
  {
    if s.ready != Closed {
      match e {
        case Drained => DrainedPollsFirst(s);
        case PollCompleted => PausePollsFirst(s);
        case ProbePong => PausePollsFirst(s);
        case _ =>
      }
    }
  }

  lemma {:induction false} RunPollsFirst<P>(s: Socket<P>, events: seq<Event<P>>)
    requires Going(s) && PollsFirst(s)
    ensures PollsFirst(Run(s, events))
    decreases |events|
  {
    if events != [] {
      StepPollsFirst(s, events[0]);
      StepGoesOn(s, events[0]);
      RunPollsFirst(Step(s, events[0]), events[1..]);
    }
  }

  /** A socket that was closed before its handshake, with packets in its buffer. */
  ghost predicate ClosedEarly<P>(s: Socket<P>) {
    Going(s) && s.ready == Closing && !s.greeted && s.transport.polling && s.writeBuffer != []
  }

  /** The same after the handshake: it is open again and everything is handed over, but the listener of
      the close is still there. */
  ghost predicate Reopened<P>(s: Socket<P>) {
    && Writing(s) && s.ready == Open && s.closeOnDrain && s.transport.polling && s.probe.None?
    && s.prevBufferLen == |s.writeBuffer|
  }

  lemma HandshakeReopens<P>(s: Socket<P>)
    requires ClosedEarly(s)
    ensures var t := Step(Step(s, TransportOpened), Handshake);
      Writing(t) && t.ready == Open && t.closeOnDrain && t.transport.polling && t.probe.None?
  {
    StepGoesOn(s, TransportOpened);
    StepGoesOn(Step(s, TransportOpened), Handshake);
  }

  /** The handshake and, if need be, the end of the first write. */
  lemma ReopenedLater<P>(s: Socket<P>) returns (events: seq<Event<P>>)
    requires ClosedEarly(s)
    ensures Reopened(Run(s, events))
  {
    HandshakeReopens(s);
    events := [TransportOpened, Handshake];
    RunTwo(Step, s, TransportOpened, Handshake);
    var t := Run(s, events);
    if t.prevBufferLen < |t.writeBuffer| {
      DrainHandsOver(t);
      var drain: seq<Event<P>> := [Drained];
      RunConcat(Step, s, events, drain);
      assert drain[1..] == [] && Run(t, drain) == Run(Step(t, Drained), []);
      events := events + drain;
    }
  }

  /** An upgrade begins, and the old listener waits for its end from the next drain on. */
  lemma OldListenerWaits<P>(s: Socket<P>)
    requires Reopened(s)
    ensures var t := Step(Step(Step(s, ProbeOpened), ProbePong), Drained);
      && t.ready == Open && t.upgrading && t.closeOnUpgrade && t.probe.Some? && t.writeBuffer == []
      && t.waitPoll && !t.waitDrain && t.transport.polling && t.transport.state == TPausing
      && t.handed == s.handed && t.accepted == s.accepted
  {
    var t := Step(Step(s, ProbeOpened), ProbePong);
    assert t.upgrading && t.waitPoll && t.waitDrain && t.probe.Some? && t.transport.state == TPausing;
    assert t.writeBuffer == s.writeBuffer && t.prevBufferLen == s.prevBufferLen && t.transport.drains > 0;
  }

  /** A packet that is accepted now is lost when the poll completes the upgrade. */
  lemma OldListenerCloses<P>(t: Socket<P>, q: P)
    requires t.ready == Open && t.upgrading && t.closeOnUpgrade && t.probe.Some? && t.writeBuffer == []
    requires t.waitPoll && !t.waitDrain && t.transport.polling && t.transport.state == TPausing
    ensures var u := Step(Step(t, Send(q)), PollCompleted);
      u.ending == Forced && u.handed == t.handed && u.accepted == t.accepted + [q]
  {
    var v := Step(t, Send(q));
    assert v.ready == Open && v.closeOnUpgrade && v.probe.Some? && v.waitPoll && !v.waitDrain;
    assert v.handed == t.handed && v.accepted == t.accepted + [q] && v.transport == t.transport;
  }

  lemma ReopenedLoses<P>(s: Socket<P>, q: P)
    requires Reopened(s)
    ensures var u := Run(s, [ProbeOpened, ProbePong, Drained] + [Send(q), PollCompleted]);
      u.ending == Forced && u.handed != u.accepted
  {
    RunThree(Step, s, ProbeOpened, ProbePong, Drained);
    var t := Step(Step(Step(s, ProbeOpened), ProbePong), Drained);
    RunTwo(Step, t, Send(q), PollCompleted);
    RunConcat(Step, s, [ProbeOpened, ProbePong, Drained], [Send(q), PollCompleted]);
    OldListenerWaits(s);
    OldListenerCloses(t, q);
    assert s.handed <= s.accepted && |s.accepted + [q]| == |s.accepted| + 1;
  }

  lemma ClosedEarlyLoses<P>(s: Socket<P>) returns (events: seq<Event<P>>)
    requires ClosedEarly(s)
    ensures Run(s, events).ending == Forced && Run(s, events).handed != Run(s, events).accepted
  {
    var first := ReopenedLater(s);
    var q := s.writeBuffer[0];
    ReopenedLoses(Run(s, first), q);
    events := first + ([ProbeOpened, ProbePong, Drained] + [Send(q), PollCompleted]);
    RunConcat(Step, s, first, [ProbeOpened, ProbePong, Drained] + [Send(q), PollCompleted]);
  }

  // ---------------------------------------------------------------- close() that is safe

  /** A socket that closes for good: it takes no more packets, and what waits for the end of an upgrade
      has nothing left to hand over. */
  ghost predicate LastStretch<P>(s: Socket<P>) {
    s.greeted && s.ready == Closing && (s.closeOnUpgrade && s.probe.Some? ==> s.writeBuffer == [])
  }

  ghost predicate EndsWell<P>(s: Socket<P>) {
    if s.ready == Closed then s.ending == Forced ==> s.handed == s.accepted else LastStretch(s)
  }

  lemma OnDrainEndsWell<P>(s: Socket<P>)
    requires NothingLost(s) && LastStretch(s)
    ensures EndsWell(OnDrain(s))
  {
    SplicedLeavesNothing(s);
    if Spliced(s).writeBuffer == [] {
      EmitDrainEndsWell(Spliced(s));
    } else {
      assert !s.closeOnUpgrade || s.probe.None?;
    }
  }

  lemma SplicedLeavesNothing<P>(s: Socket<P>)
    requires NothingLost(s)
    ensures Spliced(s).writeBuffer == [] ==> s.handed == s.accepted
    ensures s.writeBuffer == [] ==> Spliced(s).writeBuffer == []
  {
    assert s.handed + [] == s.handed;
  }

  lemma EmitDrainEndsWell<P>(s: Socket<P>)
    requires s.greeted && s.ready == Closing && s.writeBuffer == [] && s.handed == s.accepted
    ensures EndsWell(EmitDrain(s))
  {
  }

  lemma UpgradedEndsWell<P>(s: Socket<P>)
    requires s.greeted && s.ready == Closing && (s.closeOnUpgrade ==> s.handed == s.accepted) && s.probe.None?
    ensures EndsWell(Upgraded(s))
  {
    var t := EmitUpgrade(s).(upgrading := false);
    if s.closeOnUpgrade {
      assert t.ready == Closed && t.handed == t.accepted && !CanFlush(t);
    } else {
      FlushEndsWell(t);
    }
  }

  lemma FlushEndsWell<P>(s: Socket<P>)
    requires s.greeted && s.ready == Closing && s.probe.None?
    ensures EndsWell(Flush(s))
  {
  }

  lemma OnPausedEndsWell<P>(s: Socket<P>)
    requires NothingLost(s) && LastStretch(s)
    ensures EndsWell(OnPaused(s))
  {
    assert s.handed + [] == s.handed;
    if s.probe.Some? {
      UpgradedEndsWell(Switched(s, s.probe.value));
    }
  }

  lemma DrainedEndsWell<P>(s: Socket<P>)
    requires Going(s) && LastStretch(s)
    ensures EndsWell(TransportDrained(s))
  {
    if s.transport.drains > 0 {
      var r := s.(transport := s.transport.(writable := true, drains := s.transport.drains - 1));
      OnDrainKeeps(r);
      OnDrainEndsWell(r);
      var t := OnDrain(r);
      if t.ready != Closed && t.waitDrain && !t.waitPoll {
        OnPausedEndsWell(t.(waitDrain := false));
      }
    }
  }

  lemma ProbeEndsWell<P>(s: Socket<P>)
    requires Going(s) && LastStretch(s)
    ensures EndsWell(Probing(s)) && EndsWell(ProbeReady(s)) && EndsWell(Failed(s))
  {
    assert s.handed + [] == s.handed;
  }

  lemma StepEndsWell<P>(s: Socket<P>, e: Event<P>)
    requires Going(s) && EndsWell(s)
    ensures EndsWell(Step(s, e))
  {
    if s.ready != Closed {
      match e {
        case Send(p) => assert SendPacket(s, p) == s;
        case CloseCalled => assert Close(s) == s;
        case TransportOpened => assert Opened(s) == s;
        case Handshake => assert Greeted(s) == s;
        case Drained => DrainedEndsWell(s);
        case PollCompleted => OnPausedEndsWell(s.(transport := s.transport.(polling := false), waitPoll := false));
        case ProbeOpened => ProbeEndsWell(s);
        case ProbeDrained => ProbeEndsWell(s);
        case ProbePong => OnPausedEndsWell(Pausing(s.(upgrading := true)));
        case ProbeFailed => ProbeEndsWell(s);
        case ConnectionLost => assert OnClose(s, Lost).ending == Lost;
      }
    }
  }

  lemma {:induction false} RunEndsWell<P>(s: Socket<P>, events: seq<Event<P>>)
    requires Going(s) && EndsWell(s)
    ensures EndsWell(Run(s, events))
    decreases |events|
  {
    if events != [] {
      StepEndsWell(s, events[0]);
      StepGoesOn(s, events[0]);
      RunEndsWell(Step(s, events[0]), events[1..]);
    }
  }

  // ---------------------------------------------------------------- when close() is safe

  /** Whatever happens after `close()`, a socket that it closes has handed over all it accepted. */
  ghost predicate SafeToClose<P(!new)>(s: Socket<P>) {
    forall events ::
      var u := Run(Step(s, CloseCalled), events);
      u.ending == Forced ==> u.handed == u.accepted
  }

  /** What a caller can look at: packets in the buffer before the handshake, or packets in the buffer of
      a socket that an earlier `close()` is going to close when its upgrade ends. */
  predicate CloseIsTooEarly<P>(s: Socket<P>) {
    if s.greeted then s.closeOnUpgrade && s.probe.Some? && s.writeBuffer != [] else s.writeBuffer != []
  }

  lemma TooEarlyLoses<P(!new)>(s: Socket<P>)
    requires Going(s) && s.ready != Closed && PollsFirst(s) && CloseIsTooEarly(s)
    ensures !SafeToClose(s)
  {
    var t := Step(s, CloseCalled);
    StepGoesOn(s, CloseCalled);
    if !s.greeted {
      var events := ClosedEarlyLoses(t);
      assert Run(t, events).ending == Forced;
    } else {
      var fails: seq<Event<P>> := [ProbeFailed];
      assert fails[1..] == [] && Run(t, fails) == Run(Step(t, ProbeFailed), []);
      assert s.writeBuffer[0..] == s.writeBuffer && |s.accepted| == |s.handed| + |s.writeBuffer|;
      assert Run(t, fails).ending == Forced && Run(t, fails).handed != Run(t, fails).accepted;
    }
  }

  /** A socket that never polled is never probed beside, so no upgrade begins. */
  ghost predicate NeverProbes<P>(s: Socket<P>) {
    && !s.transport.polling && s.probe.None? && !s.upgrading && !s.closeOnUpgrade
    && (s.ending == Forced ==> s.handed == s.accepted)
  }

  lemma DrainedNeverProbes<P>(s: Socket<P>)
    requires Going(s) && s.ready != Closed && NeverProbes(s)
    ensures NeverProbes(TransportDrained(s))
  {
    if s.transport.drains > 0 {
      var r := s.(transport := s.transport.(writable := true, drains := s.transport.drains - 1));
      SplicedLeavesNothing(r);
      assert NeverProbes(OnDrain(r));
    }
  }

  lemma StepNeverProbes<P>(s: Socket<P>, e: Event<P>)
    requires Going(s) && NeverProbes(s)
    ensures NeverProbes(Step(s, e))
  {
    if s.ready != Closed {
      match e {
        case Drained => DrainedNeverProbes(s);
        case CloseCalled => assert s.handed + [] == s.handed;
        case _ =>
      }
    }
  }

  lemma {:induction false} RunNeverProbes<P>(s: Socket<P>, events: seq<Event<P>>)
    requires Going(s) && NeverProbes(s)
    ensures NeverProbes(Run(s, events))
    decreases |events|
  {
    if events != [] {
      StepNeverProbes(s, events[0]);
      StepGoesOn(s, events[0]);
      RunNeverProbes(Step(s, events[0]), events[1..]);
    }
  }

  lemma LateCloseIsSafe<P(!new)>(s: Socket<P>)
    requires Going(s) && s.ready != Closed && !CloseIsTooEarly(s)
    ensures SafeToClose(s)
  {
    var t := Step(s, CloseCalled);
    StepGoesOn(s, CloseCalled);
    assert s.handed + [] == s.handed;
    forall events ensures Run(t, events).ending == Forced ==> Run(t, events).handed == Run(t, events).accepted {
      RunEndsWell(t, events);
      RunGoesOn(t, events);
    }
  }

  /** After any run of a socket that is not closed: `close()` is sure to lose nothing exactly if the socket
      did not start over polling or the call does not come too early. Before the handshake it may be that
      the handshake reopens the socket, and the listener left behind closes it at the upgrade with a packet
      that was accepted in between. */
  lemma SafeToCloseIffNotTooEarly<P(!new)>(polling: bool, past: seq<Event<P>>)
    requires Run(Initial<P>(polling), past).ready != Closed
    ensures var s := Run(Initial<P>(polling), past); SafeToClose(s) <==> !polling || !CloseIsTooEarly(s)
  {
    var s := Run(Initial<P>(polling), past);
    RunGoesOn(Initial<P>(polling), past);
    if !polling {
      RunNeverProbes(Initial<P>(polling), past);
      var t := Step(s, CloseCalled);
      StepNeverProbes(s, CloseCalled);
      StepGoesOn(s, CloseCalled);
      forall events ensures Run(t, events).ending == Forced ==> Run(t, events).handed == Run(t, events).accepted {
        RunNeverProbes(t, events);
      }
    } else if CloseIsTooEarly(s) {
      RunPollsFirst(Initial<P>(polling), past);
      TooEarlyLoses(s);
    } else {
      LateCloseIsSafe(s);
    }
  }

  /** In particular it is after the handshake, if no `close()` came before it. */
  lemma SafeToCloseAfterHandshake<P(!new)>(polling: bool, past: seq<Event<P>>)
    requires var s := Run(Initial<P>(polling), past); s.ready == Open && !s.closedEarly
    ensures SafeToClose(Run(Initial<P>(polling), past))
  {
    RunGoesOn(Initial<P>(polling), past);
    SafeToCloseIffNotTooEarly(polling, past);
  }
}
