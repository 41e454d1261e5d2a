/** The write buffer as its user sees it: what a socket accepts, when `close()` acts, when it upgrades. */
module WriteBufferEvents {
  import opened Text
  import opened Runs
  import opened WriteBuffer
  import opened WriteBufferProgress

  // ---------------------------------------------------------------- what is accepted

  /** A packet is accepted unless the socket is closing or closed. It is handed over at once, behind what
      waits, if the transport can be written to and no upgrade is under way; else it waits. */
  lemma SendIsAccepted<P>(s: Socket<P>, p: P)
    ensures var t := Step(s, Send(p));
      if s.ready == Opening || s.ready == Open then
        && t.accepted == s.accepted + [p] && t.writeBuffer == s.writeBuffer + [p] && t.ready == s.ready
        && t.handed == if s.transport.writable && !s.upgrading then s.handed + t.writeBuffer else s.handed
      else t == s
  {
  }

  /** The packets that were sent to a socket which was neither closing nor closed. */
  ghost function SentInTime<P>(s: Socket<P>, events: seq<Event<P>>): seq<P>
    decreases |events|
  {
    if events == [] then []
    else
      (if events[0].Send? && (s.ready == Opening || s.ready == Open) then [events[0].p] else [])
      + SentInTime(Step(s, events[0]), events[1..])
  }

  /** An event that can bring a pause to its end. */
  predicate MayEndPause<P>(e: Event<P>) { e.Drained? || e.PollCompleted? || e.ProbePong? }

  lemma OthersAcceptNothing<P>(s: Socket<P>, e: Event<P>)
    requires !e.Send?
    ensures Step(s, e).accepted == s.accepted
  {
    if MayEndPause(e) {
      match e {
        case Drained => DrainAcceptsNothing(s);
        case PollCompleted => PollAcceptsNothing(s);
        case ProbePong => PongAcceptsNothing(s);
      }
    } else {
      RestAcceptNothing(s, e);
    }
  }

  lemma RestAcceptNothing<P>(s: Socket<P>, e: Event<P>)
    requires !e.Send? && !MayEndPause(e)
    ensures Step(s, e).accepted == s.accepted
  {
    if MayFlushOrClose(e) {
      FlushOrCloseAcceptsNothing(s, e);
    }
  }

  /** Of the other events: one on which the socket may write or close. */
  predicate MayFlushOrClose<P>(e: Event<P>) { e.Send? || e.Handshake? || e.CloseCalled? || e.ProbeFailed? }

  lemma FlushOrCloseAcceptsNothing<P>(s: Socket<P>, e: Event<P>)
    requires !e.Send? && MayFlushOrClose(e)
    ensures Step(s, e).accepted == s.accepted
  {
    match e {
      case Handshake => FlushShape(s.(ready := Open, greeted := true));
      case CloseCalled => assert Close(s).accepted == s.accepted;
      case ProbeFailed => EmitUpgradeShape(s.(probe := None));
    }
  }

  lemma DrainAcceptsNothing<P>(s: Socket<P>)
    ensures TransportDrained(s).accepted == s.accepted
  {
    if s.transport.drains > 0 {
      var r := s.(transport := s.transport.(writable := true, drains := s.transport.drains - 1));
      DrainShape(r);
      HearsShape(OnDrain(r));
    }
  }

  lemma PollAcceptsNothing<P>(s: Socket<P>)
    ensures PollDone(s).accepted == s.accepted
  {
    PauseAcceptsNothing(s.(transport := s.transport.(polling := false), waitPoll := false));
  }

  lemma PongAcceptsNothing<P>(s: Socket<P>)
    ensures Pong(s).accepted == s.accepted
  {
    PauseAcceptsNothing(Pausing(s.(upgrading := true)));
  }

  lemma UpgradedShape<P>(s: Socket<P>)
    ensures var t := Upgraded(s);
      t.accepted == s.accepted && t.probe == s.probe && !t.upgrading && t.transport.polling == s.transport.polling
  {
    EmitUpgradeShape(s);
    FlushShape(EmitUpgrade(s).(upgrading := false));
  }

  lemma EmitUpgradeShape<P>(s: Socket<P>)
    ensures var t := EmitUpgrade(s); t.accepted == s.accepted && t.probe == s.probe && t.transport == s.transport
  {
  }

  lemma FlushShape<P>(s: Socket<P>)
    ensures var t := Flush(s);
      && t.accepted == s.accepted && t.probe == s.probe && t.upgrading == s.upgrading && t.ending == s.ending
      && t.ready == s.ready && t.waitPoll == s.waitPoll && t.waitDrain == s.waitDrain
      && t.transport.polling == s.transport.polling
  {
  }

  lemma PauseAcceptsNothing<P>(s: Socket<P>)
    ensures OnPaused(s).accepted == s.accepted
    ensures s.probe.Some? && s.ready != Closed ==> OnPaused(s).probe.None? && !OnPaused(s).upgrading
    ensures s.probe.None? || s.ready == Closed ==> OnPaused(s).ending == s.ending
  {
    if s.probe.Some? {
      UpgradedShape(Switched(s, s.probe.value));
    }
  }

  lemma HearsShape<P>(s: Socket<P>)
    ensures var t := PauseHearsDrain(s);
      && t.accepted == s.accepted
      && (t.ending == s.ending ==> t.upgrading == s.upgrading || !t.upgrading)
      && (t.ending != s.ending ==> !t.upgrading)
  {
    PauseAcceptsNothing(s.(waitDrain := false));
  }

  lemma DrainShape<P>(s: Socket<P>)
    ensures var t := OnDrain(s);
      && t.accepted == s.accepted && t.probe == s.probe && t.upgrading == s.upgrading
      && t.waitPoll == s.waitPoll && t.waitDrain == s.waitDrain
      && (t.ending == s.ending || (t.ready == Closed && !s.upgrading))
  {
    if Spliced(s).writeBuffer != [] {
      FlushShape(Spliced(s));
    }
  }

  lemma {:induction false} AcceptedBy<P>(s: Socket<P>, events: seq<Event<P>>)
    ensures Run(s, events).accepted == s.accepted + SentInTime(s, events)
    decreases |events|
  {
    if events == [] {
      assert s.accepted + [] == s.accepted;
    } else {
      var t := Step(s, events[0]);
      AcceptedBy(t, events[1..]);
      if events[0].Send? {
        SendIsAccepted(s, events[0].p);
        Assoc(s.accepted, [events[0].p], SentInTime(t, events[1..]));
      } else {
        OthersAcceptNothing(s, events[0]);
      }
      assert [] + SentInTime(t, events[1..]) == SentInTime(t, events[1..]);
    }
  }

  /** In every run the socket has accepted exactly the packets that were sent to it in time, in order. */
  lemma AcceptedIsWhatWasSent<P>(polling: bool, events: seq<Event<P>>)
    ensures Run(Initial<P>(polling), events).accepted == SentInTime(Initial<P>(polling), events)
  {
    AcceptedBy(Initial<P>(polling), events);
    assert [] + SentInTime(Initial<P>(polling), events) == SentInTime(Initial<P>(polling), events);
  }

  // ---------------------------------------------------------------- when close() acts

  /** `close()` ends the socket at once exactly if nothing waits to be written and no upgrade is under
      way. */
  lemma CloseActsAtOnceIff<P>(s: Socket<P>)
    requires s.ready == Opening || s.ready == Open
    ensures Step(s, CloseCalled).ready == Closed <==> s.writeBuffer == [] && !s.upgrading
    ensures Step(s, CloseCalled).ready == Closing || Step(s, CloseCalled).ending == Forced
  {
  }

  /** Nor does a `close()` that waited end it in the middle of an upgrade. */
  lemma CloseLeavesUpgradeAlone<P>(s: Socket<P>, e: Event<P>)
    requires s.ready != Closed && s.ending == Running && Step(s, e).ending == Forced
    ensures !Step(s, e).upgrading || Step(s, e).probe.None?
  {
    if MayEndPause(e) {
      match e {
        case Drained => DrainLeavesUpgradeAlone(s);
        case PollCompleted => PauseAcceptsNothing(s.(transport := s.transport.(polling := false), waitPoll := false));
        case ProbePong => PauseAcceptsNothing(Pausing(s.(upgrading := true)));
      }
    } else {
      RestLeaveUpgradeAlone(s, e);
    }
  }

  lemma DrainLeavesUpgradeAlone<P>(s: Socket<P>)
    requires s.ready != Closed && s.ending == Running && TransportDrained(s).ending == Forced
    ensures !TransportDrained(s).upgrading || TransportDrained(s).probe.None?
  {
    if s.transport.drains > 0 {
      var r := s.(transport := s.transport.(writable := true, drains := s.transport.drains - 1));
      DrainShape(r);
      HearsShape(OnDrain(r));
    }
  }

  lemma RestLeaveUpgradeAlone<P>(s: Socket<P>, e: Event<P>)
    requires s.ready != Closed && s.ending == Running && Step(s, e).ending == Forced && !MayEndPause(e)
    ensures !Step(s, e).upgrading || Step(s, e).probe.None?
  {
    match e {
      case Send(p) => SendIsAccepted(s, p);
      case Handshake => FlushShape(s.(ready := Open, greeted := true));
      case _ =>
    }
  }

  // ---------------------------------------------------------------- an upgrade waits for the transport

  /** A transport that may still be replaced has at most one write to drain, and none when it is writable;
      while it is being paused, the pause waits for exactly what is under way. */
  ghost predicate Pausable<P>(s: Socket<P>) {
    && (s.transport.polling || s.probe.Some? ==>
          s.transport.drains <= 1 && (s.transport.writable ==> s.transport.drains == 0))
    && (s.probe.Some? ==> !s.probe.value.polling)
    && (s.upgrading && s.probe.Some? ==>
          s.waitPoll == s.transport.polling && s.waitDrain == !s.transport.writable)
  }

  lemma PausedIsPausable<P>(s: Socket<P>)
    requires s.ready != Closed && (s.probe.Some? ==> !s.probe.value.polling)
    requires s.transport.polling ==> s.transport.drains <= 1 && (s.transport.writable ==> s.transport.drains == 0)
    ensures OnPaused(s).ready != Closed ==> Pausable(OnPaused(s))
  {
    if s.probe.Some? {
      UpgradedShape(Switched(s, s.probe.value));
    }
  }

  lemma FlushIsPausable<P>(s: Socket<P>)
    requires Pausable(s)
    ensures Pausable(Flush(s))
  {
  }

  lemma DrainedIsPausable<P>(s: Socket<P>)
    requires Going(s) && s.ready != Closed && Pausable(s)
    ensures TransportDrained(s).ready != Closed ==> Pausable(TransportDrained(s))
  {
    if s.transport.drains > 0 {
      var r := OnDrain(s.(transport := s.transport.(writable := true, drains := s.transport.drains - 1)));
      if r.ready != Closed && r.waitDrain && !r.waitPoll {
        PausedIsPausable(r.(waitDrain := false));
      }
    }
  }

  lemma PollIsPausable<P>(s: Socket<P>)
    requires Going(s) && s.ready != Closed && Pausable(s)
    ensures PollDone(s).ready != Closed ==> Pausable(PollDone(s))
  {
    if s.waitPoll && !s.waitDrain {
      PausedIsPausable(s.(transport := s.transport.(polling := false), waitPoll := false));
    }
  }

  lemma PongIsPausable<P>(s: Socket<P>)
    requires Going(s) && s.ready != Closed && Pausable(s)
    ensures Pong(s).ready != Closed ==> Pausable(Pong(s))
  {
    if s.probe.Some? && !s.upgrading {
      PausedIsPausable(Pausing(s.(upgrading := true)));
    }
  }

  lemma StepIsPausable<P>(s: Socket<P>, e: Event<P>)
    requires Going(s) && (s.ready != Closed ==> Pausable(s))
    ensures Step(s, e).ready != Closed ==> Pausable(Step(s, e))
  {
    if s.ready != Closed {
      if MayEndPause(e) {
        match e {
          case Drained => DrainedIsPausable(s);
          case PollCompleted => PollIsPausable(s);
          case ProbePong => PongIsPausable(s);
        }
      } else {
        RestIsPausable(s, e);
      }
    }
  }

  lemma RestIsPausable<P>(s: Socket<P>, e: Event<P>)
    requires Going(s) && s.ready != Closed && Pausable(s) && !MayEndPause(e)
    ensures Step(s, e).ready != Closed ==> Pausable(Step(s, e))
  {
    if MayFlushOrClose(e) {
      FlushOrCloseIsPausable(s, e);
    }
  }

  lemma FlushOrCloseIsPausable<P>(s: Socket<P>, e: Event<P>)
    requires Going(s) && s.ready != Closed && Pausable(s) && MayFlushOrClose(e)
    ensures Step(s, e).ready != Closed ==> Pausable(Step(s, e))
  {
    match e {
      case Handshake => FlushIsPausable(s.(ready := Open, greeted := true));
      case Send(p) => FlushIsPausable(s.(writeBuffer := s.writeBuffer + [p], accepted := s.accepted + [p]));
      case _ =>
    }
  }

  lemma {:induction false} RunIsPausable<P>(s: Socket<P>, events: seq<Event<P>>)
    requires Going(s) && (s.ready != Closed ==> Pausable(s))
    ensures Going(Run(s, events)) && (Run(s, events).ready != Closed ==> Pausable(Run(s, events)))
    decreases |events|
  {
    if events != [] {
      StepIsPausable(s, events[0]);
      StepGoesOn(s, events[0]);
      RunIsPausable(Step(s, events[0]), events[1..]);
    }
  }

  /** What was under way on the old transport when an event replaced it by the probed one: nothing, but
      for what this very event ends. */
  lemma UpgradeAbandonsNothing<P>(polling: bool, past: seq<Event<P>>, e: Event<P>)
    ensures var s := Run(Initial<P>(polling), past);
      s.ready != Closed && s.probe.Some? && Step(s, e).probe.None? && !e.ProbeFailed? && !e.ConnectionLost? ==>
        && s.transport.drains == (if e.Drained? then 1 else 0)
        && s.transport.polling == e.PollCompleted?
  {
    RunIsPausable(Initial<P>(polling), past);
    var s := Run(Initial<P>(polling), past);
    if s.ready != Closed && s.probe.Some? && Step(s, e).probe.None? && !e.ProbeFailed? && !e.ConnectionLost? {
      SwitchIsQuiet(s, e);
    }
  }

  lemma SwitchIsQuiet<P>(s: Socket<P>, e: Event<P>)
    requires Going(s) && s.ready != Closed && s.probe.Some? && Pausable(s)
    requires Step(s, e).probe.None? && !e.ProbeFailed? && !e.ConnectionLost?
    ensures s.transport.drains == (if e.Drained? then 1 else 0)
    ensures s.transport.polling == e.PollCompleted?
  {
    if e.Drained? && s.transport.drains > 0 {
      DrainShape(s.(transport := s.transport.(writable := true, drains := s.transport.drains - 1)));
    }
  }
}
