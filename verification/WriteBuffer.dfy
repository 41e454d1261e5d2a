/** The write buffer of the engine.io client socket, from connecting over polling through an upgrade
    to another transport until the socket closes. */
module WriteBuffer {
  import opened Text
  import opened Runs

  datatype ReadyState = Opening | Open | Closing | Closed

  datatype TransportState = TOpening | TOpen | TPausing | TPaused

  /** A transport as far as the socket sees it, and the drain callbacks that are still to come.
      `drains` counts the scheduled callbacks that set `writable` and emit `drain`; `polling` is true
      while a poll request is under way. */
  datatype Transport = Transport(state: TransportState, writable: bool, drains: nat, polling: bool)

  /** How the socket ended. */
  datatype Ending = Running | Forced | Lost

  /** The socket. `greeted` says that the handshake has arrived, `waitPoll` and `waitDrain` are what
      `Polling.pause` waits for, `probe` is the transport under test, `closeOnDrain` and
      `closeOnUpgrade` are the listeners that `close()` leaves behind. Three fields only record the
      past: what `sendPacket` accepted, what was handed to `transport.send`, and whether `close()` found
      packets in the buffer of a socket that was not open yet. */
  datatype Socket<P> = Socket(
    ready: ReadyState, greeted: bool, transport: Transport, probe: Option<Transport>, upgrading: bool,
    waitPoll: bool, waitDrain: bool, closeOnDrain: bool, closeOnUpgrade: bool,
    writeBuffer: seq<P>, prevBufferLen: nat, ending: Ending, accepted: seq<P>, handed: seq<P>, closedEarly: bool)

  function Initial<P>(polling: bool): Socket<P> {
    Socket(Opening, false, Transport(TOpening, false, 0, polling), None, false, false, false, false, false,
           [], 0, Running, [], [], false)
  }

  // ---------------------------------------------------------------- the pieces of code

  /** The guard of `flush`. */
  predicate CanFlush<P>(s: Socket<P>) {
    s.ready != Closed && s.transport.writable && !s.upgrading && s.writeBuffer != []
  }

  /** `flush`: the whole buffer goes to the transport, which is not writable until it drains. */
  function Flush<P>(s: Socket<P>): Socket<P> {
    if CanFlush(s) then
      s.(transport := s.transport.(writable := false, drains := s.transport.drains + 1),
         handed := s.handed + s.writeBuffer, prevBufferLen := |s.writeBuffer|)
    else s
  }

  /** `sendPacket` */
  function SendPacket<P>(s: Socket<P>, p: P): Socket<P> {
    if s.ready == Closing || s.ready == Closed then s
    else Flush(s.(writeBuffer := s.writeBuffer + [p], accepted := s.accepted + [p]))
  }

  /** `onClose` */
  function OnClose<P>(s: Socket<P>, ending: Ending): Socket<P> {
    if s.ready == Closed then s
    else s.(ready := Closed, writeBuffer := [], prevBufferLen := 0, ending := ending)
  }

  /** The `drain` event of the socket, on which `close()` may be waiting. */
  function EmitDrain<P>(s: Socket<P>): Socket<P> {
    if !s.closeOnDrain then s
    else if s.upgrading then s.(closeOnDrain := false, closeOnUpgrade := true)
    else OnClose(s.(closeOnDrain := false), Forced)
  }

  /** The buffer after `splice(0, prevBufferLen)`. */
  function Spliced<P>(s: Socket<P>): Socket<P> {
    s.(writeBuffer := if s.prevBufferLen <= |s.writeBuffer| then s.writeBuffer[s.prevBufferLen..] else [],
       prevBufferLen := 0)
  }

  /** `onDrain` */
  function OnDrain<P>(s: Socket<P>): Socket<P> {
    if Spliced(s).writeBuffer == [] then EmitDrain(Spliced(s)) else Flush(Spliced(s))
  }

  /** The `upgrade` or `upgradeError` event of the socket. */
  function EmitUpgrade<P>(s: Socket<P>): Socket<P> {
    if s.closeOnUpgrade then OnClose(s.(closeOnUpgrade := false), Forced) else s
  }

  /** The probed transport becomes the transport and is sent the upgrade packet; the callbacks of the
      old one no longer reach the socket. */
  function Switched<P>(s: Socket<P>, next: Transport): Socket<P> {
    s.(transport := next.(writable := false, drains := next.drains + 1), probe := None)
  }

  function Upgraded<P>(s: Socket<P>): Socket<P> { Flush(EmitUpgrade(s).(upgrading := false)) }

  /** The transport is paused: the callback of `transport.pause` in `probe`. */
  function OnPaused<P>(s: Socket<P>): Socket<P> {
    if s.probe.None? || s.ready == Closed then s.(transport := s.transport.(state := TPaused))
    else Upgraded(Switched(s, s.probe.value))
  }

  function Pausing<P>(s: Socket<P>): Socket<P> {
    s.(transport := s.transport.(state := TPausing),
       waitPoll := s.transport.polling, waitDrain := !s.transport.writable)
  }

  /** `Polling.pause` */
  function Pause<P>(s: Socket<P>): Socket<P> {
    if s.transport.polling || !s.transport.writable then Pausing(s) else OnPaused(Pausing(s))
  }

  /** `close` */
  function Close<P>(s: Socket<P>): Socket<P> {
    if s.ready == Closing || s.ready == Closed then s
    else
      var t := s.(ready := Closing, closedEarly := s.closedEarly || (s.ready == Opening && s.writeBuffer != []));
      if s.writeBuffer != [] then t.(closeOnDrain := true)
      else if s.upgrading then t.(closeOnUpgrade := true)
      else OnClose(t, Forced)
  }

  // ---------------------------------------------------------------- events

  datatype Event<P> =
    | Send(p: P)
    | CloseCalled
    | TransportOpened
    | Handshake
    | Drained
    | PollCompleted
    | ProbeOpened
    | ProbeDrained
    | ProbePong
    | ProbeFailed
    | ConnectionLost

  function Opened<P>(s: Socket<P>): Socket<P> {
    if s.transport.state == TOpening then s.(transport := s.transport.(state := TOpen, writable := true)) else s
  }

  /** The open packet makes the socket open, even one on which `close()` was called. */
  function Greeted<P>(s: Socket<P>): Socket<P> {
    if s.transport.state == TOpen && !s.greeted then Flush(s.(ready := Open, greeted := true)) else s
  }

  /** The listener of a pending `pause` hears the end of a write. */
  function PauseHearsDrain<P>(s: Socket<P>): Socket<P> {
    if s.ready == Closed || !s.waitDrain then s
    else if s.waitPoll then s.(waitDrain := false)
    else OnPaused(s.(waitDrain := false))
  }

  /** A drain callback of the current transport: the socket's listener runs before that of a pending
      `pause`, which was added later. */
  function TransportDrained<P>(s: Socket<P>): Socket<P> {
    if s.transport.drains == 0 then s
    else
      PauseHearsDrain(OnDrain(s.(transport := s.transport.(writable := true, drains := s.transport.drains - 1))))
  }

  /** The end of a poll request; an open transport polls again at once. */
  function PollDone<P>(s: Socket<P>): Socket<P> {
    if !s.transport.polling || s.transport.state == TOpening || s.transport.state == TOpen then s
    else
      var t := s.(transport := s.transport.(polling := false), waitPoll := false);
      if s.waitPoll && !s.waitDrain then OnPaused(t) else t
  }

  /** A probe connects and sends its ping; there is none beside a transport that does not poll, which
      cannot be paused. */
  function Probing<P>(s: Socket<P>): Socket<P> {
    if s.greeted && s.transport.state == TOpen && s.transport.polling && s.probe.None? && !s.upgrading
    then s.(probe := Some(Transport(TOpen, false, 1, false))) else s
  }

  function ProbeReady<P>(s: Socket<P>): Socket<P> {
    if s.probe.Some? && s.probe.value.drains > 0
    then s.(probe := Some(s.probe.value.(writable := true, drains := s.probe.value.drains - 1))) else s
  }

  function Pong<P>(s: Socket<P>): Socket<P> {
    if s.probe.Some? && !s.upgrading then Pause(s.(upgrading := true)) else s
  }

  /** The probe fails: `upgrading` is left as it is. */
  function Failed<P>(s: Socket<P>): Socket<P> {
    if s.probe.Some? then EmitUpgrade(s.(probe := None)) else s
  }

  /** One event of a socket that is not closed; one that cannot happen in a state leaves it as it is. */
  function LiveStep<P>(s: Socket<P>, e: Event<P>): Socket<P> {
    match e
    case Send(p) => SendPacket(s, p)
    case CloseCalled => Close(s)
    case TransportOpened => Opened(s)
    case Handshake => Greeted(s)
    case Drained => TransportDrained(s)
    case PollCompleted => PollDone(s)
    case ProbeOpened => Probing(s)
    case ProbeDrained => ProbeReady(s)
    case ProbePong => Pong(s)
    case ProbeFailed => Failed(s)
    case ConnectionLost => OnClose(s, Lost)
  }

  function Step<P>(s: Socket<P>, e: Event<P>): Socket<P> {
    if s.ready == Closed then s else LiveStep(s, e)
  }

  ghost function Run<P>(s: Socket<P>, events: seq<Event<P>>): Socket<P> { RunOf(Step, s, events) }

  // ---------------------------------------------------------------- the object

  class EngineSocket<P(==)> {
    var ready: ReadyState
    var greeted: bool
    var transport: Transport
    var probe: Option<Transport>
    var upgrading: bool
    var waitPoll: bool
    var waitDrain: bool
    var closeOnDrain: bool
    var closeOnUpgrade: bool
    var writeBuffer: seq<P>
    var prevBufferLen: nat
    var ending: Ending
    ghost var accepted: seq<P>
    ghost var handed: seq<P>
    ghost var closedEarly: bool

    ghost function Model(): Socket<P>
      reads this
    {
      Socket(ready, greeted, transport, probe, upgrading, waitPoll, waitDrain, closeOnDrain, closeOnUpgrade,
             writeBuffer, prevBufferLen, ending, accepted, handed, closedEarly)
    }

    constructor (polling: bool)
      ensures Model() == Initial(polling)
    {
      ready, greeted, transport := Opening, false, Transport(TOpening, false, 0, polling);
      probe, upgrading := None, false;
      waitPoll, waitDrain, closeOnDrain, closeOnUpgrade := false, false, false, false;
      writeBuffer, prevBufferLen, ending, accepted, handed, closedEarly := [], 0, Running, [], [], false;
    }

    method FlushBuffer()
      modifies this
      ensures Model() == Flush(old(Model()))
    {
      if ready != Closed && transport.writable && !upgrading && |writeBuffer| > 0 {
        transport := transport.(writable := false, drains := transport.drains + 1);
        handed := handed + writeBuffer;
        prevBufferLen := |writeBuffer|;
      }
    }

    method Send(packet: P)
      modifies this
      ensures Model() == SendPacket(old(Model()), packet)
    {
      if ready == Closing || ready == Closed {
        return;
      }
      accepted := accepted + [packet];
      writeBuffer := writeBuffer + [packet];
      FlushBuffer();
    }

    method CloseNow(how: Ending)
      modifies this
      ensures Model() == OnClose(old(Model()), how)
    {
      if ready != Closed {
        ready := Closed;
        writeBuffer := [];
        prevBufferLen := 0;
        ending := how;
      }
    }

    method DrainEvent()
      modifies this
      ensures Model() == EmitDrain(old(Model()))
    {
      if closeOnDrain {
        closeOnDrain := false;
        if upgrading {
          closeOnUpgrade := true;
        } else {
          CloseNow(Forced);
        }
      }
    }

    method SpliceBuffer()
      modifies this
      ensures Model() == Spliced(old(Model()))
    {
      writeBuffer := if prevBufferLen <= |writeBuffer| then writeBuffer[prevBufferLen..] else [];
      prevBufferLen := 0;
    }

    /** Handles the `drain` event of the transport. */
    method WhenDrained()
      modifies this
      ensures Model() == OnDrain(old(Model()))
    {
      SpliceBuffer();
      if |writeBuffer| == 0 {
        DrainEvent();
      } else {
        FlushBuffer();
      }
    }

    method UpgradeEvent()
      modifies this
      ensures Model() == EmitUpgrade(old(Model()))
    {
      if closeOnUpgrade {
        closeOnUpgrade := false;
        CloseNow(Forced);
      }
    }

    method SwitchTo(next: Transport)
      modifies this
      ensures Model() == Switched(old(Model()), next)
    {
      probe := None;
      transport := next.(writable := false, drains := next.drains + 1);
    }

    method CompleteUpgrade()
      modifies this
      ensures Model() == Upgraded(old(Model()))
    {
      UpgradeEvent();
      upgrading := false;
      FlushBuffer();
    }

    /** The callback given to `pause`. */
    method WhenPaused()
      modifies this
      ensures Model() == OnPaused(old(Model()))
    {
      if probe.None? || ready == Closed {
        transport := transport.(state := TPaused);
        return;
      }
      SwitchTo(probe.value);
      CompleteUpgrade();
    }

    method BeginPause()
      modifies this
      ensures Model() == Pausing(old(Model()))
    {
      waitPoll, waitDrain := transport.polling, !transport.writable;
      transport := transport.(state := TPausing);
    }

    method PauseTransport()
      modifies this
      ensures Model() == Pause(old(Model()))
    {
      var wait := transport.polling || !transport.writable;
      BeginPause();
      if !wait {
        WhenPaused();
      }
    }

    method CloseSocket()
      modifies this
      ensures Model() == Close(old(Model()))
    {
      if ready == Opening || ready == Open {
        closedEarly := closedEarly || (ready == Opening && |writeBuffer| > 0);
        ready := Closing;
        if |writeBuffer| > 0 {
          closeOnDrain := true;
        } else if upgrading {
          closeOnUpgrade := true;
        } else {
          CloseNow(Forced);
        }
      }
    }

    /** The open packet. */
    method WhenGreeted()
      modifies this
      ensures Model() == Greeted(old(Model()))
    {
      if transport.state == TOpen && !greeted {
        greeted := true;
        ready := Open;
        FlushBuffer();
      }
    }

    method TellPause()
      modifies this
      ensures Model() == PauseHearsDrain(old(Model()))
    {
      if ready != Closed && waitDrain {
        waitDrain := false;
        if !waitPoll {
          WhenPaused();
        }
      }
    }

    /** The callback that a transport's `write` leaves behind. */
    method WriteCompleted()
      modifies this
      ensures Model() == TransportDrained(old(Model()))
    {
      if transport.drains > 0 {
        transport := transport.(writable := true, drains := transport.drains - 1);
        WhenDrained();
        TellPause();
      }
    }

    /** The probe's answer. */
    method WhenPong()
      modifies this
      ensures Model() == Pong(old(Model()))
    {
      if probe.Some? && !upgrading {
        upgrading := true;
        PauseTransport();
      }
    }

    method WhenProbeFailed()
      modifies this
      ensures Model() == Failed(old(Model()))
    {
      if probe.Some? {
        probe := None;
        UpgradeEvent();
      }
    }

    method WhenTransportOpened()
      modifies this
      ensures Model() == Opened(old(Model()))
    {
      if transport.state == TOpening {
        transport := transport.(state := TOpen, writable := true);
      }
    }

    /** The end of a poll, which a pending pause may have been waiting for. */
    method PollCompletes()
      modifies this
      ensures Model() == PollDone(old(Model()))
    {
      if transport.polling && transport.state != TOpening && transport.state != TOpen {
        var pauses := waitPoll && !waitDrain;
        transport := transport.(polling := false);
        waitPoll := false;
        if pauses {
          WhenPaused();
        }
      }
    }

    method WhenProbeOpened()
      modifies this
      ensures Model() == Probing(old(Model()))
    {
      if greeted && transport.state == TOpen && transport.polling && probe.None? && !upgrading {
        probe := Some(Transport(TOpen, false, 1, false));
      }
    }

    method WhenProbeDrained()
      modifies this
      ensures Model() == ProbeReady(old(Model()))
    {
      if probe.Some? && probe.value.drains > 0 {
        probe := Some(probe.value.(writable := true, drains := probe.value.drains - 1));
      }
    }

    /** Whatever happens next. */
    method Handle(e: Event<P>)
      modifies this
      ensures Model() == Step(old(Model()), e)
    {
      if ready == Closed {
        return;
      }
      match e
      case Send(p) => Send(p);
      case CloseCalled => CloseSocket();
      case TransportOpened => WhenTransportOpened();
      case Handshake => WhenGreeted();
      case Drained => WriteCompleted();
      case PollCompleted => PollCompletes();
      case ProbeOpened => WhenProbeOpened();
      case ProbeDrained => WhenProbeDrained();
      case ProbePong => WhenPong();
      case ProbeFailed => WhenProbeFailed();
      case ConnectionLost => CloseNow(Lost);
    }
  }

  // ---------------------------------------------------------------- what every step keeps

  /** What was handed over, followed by the part of the buffer that was not, is what was accepted. */
  ghost predicate NothingLost<P>(s: Socket<P>) {
    s.prevBufferLen <= |s.writeBuffer| && s.accepted == s.handed + s.writeBuffer[s.prevBufferLen..]
  }

  predicate CloseListens<P>(s: Socket<P>) { s.closeOnDrain || s.closeOnUpgrade }

  /** A transport to which nothing was written, as it is before it opens. */
  predicate Untouched<P>(s: Socket<P>) {
    !s.transport.writable && s.transport.drains == 0 && s.prevBufferLen == 0 && !s.greeted
  }

  /** The transport is open whenever the socket may write to it. */
  predicate TransportReady<P>(s: Socket<P>) {
    && (s.transport.state == TOpening ==> Untouched(s))
    && (s.transport.state == TPausing || s.transport.state == TPaused ==> s.upgrading)
    && (s.waitPoll || s.waitDrain ==> s.upgrading)
    && (s.upgrading ==> s.greeted)
    && (s.probe.Some? ==> s.greeted && s.probe.value.state == TOpen)
  }

  /** A close that did not come too early is taken back by nothing, and waits for the end of an
      upgrade only with an empty buffer. */
  predicate CloseInOrder<P>(s: Socket<P>) {
    s.closedEarly || ((CloseListens(s) ==> s.ready == Closing) &&
    (s.ready == Closing ==> s.greeted) &&
    (s.closeOnUpgrade ==> s.writeBuffer == []))
  }

  /** The invariant of a socket that is not closed. */
  ghost predicate Live<P>(s: Socket<P>) {
    && s.ready != Closed && s.ending == Running
    && NothingLost(s) && TransportReady(s) && CloseInOrder(s)
    && (s.transport.writable ==> s.prevBufferLen == 0)
    && (s.ready == Opening ==> !s.greeted) && (s.ready == Open ==> s.greeted)
  }

  ghost predicate Ended<P>(s: Socket<P>) {
    && s.ready == Closed && s.ending != Running && s.handed <= s.accepted
    && (s.ending == Forced && !s.closedEarly ==> s.handed == s.accepted)
  }

  ghost predicate Inv<P>(s: Socket<P>) { Live(s) || Ended(s) }

  lemma FlushKeeps<P>(s: Socket<P>)
    requires Live(s)
    ensures Live(Flush(s))
    ensures CanFlush(s) ==> s.transport.state == TOpen && s.prevBufferLen == 0
  {
    if CanFlush(s) {
      assert s.writeBuffer[0..] == s.writeBuffer;
      assert s.handed + s.writeBuffer + [] == s.handed + s.writeBuffer;
    }
  }

  lemma SendKeeps<P>(s: Socket<P>, p: P)
    requires Live(s)
    ensures Live(SendPacket(s, p))
  {
    if s.ready != Closing {
      var t := s.(writeBuffer := s.writeBuffer + [p], accepted := s.accepted + [p]);
      assert t.writeBuffer[t.prevBufferLen..] == s.writeBuffer[s.prevBufferLen..] + [p];
      Assoc(s.handed, s.writeBuffer[s.prevBufferLen..], [p]);
      FlushKeeps(t);
    }
  }

  lemma ClosedKeeps<P>(s: Socket<P>, how: Ending)
    requires s.ready != Closed && NothingLost(s) && how != Running
    requires how == Forced && !s.closedEarly ==> s.writeBuffer == []
    ensures Ended(OnClose(s, how))
  {
    assert s.handed + [] == s.handed;
  }

  lemma SplicedKeeps<P>(s: Socket<P>)
    requires Live(s.(transport := s.transport.(writable := false)))
    ensures Live(Spliced(s).(transport := s.transport.(writable := false)))
    ensures NothingLost(Spliced(s)) && Spliced(s).prevBufferLen == 0
    ensures Spliced(s).writeBuffer == [] ==> s.handed == s.accepted
  {
    assert Spliced(s).writeBuffer[0..] == Spliced(s).writeBuffer;
    assert s.handed + [] == s.handed;
  }

  lemma EmitDrainKeeps<P>(s: Socket<P>)
    requires Live(s) && s.writeBuffer == []
    ensures Inv(EmitDrain(s))
    ensures Live(EmitDrain(s)) ==> EmitDrain(s).transport == s.transport && EmitDrain(s).upgrading == s.upgrading
  {
    if s.closeOnDrain && !s.upgrading {
      ClosedKeeps(s.(closeOnDrain := false), Forced);
    }
  }

  lemma EmitUpgradeKeeps<P>(s: Socket<P>)
    requires Live(s)
    ensures Inv(EmitUpgrade(s))
  {
    if s.closeOnUpgrade {
      ClosedKeeps(s.(closeOnUpgrade := false), Forced);
    }
  }

  lemma OnDrainKeeps<P>(s: Socket<P>)
    requires Live(s.(transport := s.transport.(writable := false))) && s.transport.state != TOpening
    ensures Inv(OnDrain(s))
  {
    SplicedKeeps(s);
    if Spliced(s).writeBuffer == [] {
      EmitDrainKeeps(Spliced(s));
    } else {
      FlushKeeps(Spliced(s));
    }
  }

  lemma SwitchedKeeps<P>(s: Socket<P>)
    requires Live(s) && s.probe.Some? && !s.waitPoll && !s.waitDrain && s.transport.state != TOpening
    ensures Live(Switched(s, s.probe.value))
    ensures Live(Switched(s, s.probe.value).(upgrading := false))
  {
  }

  lemma OnPausedKeeps<P>(s: Socket<P>)
    requires Live(s) && s.upgrading && !s.waitPoll && !s.waitDrain
    ensures Inv(OnPaused(s))
  {
    if s.probe.Some? {
      SwitchedKeeps(s);
      var t := Switched(s, s.probe.value);
      EmitUpgradeKeeps(t);
      if !t.closeOnUpgrade {
        FlushKeeps(t.(upgrading := false));
      }
    }
  }

  lemma PauseHearsDrainKeeps<P>(s: Socket<P>)
    requires Inv(s)
    ensures Inv(PauseHearsDrain(s))
  {
    if s.ready != Closed && s.waitDrain && !s.waitPoll {
      OnPausedKeeps(s.(waitDrain := false));
    }
  }

  lemma DrainedKeeps<P>(s: Socket<P>)
    requires Live(s)
    ensures Inv(TransportDrained(s))
  {
    if s.transport.drains > 0 {
      var r := s.(transport := s.transport.(writable := true, drains := s.transport.drains - 1));
      OnDrainKeeps(r);
      PauseHearsDrainKeeps(OnDrain(r));
    }
  }

  lemma PollDoneKeeps<P>(s: Socket<P>)
    requires Live(s)
    ensures Inv(PollDone(s))
  {
    if s.transport.polling && s.transport.state != TOpening && s.transport.state != TOpen {
      var t := s.(transport := s.transport.(polling := false), waitPoll := false);
      if s.waitPoll && !s.waitDrain {
        OnPausedKeeps(t);
      }
    }
  }

  lemma PongKeeps<P>(s: Socket<P>)
    requires Live(s)
    ensures Inv(Pong(s))
  {
    if s.probe.Some? && !s.upgrading {
      var t := Pausing(s.(upgrading := true));
      if !t.waitPoll && !t.waitDrain {
        OnPausedKeeps(t);
      }
    }
  }

  lemma CloseKeeps<P>(s: Socket<P>)
    requires Live(s)
    ensures Inv(Close(s))
  {
    if s.ready != Closing && s.writeBuffer == [] && !s.upgrading {
      ClosedKeeps(s.(ready := Closing), Forced);
    }
  }

  lemma ConnectingKeeps<P>(s: Socket<P>)
    requires Live(s)
    ensures Live(Opened(s)) && Live(Greeted(s)) && Live(Probing(s)) && Live(ProbeReady(s))
  {
    if s.transport.state == TOpen && !s.greeted {
      FlushKeeps(s.(ready := Open, greeted := true));
    }
  }

  lemma FailedKeeps<P>(s: Socket<P>)
    requires Live(s)
    ensures Inv(Failed(s))
  {
    if s.probe.Some? {
      EmitUpgradeKeeps(s.(probe := None));
    }
  }

  lemma StepKeeps<P>(s: Socket<P>, e: Event<P>)
    requires Inv(s)
    ensures Inv(Step(s, e))
  {
    if Live(s) {
      match e {
        case Send(p) => SendKeeps(s, p);
        case CloseCalled => CloseKeeps(s);
        case TransportOpened => ConnectingKeeps(s);
        case Handshake => ConnectingKeeps(s);
        case Drained => DrainedKeeps(s);
        case PollCompleted => PollDoneKeeps(s);
        case ProbeOpened => ConnectingKeeps(s);
        case ProbeDrained => ConnectingKeeps(s);
        case ProbePong => PongKeeps(s);
        case ProbeFailed => FailedKeeps(s);
        case ConnectionLost => ClosedKeeps(s, Lost);
      }
    }
  }

  lemma {:induction false} RunKeeps<P>(s: Socket<P>, events: seq<Event<P>>)
    requires Inv(s)
    ensures Inv(Run(s, events))
    decreases |events|
  {
    if events != [] {
      StepKeeps(s, events[0]);
      RunKeeps(Step(s, events[0]), events[1..]);
    }
  }

  // ---------------------------------------------------------------- safety over all runs

  /** Nothing is lost, repeated or reordered until the socket closes, and what was handed over is a
      prefix of what was accepted even then. A socket closed by its user handed over everything,
      unless `close()` came early. */
  lemma WriteBufferSafety<P>(polling: bool, events: seq<Event<P>>)
    ensures var s := Run(Initial<P>(polling), events);
      && s.handed <= s.accepted
      && (s.ready != Closed ==> NothingLost(s))
      && (s.ending == Forced && !s.closedEarly ==> s.handed == s.accepted)
  {
    RunKeeps(Initial<P>(polling), events);
  }

  /** At the end of a write of any reachable socket, `drain` is emitted (its buffer is empty after the
      splice) exactly when everything accepted so far was handed over. */
  lemma DrainMeansHandedOver<P>(polling: bool, events: seq<Event<P>>)
    ensures var s := Run(Initial<P>(polling), events);
      s.ready != Closed ==> (Spliced(s).writeBuffer == [] <==> s.handed == s.accepted)
  {
    var s := Run(Initial<P>(polling), events);
    RunKeeps(Initial<P>(polling), events);
    if s.ready != Closed && s.handed == s.accepted {
      assert |s.accepted| == |s.handed| + |s.writeBuffer[s.prevBufferLen..]|;
    }
  }

  /** `transport.send` is never reached on a transport that is not open, where it would throw, nor
      while an earlier write has not drained. */
  lemma FlushMeetsAnOpenTransport<P>(polling: bool, events: seq<Event<P>>)
    ensures var s := Run(Initial<P>(polling), events);
      CanFlush(s) ==> s.transport.state == TOpen && s.prevBufferLen == 0 && s.handed + s.writeBuffer == s.accepted
  {
    var s := Run(Initial<P>(polling), events);
    RunKeeps(Initial<P>(polling), events);
    if CanFlush(s) {
      FlushKeeps(s);
      assert s.writeBuffer[0..] == s.writeBuffer;
    }
  }
}
