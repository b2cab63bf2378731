/** What every run of a session keeps. */
module SessionSafety {
  import opened Bytes
  import opened ProtocolConstants
  import opened Framing
  import opened Crypto
  import opened Messages
  import opened WriteQueue
  import opened Sessions

  function Rank(p: Phase): nat {
    match p
    case Idle => 0
    case VersionExchange => 1
    case SslHandshake => 2
    case Running => 3
    case Disconnecting => 4
    case Disconnected => 5
    case Error => 5
  }

  /** Phases that wait for the phone and must not wait for ever. */
  predicate Waits(p: Phase) {
    IsHandshake(p) || p == Disconnecting
  }

  function ErrorsTold(notices: seq<Notice>): nat {
    if notices == [] then 0
    else ErrorsTold(notices[..|notices| - 1]) + (if notices[|notices| - 1].Failed? then 1 else 0)
  }

  /** The causes the observer was told, in order. */
  function Causes(notices: seq<Notice>): seq<Cause> {
    if notices == [] then []
    else
      Causes(notices[..|notices| - 1])
      + (if notices[|notices| - 1].Failed? then [notices[|notices| - 1].cause] else [])
  }

  /** The phases the observer was shown, in order. */
  function PhasesShown(notices: seq<Notice>): seq<Phase> {
    if notices == [] then []
    else
      PhasesShown(notices[..|notices| - 1])
      + (if notices[|notices| - 1].Changed? then [notices[|notices| - 1].phase] else [])
  }

  /** The phase the observer was shown last. */
  function Shown(notices: seq<Notice>): Phase {
    if notices == [] then Idle
    else if notices[|notices| - 1].Changed? then notices[|notices| - 1].phase
    else Shown(notices[..|notices| - 1])
  }

  /** A wire frame with the encrypted bit. */
  predicate IsSealed(wire: seq<Byte>) {
    2 <= |wire| && HasEncrypted(wire[1])
  }

  /** AUTH_COMPLETE on the wire: control channel, unfragmented, four bytes, type 4, status 0. */
  const AUTH_WIRE: seq<Byte> := [0, 3, 0, 4, 0, 4, 8, 0]

  /** Clear up to and including the one AUTH_COMPLETE, encrypted from then on. */
  ghost predicate ClearThenSealed(established: bool, authAt: Option<nat>, offered: seq<seq<Byte>>) {
    && (established <==> authAt.Some?)
    && match authAt
       case None =>
         forall i :: 0 <= i < |offered| ==> !IsSealed(offered[i])
       case Some(a) =>
         && a < |offered|
         && offered[a] == AUTH_WIRE
         && (forall i :: 0 <= i <= a ==> !IsSealed(offered[i]))
         && (forall i :: a < i < |offered| ==> IsSealed(offered[i]))
  }

  /** The frames offered to the write queue so far. */
  ghost predicate CutOver(s: Status) {
    ClearThenSealed(s.established, s.authAt, s.writer.offered)
  }

  ghost predicate Safe(s: Status) {
    && (IsTerminal(s.phase) ==> s.transportClosed)
    && ErrorsTold(s.notices) == (if s.phase == Error then 1 else 0)
    && s.closings == (if s.phase == Error then 1 else 0)
    && Shown(s.notices) == s.phase
    && (s.timerArmed <==> Waits(s.phase))
    && (s.phase == Idle || IsHandshake(s.phase) ==> !s.established)
    && (s.phase == Running || s.phase == Disconnecting ==> s.established)
  }

  ghost predicate Inv(s: Status) {
    CutOver(s) && Safe(s)
  }

  /** No way back: the rank grows, a terminal phase stays, what happened has happened. */
  ghost predicate Progress(s: Status, t: Status) {
    && Rank(s.phase) <= Rank(t.phase)
    && (IsTerminal(s.phase) ==> t.phase == s.phase)
    && s.writer.offered <= t.writer.offered
    && s.writer.written <= t.writer.written
    && (s.authAt.Some? ==> t.authAt == s.authAt)
    && t.services == s.services
  }

  lemma ProgressTrans(s: Status, t: Status, u: Status)
    requires Progress(s, t) && Progress(t, u)
    ensures Progress(s, u)
  {
  }

  /** A completing handshake step has nothing to send, as with a TLS 1.2 client in a full handshake. */
  predicate QuietStep(step: Step) {
    step.StepDone? && step.complete ==> step.output == []
  }

  ghost predicate Quiet(items: seq<Inbound>) {
    forall item :: item in items && item.Arrived? ==> QuietStep(item.step)
  }

  ghost predicate QuietEvent(e: Event) {
    e.ReadComplete? && e.read.ReadData? ==> Quiet(e.read.items)
  }

  // ----- Small steps -----

  lemma ErrorsToldSnoc(notices: seq<Notice>, n: Notice)
    ensures ErrorsTold(notices + [n]) == ErrorsTold(notices) + (if n.Failed? then 1 else 0)
    ensures Causes(notices + [n]) == Causes(notices) + (if n.Failed? then [n.cause] else [])
    ensures Shown(notices + [n]) == if n.Changed? then n.phase else Shown(notices)
    ensures PhasesShown(notices + [n]) == PhasesShown(notices) + (if n.Changed? then [n.phase] else [])
  {
    assert (notices + [n])[..|notices|] == notices;
  }

  lemma TransitionTells(s: Status, p: Phase)
    ensures ErrorsTold(TransitionTo(s, p).notices) == ErrorsTold(s.notices)
    ensures Causes(TransitionTo(s, p).notices) == Causes(s.notices)
    ensures Shown(TransitionTo(s, p).notices) == p
    ensures PhasesShown(TransitionTo(s, p).notices) == PhasesShown(s.notices) + [p]
  {
    ErrorsToldSnoc(s.notices, Changed(p));
  }

  lemma ErrorTellsOnce(s: Status, cause: Cause)
    requires !IsTerminal(s.phase)
    ensures ErrorsTold(HandleError(s, cause).notices) == ErrorsTold(s.notices) + 1
    ensures Causes(HandleError(s, cause).notices) == Causes(s.notices) + [cause]
    ensures Shown(HandleError(s, cause).notices) == Error
    ensures PhasesShown(HandleError(s, cause).notices) == PhasesShown(s.notices) + [Error]
  {
    ErrorsToldSnoc(s.notices, Changed(Error));
    ErrorsToldSnoc(s.notices + [Changed(Error)], Failed(cause));
  }

  lemma HandleErrorKeeps(s: Status, cause: Cause)
    requires Inv(s)
    ensures Inv(HandleError(s, cause)) && Progress(s, HandleError(s, cause))
    ensures IsTerminal(HandleError(s, cause).phase)
    ensures HandleError(s, cause).writer == s.writer
  {
    if !IsTerminal(s.phase) {
      ErrorTellsOnce(s, cause);
    }
  }

  /** All wire frames of a message carry the encrypted bit, or none does. */
  lemma FrameSealing(m: Message, encrypted: bool, body: seq<Byte>)
    ensures forall i :: 0 <= i < |Wires(FrameOf(m, encrypted, body))| ==>
      (IsSealed(Wires(FrameOf(m, encrypted, body))[i]) <==> encrypted)
  {
    ComputedFlags(m.channel, m.messageType, encrypted);
    WiresKeepEncryptedBit(FrameOf(m, encrypted, body));
  }

  lemma OfferMore(established: bool, authAt: Option<nat>, offered: seq<seq<Byte>>, wires: seq<seq<Byte>>)
    requires ClearThenSealed(established, authAt, offered)
    requires forall i :: 0 <= i < |wires| ==> (IsSealed(wires[i]) <==> established)
    ensures ClearThenSealed(established, authAt, offered + wires)
  {
  }

  lemma OfferKeeps(s: Status, wires: seq<seq<Byte>>)
    requires Inv(s)
    requires forall i :: 0 <= i < |wires| ==> (IsSealed(wires[i]) <==> s.established)
    ensures var t := s.(writer := EnqueueAll(s.writer, wires)); Inv(t) && Progress(s, t)
  {
    EnqueueAllOffers(s.writer, wires);
    OfferMore(s.established, s.authAt, s.writer.offered, wires);
  }

  lemma SendKeeps(s: Status, r: SendRequest)
    requires Inv(s)
    ensures Inv(SendMessage(s, r)) && Progress(s, SendMessage(s, r))
    ensures SendMessage(s, r).toServices == s.toServices
  {
    var x := Send(Oracle(r.cipher), s.established, r.message);
    if x.failed {
      HandleErrorKeeps(s, EncryptionFailed);
    } else {
      var body := if s.established then r.cipher.value else MessagePayload(r.message);
      FrameSealing(r.message, s.established, body);
      OfferKeeps(s, x.wires);
    }
  }

  lemma {:induction false} SendEachKeeps(s: Status, rs: seq<SendRequest>)
    requires Inv(s)
    ensures Inv(SendEach(s, rs)) && Progress(s, SendEach(s, rs))
    ensures SendEach(s, rs).toServices == s.toServices
    decreases |rs|
  {
    if rs != [] {
      SendKeeps(s, rs[0]);
      SendEachKeeps(SendMessage(s, rs[0]), rs[1..]);
      ProgressTrans(s, SendMessage(s, rs[0]), SendEach(s, rs));
    }
  }

  lemma AuthWire(e: bool)
    ensures SendPlain(e, AUTH_MESSAGE).wires == [AUTH_WIRE]
    ensures !IsSealed(AUTH_WIRE)
  {
    var frame := FrameOf(AUTH_MESSAGE, false, MessagePayload(AUTH_MESSAGE));
    assert MessagePayload(AUTH_MESSAGE) == [0, 4, 8, 0];
    assert SingleWire(frame) == AUTH_WIRE;
  }

  lemma SslCompleteKeeps(s: Status)
    requires Inv(s) && IsHandshake(s.phase)
    ensures var t := OnSslComplete(s.(established := true)); Inv(t) && Progress(s, t)
  {
    AuthWire(true);
    EnqueueAllOffers(s.writer, [AUTH_WIRE]);
    TransitionTells(s, Running);
  }

  lemma HandshakeStepKeeps(s: Status, step: Step)
    requires Inv(s) && IsHandshake(s.phase) && QuietStep(step)
    ensures Inv(OnHandshakeStep(s, step)) && Progress(s, OnHandshakeStep(s, step))
  {
    match step
    case StepFailed => HandleErrorKeeps(s, SslHandshakeFailed);
    case StepDone(output, complete, cipher) =>
      if complete {
        SslCompleteKeeps(s);
      } else if output != [] {
        assert s.(established := s.established || complete) == s;
        SendKeeps(s, SendRequest(Message(CONTROL_CHANNEL, ENCAPSULATED_SSL, output), cipher));
      }
  }

  lemma VersionResponseKeeps(s: Status, payload: seq<Byte>, step: Step)
    requires Inv(s) && IsHandshake(s.phase) && QuietStep(step)
    ensures var t := OnVersionResponse(s, payload, step); Inv(t) && Progress(s, t)
  {
    var t := StartStateTimer(TransitionTo(s, SslHandshake));
    TransitionTells(s, SslHandshake);
    assert Inv(t) && Progress(s, t);
    if RefusesVersion(payload) {
      HandleErrorKeeps(t, VersionMismatch);
      ProgressTrans(s, t, HandleError(t, VersionMismatch));
    } else {
      HandshakeStepKeeps(t, step);
      ProgressTrans(s, t, OnHandshakeStep(t, step));
    }
  }

  lemma InboundKeeps(s: Status, item: Inbound)
    requires Inv(s) && (item.Arrived? ==> QuietStep(item.step))
    ensures Inv(OnInbound(s, item)) && Progress(s, OnInbound(s, item))
  {
    match item
    case Garbled => HandleErrorKeeps(s, DecryptionFailed);
    case Arrived(m, step, replies) =>
      if IsHandshake(s.phase) {
        if m.messageType == VERSION_RESPONSE {
          VersionResponseKeeps(s, m.payload, step);
        } else if m.messageType == ENCAPSULATED_SSL {
          HandshakeStepKeeps(s, step);
        }
      } else {
        SendEachKeeps(s.(toServices := s.toServices + [m]), replies);
      }
  }

  lemma {:induction false} ItemsKeep(s: Status, items: seq<Inbound>)
    requires Inv(s) && Quiet(items)
    ensures Inv(OnItems(s, items)) && Progress(s, OnItems(s, items))
    decreases |items|
  {
    if items != [] {
      assert items[0] in items;
      InboundKeeps(s, items[0]);
      ItemsKeep(OnInbound(s, items[0]), items[1..]);
      ProgressTrans(s, OnInbound(s, items[0]), OnItems(s, items));
    }
  }

  lemma DisconnectedKeeps(s: Status)
    requires Inv(s) && s.phase == Disconnecting
    ensures Inv(CompleteDisconnect(s)) && Progress(s, CompleteDisconnect(s))
  {
    TransitionTells(s, Disconnected);
  }

  lemma DisconnectKeeps(s: Status, bye: SendRequest)
    requires Inv(s) && s.phase == Running
    ensures Inv(BeginDisconnect(s, bye)) && Progress(s, BeginDisconnect(s, bye))
  {
    var t := StartStateTimer(TransitionTo(s, Disconnecting));
    TransitionTells(s, Disconnecting);
    assert Inv(t) && Progress(s, t);
    if CONTROL_CHANNEL in t.services {
      SendKeeps(t, bye);
      ProgressTrans(s, t, SendMessage(t, bye));
    } else {
      DisconnectedKeeps(t);
      ProgressTrans(s, t, CompleteDisconnect(t));
    }
  }

  lemma TimeoutKeeps(s: Status)
    requires Inv(s)
    ensures Inv(OnStateTimeout(s)) && Progress(s, OnStateTimeout(s))
  {
    match s.phase
    case VersionExchange => HandleErrorKeeps(s, VersionMismatch);
    case SslHandshake => HandleErrorKeeps(s, SslHandshakeFailed);
    case Disconnecting => DisconnectedKeeps(s);
    case _ =>
  }

  lemma WriteKeeps(s: Status, r: WriteResult)
    requires Inv(s) && s.writer.outstanding.Some?
    ensures Inv(OnWriteComplete(s, r)) && Progress(s, OnWriteComplete(s, r))
  {
    var t := s.(writer := Complete(s.writer, r.Written?));
    assert Inv(t) && Progress(s, t);
    if r.WriteFailed? {
      HandleErrorKeeps(t, TransportWriteError);
    }
  }

  lemma ReadKeeps(s: Status, r: ReadResult)
    requires Inv(s) && (r.ReadData? ==> Quiet(r.items))
    ensures Inv(OnReadComplete(s, r)) && Progress(s, OnReadComplete(s, r))
  {
    var t := s.(reading := false);
    match r
    case ReadAborted =>
    case ReadFailed => HandleErrorKeeps(t, TransportReadError);
    case ReadData(items) => ItemsKeep(t, items);
  }

  lemma HandleKeeps(s: Status, e: Event)
    requires Inv(s) && QuietEvent(e)
    ensures Inv(Handle(s, e)) && Progress(s, Handle(s, e))
  {
    match e
    case Stop(bye) =>
      if s.phase == Running {
        DisconnectKeeps(s, bye);
      } else {
        HandleErrorKeeps(s, SessionTerminated);
      }
    case ReadComplete(r) => ReadKeeps(s, r);
    case WriteComplete(r) =>
      if s.writer.outstanding.Some? {
        WriteKeeps(s, r);
      }
    case Timeout => TimeoutKeeps(s);
    case Submit(r) => SendKeeps(s, r);
  }

  lemma StartKeeps(services: set<Byte>)
    ensures Inv(Started(services)) && Progress(NewSession(services), Started(services))
    ensures Started(services).phase == VersionExchange
  {
    var s := NewSession(services);
    TransitionTells(s, VersionExchange);
    var t := StartRead(StartStateTimer(TransitionTo(s, VersionExchange)));
    assert Inv(t);
    SendKeeps(t, SendRequest(VERSION_MESSAGE, None));
  }

  lemma {:induction false} RunKeeps(s: Status, events: seq<Event>)
    requires Inv(s) && forall e :: e in events ==> QuietEvent(e)
    ensures Inv(HandleAll(s, events)) && Progress(s, HandleAll(s, events))
    decreases |events|
  {
    if events != [] {
      assert events[0] in events;
      HandleKeeps(s, events[0]);
      RunKeeps(Handle(s, events[0]), events[1..]);
      ProgressTrans(s, Handle(s, events[0]), HandleAll(s, events));
    }
  }

  lemma HandleAllConcat(s: Status, a: seq<Event>, b: seq<Event>)
    ensures HandleAll(s, a + b) == HandleAll(HandleAll(s, a), b)
    decreases |a|
  {
    if a == [] {
      assert a + b == b;
    } else {
      ConcatTail(a, b);
      HandleAllConcat(Handle(s, a[0]), a[1..], b);
    }
  }

  // ----- Whole runs -----

  /**
  Along every run the rank never falls, a terminal phase is final and has the transport closed, and the
  observer hears of one error, and the services of the end, once exactly when the run is in Error; the phase
  shown last is the phase it is in. So a run that ends in Disconnected leaves its services open.
  */
  lemma SessionIsSafe(services: set<Byte>, events: seq<Event>, later: seq<Event>)
    requires forall e :: e in events + later ==> QuietEvent(e)
    ensures var s := HandleAll(Started(services), events);
      var t := HandleAll(Started(services), events + later);
      && Rank(s.phase) <= Rank(t.phase)
      && (IsTerminal(s.phase) ==> t.phase == s.phase && t.transportClosed)
      && ErrorsTold(t.notices) == (if t.phase == Error then 1 else 0)
      && t.closings == (if t.phase == Error then 1 else 0)
      && Shown(t.notices) == t.phase
  {
    StartKeeps(services);
    HandleAllConcat(Started(services), events, later);
    RunKeeps(Started(services), events);
    RunKeeps(HandleAll(Started(services), events), later);
  }

  /** The frames offered in any run are a clear prefix ending in an AUTH_COMPLETE, then encrypted frames. */
  lemma EncryptionCutOver(services: set<Byte>, events: seq<Event>)
    requires forall e :: e in events ==> QuietEvent(e)
    ensures CutOver(HandleAll(Started(services), events))
  {
    StartKeeps(services);
    RunKeeps(Started(services), events);
  }

  /**
  A run's timer is armed exactly when it waits for the phone. A firing ends a waiting phase for good; anywhere
  else it changes nothing, so a late one does no harm.
  */
  lemma NeverStuck(services: set<Byte>, events: seq<Event>)
    requires forall e :: e in events ==> QuietEvent(e)
    ensures var s := HandleAll(Started(services), events);
      && (s.timerArmed <==> Waits(s.phase))
      && (if Waits(s.phase) then IsTerminal(Handle(s, Timeout).phase) else Handle(s, Timeout) == s)
  {
    StartKeeps(services);
    RunKeeps(Started(services), events);
  }

  // ----- The write queue of a session -----

  /** Whatever the session does to its write queue is a run of the queue. */
  lemma SendDrives(s: Status, r: SendRequest) returns (ws: seq<WriterEvent>)
    ensures WriteQueue.Run(s.writer, ws) == SendMessage(s, r).writer
  {
    ws := EnqueueAllIsRun(s.writer, Send(Oracle(r.cipher), s.established, r.message).wires);
  }

  lemma {:induction false} SendEachDrives(s: Status, rs: seq<SendRequest>) returns (ws: seq<WriterEvent>)
    ensures WriteQueue.Run(s.writer, ws) == SendEach(s, rs).writer
    decreases |rs|
  {
    if rs == [] {
      ws := [];
    } else {
      var first := SendDrives(s, rs[0]);
      var more := SendEachDrives(SendMessage(s, rs[0]), rs[1..]);
      ws := first + more;
      WriteQueue.RunConcat(s.writer, first, more);
    }
  }

  lemma StepDrives(s: Status, step: Step) returns (ws: seq<WriterEvent>)
    ensures WriteQueue.Run(s.writer, ws) == OnHandshakeStep(s, step).writer
  {
    ws := [];
    if step.StepDone? {
      var b := s.(established := s.established || step.complete);
      if step.output != [] {
        var r := SendRequest(Message(CONTROL_CHANNEL, ENCAPSULATED_SSL, step.output), step.cipher);
        ws := SendDrives(b, r);
        b := SendMessage(b, r);
      }
      if step.complete {
        var more := EnqueueAllIsRun(b.writer, SendPlain(b.established, AUTH_MESSAGE).wires);
        WriteQueue.RunConcat(s.writer, ws, more);
        ws := ws + more;
      }
    }
  }

  lemma InboundDrives(s: Status, item: Inbound) returns (ws: seq<WriterEvent>)
    ensures WriteQueue.Run(s.writer, ws) == OnInbound(s, item).writer
  {
    ws := [];
    if item.Arrived? {
      if !IsHandshake(s.phase) {
        if item.message.channel in s.services {
          ws := SendEachDrives(s.(toServices := s.toServices + [item.message]), item.replies);
        }
      } else if item.message.messageType == VERSION_RESPONSE && !RefusesVersion(item.message.payload) {
        ws := StepDrives(StartStateTimer(TransitionTo(s, SslHandshake)), item.step);
      } else if item.message.messageType == ENCAPSULATED_SSL {
        ws := StepDrives(s, item.step);
      }
    }
  }

  lemma {:induction false} ItemsDrive(s: Status, items: seq<Inbound>) returns (ws: seq<WriterEvent>)
    ensures WriteQueue.Run(s.writer, ws) == OnItems(s, items).writer
    decreases |items|
  {
    if items == [] {
      ws := [];
    } else {
      var first := InboundDrives(s, items[0]);
      var more := ItemsDrive(OnInbound(s, items[0]), items[1..]);
      ws := first + more;
      WriteQueue.RunConcat(s.writer, first, more);
    }
  }

  lemma StopDrives(s: Status, bye: SendRequest) returns (ws: seq<WriterEvent>)
    ensures WriteQueue.Run(s.writer, ws) == OnStop(s, bye).writer
  {
    ws := [];
    if s.phase == Running && CONTROL_CHANNEL in s.services {
      ws := SendDrives(StartStateTimer(TransitionTo(s, Disconnecting)), bye);
    }
  }

  lemma ReadDrives(s: Status, r: ReadResult) returns (ws: seq<WriterEvent>)
    ensures WriteQueue.Run(s.writer, ws) == OnReadComplete(s, r).writer
  {
    ws := [];
    if r.ReadData? {
      ws := ItemsDrive(s.(reading := false), r.items);
    }
  }

  lemma HandleDrives(s: Status, e: Event) returns (ws: seq<WriterEvent>)
    ensures WriteQueue.Run(s.writer, ws) == Handle(s, e).writer
  {
    ws := [];
    match e
    case Stop(bye) => ws := StopDrives(s, bye);
    case ReadComplete(r) =>
      if s.reading {
        ws := ReadDrives(s, r);
      }
    case WriteComplete(r) =>
      if s.writer.outstanding.Some? {
        ws := [WriteDone(r.Written?)];
        assert ws[1..] == [];
      }
    case Timeout =>
    case Submit(r) => ws := SendDrives(s, r);
  }

  lemma {:induction false} RunDrives(s: Status, events: seq<Event>) returns (ws: seq<WriterEvent>)
    ensures WriteQueue.Run(s.writer, ws) == HandleAll(s, events).writer
    decreases |events|
  {
    if events == [] {
      ws := [];
    } else {
      var first := HandleDrives(s, events[0]);
      var more := RunDrives(Handle(s, events[0]), events[1..]);
      ws := first + more;
      WriteQueue.RunConcat(s.writer, first, more);
    }
  }

  /**
  In every run of a session, whatever the handshake steps are: a write is issued when all issued before are
  done, and it is the front of the queue, idle means empty, 256 frames at most wait, the written frames are a prefix of the
  accepted ones in order, offered is accepted plus dropped, and after a failed write none is issued again.
  */
  lemma SessionWrites(services: set<Byte>, events: seq<Event>, later: seq<Event>)
    ensures var w := HandleAll(Started(services), events).writer;
      var v := HandleAll(Started(services), events + later).writer;
      && |w.queue| <= 256
      && (w.outstanding.Some? ==> w.queue != [] && w.outstanding.value == w.queue[0])
      && (!w.inProgress ==> w.queue == [])
      && w.issued == |w.written| + (if w.inProgress then 1 else 0)
      && w.accepted == w.written + w.queue
      && |w.offered| == |w.accepted| + w.dropped
      && (w.dropped == 0 ==> w.offered == w.accepted)
      && (w.stopped ==> v.stopped && v.issued == w.issued && v.written == w.written)
  {
    var s0 := StartRead(StartStateTimer(TransitionTo(NewSession(services), VersionExchange)));
    var start := SendDrives(s0, SendRequest(VERSION_MESSAGE, None));
    var first := RunDrives(Started(services), events);
    var s := HandleAll(Started(services), events);
    var more := RunDrives(s, later);
    WriteQueue.RunConcat(NEW, start, first);
    HandleAllConcat(Started(services), events, later);
    SingleWriter(start + first, more);
    RunOrdered(NEW, start + first);
    if s.writer.stopped {
      StoppedStays(s.writer, more);
    }
  }

  // ----- Where the code and its documents differ -----

  /** A completing step with output sends a frame that is encrypted, before AUTH_COMPLETE. */
  lemma LoudStepLeaks(s: Status, step: Step)
    requires Inv(s) && IsHandshake(s.phase) && step.StepDone? && step.complete
    requires step.output != [] && step.cipher.Some?
    ensures var t := OnHandshakeStep(s, step); var i := |s.writer.offered|;
      t.authAt.Some? && i < t.authAt.value && i < |t.writer.offered| && IsSealed(t.writer.offered[i])
  {
    var a := s.(established := true);
    var m := Message(CONTROL_CHANNEL, ENCAPSULATED_SSL, step.output);
    var wires := Wires(FrameOf(m, true, step.cipher.value));
    FrameSealing(m, true, step.cipher.value);
    EnqueueAllOffers(a.writer, wires);
    var b := SendMessage(a, SendRequest(m, step.cipher));
    assert b.writer == EnqueueAll(a.writer, wires);
    AuthWire(true);
    EnqueueAllOffers(b.writer, [AUTH_WIRE]);
    assert b.writer.offered[|s.writer.offered|] == wires[0];
  }

  lemma SendFails(s: Status, m: Message)
    requires s.established
    ensures SendMessage(s, SendRequest(m, None)) == HandleError(s, EncryptionFailed)
  {
  }

  lemma CompletionTellsNothing(s: Status)
    ensures OnSslComplete(s).phase == Running && ErrorsTold(OnSslComplete(s).notices) == ErrorsTold(s.notices)
  {
    TransitionTells(s, Running);
  }

  /** If that frame cannot be encrypted, the session goes to Error and comes back from it. */
  lemma LoudStepRevives(s: Status, step: Step)
    requires Inv(s) && IsHandshake(s.phase) && step.StepDone? && step.complete
    requires step.output != [] && step.cipher.None?
    ensures var t := OnHandshakeStep(s, step); t.phase == Running && ErrorsTold(t.notices) == 1
  {
    var a := s.(established := true);
    SendFails(a, Message(CONTROL_CHANNEL, ENCAPSULATED_SSL, step.output));
    ErrorTellsOnce(a, EncryptionFailed);
    CompletionTellsNothing(HandleError(a, EncryptionFailed));
  }

  /**
  The assumption on the completing step is needed, and exactly that: cut-over and safety survive the step
  if and only if it has no output.
  */
  lemma CompletionMustBeQuiet(s: Status, step: Step)
    requires Inv(s) && IsHandshake(s.phase) && step.StepDone? && step.complete
    ensures Inv(OnHandshakeStep(s, step)) <==> step.output == []
  {
    if step.output == [] {
      HandshakeStepKeeps(s, step);
    } else if step.cipher.Some? {
      LoudStepLeaks(s, step);
    } else {
      LoudStepRevives(s, step);
    }
  }

  /** The phone refuses the version: a VERSION_RESPONSE with a status that is not zero. */
  predicate Refused(m: Message) {
    m.messageType == 2 && 6 <= |m.payload| && m.payload[4..6] != [0, 0]
  }

  /** The message makes a handshake go on: SSL data, or a version that is not refused. */
  predicate Advances(m: Message) {
    m.messageType == 3 || (m.messageType == 2 && !Refused(m))
  }

  lemma RefusedAlike(m: Message)
    requires m.messageType == 2
    ensures Refused(m) <==> RefusesVersion(m.payload)
  {
    if 6 <= |m.payload| {
      assert m.payload[4..6] == [m.payload[4], m.payload[5]];
    }
  }

  lemma StepCompletes(s: Status, step: Step)
    requires IsHandshake(s.phase)
    ensures OnHandshakeStep(s, step).phase == Running <==> step.StepDone? && step.complete
  {
  }

  /**
  Which message of a handshake makes the session run, exactly. It does not depend on the phase: the
  handshake may be completed in VersionExchange, without any VERSION_RESPONSE.
  */
  lemma RunsExactly(s: Status, m: Message, step: Step, replies: seq<SendRequest>)
    requires IsHandshake(s.phase)
    ensures Dispatch(s, m, step, replies).phase == Running <==>
      step.StepDone? && step.complete && Advances(m)
  {
    if m.messageType == VERSION_RESPONSE {
      RefusedAlike(m);
      StepCompletes(StartStateTimer(TransitionTo(s, SslHandshake)), step);
    } else if m.messageType == ENCAPSULATED_SSL {
      StepCompletes(s, step);
    }
  }

  lemma InboundReachesServices(s: Status, item: Inbound)
    requires Inv(s) && Quiet([item]) && !IsHandshake(s.phase) && s.phase != Idle
    ensures var t := OnInbound(s, item);
      && Inv(t) && !IsHandshake(t.phase) && t.phase != Idle
      && t.services == s.services
      && t.toServices == s.toServices + Served(s.services, ArrivedMessages([item]))
  {
    assert item in [item];
    InboundKeeps(s, item);
    if item.Arrived? {
      assert ArrivedMessages([item]) == [item.message];
      assert [item.message][1..] == [];
      SendEachKeeps(s.(toServices := s.toServices + [item.message]), item.replies);
    }
  }

  /** Once the handshake is over every message goes to its channel's service, in order, in Error as well. */
  lemma {:induction false} ServicesSeeEverything(s: Status, items: seq<Inbound>)
    requires Inv(s) && Quiet(items) && !IsHandshake(s.phase) && s.phase != Idle
    ensures OnItems(s, items).toServices == s.toServices + Served(s.services, ArrivedMessages(items))
    decreases |items|
  {
    if items != [] {
      assert items[0] in items;
      InboundReachesServices(s, items[0]);
      ServicesSeeEverything(OnInbound(s, items[0]), items[1..]);
      ArrivedStep(items);
      ServedConcat(s.services, ArrivedMessages([items[0]]), ArrivedMessages(items[1..]));
      ConcatAssociates(s.toServices, Served(s.services, ArrivedMessages([items[0]])),
                       Served(s.services, ArrivedMessages(items[1..])));
    }
  }

  lemma ArrivedStep(items: seq<Inbound>)
    requires items != []
    ensures ArrivedMessages(items) == ArrivedMessages([items[0]]) + ArrivedMessages(items[1..])
  {
    assert [items[0]][1..] == [];
  }

  function ArrivedMessages(items: seq<Inbound>): seq<Message> {
    if items == [] then []
    else (if items[0].Arrived? then [items[0].message] else []) + ArrivedMessages(items[1..])
  }

  /** The messages on a channel that has a service; the others are dropped. */
  function Served(services: set<Byte>, ms: seq<Message>): seq<Message> {
    if ms == [] then []
    else (if ms[0].channel in services then [ms[0]] else []) + Served(services, ms[1..])
  }

  lemma {:induction false} ServedConcat(services: set<Byte>, a: seq<Message>, b: seq<Message>)
    ensures Served(services, a + b) == Served(services, a) + Served(services, b)
  {
    if a == [] {
      assert a + b == b;
    } else {
      ConcatTail(a, b);
      ServedConcat(services, a[1..], b);
      ConcatAssociates(if a[0].channel in services then [a[0]] else [], Served(services, a[1..]), Served(services, b));
    }
  }
}
