/** The AUTH_COMPLETE that ends the clear part of a session is the only one on the wire. */
module SingleAuth {
  import opened Bytes
  import opened ProtocolConstants
  import opened Framing
  import opened Crypto
  import opened Messages
  import opened WriteQueue
  import opened Sessions
  import opened SessionSafety

  /** A frame that begins an AUTH_COMPLETE: clear, First, on the control channel, with that type. */
  predicate StartsAuth(wire: seq<Byte>) {
    HasFrame(wire) && FragmentStartsAuth(HeadFragment(wire))
  }

  predicate FragmentStartsAuth(f: Fragment) {
    && f.channel == CONTROL_CHANNEL && f.isFirst && !f.encrypted
    && 2 <= |f.payload| && ReadBe16(f.payload[0], f.payload[1]) == AUTH_COMPLETE
  }

  predicate IsAuth(m: Message) {
    m.channel == CONTROL_CHANNEL && m.messageType == AUTH_COMPLETE
  }

  /** Nobody but the session itself asks for an AUTH_COMPLETE. */
  ghost predicate NoAuthIn(rs: seq<SendRequest>) {
    forall r :: r in rs ==> !IsAuth(r.message)
  }

  ghost predicate NoAuthItems(items: seq<Inbound>) {
    forall item :: item in items && item.Arrived? ==> NoAuthIn(item.replies)
  }

  ghost predicate NoAuthEvent(e: Event) {
    match e
    case Stop(bye) => !IsAuth(bye.message)
    case Submit(r) => !IsAuth(r.message)
    case ReadComplete(r) => r.ReadData? ==> NoAuthItems(r.items)
    case _ => true
  }

  ghost predicate OneAuth(s: Status) {
    forall i :: 0 <= i < |s.writer.offered| ==> (StartsAuth(s.writer.offered[i]) <==> s.authAt == Some(i))
  }

  lemma StartsAuthAsRead(wire: seq<Byte>, f: Fragment)
    requires IsFrame(wire, f)
    ensures StartsAuth(wire) <==> FragmentStartsAuth(f)
  {
  }

  lemma FragmentOfAuth(m: Message, encrypted: bool, body: seq<Byte>, i: nat)
    requires i < FrameCount(|body|) && (!encrypted ==> body == MessagePayload(m))
    ensures FragmentStartsAuth(Fragments(FrameOf(m, encrypted, body))[i]) <==> i == 0 && !encrypted && IsAuth(m)
  {
    ComputedFlags(m.channel, m.messageType, encrypted);
    Be16Value(m.messageType);
    if i == 0 && !encrypted {
      var piece := Piece(body, 0);
      assert piece[0] == Be16(m.messageType)[0] && piece[1] == Be16(m.messageType)[1];
    }
  }

  lemma WireStartsAuth(m: Message, encrypted: bool, body: seq<Byte>, i: nat)
    requires i < |Wires(FrameOf(m, encrypted, body))| && (!encrypted ==> body == MessagePayload(m))
    ensures StartsAuth(Wires(FrameOf(m, encrypted, body))[i]) <==> i == 0 && !encrypted && IsAuth(m)
  {
    var frame := FrameOf(m, encrypted, body);
    MessageFrames(m, encrypted, body);
    StartsAuthAsRead(Wires(frame)[i], Fragments(frame)[i]);
    FragmentOfAuth(m, encrypted, body, i);
  }

  lemma MessageFrames(m: Message, encrypted: bool, body: seq<Byte>)
    ensures var frame := FrameOf(m, encrypted, body); AreFrames(Wires(frame), Fragments(frame))
  {
    var frame := FrameOf(m, encrypted, body);
    ComputedFlags(m.channel, m.messageType, encrypted);
    FlagFacts(frame.flags, UNFRAGMENTED);
    WiresAreFrames(frame);
  }

  /** Of the wire frames of a message the first can begin an AUTH_COMPLETE, and only in the clear. */
  lemma WiresStartAuth(m: Message, encrypted: bool, body: seq<Byte>)
    requires !encrypted ==> body == MessagePayload(m)
    ensures forall i :: 0 <= i < |Wires(FrameOf(m, encrypted, body))| ==>
      (StartsAuth(Wires(FrameOf(m, encrypted, body))[i]) <==> i == 0 && !encrypted && IsAuth(m))
  {
    forall i | 0 <= i < |Wires(FrameOf(m, encrypted, body))|
      ensures StartsAuth(Wires(FrameOf(m, encrypted, body))[i]) <==> i == 0 && !encrypted && IsAuth(m)
    {
      WireStartsAuth(m, encrypted, body, i);
    }
  }

  lemma OfferKeepsOne(s: Status, wires: seq<seq<Byte>>)
    requires OneAuth(s) && CutOver(s) && forall i :: 0 <= i < |wires| ==> !StartsAuth(wires[i])
    ensures OneAuth(s.(writer := EnqueueAll(s.writer, wires)))
  {
    EnqueueAllOffers(s.writer, wires);
  }

  lemma SendKeepsOne(s: Status, r: SendRequest)
    requires OneAuth(s) && CutOver(s) && !IsAuth(r.message)
    ensures OneAuth(SendMessage(s, r))
  {
    var x := Send(Oracle(r.cipher), s.established, r.message);
    if !x.failed {
      var body := if s.established then r.cipher.value else MessagePayload(r.message);
      WiresStartAuth(r.message, s.established, body);
      OfferKeepsOne(s, x.wires);
    }
  }

  lemma {:induction false} SendEachKeepsOne(s: Status, rs: seq<SendRequest>)
    requires OneAuth(s) && Inv(s) && NoAuthIn(rs)
    ensures OneAuth(SendEach(s, rs))
    decreases |rs|
  {
    if rs != [] {
      assert rs[0] in rs;
      SendKeeps(s, rs[0]);
      SendKeepsOne(s, rs[0]);
      SendEachKeepsOne(SendMessage(s, rs[0]), rs[1..]);
    }
  }

  /** The session's own AUTH_COMPLETE comes once, since no handshake is completed twice. */
  lemma HandshakeStepKeepsOne(s: Status, step: Step)
    requires OneAuth(s) && Inv(s) && IsHandshake(s.phase) && QuietStep(step)
    ensures OneAuth(OnHandshakeStep(s, step))
  {
    if step.StepDone? && step.complete {
      AuthWire(true);
      WiresStartAuth(AUTH_MESSAGE, false, MessagePayload(AUTH_MESSAGE));
      EnqueueAllOffers(s.writer, [AUTH_WIRE]);
    } else if step.StepDone? && step.output != [] {
      assert s.(established := s.established || step.complete) == s;
      SendKeepsOne(s, SendRequest(Message(CONTROL_CHANNEL, ENCAPSULATED_SSL, step.output), step.cipher));
    }
  }

  lemma ErrorKeepsOne(s: Status, cause: Cause)
    requires OneAuth(s)
    ensures OneAuth(HandleError(s, cause))
  {
  }

  lemma VersionResponseKeepsOne(s: Status, payload: seq<Byte>, step: Step)
    requires OneAuth(s) && Inv(s) && IsHandshake(s.phase) && QuietStep(step)
    ensures OneAuth(OnVersionResponse(s, payload, step))
  {
    var t := StartStateTimer(TransitionTo(s, SslHandshake));
    TransitionTells(s, SslHandshake);
    if RefusesVersion(payload) {
      ErrorKeepsOne(t, VersionMismatch);
    } else {
      HandshakeStepKeepsOne(t, step);
    }
  }

  lemma InboundKeepsOne(s: Status, item: Inbound)
    requires OneAuth(s) && Inv(s)
    requires item.Arrived? ==> QuietStep(item.step) && NoAuthIn(item.replies)
    ensures OneAuth(OnInbound(s, item))
  {
    match item
    case Garbled => ErrorKeepsOne(s, DecryptionFailed);
    case Arrived(m, step, replies) =>
      if !IsHandshake(s.phase) {
        if m.channel in s.services {
          SendEachKeepsOne(s.(toServices := s.toServices + [m]), replies);
        }
      } else if m.messageType == VERSION_RESPONSE {
        VersionResponseKeepsOne(s, m.payload, step);
      } else if m.messageType == ENCAPSULATED_SSL {
        HandshakeStepKeepsOne(s, step);
      }
  }

  lemma {:induction false} ItemsKeepOne(s: Status, items: seq<Inbound>)
    requires OneAuth(s) && Inv(s) && Quiet(items) && NoAuthItems(items)
    ensures OneAuth(OnItems(s, items))
    decreases |items|
  {
    if items != [] {
      assert items[0] in items;
      InboundKeeps(s, items[0]);
      InboundKeepsOne(s, items[0]);
      ItemsKeepOne(OnInbound(s, items[0]), items[1..]);
    }
  }

  lemma StopKeepsOne(s: Status, bye: SendRequest)
    requires OneAuth(s) && Inv(s) && !IsAuth(bye.message)
    ensures OneAuth(OnStop(s, bye))
  {
    if s.phase == Running {
      if CONTROL_CHANNEL in s.services {
        SendKeepsOne(StartStateTimer(TransitionTo(s, Disconnecting)), bye);
      }
    } else {
      ErrorKeepsOne(s, SessionTerminated);
    }
  }

  lemma ReadKeepsOne(s: Status, r: ReadResult)
    requires OneAuth(s) && Inv(s) && (r.ReadData? ==> Quiet(r.items) && NoAuthItems(r.items))
    ensures OneAuth(OnReadComplete(s, r))
  {
    var t := s.(reading := false);
    match r
    case ReadAborted =>
    case ReadFailed => ErrorKeepsOne(t, TransportReadError);
    case ReadData(items) => ItemsKeepOne(t, items);
  }

  lemma WriteKeepsOne(s: Status, r: WriteResult)
    requires OneAuth(s) && s.writer.outstanding.Some?
    ensures OneAuth(OnWriteComplete(s, r))
  {
    var t := s.(writer := Complete(s.writer, r.Written?));
    assert OneAuth(t);
    ErrorKeepsOne(t, TransportWriteError);
  }

  lemma TimeoutKeepsOne(s: Status)
    requires OneAuth(s)
    ensures OneAuth(OnStateTimeout(s))
  {
    ErrorKeepsOne(s, VersionMismatch);
    ErrorKeepsOne(s, SslHandshakeFailed);
  }

  lemma HandleKeepsOne(s: Status, e: Event)
    requires OneAuth(s) && Inv(s) && QuietEvent(e) && NoAuthEvent(e)
    ensures OneAuth(Handle(s, e))
  {
    match e
    case Stop(bye) => StopKeepsOne(s, bye);
    case ReadComplete(r) => ReadKeepsOne(s, r);
    case WriteComplete(r) =>
      if s.writer.outstanding.Some? {
        WriteKeepsOne(s, r);
      }
    case Timeout => TimeoutKeepsOne(s);
    case Submit(r) => SendKeepsOne(s, r);
  }

  lemma {:induction false} RunKeepsOne(s: Status, events: seq<Event>)
    requires OneAuth(s) && Inv(s)
    requires forall e :: e in events ==> QuietEvent(e) && NoAuthEvent(e)
    ensures OneAuth(HandleAll(s, events))
    decreases |events|
  {
    if events != [] {
      assert events[0] in events;
      HandleKeeps(s, events[0]);
      HandleKeepsOne(s, events[0]);
      RunKeepsOne(Handle(s, events[0]), events[1..]);
    }
  }

  /**
  When no service sends an AUTH_COMPLETE of its own, the frames offered in any run contain one at the
  cut-over and nowhere else.
  */
  lemma OnlyAuthComplete(services: set<Byte>, events: seq<Event>)
    requires forall e :: e in events ==> QuietEvent(e) && NoAuthEvent(e)
    ensures OneAuth(HandleAll(Started(services), events))
  {
    var s := NewSession(services);
    TransitionTells(s, VersionExchange);
    SendKeepsOne(StartRead(StartStateTimer(TransitionTo(s, VersionExchange))), SendRequest(VERSION_MESSAGE, None));
    StartKeeps(services);
    RunKeepsOne(Started(services), events);
  }
}
