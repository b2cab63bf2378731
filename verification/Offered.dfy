/**
What a session says: the frames it offers to its write queue are, in order and nothing besides, those of
the messages it has to send; and a receiver of the clear ones hears the handshake.
*/
module Offered {
  import opened Bytes
  import opened ProtocolConstants
  import opened Framing
  import opened Crypto
  import opened Messages
  import opened EndToEnd
  import opened WriteQueue
  import opened Sessions
  import opened SessionSafety

  // ----- What is to be said -----

  /** A message in the clear, or as the given ciphertext. */
  datatype Utterance = Clear(message: Message) | Secret(message: Message, cipher: seq<Byte>)

  /** A message sent now: nothing when it cannot be encrypted. */
  function SaidNow(established: bool, r: SendRequest): seq<Utterance> {
    if !established then [Clear(r.message)]
    else match r.cipher case Some(bytes) => [Secret(r.message, bytes)] case None => []
  }

  function SaidEach(established: bool, rs: seq<SendRequest>): seq<Utterance> {
    if rs == [] then [] else SaidNow(established, rs[0]) + SaidEach(established, rs[1..])
  }

  /** A handshake step says its output, and AUTH_COMPLETE when it is the last one. */
  function SaidByStep(established: bool, step: Step): seq<Utterance> {
    if step.StepFailed? then []
    else
      (if step.output == [] then []
       else SaidNow(established || step.complete, SendRequest(Message(0, 3, step.output), step.cipher)))
      + (if step.complete then [Clear(Message(0, 4, [8, 0]))] else [])
  }

  function SaidByItem(s: Status, item: Inbound): seq<Utterance> {
    if item.Garbled? then []
    else if IsHandshake(s.phase) then
      if Advances(item.message) then SaidByStep(s.established, item.step) else []
    else if item.message.channel in s.services then SaidEach(s.established, item.replies)
    else []
  }

  function SaidByItems(s: Status, items: seq<Inbound>): seq<Utterance>
    decreases |items|
  {
    if items == [] then [] else SaidByItem(s, items[0]) + SaidByItems(OnInbound(s, items[0]), items[1..])
  }

  function SaidBy(s: Status, e: Event): seq<Utterance> {
    match e
    case Stop(bye) => if s.phase == Running && 0 in s.services then SaidNow(s.established, bye) else []
    case ReadComplete(r) => if s.reading && r.ReadData? then SaidByItems(s.(reading := false), r.items) else []
    case Submit(r) => SaidNow(s.established, r)
    case _ => []
  }

  function SaidAll(s: Status, events: seq<Event>): seq<Utterance>
    decreases |events|
  {
    if events == [] then [] else SaidBy(s, events[0]) + SaidAll(Handle(s, events[0]), events[1..])
  }

  // ----- On the wire -----

  function FrameSaid(u: Utterance): OutboundFrame {
    FrameOf(u.message, u.Secret?, if u.Secret? then u.cipher else MessagePayload(u.message))
  }

  function WiresSaid(us: seq<Utterance>): seq<seq<Byte>> {
    if us == [] then [] else Wires(FrameSaid(us[0])) + WiresSaid(us[1..])
  }

  function FragmentsSaid(us: seq<Utterance>): seq<Fragment> {
    if us == [] then [] else Fragments(FrameSaid(us[0])) + FragmentsSaid(us[1..])
  }

  lemma {:induction false} WiresSaidConcat(us: seq<Utterance>, vs: seq<Utterance>)
    ensures WiresSaid(us + vs) == WiresSaid(us) + WiresSaid(vs)
  {
    if us == [] {
      assert us + vs == vs;
    } else {
      ConcatTail(us, vs);
      WiresSaidConcat(us[1..], vs);
      ConcatAssociates(Wires(FrameSaid(us[0])), WiresSaid(us[1..]), WiresSaid(vs));
    }
  }

  lemma WiresSaidOne(u: Utterance)
    ensures WiresSaid([u]) == Wires(FrameSaid(u))
  {
    assert [u][1..] == [];
    assert Wires(FrameSaid(u)) + [] == Wires(FrameSaid(u));
  }

  lemma FrameSaidFrames(u: Utterance)
    ensures AreFrames(Wires(FrameSaid(u)), Fragments(FrameSaid(u)))
    ensures HasEncrypted(FrameSaid(u).flags) <==> u.Secret?
  {
    ComputedFlags(u.message.channel, u.message.messageType, u.Secret?);
    FlagFacts(FrameSaid(u).flags, UNFRAGMENTED);
    WiresAreFrames(FrameSaid(u));
  }

  lemma {:induction false} SaidFrames(us: seq<Utterance>)
    ensures AreFrames(WiresSaid(us), FragmentsSaid(us))
  {
    if us != [] {
      FrameSaidFrames(us[0]);
      SaidFrames(us[1..]);
      FramesConcat(Wires(FrameSaid(us[0])), Fragments(FrameSaid(us[0])), WiresSaid(us[1..]), FragmentsSaid(us[1..]));
    }
  }

  /** The bytes of what is said are its fragments, and nothing is left over. */
  lemma SaidParses(us: seq<Utterance>)
    ensures Parse(Flatten(WiresSaid(us))) == Parsed(FragmentsSaid(us), [])
  {
    SaidFrames(us);
    ParseFrames(WiresSaid(us), FragmentsSaid(us), []);
    assert Flatten(WiresSaid(us)) + [] == Flatten(WiresSaid(us));
    assert FragmentsSaid(us) + [] == FragmentsSaid(us);
  }

  // ----- The session offers what it says, and nothing else -----

  /** From `s` to `t` exactly the frames of `us` are offered. */
  ghost predicate Says(s: Status, t: Status, us: seq<Utterance>) {
    t.writer.offered == s.writer.offered + WiresSaid(us)
  }

  lemma SaysThen(s: Status, t: Status, u: Status, us: seq<Utterance>, vs: seq<Utterance>)
    requires Says(s, t, us) && Says(t, u, vs)
    ensures Says(s, u, us + vs)
  {
    WiresSaidConcat(us, vs);
    ConcatAssociates(s.writer.offered, WiresSaid(us), WiresSaid(vs));
  }

  lemma SaysNothing(s: Status, t: Status)
    requires t.writer.offered == s.writer.offered
    ensures Says(s, t, [])
  {
  }

  lemma SendOffers(s: Status, r: SendRequest)
    ensures Says(s, SendMessage(s, r), SaidNow(s.established, r))
    ensures SendMessage(s, r).established == s.established
  {
    var x := Send(Oracle(r.cipher), s.established, r.message);
    if !x.failed {
      EnqueueAllOffers(s.writer, x.wires);
      WiresSaidOne(SaidNow(s.established, r)[0]);
    }
  }

  lemma {:induction false} SendEachOffers(s: Status, rs: seq<SendRequest>)
    ensures Says(s, SendEach(s, rs), SaidEach(s.established, rs))
    decreases |rs|
  {
    if rs != [] {
      var t := SendMessage(s, rs[0]);
      SendOffers(s, rs[0]);
      SendEachOffers(t, rs[1..]);
      SaysThen(s, t, SendEach(s, rs), SaidNow(s.established, rs[0]), SaidEach(s.established, rs[1..]));
    }
  }

  lemma AuthOffers(s: Status)
    ensures Says(s, OnSslComplete(s), [Clear(Message(0, 4, [8, 0]))])
  {
    EnqueueAllOffers(s.writer, SendPlain(s.established, AUTH_MESSAGE).wires);
    WiresSaidOne(Clear(AUTH_MESSAGE));
  }

  lemma StepOffers(s: Status, step: Step)
    ensures Says(s, OnHandshakeStep(s, step), SaidByStep(s.established, step))
  {
    if step.StepDone? {
      var a := s.(established := s.established || step.complete);
      var r := SendRequest(Message(0, 3, step.output), step.cipher);
      var first := if step.output == [] then [] else SaidNow(a.established, r);
      var b := if step.output != [] then SendMessage(a, r) else a;
      SendOffers(a, r);
      assert Says(s, b, first);
      if step.complete {
        AuthOffers(b);
        SaysThen(s, b, OnSslComplete(b), first, [Clear(Message(0, 4, [8, 0]))]);
      } else {
        assert first + [] == first;
      }
    }
  }

  lemma VersionOffers(s: Status, m: Message, step: Step)
    requires m.messageType == 2
    ensures Says(s, OnVersionResponse(s, m.payload, step), if Refused(m) then [] else SaidByStep(s.established, step))
  {
    StepOffers(StartStateTimer(TransitionTo(s, SslHandshake)), step);
    RefusedAlike(m);
  }

  lemma ItemOffers(s: Status, item: Inbound)
    ensures Says(s, OnInbound(s, item), SaidByItem(s, item))
  {
    match item
    case Garbled => SaysNothing(s, OnInbound(s, item));
    case Arrived(m, step, replies) =>
      if !IsHandshake(s.phase) {
        SendEachOffers(s.(toServices := s.toServices + [m]), replies);
      } else if m.messageType == 2 {
        VersionOffers(s, m, step);
      } else if m.messageType == 3 {
        StepOffers(s, step);
      }
  }

  lemma {:induction false} ItemsOffer(s: Status, items: seq<Inbound>)
    ensures Says(s, OnItems(s, items), SaidByItems(s, items))
    decreases |items|
  {
    if items != [] {
      var t := OnInbound(s, items[0]);
      ItemOffers(s, items[0]);
      ItemsOffer(t, items[1..]);
      SaysThen(s, t, OnItems(s, items), SaidByItem(s, items[0]), SaidByItems(t, items[1..]));
    }
  }

  lemma StopOffers(s: Status, bye: SendRequest)
    ensures Says(s, OnStop(s, bye), SaidBy(s, Stop(bye)))
  {
    if s.phase == Running && 0 in s.services {
      SendOffers(StartStateTimer(TransitionTo(s, Disconnecting)), bye);
    } else {
      SaysNothing(s, OnStop(s, bye));
    }
  }

  lemma ReadOffers(s: Status, r: ReadResult)
    ensures Says(s, Handle(s, ReadComplete(r)), SaidBy(s, ReadComplete(r)))
  {
    if s.reading && r.ReadData? {
      ItemsOffer(s.(reading := false), r.items);
    } else {
      SaysNothing(s, Handle(s, ReadComplete(r)));
    }
  }

  /** The end of a write may start the next one, and offers nothing. */
  lemma WriteOffers(s: Status, r: WriteResult)
    ensures Says(s, Handle(s, WriteComplete(r)), [])
  {
    SaysNothing(s, Handle(s, WriteComplete(r)));
  }

  lemma EventOffers(s: Status, e: Event)
    ensures Says(s, Handle(s, e), SaidBy(s, e))
  {
    match e
    case Stop(bye) => StopOffers(s, bye);
    case ReadComplete(r) => ReadOffers(s, r);
    case WriteComplete(r) => WriteOffers(s, r);
    case Timeout => SaysNothing(s, OnStateTimeout(s));
    case Submit(r) => SendOffers(s, r);
  }

  lemma {:induction false} RunOffers(s: Status, events: seq<Event>)
    ensures Says(s, HandleAll(s, events), SaidAll(s, events))
    decreases |events|
  {
    if events != [] {
      var t := Handle(s, events[0]);
      EventOffers(s, events[0]);
      RunOffers(t, events[1..]);
      SaysThen(s, t, HandleAll(s, events), SaidBy(s, events[0]), SaidAll(t, events[1..]));
    }
  }

  lemma StartOffers(services: set<Byte>)
    ensures Says(NewSession(services), Started(services), [Clear(Message(0, 1, [0, 1, 0, 1]))])
  {
    SendOffers(StartRead(StartStateTimer(TransitionTo(NewSession(services), VersionExchange))),
               SendRequest(VERSION_MESSAGE, None));
  }

  /** All a run says, from its VERSION_REQUEST on. */
  function SaidInRun(services: set<Byte>, events: seq<Event>): seq<Utterance> {
    [Clear(Message(0, 1, [0, 1, 0, 1]))] + SaidAll(Started(services), events)
  }

  /**
  The frames offered in any run parse to the fragments of what the run says: every message whole, in
  order, and nothing else.
  */
  lemma RunIsSaid(services: set<Byte>, events: seq<Event>)
    ensures var s := HandleAll(Started(services), events);
      && s.writer.offered == WiresSaid(SaidInRun(services, events))
      && Parse(Flatten(s.writer.offered)) == Parsed(FragmentsSaid(SaidInRun(services, events)), [])
  {
    StartOffers(services);
    RunOffers(Started(services), events);
    SaysThen(NewSession(services), Started(services), HandleAll(Started(services), events),
               [Clear(Message(0, 1, [0, 1, 0, 1]))], SaidAll(Started(services), events));
    var us := SaidInRun(services, events);
    assert [] + WiresSaid(us) == WiresSaid(us);
    SaidParses(us);
  }

  // ----- Heard in the clear -----

  /** A receiver without a key. */
  function ClearOpening(): Opening<bool> {
    Opening((k: bool) => false, (k: bool, c: seq<Byte>) => OpenFailed(k), (k: bool, m: Message) => k)
  }

  /** The messages a receiver without a key assembles from a stream. */
  function HeardClear(stream: seq<Byte>): seq<Message> {
    AcceptAll(ClearOpening(), Assembly(false, map[]), Parse(stream).fragments).messages
  }

  function MessagesSaid(us: seq<Utterance>): seq<Message> {
    seq(|us|, i requires 0 <= i < |us| => us[i].message)
  }

  lemma ClearOneIsHeard(a: Assembly<bool>, u: Utterance)
    requires u.Clear?
    ensures AcceptAll(ClearOpening(), a, Fragments(FrameSaid(u))).messages == [u.message]
  {
    FrameSaidFrames(u);
    MessageInPayload(u.message);
    AcceptFrame(ClearOpening(), a, FrameSaid(u), u.message);
  }

  lemma {:induction false} ClearIsHeard(a: Assembly<bool>, us: seq<Utterance>)
    requires forall u :: u in us ==> u.Clear?
    ensures AcceptAll(ClearOpening(), a, FragmentsSaid(us)).messages == MessagesSaid(us)
    decreases |us|
  {
    if us != [] {
      assert us[0] in us;
      var first := Fragments(FrameSaid(us[0]));
      var b := AcceptAll(ClearOpening(), a, first).state;
      ClearOneIsHeard(a, us[0]);
      ClearIsHeard(b, us[1..]);
      AcceptConcat(ClearOpening(), a, first, FragmentsSaid(us[1..]));
      assert MessagesSaid(us) == [us[0].message] + MessagesSaid(us[1..]);
    }
  }

  lemma ClearStreamIsHeard(us: seq<Utterance>)
    requires forall u :: u in us ==> u.Clear?
    ensures HeardClear(Flatten(WiresSaid(us))) == MessagesSaid(us)
  {
    SaidParses(us);
    ClearIsHeard(Assembly(false, map[]), us);
  }

  /** The output of a handshake step reaches the phone, and is all that does. */
  lemma StepIsHeard(s: Status, step: Step)
    requires !s.established && step.StepDone? && !step.complete && step.output != []
    ensures var t := OnHandshakeStep(s, step);
      && s.writer.offered <= t.writer.offered
      && HeardClear(Flatten(t.writer.offered[|s.writer.offered|..])) == [Message(0, 3, step.output)]
  {
    StepOffers(s, step);
    var us := [Clear(Message(0, 3, step.output))];
    assert us + [] == us;
    assert SaidByStep(s.established, step) == us;
    ClearStreamIsHeard(us);
    assert OnHandshakeStep(s, step).writer.offered[|s.writer.offered|..] == WiresSaid(us);
  }
}
