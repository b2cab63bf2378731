/** What the phone hears before the cut-over: VERSION_REQUEST, the handshake's outputs, AUTH_COMPLETE. */
module HandshakeHeard {
  import opened Bytes
  import opened ProtocolConstants
  import opened Framing
  import opened Crypto
  import opened Messages
  import opened Sessions
  import opened SessionSafety
  import opened SessionPath
  import opened Offered

  // ----- The clear part of the offered frames -----

  function ClearOnly(us: seq<Utterance>): seq<Utterance> {
    if us == [] then [] else (if us[0].Clear? then [us[0]] else []) + ClearOnly(us[1..])
  }

  function Unsealed(wires: seq<seq<Byte>>): seq<seq<Byte>> {
    if wires == [] then [] else (if IsSealed(wires[0]) then [] else [wires[0]]) + Unsealed(wires[1..])
  }

  lemma {:induction false} UnsealedConcat(a: seq<seq<Byte>>, b: seq<seq<Byte>>)
    ensures Unsealed(a + b) == Unsealed(a) + Unsealed(b)
  {
    if a == [] {
      assert a + b == b;
    } else {
      ConcatTail(a, b);
      UnsealedConcat(a[1..], b);
      ConcatAssociates(if IsSealed(a[0]) then [] else [a[0]], Unsealed(a[1..]), Unsealed(b));
    }
  }

  lemma {:induction false} UnsealedAlike(wires: seq<seq<Byte>>, encrypted: bool)
    requires forall i :: 0 <= i < |wires| ==> (IsSealed(wires[i]) <==> encrypted)
    ensures Unsealed(wires) == if encrypted then [] else wires
  {
    if wires != [] {
      UnsealedAlike(wires[1..], encrypted);
    }
  }

  lemma UnsealedOne(u: Utterance)
    ensures Unsealed(Wires(FrameSaid(u))) == if u.Clear? then Wires(FrameSaid(u)) else []
  {
    FrameSealing(u.message, u.Secret?, FrameSaid(u).payload);
    UnsealedAlike(Wires(FrameSaid(u)), u.Secret?);
  }

  lemma {:induction false} UnsealedSaid(us: seq<Utterance>)
    ensures Unsealed(WiresSaid(us)) == WiresSaid(ClearOnly(us))
  {
    if us != [] {
      UnsealedOne(us[0]);
      UnsealedConcat(Wires(FrameSaid(us[0])), WiresSaid(us[1..]));
      UnsealedSaid(us[1..]);
      if us[0].Clear? {
        WiresSaidOne(us[0]);
        WiresSaidConcat([us[0]], ClearOnly(us[1..]));
      } else {
        assert ClearOnly(us) == ClearOnly(us[1..]);
      }
    }
  }

  /** The frames up to the cut-over; all of them while it has not come. */
  function ClearPart(s: Status): seq<seq<Byte>> {
    match s.authAt
    case Some(a) => if a < |s.writer.offered| then s.writer.offered[..a + 1] else s.writer.offered
    case None => s.writer.offered
  }

  lemma ClearPartIsUnsealed(s: Status)
    requires CutOver(s)
    ensures ClearPart(s) == Unsealed(s.writer.offered)
  {
    var offered := s.writer.offered;
    match s.authAt
    case None => UnsealedAlike(offered, false);
    case Some(a) =>
      assert offered == offered[..a + 1] + offered[a + 1..];
      UnsealedAlike(offered[..a + 1], false);
      UnsealedAlike(offered[a + 1..], true);
      UnsealedConcat(offered[..a + 1], offered[a + 1..]);
  }

  // ----- The handshake's steps -----

  function StepsOfItem(s: Status, item: Inbound): seq<Step> {
    if item.Arrived? && IsHandshake(s.phase) && Advances(item.message) then [item.step] else []
  }

  function StepsOfItems(s: Status, items: seq<Inbound>): seq<Step>
    decreases |items|
  {
    if items == [] then [] else StepsOfItem(s, items[0]) + StepsOfItems(OnInbound(s, items[0]), items[1..])
  }

  /** The handshake steps a run takes, in order. */
  function StepsTaken(s: Status, events: seq<Event>): seq<Step>
    decreases |events|
  {
    if events == [] then []
    else
      (if events[0].ReadComplete? && events[0].read.ReadData? && s.reading then
         StepsOfItems(s.(reading := false), events[0].read.items)
       else [])
      + StepsTaken(Handle(s, events[0]), events[1..])
  }

  /** The outputs of the steps, those that are not empty, and AUTH_COMPLETE after the completing one. */
  function Outputs(steps: seq<Step>): seq<Utterance> {
    if steps == [] then []
    else
      (if steps[0].StepFailed? then []
       else (if steps[0].output == [] then [] else [Clear(Message(0, 3, steps[0].output))])
            + (if steps[0].complete then [Clear(Message(0, 4, [8, 0]))] else []))
      + Outputs(steps[1..])
  }

  lemma {:induction false} OutputsConcat(a: seq<Step>, b: seq<Step>)
    ensures Outputs(a + b) == Outputs(a) + Outputs(b)
  {
    if a == [] {
      assert a + b == b;
    } else {
      ConcatTail(a, b);
      OutputsConcat(a[1..], b);
      ConcatAssociates(Outputs([a[0]]), Outputs(a[1..]), Outputs(b));
      assert [a[0]][1..] == [];
      assert Outputs([a[0]]) + [] == Outputs([a[0]]);
    }
  }

  lemma {:induction false} ClearOnlyConcat(a: seq<Utterance>, b: seq<Utterance>)
    ensures ClearOnly(a + b) == ClearOnly(a) + ClearOnly(b)
  {
    if a == [] {
      assert a + b == b;
    } else {
      ConcatTail(a, b);
      ClearOnlyConcat(a[1..], b);
      ConcatAssociates(if a[0].Clear? then [a[0]] else [], ClearOnly(a[1..]), ClearOnly(b));
    }
  }

  lemma {:induction false} SecretReplies(rs: seq<SendRequest>)
    ensures ClearOnly(SaidEach(true, rs)) == []
  {
    if rs != [] {
      SecretReplies(rs[1..]);
      ClearOnlyConcat(SaidNow(true, rs[0]), SaidEach(true, rs[1..]));
    }
  }

  /** In the handshake, or past it with a key: not given up, and started. */
  ghost predicate OnCourse(s: Status) {
    Inv(s) && s.phase != Idle && !GaveUp(s)
  }

  lemma QuietStepSays(step: Step)
    requires QuietStep(step)
    ensures ClearOnly(SaidByStep(false, step)) == Outputs([step])
  {
    var us := SaidByStep(false, step);
    assert [step][1..] == [];
    assert forall i :: 0 <= i < |us| ==> us[i].Clear?;
    AllClear(us);
  }

  lemma {:induction false} AllClear(us: seq<Utterance>)
    requires forall i :: 0 <= i < |us| ==> us[i].Clear?
    ensures ClearOnly(us) == us
  {
    if us != [] {
      AllClear(us[1..]);
    }
  }

  lemma ItemSaysSteps(s: Status, item: Inbound)
    requires OnCourse(s) && (item.Arrived? ==> QuietStep(item.step))
    ensures ClearOnly(SaidByItem(s, item)) == Outputs(StepsOfItem(s, item))
  {
    if item.Arrived? {
      if IsHandshake(s.phase) {
        QuietStepSays(item.step);
      } else {
        SecretReplies(item.replies);
      }
    }
  }

  lemma ItemGaveUp(s: Status, item: Inbound)
    requires GaveUp(s)
    ensures GaveUp(OnInbound(s, item))
  {
    if item.Arrived? {
      GaveUpDelivers(s, item.message, item.step, item.replies);
    }
  }

  lemma {:induction false} ItemsGaveUp(s: Status, items: seq<Inbound>)
    requires GaveUp(s)
    ensures GaveUp(OnItems(s, items))
    decreases |items|
  {
    if items != [] {
      ItemGaveUp(s, items[0]);
      ItemsGaveUp(OnInbound(s, items[0]), items[1..]);
    }
  }

  lemma {:induction false} ItemsSaySteps(s: Status, items: seq<Inbound>)
    requires OnCourse(s) && Quiet(items) && !GaveUp(OnItems(s, items))
    ensures ClearOnly(SaidByItems(s, items)) == Outputs(StepsOfItems(s, items))
    decreases |items|
  {
    if items != [] {
      assert items[0] in items;
      var t := OnInbound(s, items[0]);
      InboundKeeps(s, items[0]);
      if GaveUp(t) {
        ItemsGaveUp(t, items[1..]);
      }
      ItemSaysSteps(s, items[0]);
      ItemsSaySteps(t, items[1..]);
      ClearOnlyConcat(SaidByItem(s, items[0]), SaidByItems(t, items[1..]));
      OutputsConcat(StepsOfItem(s, items[0]), StepsOfItems(t, items[1..]));
    }
  }

  lemma EventGaveUp(s: Status, e: Event)
    requires GaveUp(s)
    ensures GaveUp(Handle(s, e))
  {
    if e.ReadComplete? && e.read.ReadData? {
      ItemsGaveUp(s.(reading := false), e.read.items);
    } else {
      EventOnward(s, e);
    }
  }

  lemma {:induction false} RunGaveUp(s: Status, events: seq<Event>)
    requires GaveUp(s)
    ensures GaveUp(HandleAll(s, events))
    decreases |events|
  {
    if events != [] {
      EventGaveUp(s, events[0]);
      RunGaveUp(Handle(s, events[0]), events[1..]);
    }
  }

  lemma EventSaysSteps(s: Status, e: Event)
    requires OnCourse(s) && QuietEvent(e) && !e.Submit? && !GaveUp(Handle(s, e))
    ensures ClearOnly(SaidBy(s, e)) == Outputs(StepsTaken(s, [e]))
  {
    assert [e][1..] == [];
    if e.ReadComplete? && e.read.ReadData? && s.reading {
      var t := s.(reading := false);
      assert StepsTaken(s, [e]) == StepsOfItems(t, e.read.items);
      ItemsSaySteps(t, e.read.items);
    }
  }

  lemma StepsFirst(s: Status, events: seq<Event>)
    requires events != []
    ensures StepsTaken(s, events) == StepsTaken(s, [events[0]]) + StepsTaken(Handle(s, events[0]), events[1..])
  {
    assert [events[0]][1..] == [];
  }

  lemma StepOnCourse(s: Status, e: Event, later: seq<Event>)
    requires OnCourse(s) && QuietEvent(e) && !GaveUp(HandleAll(Handle(s, e), later))
    ensures OnCourse(Handle(s, e))
  {
    HandleKeeps(s, e);
    if GaveUp(Handle(s, e)) {
      RunGaveUp(Handle(s, e), later);
    }
  }

  lemma {:induction false} RunSaysSteps(s: Status, events: seq<Event>)
    requires OnCourse(s) && !GaveUp(HandleAll(s, events))
    requires forall e :: e in events ==> QuietEvent(e) && !e.Submit?
    ensures ClearOnly(SaidAll(s, events)) == Outputs(StepsTaken(s, events))
    decreases |events|
  {
    if events != [] {
      var e := events[0];
      assert e in events;
      var t := Handle(s, e);
      StepOnCourse(s, e, events[1..]);
      EventSaysSteps(s, e);
      RunSaysSteps(t, events[1..]);
      ClearOnlyConcat(SaidBy(s, e), SaidAll(t, events[1..]));
      StepsFirst(s, events);
      OutputsConcat(StepsTaken(s, [e]), StepsTaken(t, events[1..]));
    }
  }

  // ----- Whole runs -----

  lemma {:induction false} ClearOnlyIsClear(us: seq<Utterance>)
    ensures forall u :: u in ClearOnly(us) ==> u.Clear?
  {
    if us != [] {
      ClearOnlyIsClear(us[1..]);
    }
  }

  /** A receiver without a key that gets the frames up to the cut-over hears exactly what was said in the clear. */
  lemma ClearPartIsHeard(services: set<Byte>, events: seq<Event>)
    requires forall e :: e in events ==> QuietEvent(e)
    ensures HeardClear(Flatten(ClearPart(HandleAll(Started(services), events))))
      == MessagesSaid(ClearOnly(SaidInRun(services, events)))
  {
    var s := HandleAll(Started(services), events);
    var us := SaidInRun(services, events);
    EncryptionCutOver(services, events);
    ClearPartIsUnsealed(s);
    RunIsSaid(services, events);
    UnsealedSaid(us);
    ClearOnlyIsClear(us);
    ClearStreamIsHeard(ClearOnly(us));
  }

  /**
  The handshake as the phone hears it, in any run that has not given up and in which no service speaks of
  its own accord: the version request, each step's output in order, and AUTH_COMPLETE with the last step.
  */
  lemma HandshakeIsHeard(services: set<Byte>, events: seq<Event>)
    requires forall e :: e in events ==> QuietEvent(e) && !e.Submit?
    requires !GaveUp(HandleAll(Started(services), events))
    ensures HeardClear(Flatten(ClearPart(HandleAll(Started(services), events))))
      == [Message(0, 1, [0, 1, 0, 1])] + MessagesSaid(Outputs(StepsTaken(Started(services), events)))
  {
    StartKeeps(services);
    RunSaysSteps(Started(services), events);
    var version := Clear(Message(0, 1, [0, 1, 0, 1]));
    ClearFirst(version, SaidAll(Started(services), events));
    ClearPartIsHeard(services, events);
    MessagesFirst(version, ClearOnly(SaidAll(Started(services), events)));
  }

  lemma ClearFirst(u: Utterance, us: seq<Utterance>)
    requires u.Clear?
    ensures ClearOnly([u] + us) == [u] + ClearOnly(us)
  {
    assert ([u] + us)[1..] == us;
  }

  lemma MessagesFirst(u: Utterance, us: seq<Utterance>)
    ensures MessagesSaid([u] + us) == [u.message] + MessagesSaid(us)
  {
  }
}
