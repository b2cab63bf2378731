/**
Where each event takes a session, when it ends in Error, and which cause the observer is told: that of the
first trouble of the run.
*/
module SessionMoves {
  import opened Bytes
  import opened Crypto
  import opened Messages
  import opened WriteQueue
  import opened Sessions
  import opened SessionSafety

  // ----- Trouble -----

  ghost predicate Unsendable(s: Status, rs: seq<SendRequest>) {
    s.established && exists r :: r in rs && r.cipher.None?
  }

  ghost function ItemTrouble(s: Status, item: Inbound): Option<Cause> {
    if item.Garbled? then Some(DecryptionFailed)
    else if IsHandshake(s.phase) then
      if Refused(item.message) then Some(VersionMismatch)
      else if Advances(item.message) && item.step.StepFailed? then Some(SslHandshakeFailed)
      else None
    else if item.message.channel in s.services && Unsendable(s, item.replies) then Some(EncryptionFailed)
    else None
  }

  /** Where an item without trouble takes the session. */
  function ItemPhase(s: Status, item: Inbound): Phase {
    if item.Garbled? || !IsHandshake(s.phase) || !Advances(item.message) then s.phase
    else if item.step.StepDone? && item.step.complete then Running
    else if item.message.messageType == 2 then SslHandshake
    else s.phase
  }

  /** The phases the observer is shown because of an item. */
  ghost function ItemShows(s: Status, item: Inbound): seq<Phase> {
    (if item.Arrived? && IsHandshake(s.phase) && item.message.messageType == 2 then [SslHandshake] else [])
    + (if ItemTrouble(s, item).Some? then [Error]
       else if IsHandshake(s.phase) && Advances(item.message) && item.step.complete then [Running]
       else [])
  }

  ghost function ItemsShow(s: Status, items: seq<Inbound>): seq<Phase>
    decreases |items|
  {
    if items == [] then []
    else
      ItemShows(s, items[0])
      + (if ItemTrouble(s, items[0]).Some? then [] else ItemsShow(OnInbound(s, items[0]), items[1..]))
  }

  /** The phases shown because of an event. */
  ghost function Shows(s: Status, e: Event): seq<Phase> {
    match e
    case Stop(bye) =>
      (if s.phase == Running then [Disconnecting] else [])
      + (if Trouble(s, e).Some? then [Error] else if 0 in s.services then [] else [Disconnected])
    case ReadComplete(r) =>
      if s.reading && r.ReadData? then ItemsShow(s.(reading := false), r.items)
      else if Trouble(s, e).Some? then [Error] else []
    case Timeout => if Trouble(s, e).Some? then [Error] else if s.phase == Disconnecting then [Disconnected] else []
    case _ => if Trouble(s, e).Some? then [Error] else []
  }

  ghost function ItemsTrouble(s: Status, items: seq<Inbound>): Option<Cause>
    decreases |items|
  {
    if items == [] then None
    else
      var first := ItemTrouble(s, items[0]);
      if first.Some? then first else ItemsTrouble(OnInbound(s, items[0]), items[1..])
  }

  ghost function Trouble(s: Status, e: Event): Option<Cause> {
    match e
    case Stop(bye) =>
      if s.phase != Running then Some(SessionTerminated)
      else if 0 in s.services && bye.cipher.None? then Some(EncryptionFailed)
      else None
    case ReadComplete(r) =>
      if !s.reading || r.ReadAborted? then None
      else if r.ReadFailed? then Some(TransportReadError)
      else ItemsTrouble(s.(reading := false), r.items)
    case WriteComplete(r) =>
      if s.writer.outstanding.Some? && r.WriteFailed? then Some(TransportWriteError) else None
    case Timeout =>
      if s.phase == VersionExchange then Some(VersionMismatch)
      else if s.phase == SslHandshake then Some(SslHandshakeFailed)
      else None
    case Submit(r) => if s.established && r.cipher.None? then Some(EncryptionFailed) else None
  }

  /** From `s` to `t` the observer is told of this trouble, if there is some, and shown these phases; nothing else. */
  ghost predicate Tells(s: Status, t: Status, trouble: Option<Cause>, shown: seq<Phase>) {
    && PhasesShown(t.notices) == PhasesShown(s.notices) + shown
    && match trouble
       case Some(cause) => t.phase == Error && Causes(t.notices) == Causes(s.notices) + [cause]
       case None => t.phase != Error && Causes(t.notices) == Causes(s.notices)
  }

  lemma TellsThen(s: Status, t: Status, u: Status, a: seq<Phase>, trouble: Option<Cause>, b: seq<Phase>)
    requires Tells(s, t, None, a) && Tells(t, u, trouble, b)
    ensures Tells(s, u, trouble, a + b)
  {
    ConcatAssociates(PhasesShown(s.notices), a, b);
  }

  /** What is told is told, if nothing follows. */
  lemma TellsThenNothing(s: Status, t: Status, u: Status, trouble: Option<Cause>, a: seq<Phase>)
    requires Tells(s, t, trouble, a) && u.phase == t.phase && u.notices == t.notices
    ensures Tells(s, u, trouble, a + [])
  {
    assert a + [] == a;
  }

  ghost predicate Going(s: Status) {
    Inv(s) && !IsTerminal(s.phase) && s.phase != Idle
  }

  lemma ErrorTells(s: Status, cause: Cause)
    requires !IsTerminal(s.phase)
    ensures Tells(s, HandleError(s, cause), Some(cause), [Error])
  {
    ErrorTellsOnce(s, cause);
  }

  lemma SendTells(s: Status, r: SendRequest)
    requires !IsTerminal(s.phase)
    ensures var t := SendMessage(s, r);
      if s.established && r.cipher.None? then Tells(s, t, Some(EncryptionFailed), [Error])
      else t.phase == s.phase && t.notices == s.notices && t.established == s.established
  {
    if s.established && r.cipher.None? {
      ErrorTells(s, EncryptionFailed);
    }
  }

  lemma {:induction false} SendEachTerminal(s: Status, rs: seq<SendRequest>)
    requires IsTerminal(s.phase)
    ensures SendEach(s, rs).phase == s.phase && SendEach(s, rs).notices == s.notices
    decreases |rs|
  {
    if rs != [] {
      SendEachTerminal(SendMessage(s, rs[0]), rs[1..]);
    }
  }

  lemma {:induction false} SendEachTells(s: Status, rs: seq<SendRequest>)
    requires !IsTerminal(s.phase)
    ensures var t := SendEach(s, rs);
      if Unsendable(s, rs) then Tells(s, t, Some(EncryptionFailed), [Error])
      else t.phase == s.phase && t.notices == s.notices
    decreases |rs|
  {
    if rs != [] {
      var t := SendMessage(s, rs[0]);
      SendTells(s, rs[0]);
      assert forall r :: r in rs <==> r == rs[0] || r in rs[1..];
      if s.established && rs[0].cipher.None? {
        SendEachTerminal(t, rs[1..]);
      } else {
        SendEachTells(t, rs[1..]);
      }
    }
  }

  lemma StepTells(s: Status, step: Step)
    requires IsHandshake(s.phase) && !s.established && QuietStep(step)
    ensures var t := OnHandshakeStep(s, step);
      && Tells(s, t, if step.StepFailed? then Some(SslHandshakeFailed) else None,
               if step.StepFailed? then [Error] else if step.complete then [Running] else [])
      && (step.StepDone? ==> t.phase == if step.complete then Running else s.phase)
  {
    match step
    case StepFailed => ErrorTells(s, SslHandshakeFailed);
    case StepDone(output, complete, cipher) =>
      if complete {
        TransitionTells(s, Running);
      } else {
        SendTells(s, SendRequest(Message(0, 3, output), cipher));
      }
  }

  lemma VersionTells(s: Status, m: Message, step: Step)
    requires IsHandshake(s.phase) && !s.established && QuietStep(step) && m.messageType == 2
    ensures var t := OnVersionResponse(s, m.payload, step);
      && Tells(s, t, if Refused(m) then Some(VersionMismatch) else if step.StepFailed? then Some(SslHandshakeFailed)
                     else None,
               [SslHandshake] + (if Refused(m) || step.StepFailed? then [Error]
                                 else if step.complete then [Running] else []))
      && (!Refused(m) && step.StepDone? ==> t.phase == if step.complete then Running else SslHandshake)
  {
    var t := StartStateTimer(TransitionTo(s, SslHandshake));
    TransitionTells(s, SslHandshake);
    assert Tells(s, t, None, [SslHandshake]);
    RefusedAlike(m);
    if Refused(m) {
      ErrorTells(t, VersionMismatch);
      TellsThen(s, t, HandleError(t, VersionMismatch), [SslHandshake], Some(VersionMismatch), [Error]);
    } else {
      var u := OnHandshakeStep(t, step);
      StepTells(t, step);
      TellsThen(s, t, u, [SslHandshake], if step.StepFailed? then Some(SslHandshakeFailed) else None,
                if step.StepFailed? then [Error] else if step.complete then [Running] else []);
    }
  }

  /** From `s` to `t` is what an item of a feed does. */
  ghost predicate Moves(s: Status, t: Status, item: Inbound) {
    && Tells(s, t, ItemTrouble(s, item), ItemShows(s, item))
    && (ItemTrouble(s, item).None? ==> t.phase == ItemPhase(s, item))
  }

  lemma ServiceTells(s: Status, m: Message, step: Step, replies: seq<SendRequest>)
    requires Going(s) && !IsHandshake(s.phase)
    ensures Moves(s, Dispatch(s, m, step, replies), Arrived(m, step, replies))
  {
    if m.channel in s.services {
      SendEachTells(s.(toServices := s.toServices + [m]), replies);
    }
  }

  lemma HandshakeTells(s: Status, m: Message, step: Step, replies: seq<SendRequest>)
    requires Going(s) && IsHandshake(s.phase) && QuietStep(step)
    ensures Moves(s, Dispatch(s, m, step, replies), Arrived(m, step, replies))
  {
    if m.messageType == 2 {
      VersionTells(s, m, step);
    } else if m.messageType == 3 {
      StepTells(s, step);
    }
  }

  /** One message, or one garbled fragment. */
  lemma ItemTells(s: Status, item: Inbound)
    requires Going(s) && (item.Arrived? ==> QuietStep(item.step))
    ensures Moves(s, OnInbound(s, item), item)
  {
    match item
    case Garbled => ErrorTells(s, DecryptionFailed);
    case Arrived(m, step, replies) =>
      if IsHandshake(s.phase) {
        HandshakeTells(s, m, step, replies);
      } else {
        ServiceTells(s, m, step, replies);
      }
  }

  lemma {:induction false} ItemsEnded(s: Status, items: seq<Inbound>)
    requires IsTerminal(s.phase)
    ensures OnItems(s, items).phase == s.phase && OnItems(s, items).notices == s.notices
    decreases |items|
  {
    if items != [] {
      if items[0].Arrived? {
        SendEachTerminal(s.(toServices := s.toServices + [items[0].message]), items[0].replies);
      }
      ItemsEnded(OnInbound(s, items[0]), items[1..]);
    }
  }

  /** A feed: the first trouble in it is told, and none after it. */
  lemma {:induction false} ItemsTell(s: Status, items: seq<Inbound>)
    requires Going(s) && Quiet(items)
    ensures Tells(s, OnItems(s, items), ItemsTrouble(s, items), ItemsShow(s, items))
    decreases |items|
  {
    if items != [] {
      assert items[0] in items;
      var t := OnInbound(s, items[0]);
      InboundKeeps(s, items[0]);
      ItemTells(s, items[0]);
      var u := OnItems(s, items);
      if ItemTrouble(s, items[0]).Some? {
        ItemsEnded(t, items[1..]);
        TellsThenNothing(s, t, u, ItemTrouble(s, items[0]), ItemShows(s, items[0]));
      } else {
        ItemsTell(t, items[1..]);
        TellsThen(s, t, u, ItemShows(s, items[0]), ItemsTrouble(t, items[1..]), ItemsShow(t, items[1..]));
      }
    }
  }

  lemma ReadTells(s: Status, r: ReadResult)
    requires Going(s) && s.reading && (r.ReadData? ==> Quiet(r.items))
    ensures Tells(s, OnReadComplete(s, r), Trouble(s, ReadComplete(r)), Shows(s, ReadComplete(r)))
  {
    match r
    case ReadAborted =>
    case ReadFailed => ErrorTells(s.(reading := false), TransportReadError);
    case ReadData(items) => ItemsTell(s.(reading := false), items);
  }

  /** Where an event other than a feed takes a session that has no trouble with it. */
  function EventPhase(s: Status, e: Event): Phase {
    match e
    case Stop(_) => if 0 in s.services then Disconnecting else Disconnected
    case Timeout => if s.phase == Disconnecting then Disconnected else s.phase
    case _ => s.phase
  }

  lemma ByeTells(s: Status, t: Status, bye: SendRequest)
    requires !IsTerminal(t.phase) && t.established && t.phase == Disconnecting && Tells(s, t, None, [Disconnecting])
    ensures var u := SendMessage(t, bye);
      if bye.cipher.None? then Tells(s, u, Some(EncryptionFailed), [Disconnecting] + [Error])
      else u.phase == Disconnecting && Tells(s, u, None, [Disconnecting] + [])
  {
    var u := SendMessage(t, bye);
    SendTells(t, bye);
    if bye.cipher.None? {
      TellsThen(s, t, u, [Disconnecting], Some(EncryptionFailed), [Error]);
    } else {
      TellsThenNothing(s, t, u, None, [Disconnecting]);
    }
  }

  lemma StopTells(s: Status, bye: SendRequest)
    requires Going(s)
    ensures var t := OnStop(s, bye);
      && Tells(s, t, Trouble(s, Stop(bye)), Shows(s, Stop(bye)))
      && (Trouble(s, Stop(bye)).None? ==> t.phase == EventPhase(s, Stop(bye)))
  {
    if s.phase != Running {
      ErrorTells(s, SessionTerminated);
    } else {
      var t := StartStateTimer(TransitionTo(s, Disconnecting));
      TransitionTells(s, Disconnecting);
      assert Tells(s, t, None, [Disconnecting]);
      if 0 in s.services {
        ByeTells(s, t, bye);
      } else {
        TransitionTells(t, Disconnected);
        TellsThen(s, t, CompleteDisconnect(t), [Disconnecting], None, [Disconnected]);
      }
    }
  }

  lemma TimeoutTells(s: Status)
    requires Going(s)
    ensures Tells(s, OnStateTimeout(s), Trouble(s, Timeout), Shows(s, Timeout))
    ensures Trouble(s, Timeout).None? ==> OnStateTimeout(s).phase == EventPhase(s, Timeout)
  {
    if s.phase == VersionExchange {
      ErrorTells(s, VersionMismatch);
    } else if s.phase == SslHandshake {
      ErrorTells(s, SslHandshakeFailed);
    } else if s.phase == Disconnecting {
      TransitionTells(s, Disconnected);
    }
  }

  lemma WriteTells(s: Status, r: WriteResult)
    requires Going(s)
    ensures Tells(s, Handle(s, WriteComplete(r)), Trouble(s, WriteComplete(r)), Shows(s, WriteComplete(r)))
    ensures !r.WriteFailed? ==> Handle(s, WriteComplete(r)).phase == s.phase
  {
    if s.writer.outstanding.Some? && r.WriteFailed? {
      ErrorTells(s.(writer := Complete(s.writer, false)), TransportWriteError);
    }
  }

  /**
  One event, exactly: the session goes to Error if and only if there is trouble, the observer is told its
  cause and nothing else, and without trouble the session goes where the protocol says.
  */
  lemma EventTells(s: Status, e: Event)
    requires Going(s) && QuietEvent(e)
    ensures Tells(s, Handle(s, e), Trouble(s, e), Shows(s, e))
    ensures Trouble(s, e).None? && !(e.ReadComplete? && e.read.ReadData?) ==> Handle(s, e).phase == EventPhase(s, e)
  {
    match e
    case Stop(bye) => StopTells(s, bye);
    case ReadComplete(r) =>
      if s.reading {
        ReadTells(s, r);
      }
    case WriteComplete(r) => WriteTells(s, r);
    case Timeout => TimeoutTells(s);
    case Submit(r) => SendTells(s, r);
  }

  /** After its end a session tells nothing. */
  lemma EndedTellsNothing(s: Status, e: Event)
    requires IsTerminal(s.phase)
    ensures Handle(s, e).phase == s.phase && Handle(s, e).notices == s.notices
  {
    if e.ReadComplete? && e.read.ReadData? {
      ItemsEnded(s.(reading := false), e.read.items);
    }
  }

  /** The first trouble before the session's end. */
  ghost function FirstTrouble(s: Status, events: seq<Event>): Option<Cause>
    decreases |events|
  {
    if events == [] || IsTerminal(s.phase) then None
    else
      var first := Trouble(s, events[0]);
      if first.Some? then first else FirstTrouble(Handle(s, events[0]), events[1..])
  }

  /** The phases shown along a run. */
  ghost function RunShows(s: Status, events: seq<Event>): seq<Phase>
    decreases |events|
  {
    if events == [] || IsTerminal(s.phase) then []
    else Shows(s, events[0]) + RunShows(Handle(s, events[0]), events[1..])
  }

  lemma {:induction false} EndedRun(s: Status, events: seq<Event>)
    requires IsTerminal(s.phase)
    ensures HandleAll(s, events).phase == s.phase && HandleAll(s, events).notices == s.notices
    decreases |events|
  {
    if events != [] {
      EndedTellsNothing(s, events[0]);
      EndedRun(Handle(s, events[0]), events[1..]);
    }
  }

  lemma {:induction false} RunTells(s: Status, events: seq<Event>)
    requires Going(s) && forall e :: e in events ==> QuietEvent(e)
    ensures Tells(s, HandleAll(s, events), FirstTrouble(s, events), RunShows(s, events))
    decreases |events|
  {
    if events != [] {
      var e := events[0];
      assert e in events;
      var t, u := Handle(s, e), HandleAll(s, events);
      HandleKeeps(s, e);
      EventTells(s, e);
      if IsTerminal(t.phase) {
        EndedRun(t, events[1..]);
        TellsThenNothing(s, t, u, Trouble(s, e), Shows(s, e));
        RunStops(s, events);
      } else {
        RunTells(t, events[1..]);
        TellsThen(s, t, u, Shows(s, e), FirstTrouble(t, events[1..]), RunShows(t, events[1..]));
      }
    }
  }

  lemma RunStops(s: Status, events: seq<Event>)
    requires events != [] && !IsTerminal(s.phase) && IsTerminal(Handle(s, events[0]).phase)
    ensures FirstTrouble(s, events) == Trouble(s, events[0])
    ensures RunShows(s, events) == Shows(s, events[0]) + []
  {
    assert FirstTrouble(Handle(s, events[0]), events[1..]) == None;
  }

  /**
  A run ends in Error if and only if it met trouble before its end, and what its observer is told is the
  cause of the first trouble, alone; the phases it is shown are those the run goes through, each once.
  */
  lemma FirstTroubleIsTold(services: set<Byte>, events: seq<Event>)
    requires forall e :: e in events ==> QuietEvent(e)
    ensures var t := HandleAll(Started(services), events); var trouble := FirstTrouble(Started(services), events);
      && (t.phase == Error <==> trouble.Some?)
      && Causes(t.notices) == (match trouble case Some(cause) => [cause] case None => [])
      && PhasesShown(t.notices) == [VersionExchange] + RunShows(Started(services), events)
  {
    StartKeeps(services);
    RunTells(Started(services), events);
    var version := StartRead(StartStateTimer(TransitionTo(NewSession(services), VersionExchange)));
    TransitionTells(NewSession(services), VersionExchange);
    SendTells(version, SendRequest(VERSION_MESSAGE, None));
    assert Causes(Started(services).notices) == [] && PhasesShown(Started(services).notices) == [VersionExchange];
  }

  // ----- The read loop -----

  lemma {:induction false} SendEachReads(s: Status, rs: seq<SendRequest>)
    ensures SendEach(s, rs).reading == s.reading
    decreases |rs|
  {
    if rs != [] {
      SendEachReads(SendMessage(s, rs[0]), rs[1..]);
    }
  }

  lemma StepReads(s: Status, step: Step)
    ensures OnHandshakeStep(s, step).reading == s.reading
  {
  }

  lemma ItemReads(s: Status, item: Inbound)
    ensures OnInbound(s, item).reading == s.reading
  {
    if item.Arrived? {
      var m := item.message;
      if !IsHandshake(s.phase) {
        SendEachReads(s.(toServices := s.toServices + [m]), item.replies);
      } else if m.messageType == 2 {
        StepReads(StartStateTimer(TransitionTo(s, SslHandshake)), item.step);
      } else if m.messageType == 3 {
        StepReads(s, item.step);
      }
    }
  }

  lemma {:induction false} ItemsRead(s: Status, items: seq<Inbound>)
    ensures OnItems(s, items).reading == s.reading
    decreases |items|
  {
    if items != [] {
      ItemReads(s, items[0]);
      ItemsRead(OnInbound(s, items[0]), items[1..]);
    }
  }

  /** A read is outstanding until it completes; data in a session that has not ended is followed by the next. */
  lemma ReadsOn(s: Status, e: Event)
    ensures Handle(s, e).reading ==
      if e.ReadComplete? && s.reading then e.read.ReadData? && !IsTerminal(Handle(s, e).phase) else s.reading
  {
    match e
    case ReadComplete(r) =>
      if s.reading && r.ReadData? {
        ItemsRead(s.(reading := false), r.items);
      }
    case _ =>
  }

  /** A session that has not ended is reading, unless its transport has aborted a read. */
  lemma {:induction false} KeepsReading(services: set<Byte>, events: seq<Event>)
    requires forall e :: e in events ==> QuietEvent(e) && (e.ReadComplete? ==> !e.read.ReadAborted?)
    ensures var t := HandleAll(Started(services), events); !IsTerminal(t.phase) ==> t.reading
    decreases |events|
  {
    StartKeeps(services);
    if events != [] {
      var front, e := events[..|events| - 1], events[|events| - 1];
      assert events == front + [e] && e in events;
      assert forall x :: x in front ==> x in events;
      KeepsReading(services, front);
      HandleAllConcat(Started(services), front, [e]);
      assert [e][1..] == [];
      var s := HandleAll(Started(services), front);
      RunKeeps(Started(services), front);
      HandleKeeps(s, e);
      ReadsOn(s, e);
      if e.ReadComplete? && e.read.ReadFailed? && !IsTerminal(s.phase) {
        EventTells(s, e);
      }
    }
  }
}
