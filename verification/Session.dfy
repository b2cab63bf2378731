/**
One session with one phone: the state machine, its timer, the read loop, the handshake and the cut-over
from plaintext to ciphertext.

Every posted handler is one event. What the crypto library returns, and what services send, comes with
the event. The functions on `Status` say what each handler does; the class does it.
*/
module Sessions {
  import opened Bytes
  import opened ProtocolConstants
  import opened Framing
  import opened Crypto
  import opened Messages
  import opened WriteQueue

  datatype Phase = Idle | VersionExchange | SslHandshake | Running | Disconnecting | Disconnected | Error

  datatype Cause =
    | VersionMismatch | SslHandshakeFailed | SessionTerminated
    | TransportReadError | TransportWriteError | DecryptionFailed | EncryptionFailed

  /** What the observer is told. */
  datatype Notice = Changed(phase: Phase) | Failed(cause: Cause)

  /** A message to send, and the ciphertext the crypto library makes of it, if it can. */
  datatype SendRequest = SendRequest(message: Message, cipher: Option<seq<Byte>>)

  /** The result of one handshake step; `cipher` is for its output, should it be sent encrypted. */
  datatype Step = StepFailed | StepDone(output: seq<Byte>, complete: bool, cipher: Option<seq<Byte>>)

  /** One thing the assembler reports while it is fed: a decryption error, or a message and what follows from it. */
  datatype Inbound = Garbled | Arrived(message: Message, step: Step, replies: seq<SendRequest>)

  datatype ReadResult = ReadData(items: seq<Inbound>) | ReadAborted | ReadFailed

  datatype WriteResult = Written | WriteAborted | WriteFailed

  datatype Event =
    | Stop(bye: SendRequest)
    | ReadComplete(read: ReadResult)
    | WriteComplete(write: WriteResult)
    | Timeout
    | Submit(request: SendRequest)

  /** `services` are the channels with a service; `closings` counts the times they were told of the end. */
  datatype Status = Status(
    services: set<Byte>,
    phase: Phase,
    timerArmed: bool,
    writer: Writer,
    transportClosed: bool,
    closings: nat,
    reading: bool,
    established: bool,
    notices: seq<Notice>,
    authAt: Option<nat>,
    toServices: seq<Message>)

  function NewSession(services: set<Byte>): Status {
    Status(services, Idle, false, NEW, false, 0, false, false, [], None, [])
  }

  predicate IsTerminal(p: Phase) {
    p == Disconnected || p == Error
  }

  predicate IsHandshake(p: Phase) {
    p == VersionExchange || p == SslHandshake
  }

  // ----- State machine -----

  function TransitionTo(s: Status, p: Phase): Status {
    s.(phase := p, timerArmed := false, notices := s.notices + [Changed(p)])
  }

  function CloseTransportAndServices(s: Status): Status {
    s.(timerArmed := false, transportClosed := true, closings := s.closings + 1)
  }

  function HandleError(s: Status, cause: Cause): Status {
    if IsTerminal(s.phase) then s
    else
      var t := CloseTransportAndServices(TransitionTo(s, Error));
      t.(notices := t.notices + [Failed(cause)])
  }

  function StartStateTimer(s: Status): Status {
    s.(timerArmed := true)
  }

  function CompleteDisconnect(s: Status): Status {
    TransitionTo(s, Disconnected).(transportClosed := true)
  }

  function OnStateTimeout(s: Status): Status {
    match s.phase
    case VersionExchange => HandleError(s, VersionMismatch)
    case SslHandshake => HandleError(s, SslHandshakeFailed)
    case Disconnecting => CompleteDisconnect(s)
    case _ => s
  }

  // ----- Sending -----

  /** The encoder's cipher, with the answer already known. */
  function Oracle(cipher: Option<seq<Byte>>): Sealing<bool> {
    Sealing((e: bool) => e, (e: bool, p: seq<Byte>) =>
      match cipher case Some(bytes) => Sealed(e, bytes) case None => SealFailed(e))
  }

  function SendMessage(s: Status, r: SendRequest): Status {
    var x := Send(Oracle(r.cipher), s.established, r.message);
    if x.failed then HandleError(s, EncryptionFailed)
    else s.(writer := EnqueueAll(s.writer, x.wires))
  }

  function SendEach(s: Status, rs: seq<SendRequest>): Status
    decreases |rs|
  {
    if rs == [] then s else SendEach(SendMessage(s, rs[0]), rs[1..])
  }

  // ----- Handshake -----

  const AUTH_MESSAGE: Message := Message(CONTROL_CHANNEL, AUTH_COMPLETE, [8, 0])

  /** AUTH_COMPLETE always goes out in the clear. */
  function OnSslComplete(s: Status): Status {
    var wires := SendPlain(s.established, AUTH_MESSAGE).wires;
    TransitionTo(s.(writer := EnqueueAll(s.writer, wires), authAt := Some(|s.writer.offered|)), Running)
  }

  /** The crypto library is established before its callback runs. */
  function OnHandshakeStep(s: Status, step: Step): Status {
    match step
    case StepFailed => HandleError(s, SslHandshakeFailed)
    case StepDone(output, complete, cipher) =>
      var a := s.(established := s.established || complete);
      var b := if output != [] then
        SendMessage(a, SendRequest(Message(CONTROL_CHANNEL, ENCAPSULATED_SSL, output), cipher)) else a;
      if complete then OnSslComplete(b) else b
  }

  predicate RefusesVersion(payload: seq<Byte>) {
    6 <= |payload| && (payload[4] != 0 || payload[5] != 0)
  }

  function OnVersionResponse(s: Status, payload: seq<Byte>, step: Step): Status {
    var t := StartStateTimer(TransitionTo(s, SslHandshake));
    if RefusesVersion(payload) then HandleError(t, VersionMismatch) else OnHandshakeStep(t, step)
  }

  // ----- Receiving -----

  function Dispatch(s: Status, m: Message, step: Step, replies: seq<SendRequest>): Status {
    if IsHandshake(s.phase) then
      if m.messageType == VERSION_RESPONSE then OnVersionResponse(s, m.payload, step)
      else if m.messageType == ENCAPSULATED_SSL then OnHandshakeStep(s, step)
      else s
    else if m.channel in s.services then
      SendEach(s.(toServices := s.toServices + [m]), replies)
    else
      s
  }

  function OnInbound(s: Status, item: Inbound): Status {
    match item
    case Garbled => HandleError(s, DecryptionFailed)
    case Arrived(m, step, replies) => Dispatch(s, m, step, replies)
  }

  function OnItems(s: Status, items: seq<Inbound>): Status
    decreases |items|
  {
    if items == [] then s else OnItems(OnInbound(s, items[0]), items[1..])
  }

  function StartRead(s: Status): Status {
    if IsTerminal(s.phase) then s else s.(reading := true)
  }

  function OnReadComplete(s: Status, r: ReadResult): Status {
    match r
    case ReadAborted => s.(reading := false)
    case ReadFailed => HandleError(s.(reading := false), TransportReadError)
    case ReadData(items) => StartRead(OnItems(s.(reading := false), items))
  }

  function OnWriteComplete(s: Status, r: WriteResult): Status
    requires s.writer.outstanding.Some?
  {
    var t := s.(writer := Complete(s.writer, r.Written?));
    if r.WriteFailed? then HandleError(t, TransportWriteError) else t
  }

  // ----- Start and stop -----

  const VERSION_MESSAGE: Message := Message(CONTROL_CHANNEL, VERSION_REQUEST, [0, 1, 0, 1])

  function BeginVersionExchange(s: Status, cipher: Option<seq<Byte>>): Status {
    SendMessage(StartRead(StartStateTimer(TransitionTo(s, VersionExchange))), SendRequest(VERSION_MESSAGE, cipher))
  }

  function BeginDisconnect(s: Status, bye: SendRequest): Status {
    var t := StartStateTimer(TransitionTo(s, Disconnecting));
    if CONTROL_CHANNEL in t.services then SendMessage(t, bye) else CompleteDisconnect(t)
  }

  function OnStop(s: Status, bye: SendRequest): Status {
    if IsTerminal(s.phase) then s
    else if s.phase == Running then BeginDisconnect(s, bye)
    else HandleError(s, SessionTerminated)
  }

  /** The session after `start`, which happens once and first. */
  function Started(services: set<Byte>): Status {
    BeginVersionExchange(NewSession(services), None)
  }

  /** One event; a completion with nothing outstanding does not happen. */
  function Handle(s: Status, e: Event): Status {
    match e
    case Stop(bye) => OnStop(s, bye)
    case ReadComplete(r) => if s.reading then OnReadComplete(s, r) else s
    case WriteComplete(r) => if s.writer.outstanding.Some? then OnWriteComplete(s, r) else s
    case Timeout => OnStateTimeout(s)
    case Submit(r) => SendMessage(s, r)
  }

  function HandleAll(s: Status, events: seq<Event>): Status
    decreases |events|
  {
    if events == [] then s else HandleAll(Handle(s, events[0]), events[1..])
  }

  // ----- The session object -----

  class Session {
    const services: set<Byte>
    var state: Phase
    var stateTimerArmed: bool
    var writeQueue: seq<seq<Byte>>
    var writeInProgress: bool
    var established: bool
    var reading: bool
    var writing: Option<seq<Byte>>
    var transportClosed: bool
    ghost var closings: nat
    ghost var writerPast: Writer
    ghost var notices: seq<Notice>
    ghost var authAt: Option<nat>
    ghost var toServices: seq<Message>

    constructor (services: set<Byte>)
      ensures View() == NewSession(services)
    {
      this.services := services;
      state := Idle;
      stateTimerArmed, writeInProgress, established, reading, transportClosed := false, false, false, false, false;
      writeQueue, writing := [], None;
      closings, writerPast, notices, authAt, toServices := 0, NEW, [], None, [];
    }

    ghost function WriterView(): Writer
      reads this
    {
      writerPast.(queue := writeQueue, inProgress := writeInProgress, outstanding := writing)
    }

    ghost function View(): Status
      reads this
    {
      Status(services, state, stateTimerArmed, WriterView(), transportClosed, closings, reading, established,
             notices, authAt, toServices)
    }

    method Start()
      modifies this
      ensures View() == BeginVersionExchange(old(View()), None)
    {
      TransitionToState(VersionExchange);
      stateTimerArmed := true;
      BeginRead();
      SendRequestNow(SendRequest(VERSION_MESSAGE, None));
    }

    method StopNow(bye: SendRequest)
      modifies this
      ensures View() == OnStop(old(View()), bye)
    {
      if IsTerminal(state) {
        return;
      }
      if state == Running {
        Disconnect(bye);
      } else {
        Fail(SessionTerminated);
      }
    }

    method TransitionToState(newState: Phase)
      modifies this
      ensures View() == TransitionTo(old(View()), newState)
    {
      state := newState;
      stateTimerArmed := false;
      notices := notices + [Changed(newState)];
    }

    method Fail(cause: Cause)
      modifies this
      ensures View() == HandleError(old(View()), cause)
    {
      if IsTerminal(state) {
        return;
      }
      TransitionToState(Error);
      stateTimerArmed := false;
      transportClosed := true;
      closings := closings + 1;
      notices := notices + [Failed(cause)];
    }

    method FinishDisconnect()
      modifies this
      ensures View() == CompleteDisconnect(old(View()))
    {
      TransitionToState(Disconnected);
      transportClosed := true;
    }

    method Disconnect(bye: SendRequest)
      modifies this
      ensures View() == BeginDisconnect(old(View()), bye)
    {
      TransitionToState(Disconnecting);
      stateTimerArmed := true;
      if CONTROL_CHANNEL !in services {
        FinishDisconnect();
        return;
      }
      SendRequestNow(bye);
    }

    method OnTimeout()
      modifies this
      ensures View() == OnStateTimeout(old(View()))
    {
      match state
      case VersionExchange => Fail(VersionMismatch);
      case SslHandshake => Fail(SslHandshakeFailed);
      case Disconnecting => FinishDisconnect();
      case _ =>
    }

    method EnqueueWrite(wire: seq<Byte>)
      modifies this
      ensures WriterView() == Enqueue(old(WriterView()), wire)
      ensures View() == old(View()).(writer := WriterView())
    {
      ghost var after := Enqueue(WriterView(), wire);
      if |writeQueue| >= MAX_WRITE_QUEUE {
        writerPast := after;
        return;
      }
      writeQueue := writeQueue + [wire];
      if !writeInProgress {
        DoWriteNext();
      }
      writerPast := after;
    }

    method DoWriteNext()
      modifies this
      ensures WriterView() == WriteNext(old(WriterView()))
      ensures View() == old(View()).(writer := WriterView())
    {
      if writeQueue == [] {
        writeInProgress := false;
        return;
      }
      writeInProgress := true;
      writing := Some(writeQueue[0]);
      writerPast := writerPast.(issued := writerPast.issued + 1);
    }

    method OnWriteDone(r: WriteResult)
      requires writing.Some? && writeQueue != []
      modifies this
      ensures View() == OnWriteComplete(old(View()), r)
    {
      writing := None;
      if !r.Written? {
        writerPast := writerPast.(stopped := true);
        if r.WriteFailed? {
          Fail(TransportWriteError);
        }
        return;
      }
      writerPast := writerPast.(written := writerPast.written + [writeQueue[0]]);
      writeQueue := writeQueue[1..];
      DoWriteNext();
    }

    method QueueWires(wires: seq<seq<Byte>>)
      modifies this
      ensures View() == old(View()).(writer := EnqueueAll(old(WriterView()), wires))
    {
      for i := 0 to |wires|
        invariant View() == old(View()).(writer := EnqueueAll(old(WriterView()), wires[..i]))
      {
        EnqueueWrite(wires[i]);
        assert wires[..i + 1] == wires[..i] + [wires[i]];
        EnqueueAllSnoc(old(WriterView()), wires[..i], wires[i]);
      }
      assert wires[..|wires|] == wires;
    }

    method SendRequestNow(r: SendRequest)
      modifies this
      ensures View() == SendMessage(old(View()), r)
    {
      var x := Send(Oracle(r.cipher), established, r.message);
      if x.failed {
        Fail(EncryptionFailed);
      } else {
        QueueWires(x.wires);
      }
    }

    method SslComplete()
      modifies this
      ensures View() == OnSslComplete(old(View()))
    {
      authAt := Some(|writerPast.offered|);
      QueueWires(SendPlain(established, AUTH_MESSAGE).wires);
      TransitionToState(Running);
    }

    method HandshakeStep(step: Step)
      modifies this
      ensures View() == OnHandshakeStep(old(View()), step)
    {
      match step
      case StepFailed =>
        Fail(SslHandshakeFailed);
      case StepDone(output, complete, cipher) =>
        established := established || complete;
        if output != [] {
          SendRequestNow(SendRequest(Message(CONTROL_CHANNEL, ENCAPSULATED_SSL, output), cipher));
        }
        if complete {
          SslComplete();
        }
    }

    method VersionResponse(payload: seq<Byte>, step: Step)
      modifies this
      ensures View() == OnVersionResponse(old(View()), payload, step)
    {
      TransitionToState(SslHandshake);
      stateTimerArmed := true;
      if |payload| >= 6 && ReadBe16(payload[4], payload[5]) != 0 {
        Fail(VersionMismatch);
        return;
      }
      HandshakeStep(step);
    }

    method DispatchDecrypted(m: Message, step: Step, replies: seq<SendRequest>)
      modifies this
      ensures View() == Dispatch(old(View()), m, step, replies)
    {
      if IsHandshake(state) {
        if m.messageType == VERSION_RESPONSE {
          VersionResponse(m.payload, step);
        } else if m.messageType == ENCAPSULATED_SSL {
          HandshakeStep(step);
        }
        return;
      }
      if m.channel !in services {
        return;
      }
      toServices := toServices + [m];
      ghost var start := View();
      for i := 0 to |replies|
        invariant View() == SendEach(start, replies[..i])
      {
        SendRequestNow(replies[i]);
        assert replies[..i + 1] == replies[..i] + [replies[i]];
        SendEachSnoc(start, replies[..i], replies[i]);
      }
      assert replies[..|replies|] == replies;
    }

    method BeginRead()
      modifies this
      ensures View() == StartRead(old(View()))
    {
      if IsTerminal(state) {
        return;
      }
      reading := true;
    }

    method OnReadDone(r: ReadResult)
      requires reading
      modifies this
      ensures View() == OnReadComplete(old(View()), r)
    {
      reading := false;
      match r
      case ReadAborted =>
      case ReadFailed => Fail(TransportReadError);
      case ReadData(items) =>
        ghost var start := View();
        for i := 0 to |items|
          invariant View() == OnItems(start, items[..i])
        {
          match items[i] {
            case Garbled => Fail(DecryptionFailed);
            case Arrived(m, step, replies) => DispatchDecrypted(m, step, replies);
          }
          assert items[..i + 1] == items[..i] + [items[i]];
          OnItemsSnoc(start, items[..i], items[i]);
        }
        assert items[..|items|] == items;
        BeginRead();
    }
  }

  lemma SendEachSnoc(s: Status, rs: seq<SendRequest>, r: SendRequest)
    ensures SendEach(s, rs + [r]) == SendMessage(SendEach(s, rs), r)
    decreases |rs|
  {
    if rs == [] {
      assert [r][1..] == [] && rs + [r] == [r];
    } else {
      ConcatTail(rs, [r]);
      SendEachSnoc(SendMessage(s, rs[0]), rs[1..], r);
    }
  }

  lemma OnItemsSnoc(s: Status, items: seq<Inbound>, item: Inbound)
    ensures OnItems(s, items + [item]) == OnInbound(OnItems(s, items), item)
    decreases |items|
  {
    if items == [] {
      assert [item][1..] == [] && items + [item] == [item];
    } else {
      ConcatTail(items, [item]);
      OnItemsSnoc(OnInbound(s, items[0]), items[1..], item);
    }
  }
}
