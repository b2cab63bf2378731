/**
A session fed with bytes: the state machine and the assembler together, with one crypto library between
them.

The session decides whether fragments are decrypted, a decrypted message drives the session, and the
session drives the library's handshake; all in the middle of a read. `Unit` holds the two states, and the
assembler of `Messages` runs over it. `Tape` is the library alone: it takes the handshake's steps as the
messages come and writes down those after the cut-over.
*/
module ByteSession {
  import opened Bytes
  import opened ProtocolConstants
  import opened Framing
  import opened Crypto
  import opened Messages
  import opened EndToEnd
  import opened Sessions
  import opened SessionSafety

  datatype Stepped<K> = Stepped(next: K, step: Step)

  /** The receiving half of the crypto library. */
  datatype Library<!K> = Library(decrypt: (K, seq<Byte>) -> Opened<K>, handshake: (K, seq<Byte>) -> Stepped<K>)

  /** What the services send in answer to a message. */
  type Answers = (Status, Message) -> seq<SendRequest>

  datatype Unit<K> = Unit(session: Status, crypto: K)

  /** The message makes the session take a handshake step. */
  predicate IsStep(m: Message) {
    m.messageType == ENCAPSULATED_SSL || (m.messageType == VERSION_RESPONSE && !RefusesVersion(m.payload))
  }

  /** The first step has no input. */
  function StepInput(m: Message): seq<Byte> {
    if m.messageType == VERSION_RESPONSE then [] else m.payload
  }

  function Deliver<K>(lib: Library<K>, answers: Answers, u: Unit<K>, m: Message): Unit<K> {
    var x := lib.handshake(u.crypto, StepInput(m));
    Unit(Dispatch(u.session, m, x.step, answers(u.session, m)),
         if IsHandshake(u.session.phase) && IsStep(m) then x.next else u.crypto)
  }

  function Decrypt<K>(lib: Library<K>, u: Unit<K>, c: seq<Byte>): Opened<Unit<K>> {
    match lib.decrypt(u.crypto, c)
    case Opened(next, bytes) => Opened(Unit(u.session, next), bytes)
    case OpenFailed(next) => OpenFailed(Unit(HandleError(u.session, DecryptionFailed), next))
  }

  function UnitOpening<K>(lib: Library<K>, answers: Answers): Opening<Unit<K>> {
    Opening((u: Unit<K>) => u.session.established,
            (u: Unit<K>, c: seq<Byte>) => Decrypt(lib, u, c),
            (u: Unit<K>, m: Message) => Deliver(lib, answers, u, m))
  }

  // ----- What happens to a session -----

  datatype Head<K> = Head(rest: seq<Byte>, assembly: Assembly<Unit<K>>)

  /** Bytes are read, or anything else happens to the session. */
  datatype Happening = BytesRead(chunk: seq<Byte>) | Other(event: Event)

  function SessionOf<K>(h: Head<K>): Status {
    h.assembly.crypto.session
  }

  function WithSession<K>(a: Assembly<Unit<K>>, s: Status): Assembly<Unit<K>> {
    a.(crypto := a.crypto.(session := s))
  }

  /** `on_read_complete`: feed the assembler, which calls back into the session, and read on. */
  function OnBytes<K>(lib: Library<K>, answers: Answers, h: Head<K>, chunk: seq<Byte>): Head<K> {
    var p := Parse(h.rest + chunk);
    var start := WithSession(h.assembly, SessionOf(h).(reading := false));
    var a := AcceptAll(UnitOpening(lib, answers), start, p.fragments).state;
    Head(p.rest, WithSession(a, StartRead(a.crypto.session)))
  }

  predicate IsData(e: Event) {
    e.ReadComplete? && e.read.ReadData?
  }

  function Apply<K>(lib: Library<K>, answers: Answers, h: Head<K>, x: Happening): Head<K> {
    match x
    case BytesRead(chunk) => if SessionOf(h).reading then OnBytes(lib, answers, h, chunk) else h
    case Other(e) => if IsData(e) then h else h.(assembly := WithSession(h.assembly, Handle(SessionOf(h), e)))
  }

  function RunAll<K>(lib: Library<K>, answers: Answers, h: Head<K>, xs: seq<Happening>): Head<K>
    decreases |xs|
  {
    if xs == [] then h else RunAll(lib, answers, Apply(lib, answers, h, xs[0]), xs[1..])
  }

  /** The bytes the session has read along a run. */
  function Consumed<K>(lib: Library<K>, answers: Answers, h: Head<K>, xs: seq<Happening>): seq<Byte>
    decreases |xs|
  {
    if xs == [] then []
    else
      (if xs[0].BytesRead? && SessionOf(h).reading then xs[0].chunk else [])
      + Consumed(lib, answers, Apply(lib, answers, h, xs[0]), xs[1..])
  }

  function NewHead<K>(services: set<Byte>, k: K): Head<K> {
    Head([], Assembly(Unit(Started(services), k), map[]))
  }

  // ----- It is a session: its runs are those of the state machine -----

  /** What the assembler reports of one fragment. */
  function Report<K>(lib: Library<K>, answers: Answers, a: Assembly<Unit<K>>, f: Fragment): seq<Inbound> {
    var x := Append(UnitOpening(lib, answers), a.crypto, Pending(a, f.channel), f);
    if !x.ok then [Garbled]
    else if !f.isLast then []
    else
      match MessageIn(f.channel, x.buffer)
      case None => []
      case Some(m) =>
        [Arrived(m, lib.handshake(x.crypto.crypto, StepInput(m)).step, answers(x.crypto.session, m))]
  }

  function Reports<K>(lib: Library<K>, answers: Answers, a: Assembly<Unit<K>>, fs: seq<Fragment>): seq<Inbound>
    decreases |fs|
  {
    if fs == [] then []
    else
      Report(lib, answers, a, fs[0])
      + Reports(lib, answers, Accept(UnitOpening(lib, answers), a, fs[0]).state, fs[1..])
  }

  lemma ReportDrives<K>(lib: Library<K>, answers: Answers, a: Assembly<Unit<K>>, f: Fragment)
    ensures Accept(UnitOpening(lib, answers), a, f).state.crypto.session
      == OnItems(a.crypto.session, Report(lib, answers, a, f))
  {
    var r := Report(lib, answers, a, f);
    if r != [] {
      assert r[1..] == [];
      assert OnItems(a.crypto.session, r) == OnInbound(a.crypto.session, r[0]);
    }
  }

  lemma {:induction false} OnItemsConcat(s: Status, a: seq<Inbound>, b: seq<Inbound>)
    ensures OnItems(s, a + b) == OnItems(OnItems(s, a), b)
    decreases |a|
  {
    if a == [] {
      assert a + b == b;
    } else {
      ConcatTail(a, b);
      OnItemsConcat(OnInbound(s, a[0]), a[1..], b);
    }
  }

  lemma {:induction false} ReportsDrive<K>(lib: Library<K>, answers: Answers, a: Assembly<Unit<K>>, fs: seq<Fragment>)
    ensures AcceptAll(UnitOpening(lib, answers), a, fs).state.crypto.session
      == OnItems(a.crypto.session, Reports(lib, answers, a, fs))
    decreases |fs|
  {
    if fs != [] {
      var b := Accept(UnitOpening(lib, answers), a, fs[0]).state;
      ReportDrives(lib, answers, a, fs[0]);
      ReportsDrive(lib, answers, b, fs[1..]);
      OnItemsConcat(a.crypto.session, Report(lib, answers, a, fs[0]), Reports(lib, answers, b, fs[1..]));
    }
  }

  /** No handshake step of the library that completes has output. */
  ghost predicate QuietLibrary<K(!new)>(lib: Library<K>) {
    forall k: K, input: seq<Byte> :: QuietStep(lib.handshake(k, input).step)
  }

  lemma {:induction false} ReportsAreQuiet<K(!new)>(
    lib: Library<K>, answers: Answers, a: Assembly<Unit<K>>, fs: seq<Fragment>)
    requires QuietLibrary(lib)
    ensures Quiet(Reports(lib, answers, a, fs))
    decreases |fs|
  {
    if fs != [] {
      ReportsAreQuiet(lib, answers, Accept(UnitOpening(lib, answers), a, fs[0]).state, fs[1..]);
    }
  }

  lemma StepIsEvent<K(!new)>(lib: Library<K>, answers: Answers, h: Head<K>, x: Happening) returns (events: seq<Event>)
    requires x.Other? ==> QuietEvent(x.event)
    ensures HandleAll(SessionOf(h), events) == SessionOf(Apply(lib, answers, h, x))
    ensures QuietLibrary(lib) ==> forall e :: e in events ==> QuietEvent(e)
  {
    match x
    case BytesRead(chunk) =>
      if SessionOf(h).reading {
        var p := Parse(h.rest + chunk);
        var start := WithSession(h.assembly, SessionOf(h).(reading := false));
        var items := Reports(lib, answers, start, p.fragments);
        ReportsDrive(lib, answers, start, p.fragments);
        if QuietLibrary(lib) {
          ReportsAreQuiet(lib, answers, start, p.fragments);
        }
        events := [ReadComplete(ReadData(items))];
        assert events[1..] == [];
      } else {
        events := [];
      }
    case Other(e) =>
      events := if IsData(e) then [] else [e];
      assert [e][1..] == [];
  }

  /**
  A session fed with bytes does what the state machine does on some events: on what the assembler reports
  of the bytes. So all that is proved of the state machine holds here.
  */
  lemma {:induction false} IsSessionRun<K(!new)>(lib: Library<K>, answers: Answers, h: Head<K>, xs: seq<Happening>)
    returns (events: seq<Event>)
    requires forall x :: x in xs && x.Other? ==> QuietEvent(x.event)
    ensures HandleAll(SessionOf(h), events) == SessionOf(RunAll(lib, answers, h, xs))
    ensures QuietLibrary(lib) ==> forall e :: e in events ==> QuietEvent(e)
    decreases |xs|
  {
    if xs == [] {
      events := [];
    } else {
      assert xs[0] in xs;
      var first := StepIsEvent(lib, answers, h, xs[0]);
      var more := IsSessionRun(lib, answers, Apply(lib, answers, h, xs[0]), xs[1..]);
      events := first + more;
      HandleAllConcat(SessionOf(h), first, more);
    }
  }

  /** Safety and cut-over on bytes: whatever the phone sends, and however it is cut. */
  lemma BytesKeepSessionSafe<K(!new)>(
    lib: Library<K>, answers: Answers, services: set<Byte>, k: K, xs: seq<Happening>)
    requires QuietLibrary(lib)
    requires forall x :: x in xs && x.Other? ==> QuietEvent(x.event)
    ensures Inv(SessionOf(RunAll(lib, answers, NewHead(services, k), xs)))
  {
    var events := IsSessionRun(lib, answers, NewHead(services, k), xs);
    StartKeeps(services);
    RunKeeps(Started(services), events);
  }
}
