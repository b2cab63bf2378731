/**
What a session's services hear of a phone that handshakes in the clear and then sends encrypted messages,
over any cut of the bytes and with anything else happening to the session in between.
*/
module SessionPath {
  import opened Bytes
  import opened ProtocolConstants
  import opened Framing
  import opened Crypto
  import opened Messages
  import opened EndToEnd
  import WriteQueue
  import opened Sessions
  import opened SessionSafety
  import opened ByteSession

  // ----- The library alone -----

  /** The library's state, whether the handshake is over or has failed, and the messages since it is over. */
  datatype Tape<K> = Tape(crypto: K, open: bool, failed: bool, log: seq<Message>)

  /** A version that is accepted starts the handshake, with no input; SSL data goes on with it. */
  function React<K>(lib: Library<K>, t: Tape<K>, m: Message): Tape<K> {
    if t.open then t.(log := t.log + [m])
    else if Refused(m) then t.(failed := true)
    else if m.messageType == 2 then Turn(t, lib.handshake(t.crypto, []))
    else if m.messageType == 3 then Turn(t, lib.handshake(t.crypto, m.payload))
    else t
  }

  function Turn<K>(t: Tape<K>, x: Stepped<K>): Tape<K> {
    match x.step
    case StepFailed => t.(crypto := x.next, failed := true)
    case StepDone(_, complete, _) => t.(crypto := x.next, open := complete)
  }

  function TapeDecrypt<K>(lib: Library<K>, t: Tape<K>, c: seq<Byte>): Opened<Tape<K>> {
    match lib.decrypt(t.crypto, c)
    case Opened(next, bytes) => Opened(t.(crypto := next), bytes)
    case OpenFailed(next) => OpenFailed(t.(crypto := next))
  }

  function TapeOpening<K>(lib: Library<K>): Opening<Tape<K>> {
    Opening((t: Tape<K>) => t.open,
            (t: Tape<K>, c: seq<Byte>) => TapeDecrypt(lib, t, c),
            (t: Tape<K>, m: Message) => React(lib, t, m))
  }

  function NewTape<K>(k: K): Tape<K> {
    Tape(k, false, false, [])
  }

  function ReactAll<K>(lib: Library<K>, t: Tape<K>, ms: seq<Message>): Tape<K>
    decreases |ms|
  {
    if ms == [] then t else ReactAll(lib, React(lib, t, ms[0]), ms[1..])
  }

  /** Once open the tape stays open, and only grows. */
  ghost predicate Goes<K>(t: Tape<K>, u: Tape<K>) {
    t.log <= u.log && (t.open ==> u.open) && (t.failed ==> u.failed) && (t.open && u.failed ==> t.failed)
  }

  lemma AcceptGoes<K>(lib: Library<K>, a: Assembly<Tape<K>>, f: Fragment)
    ensures var r := Accept(TapeOpening(lib), a, f);
      && Goes(a.crypto, r.state.crypto)
      && (a.crypto.open ==> r.state.crypto.log == a.crypto.log + r.messages)
  {
  }

  lemma {:induction false} AcceptAllGoes<K>(lib: Library<K>, a: Assembly<Tape<K>>, fs: seq<Fragment>)
    ensures var r := AcceptAll(TapeOpening(lib), a, fs);
      && Goes(a.crypto, r.state.crypto)
      && (a.crypto.open ==> r.state.crypto.log == a.crypto.log + r.messages)
    decreases |fs|
  {
    if fs != [] {
      var x := Accept(TapeOpening(lib), a, fs[0]);
      AcceptGoes(lib, a, fs[0]);
      AcceptAllGoes(lib, x.state, fs[1..]);
      ConcatAssociates(a.crypto.log, x.messages, AcceptAll(TapeOpening(lib), x.state, fs[1..]).messages);
    }
  }

  // ----- What the phone sends -----

  function Clear(ms: seq<Message>): seq<Item> {
    seq(|ms|, i requires 0 <= i < |ms| => Item(ms[i], false))
  }

  function Secret(ms: seq<Message>): seq<Item> {
    seq(|ms|, i requires 0 <= i < |ms| => Item(ms[i], true))
  }

  function ClearBytes<E>(s: Sealing<E>, e: E, ms: seq<Message>): seq<Byte> {
    Flatten(SendAll(s, e, Clear(ms)).wires)
  }

  function SecretBytes<E>(s: Sealing<E>, e: E, ms: seq<Message>): seq<Byte> {
    Flatten(SendAll(s, e, Secret(ms)).wires)
  }

  /** The decrypting half of the library as a cipher of its own. */
  function Cipher<K>(lib: Library<K>): Opening<K> {
    Opening((k: K) => true, lib.decrypt, (k: K, m: Message) => k)
  }

  ghost predicate LibraryLaws<E(!new), K(!new)>(lib: Library<K>, s: Sealing<E>, sync: (E, K) -> bool) {
    Laws(s, Cipher(lib), sync)
  }

  function TapeSync<E, K>(sync: (E, K) -> bool): (E, Tape<K>) -> bool {
    (e: E, t: Tape<K>) => t.open && sync(e, t.crypto)
  }

  lemma TapeStreams<E(!new), K(!new)>(lib: Library<K>, s: Sealing<E>, sync: (E, K) -> bool)
    requires LibraryLaws(lib, s, sync)
    ensures Streaming(TapeOpening(lib))
  {
    var o := TapeOpening(lib);
    forall t: Tape<K>, a: seq<Byte>, b: seq<Byte> | o.decrypt(t, a + b).Opened?
      ensures var first := o.decrypt(t, a);
        && first.Opened?
        && (o.established(t) ==> o.established(first.next))
        && var second := o.decrypt(first.next, b);
        && second.Opened?
        && o.decrypt(t, a + b) == Opened(second.next, first.bytes + second.bytes)
    {
      assert Cipher(lib).decrypt(t.crypto, a + b).Opened?;
    }
  }

  lemma TapeLaws<E(!new), K(!new)>(lib: Library<K>, s: Sealing<E>, sync: (E, K) -> bool)
    requires LibraryLaws(lib, s, sync)
    ensures Laws(s, TapeOpening(lib), TapeSync(sync))
  {
    TapeStreams(lib, s, sync);
    var o := TapeOpening(lib);
    forall e: E, t: Tape<K>, p: seq<Byte> | TapeSync(sync)(e, t) && p != []
      ensures var c := s.encrypt(e, p);
        && c.Sealed?
        && var d := o.decrypt(t, c.bytes);
        && d.Opened?
        && d.bytes == p
        && TapeSync(sync)(c.next, d.next)
    {
      assert sync(e, t.crypto);
      assert Cipher(lib).decrypt(t.crypto, s.encrypt(e, p).bytes).Opened?;
    }
  }

  /** One clear message: its fragments leave the tape as the message does. */
  lemma ClearArrives<K(!new)>(lib: Library<K>, a: Assembly<Tape<K>>, m: Message)
    requires Streaming(TapeOpening(lib))
    ensures var frame := FrameOf(m, false, MessagePayload(m));
      && AreFrames(Wires(frame), Fragments(frame))
      && AcceptAll(TapeOpening(lib), a, Fragments(frame)).state.crypto == React(lib, a.crypto, m)
  {
    var frame := FrameOf(m, false, MessagePayload(m));
    ComputedFlags(m.channel, m.messageType, false);
    FlagFacts(frame.flags, UNFRAGMENTED);
    MessageInPayload(m);
    WiresAreFrames(frame);
    AcceptFrame(TapeOpening(lib), a, frame, m);
  }

  lemma ClearStep<E>(s: Sealing<E>, e: E, ms: seq<Message>)
    requires ms != []
    ensures SendAll(s, e, Clear(ms)).wires
      == Wires(FrameOf(ms[0], false, MessagePayload(ms[0]))) + SendAll(s, e, Clear(ms[1..])).wires
  {
    assert Clear(ms)[1..] == Clear(ms[1..]);
    assert Clear(ms)[0] == Item(ms[0], false);
  }

  lemma {:induction false} ClearAllArrive<E, K(!new)>(
    lib: Library<K>, s: Sealing<E>, e: E, a: Assembly<Tape<K>>, ms: seq<Message>) returns (fs: seq<Fragment>)
    requires Streaming(TapeOpening(lib))
    ensures AreFrames(SendAll(s, e, Clear(ms)).wires, fs)
    ensures AcceptAll(TapeOpening(lib), a, fs).state.crypto == ReactAll(lib, a.crypto, ms)
    decreases |ms|
  {
    if ms == [] {
      fs := [];
    } else {
      var frame := FrameOf(ms[0], false, MessagePayload(ms[0]));
      var first := Fragments(frame);
      ClearArrives(lib, a, ms[0]);
      var b := AcceptAll(TapeOpening(lib), a, first).state;
      var more := ClearAllArrive(lib, s, e, b, ms[1..]);
      ClearStep(s, e, ms);
      FramesConcat(Wires(frame), first, SendAll(s, e, Clear(ms[1..])).wires, more);
      fs := first + more;
      AcceptConcat(TapeOpening(lib), a, first, more);
    }
  }

  /** The handshake's messages lead the library to a state in step with the phone's, with the last of them. */
  ghost predicate HandshakeSucceeds<E, K>(
    lib: Library<K>, sync: (E, K) -> bool, k: K, e: E, handshake: seq<Message>)
  {
    var t := ReactAll(lib, NewTape(k), handshake);
    t.open && !t.failed && t.log == [] && sync(e, t.crypto)
  }

  /** The tape after any part of the phone's bytes. */
  function TapeAfter<K>(lib: Library<K>, k: K, bytes: seq<Byte>): Assembly<Tape<K>> {
    AcceptAll(TapeOpening(lib), Assembly(NewTape(k), map[]), Parse(bytes).fragments).state
  }

  lemma TapeIsComplete<E(!new), K(!new)>(
    lib: Library<K>, s: Sealing<E>, sync: (E, K) -> bool, k: K, e: E, handshake: seq<Message>, ms: seq<Message>)
    requires LibraryLaws(lib, s, sync) && HandshakeSucceeds(lib, sync, k, e, handshake)
    ensures var t := TapeAfter(lib, k, ClearBytes(s, e, handshake) + SecretBytes(s, e, ms)).crypto;
      t.open && !t.failed && t.log == ms
  {
    TapeLaws(lib, s, sync);
    var o := TapeOpening(lib);
    var a := Assembly(NewTape(k), map[]);
    var fs := ClearAllArrive(lib, s, e, a, handshake);
    var b := AcceptAll(o, a, fs).state;
    var later := SecretBytes(s, e, ms);
    ItemsArrive(s, o, TapeSync(sync), e, b, Secret(ms));
    assert MessagesOf(Secret(ms)) == ms;
    ParseFrames(SendAll(s, e, Clear(handshake)).wires, fs, later);
    AcceptConcat(o, a, fs, Parse(later).fragments);
    AcceptAllGoes(lib, b, Parse(later).fragments);
    assert [] + ms == ms;
  }

  /** At any moment the tape holds a prefix of what the phone sent after the cut-over. */
  lemma TapeIsPrefix<E(!new), K(!new)>(
    lib: Library<K>, s: Sealing<E>, sync: (E, K) -> bool, k: K, e: E, handshake: seq<Message>, ms: seq<Message>,
    bytes: seq<Byte>)
    requires LibraryLaws(lib, s, sync) && HandshakeSucceeds(lib, sync, k, e, handshake)
    requires bytes <= ClearBytes(s, e, handshake) + SecretBytes(s, e, ms)
    ensures TapeAfter(lib, k, bytes).crypto.log <= ms && !TapeAfter(lib, k, bytes).crypto.failed
  {
    var all := ClearBytes(s, e, handshake) + SecretBytes(s, e, ms);
    TapeIsComplete(lib, s, sync, k, e, handshake, ms);
    ParsePrefix(bytes, all);
    var fs, gs := Parse(bytes).fragments, Parse(all).fragments;
    assert gs == fs + gs[|fs|..];
    AcceptConcat(TapeOpening(lib), Assembly(NewTape(k), map[]), fs, gs[|fs|..]);
    AcceptAllGoes(lib, TapeAfter(lib, k, bytes), gs[|fs|..]);
  }

  // ----- The session follows the tape -----

  /** The session is in the handshake the tape is in, or past the cut-over with the tape. */
  ghost predicate Follows<K>(u: Unit<K>, t: Tape<K>) {
    && u.crypto == t.crypto && !t.failed
    && u.session.established == t.open
    && (t.open <==> !IsHandshake(u.session.phase))
    && (t.open ==> u.session.phase != Idle)
    && u.session.toServices == Served(u.session.services, t.log)
  }

  /** The session has given up before the cut-over: it will not be established any more. */
  ghost predicate GaveUp(s: Status) {
    IsTerminal(s.phase) && !s.established
  }

  ghost predicate Tracks<K>(a: Assembly<Unit<K>>, b: Assembly<Tape<K>>) {
    GaveUp(a.crypto.session) || b.crypto.failed || (Follows(a.crypto, b.crypto) && a.buffers == b.buffers)
  }

  // ----- Sending changes nothing of this -----

  ghost predicate SameSide(s: Status, t: Status) {
    && t.established == s.established && t.services == s.services && t.toServices == s.toServices
    && (t.phase == s.phase || t.phase == Error)
  }

  lemma {:induction false} SendEachSameSide(s: Status, rs: seq<SendRequest>)
    ensures SameSide(s, SendEach(s, rs))
    ensures IsTerminal(s.phase) ==> SendEach(s, rs).phase == s.phase
    decreases |rs|
  {
    if rs != [] {
      SendEachSameSide(SendMessage(s, rs[0]), rs[1..]);
    }
  }

  lemma GaveUpDelivers(s: Status, m: Message, step: Step, replies: seq<SendRequest>)
    requires GaveUp(s)
    ensures GaveUp(Dispatch(s, m, step, replies))
  {
    SendEachSameSide(s.(toServices := s.toServices + [m]), replies);
  }

  lemma StepFollows<K>(lib: Library<K>, answers: Answers, u: Unit<K>, t: Tape<K>, m: Message)
    requires Follows(u, t) && !t.open
    ensures React(lib, t, m).failed || Follows(Deliver(lib, answers, u, m), React(lib, t, m))
  {
    if m.messageType == 2 {
      RefusedAlike(m);
    }
    if IsStep(m) {
      var x := lib.handshake(t.crypto, StepInput(m));
      if x.step.StepDone? {
        var s := if m.messageType == VERSION_RESPONSE then StartStateTimer(TransitionTo(u.session, SslHandshake))
          else u.session;
        HandshakeStepFollows(s, x.step);
        assert Deliver(lib, answers, u, m).session == OnHandshakeStep(s, x.step);
      }
    }
  }

  lemma HandshakeStepFollows(s: Status, step: Step)
    requires IsHandshake(s.phase) && !s.established && step.StepDone?
    ensures var t := OnHandshakeStep(s, step);
      && t.established == step.complete
      && (if step.complete then t.phase == Running else IsHandshake(t.phase))
      && t.services == s.services && t.toServices == s.toServices
  {
  }

  lemma LogFollows<K>(lib: Library<K>, answers: Answers, u: Unit<K>, t: Tape<K>, m: Message)
    requires Follows(u, t) && t.open
    ensures Follows(Deliver(lib, answers, u, m), React(lib, t, m))
  {
    SendEachSameSide(u.session.(toServices := u.session.toServices + [m]), answers(u.session, m));
    ServedConcat(u.session.services, t.log, [m]);
    assert [m][1..] == [];
  }

  lemma AcceptFollows<K>(
    lib: Library<K>, answers: Answers, a: Assembly<Unit<K>>, b: Assembly<Tape<K>>, f: Fragment)
    requires Follows(a.crypto, b.crypto) && a.buffers == b.buffers
    ensures var x := Accept(UnitOpening(lib, answers), a, f).state; var y := Accept(TapeOpening(lib), b, f).state;
      y.crypto.failed || (Follows(x.crypto, y.crypto) && x.buffers == y.buffers)
  {
    var x := Append(UnitOpening(lib, answers), a.crypto, Pending(a, f.channel), f);
    var y := Append(TapeOpening(lib), b.crypto, Pending(b, f.channel), f);
    assert Follows(x.crypto, y.crypto) && x.buffer == y.buffer && x.ok == y.ok;
    if x.ok && f.isLast && MessageIn(f.channel, x.buffer).Some? {
      var m := MessageIn(f.channel, x.buffer).value;
      if y.crypto.open {
        LogFollows(lib, answers, x.crypto, y.crypto, m);
      } else {
        StepFollows(lib, answers, x.crypto, y.crypto, m);
      }
    }
  }

  lemma {:induction false} AcceptAllFollows<K>(
    lib: Library<K>, answers: Answers, a: Assembly<Unit<K>>, b: Assembly<Tape<K>>, fs: seq<Fragment>)
    requires b.crypto.failed || (Follows(a.crypto, b.crypto) && a.buffers == b.buffers)
    ensures var x := AcceptAll(UnitOpening(lib, answers), a, fs).state;
      var y := AcceptAll(TapeOpening(lib), b, fs).state;
      y.crypto.failed || (Follows(x.crypto, y.crypto) && x.buffers == y.buffers)
    decreases |fs|
  {
    if b.crypto.failed {
      AcceptAllGoes(lib, b, fs);
    } else if fs != [] {
      AcceptFollows(lib, answers, a, b, fs[0]);
      AcceptAllFollows(lib, answers, Accept(UnitOpening(lib, answers), a, fs[0]).state,
                       Accept(TapeOpening(lib), b, fs[0]).state, fs[1..]);
    }
  }

  lemma AcceptGaveUp<K>(lib: Library<K>, answers: Answers, a: Assembly<Unit<K>>, f: Fragment)
    requires GaveUp(a.crypto.session)
    ensures GaveUp(Accept(UnitOpening(lib, answers), a, f).state.crypto.session)
  {
    var x := Append(UnitOpening(lib, answers), a.crypto, Pending(a, f.channel), f);
    assert x.crypto == a.crypto && x.ok;
    if f.isLast && MessageIn(f.channel, x.buffer).Some? {
      var m := MessageIn(f.channel, x.buffer).value;
      var step := lib.handshake(a.crypto.crypto, StepInput(m)).step;
      GaveUpDelivers(a.crypto.session, m, step, answers(a.crypto.session, m));
    }
  }

  lemma {:induction false} AcceptAllGaveUp<K>(
    lib: Library<K>, answers: Answers, a: Assembly<Unit<K>>, fs: seq<Fragment>)
    requires GaveUp(a.crypto.session)
    ensures GaveUp(AcceptAll(UnitOpening(lib, answers), a, fs).state.crypto.session)
    decreases |fs|
  {
    if fs != [] {
      AcceptGaveUp(lib, answers, a, fs[0]);
      AcceptAllGaveUp(lib, answers, Accept(UnitOpening(lib, answers), a, fs[0]).state, fs[1..]);
    }
  }

  /** What an event other than bytes may do: go on to Disconnecting from Running, or end the session. */
  ghost predicate Onward(s: Status, t: Status) {
    && t.services == s.services && t.toServices == s.toServices && t.established == s.established
    && (t.phase == s.phase || IsTerminal(t.phase) || (s.phase == Running && t.phase == Disconnecting))
    && (IsTerminal(s.phase) ==> t.phase == s.phase)
  }

  lemma ErrorOnward(s: Status, cause: Cause)
    ensures Onward(s, HandleError(s, cause))
  {
  }

  lemma SendOnward(s: Status, r: SendRequest)
    ensures Onward(s, SendMessage(s, r))
  {
  }

  lemma StopOnward(s: Status, bye: SendRequest)
    ensures Onward(s, OnStop(s, bye))
  {
    if s.phase == Running {
      SendOnward(StartStateTimer(TransitionTo(s, Disconnecting)), bye);
    } else {
      ErrorOnward(s, SessionTerminated);
    }
  }

  lemma TimeoutOnward(s: Status)
    ensures Onward(s, OnStateTimeout(s))
  {
    ErrorOnward(s, VersionMismatch);
    ErrorOnward(s, SslHandshakeFailed);
  }

  lemma WriteOnward(s: Status, r: WriteResult)
    requires s.writer.outstanding.Some?
    ensures Onward(s, OnWriteComplete(s, r))
  {
    ErrorOnward(s.(writer := WriteQueue.Complete(s.writer, r.Written?)), TransportWriteError);
  }

  /** Anything that is not bytes leaves the session with its tape, or ends its handshake for good. */
  lemma EventOnward(s: Status, e: Event)
    requires !IsData(e)
    ensures Onward(s, Handle(s, e))
  {
    match e
    case Stop(bye) => StopOnward(s, bye);
    case ReadComplete(r) => ErrorOnward(s.(reading := false), TransportReadError);
    case WriteComplete(r) =>
      if s.writer.outstanding.Some? {
        WriteOnward(s, r);
      }
    case Timeout => TimeoutOnward(s);
    case Submit(r) => SendOnward(s, r);
  }

  // ----- Whole runs -----

  /** The head has read `seen`. */
  ghost predicate Reached<K>(lib: Library<K>, k: K, h: Head<K>, seen: seq<Byte>) {
    h.rest == Parse(seen).rest && Tracks(h.assembly, TapeAfter(lib, k, seen))
  }

  lemma TapeGoesOn<K>(lib: Library<K>, k: K, seen: seq<Byte>, chunk: seq<Byte>)
    ensures var p := Parse(Parse(seen).rest + chunk);
      && Parse(seen + chunk).rest == p.rest
      && TapeAfter(lib, k, seen + chunk) == AcceptAll(TapeOpening(lib), TapeAfter(lib, k, seen), p.fragments).state
  {
    ParseConcat(seen, chunk);
    AcceptConcat(TapeOpening(lib), Assembly(NewTape(k), map[]), Parse(seen).fragments,
                 Parse(Parse(seen).rest + chunk).fragments);
  }

  lemma BytesFollow<K>(
    lib: Library<K>, answers: Answers, h: Head<K>, b: Assembly<Tape<K>>, chunk: seq<Byte>)
    requires Tracks(h.assembly, b) && !GaveUp(SessionOf(h))
    ensures var a := OnBytes(lib, answers, h, chunk).assembly;
      var c := AcceptAll(TapeOpening(lib), b, Parse(h.rest + chunk).fragments).state;
      c.crypto.failed || (Follows(a.crypto, c.crypto) && a.buffers == c.buffers)
  {
    var start := WithSession(h.assembly, SessionOf(h).(reading := false));
    AcceptAllFollows(lib, answers, start, b, Parse(h.rest + chunk).fragments);
  }

  lemma BytesReach<K>(lib: Library<K>, answers: Answers, k: K, h: Head<K>, seen: seq<Byte>, chunk: seq<Byte>)
    requires Reached(lib, k, h, seen)
    ensures var g := OnBytes(lib, answers, h, chunk);
      && Reached(lib, k, g, seen + chunk)
      && (!GaveUp(SessionOf(h)) && !TapeAfter(lib, k, seen + chunk).crypto.failed ==> !GaveUp(SessionOf(g)))
  {
    TapeGoesOn(lib, k, seen, chunk);
    if GaveUp(SessionOf(h)) {
      var start := WithSession(h.assembly, SessionOf(h).(reading := false));
      AcceptAllGaveUp(lib, answers, start, Parse(h.rest + chunk).fragments);
    } else {
      BytesFollow(lib, answers, h, TapeAfter(lib, k, seen), chunk);
    }
  }

  lemma OtherReaches<K>(lib: Library<K>, answers: Answers, k: K, h: Head<K>, seen: seq<Byte>, e: Event)
    requires Reached(lib, k, h, seen)
    ensures Reached(lib, k, Apply(lib, answers, h, Other(e)), seen)
  {
    if !IsData(e) {
      EventOnward(SessionOf(h), e);
    }
  }

  ghost predicate OnlyBytes(xs: seq<Happening>) {
    forall x :: x in xs ==> x.BytesRead?
  }

  lemma {:induction false} RunReaches<K>(
    lib: Library<K>, answers: Answers, k: K, h: Head<K>, seen: seq<Byte>, xs: seq<Happening>)
    requires Reached(lib, k, h, seen)
    ensures var g := RunAll(lib, answers, h, xs); var all := seen + Consumed(lib, answers, h, xs);
      && Reached(lib, k, g, all)
      && (OnlyBytes(xs) && !GaveUp(SessionOf(h)) && !TapeAfter(lib, k, all).crypto.failed ==> !GaveUp(SessionOf(g)))
    decreases |xs|
  {
    if xs == [] {
      assert seen + [] == seen;
    } else {
      var g := Apply(lib, answers, h, xs[0]);
      var read := if xs[0].BytesRead? && SessionOf(h).reading then xs[0].chunk else [];
      assert seen + [] == seen;
      match xs[0] {
        case BytesRead(chunk) =>
          if SessionOf(h).reading {
            BytesReach(lib, answers, k, h, seen, chunk);
          }
        case Other(e) => OtherReaches(lib, answers, k, h, seen, e);
      }
      RunReaches(lib, answers, k, g, seen + read, xs[1..]);
      var later := Consumed(lib, answers, g, xs[1..]);
      ConcatAssociates(seen, read, later);
      TapeNeverHeals(lib, k, seen + read, later);
      if OnlyBytes(xs) {
        assert xs[0] in xs;
        assert OnlyBytes(xs[1..]);
      }
    }
  }

  lemma TapeNeverHeals<K>(lib: Library<K>, k: K, seen: seq<Byte>, later: seq<Byte>)
    ensures TapeAfter(lib, k, seen).crypto.failed ==> TapeAfter(lib, k, seen + later).crypto.failed
  {
    TapeGoesOn(lib, k, seen, later);
    AcceptAllGoes(lib, TapeAfter(lib, k, seen), Parse(Parse(seen).rest + later).fragments);
  }

  lemma HeadStarts<K>(lib: Library<K>, services: set<Byte>, k: K)
    ensures Reached(lib, k, NewHead(services, k), []) && !GaveUp(Started(services))
  {
    assert TapeAfter(lib, k, []) == Assembly(NewTape(k), map[]);
  }

  lemma ServedPrefix(services: set<Byte>, a: seq<Message>, b: seq<Message>)
    requires a <= b
    ensures Served(services, a) <= Served(services, b)
  {
    assert b == a + b[|a|..];
    ServedConcat(services, a, b[|a|..]);
  }

  /**
  A phone sends its handshake in the clear and then any messages encrypted. For any part of these bytes,
  cut anywhere, cut-over in the middle of a read included, any answers of the services, and anything else
  happening in between: a session that got past the cut-over has given its services a prefix of the
  messages sent after it, and none of the handshake. With all bytes read it has given them all of these
  messages, unless it had given up during the handshake; and no bytes make it give up.
  */
  lemma SessionHearsThePhone<E(!new), K(!new)>(
    lib: Library<K>, s: Sealing<E>, sync: (E, K) -> bool, answers: Answers, services: set<Byte>,
    k: K, e: E, handshake: seq<Message>, ms: seq<Message>, xs: seq<Happening>)
    requires LibraryLaws(lib, s, sync) && HandshakeSucceeds(lib, sync, k, e, handshake)
    requires Consumed(lib, answers, NewHead(services, k), xs) <= ClearBytes(s, e, handshake) + SecretBytes(s, e, ms)
    ensures var t := SessionOf(RunAll(lib, answers, NewHead(services, k), xs));
      var all := Consumed(lib, answers, NewHead(services, k), xs) == ClearBytes(s, e, handshake) + SecretBytes(s, e, ms);
      && (t.established ==> t.toServices <= Served(t.services, ms))
      && (all && !GaveUp(t) ==> t.established && t.toServices == Served(t.services, ms))
      && (OnlyBytes(xs) ==> !GaveUp(t))
  {
    var h := NewHead(services, k);
    var bytes := Consumed(lib, answers, h, xs);
    var t := SessionOf(RunAll(lib, answers, h, xs));
    HeadStarts(lib, services, k);
    RunReaches(lib, answers, k, h, [], xs);
    assert [] + bytes == bytes;
    TapeIsPrefix(lib, s, sync, k, e, handshake, ms, bytes);
    TapeIsComplete(lib, s, sync, k, e, handshake, ms);
    ServedPrefix(t.services, TapeAfter(lib, k, bytes).crypto.log, ms);
  }

  // ----- The assumptions can be met -----

  /** The record cipher as a library: the handshake is over with the first step that has input. */
  function RecordLibrary(): Library<seq<Byte>> {
    Library(RecordDecrypt, (k: seq<Byte>, input: seq<Byte>) => Stepped([], StepDone([], input != [], None)))
  }

  function InRecords(): (nat, seq<Byte>) -> bool {
    (e: nat, k: seq<Byte>) => k == []
  }

  lemma RecordLibraryLaws()
    ensures LibraryLaws(RecordLibrary(), RecordSealing(), InRecords())
  {
    var o := Cipher(RecordLibrary());
    forall k: seq<Byte>, a: seq<Byte>, b: seq<Byte>
      ensures var first := RecordDecrypt(k, a); var second := RecordDecrypt(first.next, b);
        o.decrypt(k, a + b) == Opened(second.next, first.bytes + second.bytes)
    {
      RecordsStream(k, a, b);
    }
    forall e: nat, p: seq<Byte>
      ensures RecordDecrypt([], RecordEncrypt(e, p).bytes) == Opened([], p)
    {
      RecordsDecrypt(e, p);
    }
  }

  /** A version response and one step, by a library with quiet steps. */
  lemma RecordHandshake()
    ensures QuietLibrary(RecordLibrary())
    ensures HandshakeSucceeds(RecordLibrary(), InRecords(), [], 0,
      [Message(CONTROL_CHANNEL, VERSION_RESPONSE, []), Message(CONTROL_CHANNEL, ENCAPSULATED_SSL, [22])])
  {
    var version, finished := Message(CONTROL_CHANNEL, VERSION_RESPONSE, []), Message(CONTROL_CHANNEL, ENCAPSULATED_SSL, [22]);
    var lib := RecordLibrary();
    assert [version, finished][1..] == [finished] && [finished][1..] == [];
    assert React(lib, NewTape([]), version) == NewTape([]);
    assert React(lib, NewTape([]), finished) == Tape([], true, false, []);
    assert ReactAll(lib, NewTape([]), [finished]) == ReactAll(lib, Tape([], true, false, []), []);
    assert ReactAll(lib, NewTape([]), [version, finished]) == ReactAll(lib, NewTape([]), [finished]);
  }
}
