/** Sending messages as frames, and putting frames together to messages, channel by channel. */
module Messages {
  import opened Bytes
  import opened ProtocolConstants
  import opened Framing
  import opened Crypto

  // ----- Outbound -----

  /** The message type, then the payload. */
  function MessagePayload(m: Message): (s: seq<Byte>)
    ensures |s| == 2 + |m.payload|
  {
    Be16(m.messageType) + m.payload
  }

  function FrameOf(m: Message, encrypted: bool, body: seq<Byte>): OutboundFrame {
    OutboundFrame(m.channel, ComputeFrameFlags(m.channel, m.messageType, encrypted), body)
  }

  datatype Sent<E> = Sent(crypto: E, wires: seq<seq<Byte>>, failed: bool)

  /** An unencrypted message: the two plaintext paths of the encoder. */
  function SendPlain<E>(e: E, m: Message): Sent<E> {
    Sent(e, Wires(FrameOf(m, false, MessagePayload(m))), false)
  }

  function Send<E>(s: Sealing<E>, e: E, m: Message): Sent<E> {
    if s.established(e) then
      match s.encrypt(e, MessagePayload(m))
      case Sealed(next, bytes) => Sent(next, Wires(FrameOf(m, true, bytes)), false)
      case SealFailed(next) => Sent(next, [], true)
    else
      SendPlain(e, m)
  }

  class OutboundMessageEncoder<E> {
    const sealing: Sealing<E>
    const framer: Framer
    var crypto: E

    constructor (sealing: Sealing<E>, crypto: E)
      ensures this.sealing == sealing && this.crypto == crypto
    {
      this.sealing := sealing;
      this.crypto := crypto;
      this.framer := new Framer();
    }

    method BuildMessagePayload(messageType: U16, payload: seq<Byte>) returns (full: seq<Byte>)
      ensures forall channel :: full == MessagePayload(Message(channel, messageType, payload))
    {
      full := [];
      full := full + [messageType / 0x100 % 0x100];
      full := full + [messageType % 0x100];
      full := full + payload;
    }

    method SendMessage(channel: Byte, messageType: U16, payload: seq<Byte>)
      returns (queued: seq<seq<Byte>>, failed: bool)
      modifies this
      ensures Sent(crypto, queued, failed) == Send(sealing, old(crypto), Message(channel, messageType, payload))
    {
      var full := BuildMessagePayload(messageType, payload);
      assert full == MessagePayload(Message(channel, messageType, payload));
      if sealing.established(crypto) {
        var flags := ComputeFrameFlags(channel, messageType, true);
        queued, failed := EncryptAndQueueFrame(channel, flags, full);
        return;
      }
      queued := QueueEncodedFrame(channel, messageType, false, full);
      failed := false;
    }

    method SendPlaintextControlMessage(messageType: U16, payload: seq<Byte>) returns (queued: seq<seq<Byte>>)
      ensures queued == SendPlain(crypto, Message(CONTROL_CHANNEL, messageType, payload)).wires
    {
      var full := BuildMessagePayload(messageType, payload);
      assert full == MessagePayload(Message(CONTROL_CHANNEL, messageType, payload));
      queued := QueueEncodedFrame(CONTROL_CHANNEL, messageType, false, full);
    }

    method QueueEncodedFrame(channel: Byte, messageType: U16, encrypted: bool, payload: seq<Byte>)
      returns (queued: seq<seq<Byte>>)
      ensures queued == Wires(OutboundFrame(channel, ComputeFrameFlags(channel, messageType, encrypted), payload))
    {
      var flags := ComputeFrameFlags(channel, messageType, encrypted);
      queued := QueueAll(OutboundFrame(channel, flags, payload));
    }

    method EncryptAndQueueFrame(channel: Byte, flags: Byte, plaintext: seq<Byte>)
      returns (queued: seq<seq<Byte>>, failed: bool)
      modifies this
      ensures match sealing.encrypt(old(crypto), plaintext)
        case Sealed(next, bytes) =>
          crypto == next && !failed && queued == Wires(OutboundFrame(channel, flags, bytes))
        case SealFailed(next) =>
          crypto == next && failed && queued == []
    {
      match sealing.encrypt(crypto, plaintext)
      case SealFailed(next) =>
        crypto := next;
        queued, failed := [], true;
      case Sealed(next, bytes) =>
        crypto := next;
        queued := QueueAll(OutboundFrame(channel, flags, bytes));
        failed := false;
    }

    /** Encode, then hand the wire frames over one by one. */
    method QueueAll(frame: OutboundFrame) returns (queued: seq<seq<Byte>>)
      ensures queued == Wires(frame)
    {
      var wires := framer.Encode(frame);
      queued := [];
      for i := 0 to |wires|
        invariant queued == wires[..i]
      {
        queued := queued + [wires[i]];
      }
    }
  }

  // ----- Inbound -----

  /** The receiver's crypto state and the unfinished payload of every channel. */
  datatype Assembly<K> = Assembly(crypto: K, buffers: map<Byte, seq<Byte>>)

  function Pending<K>(a: Assembly<K>, channel: Byte): seq<Byte> {
    if channel in a.buffers then a.buffers[channel] else []
  }

  datatype Appended<K> = Appended(crypto: K, buffer: seq<Byte>, ok: bool)

  /** Append one fragment to its channel's buffer. */
  function Append<K>(o: Opening<K>, crypto: K, buffer: seq<Byte>, f: Fragment): Appended<K> {
    var kept := if f.isFirst then [] else buffer;
    if f.encrypted && o.established(crypto) then
      match o.decrypt(crypto, f.payload)
      case Opened(next, bytes) => Appended(next, kept + bytes, true)
      case OpenFailed(next) => Appended(next, [], false)
    else
      Appended(crypto, kept + f.payload, true)
  }

  /** The message a finished buffer holds; less than two bytes are none. */
  function MessageIn(channel: Byte, buffer: seq<Byte>): Option<Message> {
    if |buffer| < 2 then None else Some(Message(channel, ReadBe16(buffer[0], buffer[1]), buffer[2..]))
  }

  datatype Run<K> = Run(state: Assembly<K>, messages: seq<Message>, errors: nat)

  function Then<K>(x: Run<K>, y: Run<K>): Run<K> {
    Run(y.state, x.messages + y.messages, x.errors + y.errors)
  }

  lemma ThenAssociates<K>(x: Run<K>, y: Run<K>, z: Run<K>)
    ensures Then(x, Then(y, z)) == Then(Then(x, y), z)
  {
  }

  /** One fragment: at most one message, at most one decryption error. */
  function Accept<K>(o: Opening<K>, a: Assembly<K>, f: Fragment): Run<K> {
    var x := Append(o, a.crypto, Pending(a, f.channel), f);
    if !x.ok then
      Run(Assembly(x.crypto, a.buffers[f.channel := []]), [], 1)
    else if !f.isLast then
      Run(Assembly(x.crypto, a.buffers[f.channel := x.buffer]), [], 0)
    else
      match MessageIn(f.channel, x.buffer)
      case None => Run(Assembly(x.crypto, a.buffers[f.channel := []]), [], 0)
      case Some(m) => Run(Assembly(o.react(x.crypto, m), a.buffers[f.channel := []]), [m], 0)
  }

  function AcceptAll<K>(o: Opening<K>, a: Assembly<K>, fs: seq<Fragment>): Run<K>
    decreases |fs|
  {
    if fs == [] then
      Run(a, [], 0)
    else
      var x := Accept(o, a, fs[0]);
      Then(x, AcceptAll(o, x.state, fs[1..]))
  }

  lemma {:induction false} AcceptConcat<K>(o: Opening<K>, a: Assembly<K>, fs: seq<Fragment>, gs: seq<Fragment>)
    ensures AcceptAll(o, a, fs + gs) == Then(AcceptAll(o, a, fs), AcceptAll(o, AcceptAll(o, a, fs).state, gs))
    decreases |fs|
  {
    if fs == [] {
      assert fs + gs == gs;
    } else {
      var x := Accept(o, a, fs[0]);
      ConcatTail(fs, gs);
      AcceptConcat(o, x.state, fs[1..], gs);
      var y := AcceptAll(o, x.state, fs[1..]);
      ThenAssociates(x, y, AcceptAll(o, y.state, gs));
    }
  }

  lemma AcceptOne<K>(o: Opening<K>, a: Assembly<K>, f: Fragment)
    ensures AcceptAll(o, a, [f]) == Accept(o, a, f)
  {
    assert [f][1..] == [];
  }

  lemma AcceptSnoc<K>(o: Opening<K>, a: Assembly<K>, fs: seq<Fragment>, f: Fragment)
    ensures AcceptAll(o, a, fs + [f]) == Then(AcceptAll(o, a, fs), Accept(o, AcceptAll(o, a, fs).state, f))
  {
    AcceptConcat(o, a, fs, [f]);
    AcceptOne(o, AcceptAll(o, a, fs).state, f);
  }

  class InboundMessageAssembler<K> {
    const opening: Opening<K>
    const framer: Framer
    var crypto: K
    var channelPayloads: map<Byte, seq<Byte>>

    constructor (opening: Opening<K>, crypto: K)
      ensures this.opening == opening
      ensures State() == Assembly(crypto, map[]) && fresh(framer) && framer.recvBuffer == []
    {
      this.opening := opening;
      this.crypto := crypto;
      this.channelPayloads := map[];
      this.framer := new Framer();
    }

    ghost function State(): Assembly<K>
      reads this
    {
      Assembly(crypto, channelPayloads)
    }

    /** Parse what arrived, and run the fragment callback on each fragment in turn. */
    method Feed(data: seq<Byte>) returns (messages: seq<Message>, errors: nat)
      requires framer.Settled()
      modifies this, framer
      ensures framer.Settled()
      ensures framer.recvBuffer == Parse(old(framer.recvBuffer) + data).rest
      ensures Run(State(), messages, errors)
        == AcceptAll(opening, old(State()), Parse(old(framer.recvBuffer) + data).fragments)
    {
      messages, errors := [], 0;
      ghost var start := State();
      var fragments := framer.Feed(data);
      for i := 0 to |fragments|
        invariant framer.recvBuffer == Parse(old(framer.recvBuffer) + data).rest
        invariant Run(State(), messages, errors) == AcceptAll(opening, start, fragments[..i])
      {
        var message, error := OnFragment(fragments[i]);
        assert fragments[..i + 1] == fragments[..i] + [fragments[i]];
        AcceptSnoc(opening, start, fragments[..i], fragments[i]);
        if message.Some? {
          messages := messages + [message.value];
        }
        if error {
          errors := errors + 1;
        }
      }
      assert fragments[..|fragments|] == fragments;
    }

    method OnFragment(fragment: Fragment) returns (message: Option<Message>, error: bool)
      modifies this
      ensures Run(State(), if message.Some? then [message.value] else [], if error then 1 else 0)
        == Accept(opening, old(State()), fragment)
    {
      message := None;
      var payload := if fragment.channel in channelPayloads then channelPayloads[fragment.channel] else [];
      var ok;
      payload, ok := AppendFragmentPayload(fragment, payload);
      if !ok || !fragment.isLast {
        channelPayloads := channelPayloads[fragment.channel := payload];
        return None, !ok;
      }
      payload, message := ExtractCompleteMessage(fragment.channel, payload);
      channelPayloads := channelPayloads[fragment.channel := payload];
      if message.Some? {
        crypto := opening.react(crypto, message.value);
      }
      error := false;
    }

    method AppendFragmentPayload(fragment: Fragment, channelPayload: seq<Byte>) returns (payload: seq<Byte>, ok: bool)
      modifies this`crypto
      ensures Appended(crypto, payload, ok) == Append(opening, old(crypto), channelPayload, fragment)
    {
      payload := channelPayload;
      if fragment.isFirst {
        payload := [];
      }
      if fragment.encrypted && opening.established(crypto) {
        match opening.decrypt(crypto, fragment.payload)
        case OpenFailed(next) =>
          crypto := next;
          return [], false;
        case Opened(next, bytes) =>
          crypto := next;
          return payload + bytes, true;
      }
      return payload + fragment.payload, true;
    }

    method ExtractCompleteMessage(channel: Byte, channelPayload: seq<Byte>)
      returns (payload: seq<Byte>, message: Option<Message>)
      ensures payload == [] && message == MessageIn(channel, channelPayload)
    {
      if |channelPayload| < 2 {
        return [], None;
      }
      message := Some(Message(channel, ReadBe16(channelPayload[0], channelPayload[1]), channelPayload[2..]));
      payload := [];
    }
  }
}
