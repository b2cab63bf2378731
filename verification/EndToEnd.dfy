/**
Messages in, messages out: what one side's encoder sends, the other side's assembler delivers.

The sender encrypts a whole message and then cuts the ciphertext; the receiver decrypts each fragment
and puts the plaintext together, from a byte stream cut anywhere.
*/
module EndToEnd {
  import opened Bytes
  import opened ProtocolConstants
  import opened Framing
  import opened Crypto
  import opened Messages

  // ----- One message -----

  /** Reading bytes through the cipher, or as they are. */
  function Read<K>(o: Opening<K>, k: K, encrypted: bool, c: seq<Byte>): Opened<K> {
    if encrypted then o.decrypt(k, c) else Opened(k, c)
  }

  lemma ReadSplits<K(!new)>(o: Opening<K>, k: K, encrypted: bool, a: seq<Byte>, b: seq<Byte>)
    requires Streaming(o) && (encrypted ==> o.established(k))
    requires Read(o, k, encrypted, a + b).Opened?
    ensures var first := Read(o, k, encrypted, a);
      && first.Opened?
      && (encrypted ==> o.established(first.next))
      && var second := Read(o, first.next, encrypted, b);
      && second.Opened?
      && Read(o, k, encrypted, a + b) == Opened(second.next, first.bytes + second.bytes)
  {
  }

  function Upto(payload: seq<Byte>, i: nat): seq<Byte> {
    payload[..Min(i * MAX_PAYLOAD, |payload|)]
  }

  lemma UptoSplits(frame: OutboundFrame, i: nat)
    requires 0 < i <= FrameCount(|frame.payload|)
    ensures Upto(frame.payload, i) == Upto(frame.payload, i - 1) + Piece(frame.payload, i - 1)
    ensures i == FrameCount(|frame.payload|) ==> Upto(frame.payload, i) == frame.payload
  {
  }

  /** One readable fragment that is not the last of its message. */
  lemma AcceptMore<K>(o: Opening<K>, a: Assembly<K>, f: Fragment)
    requires f.encrypted ==> o.established(a.crypto)
    requires Read(o, a.crypto, f.encrypted, f.payload).Opened? && !f.isLast
    ensures var d := Read(o, a.crypto, f.encrypted, f.payload);
      Accept(o, a, f) == Run(
        Assembly(d.next, a.buffers[f.channel := (if f.isFirst then [] else Pending(a, f.channel)) + d.bytes]), [], 0)
  {
  }

  /** One readable fragment that is the last of its message. */
  lemma AcceptLast<K>(o: Opening<K>, a: Assembly<K>, f: Fragment, m: Message)
    requires f.encrypted ==> o.established(a.crypto)
    requires Read(o, a.crypto, f.encrypted, f.payload).Opened? && f.isLast
    requires MessageIn(f.channel, (if f.isFirst then [] else Pending(a, f.channel))
      + Read(o, a.crypto, f.encrypted, f.payload).bytes) == Some(m)
    ensures Accept(o, a, f) == Run(
      Assembly(o.react(Read(o, a.crypto, f.encrypted, f.payload).next, m), a.buffers[f.channel := []]), [m], 0)
  {
  }

  /** The whole ciphertext is readable, so all parts of it from the front are. */
  lemma PrefixReads<K(!new)>(o: Opening<K>, k: K, frame: OutboundFrame, i: nat)
    requires Streaming(o) && (HasEncrypted(frame.flags) ==> o.established(k))
    requires Read(o, k, HasEncrypted(frame.flags), frame.payload).Opened?
    ensures var d := Read(o, k, HasEncrypted(frame.flags), Upto(frame.payload, i));
      d.Opened? && (HasEncrypted(frame.flags) ==> o.established(d.next))
  {
    var c := frame.payload;
    var front := Upto(c, i);
    assert c == front + c[|front|..];
    ReadSplits(o, k, HasEncrypted(frame.flags), front, c[|front|..]);
  }

  /** What the channel holds after the first `i` fragments: the plaintext of the ciphertext seen so far. */
  function After<K>(o: Opening<K>, a: Assembly<K>, frame: OutboundFrame, i: nat): Run<K>
    requires Read(o, a.crypto, HasEncrypted(frame.flags), Upto(frame.payload, i)).Opened?
  {
    var d := Read(o, a.crypto, HasEncrypted(frame.flags), Upto(frame.payload, i));
    Run(Assembly(d.next, a.buffers[frame.channel := d.bytes]), [], 0)
  }

  lemma AcceptFirstPiece<K(!new)>(o: Opening<K>, a: Assembly<K>, frame: OutboundFrame)
    requires 1 < FrameCount(|frame.payload|)
    requires HasEncrypted(frame.flags) ==> o.established(a.crypto)
    requires Read(o, a.crypto, HasEncrypted(frame.flags), Upto(frame.payload, 1)).Opened?
    ensures Accept(o, a, Fragments(frame)[0]) == After(o, a, frame, 1)
  {
    var f := Fragments(frame)[0];
    assert f.payload == Upto(frame.payload, 1);
    AcceptMore(o, a, f);
    var bytes := Read(o, a.crypto, HasEncrypted(frame.flags), f.payload).bytes;
    assert [] + bytes == bytes;
  }

  lemma AcceptNextPiece<K(!new)>(o: Opening<K>, a: Assembly<K>, frame: OutboundFrame, i: nat)
    requires Streaming(o)
    requires 1 < i < FrameCount(|frame.payload|)
    requires HasEncrypted(frame.flags) ==> o.established(a.crypto)
    requires Read(o, a.crypto, HasEncrypted(frame.flags), Upto(frame.payload, i)).Opened?
    ensures Read(o, a.crypto, HasEncrypted(frame.flags), Upto(frame.payload, i - 1)).Opened?
    ensures Accept(o, After(o, a, frame, i - 1).state, Fragments(frame)[i - 1]) == After(o, a, frame, i)
  {
    var f := Fragments(frame)[i - 1];
    UptoSplits(frame, i);
    ReadSplits(o, a.crypto, HasEncrypted(frame.flags), Upto(frame.payload, i - 1), f.payload);
    var x := After(o, a, frame, i - 1).state;
    AcceptMore(o, x, f);
    var bytes := Read(o, a.crypto, HasEncrypted(frame.flags), Upto(frame.payload, i)).bytes;
    assert x.buffers[frame.channel := bytes] == a.buffers[frame.channel := bytes];
  }

  lemma {:induction false} AcceptPieces<K(!new)>(o: Opening<K>, a: Assembly<K>, frame: OutboundFrame, i: nat)
    requires Streaming(o)
    requires 0 < i < FrameCount(|frame.payload|)
    requires HasEncrypted(frame.flags) ==> o.established(a.crypto)
    requires Read(o, a.crypto, HasEncrypted(frame.flags), frame.payload).Opened?
    ensures Read(o, a.crypto, HasEncrypted(frame.flags), Upto(frame.payload, i)).Opened?
    ensures AcceptAll(o, a, Fragments(frame)[..i]) == After(o, a, frame, i)
  {
    var fs := Fragments(frame);
    PrefixReads(o, a.crypto, frame, i);
    if i == 1 {
      AcceptFirstPiece(o, a, frame);
      assert fs[..1] == [fs[0]];
      AcceptOne(o, a, fs[0]);
    } else {
      AcceptPieces(o, a, frame, i - 1);
      assert fs[..i] == fs[..i - 1] + [fs[i - 1]];
      AcceptSnoc(o, a, fs[..i - 1], fs[i - 1]);
      AcceptNextPiece(o, a, frame, i);
    }
  }

  /** The result of a whole frame that reads as message `m`. */
  function Done<K>(o: Opening<K>, a: Assembly<K>, frame: OutboundFrame, m: Message): Run<K>
    requires Read(o, a.crypto, HasEncrypted(frame.flags), frame.payload).Opened?
  {
    var d := Read(o, a.crypto, HasEncrypted(frame.flags), frame.payload);
    Run(Assembly(o.react(d.next, m), a.buffers[frame.channel := []]), [m], 0)
  }

  lemma AcceptLastPiece<K(!new)>(o: Opening<K>, a: Assembly<K>, frame: OutboundFrame, m: Message)
    requires Streaming(o)
    requires 1 < FrameCount(|frame.payload|)
    requires HasEncrypted(frame.flags) ==> o.established(a.crypto)
    requires Read(o, a.crypto, HasEncrypted(frame.flags), frame.payload).Opened?
    requires MessageIn(frame.channel, Read(o, a.crypto, HasEncrypted(frame.flags), frame.payload).bytes) == Some(m)
    ensures var n := FrameCount(|frame.payload|);
      && Read(o, a.crypto, HasEncrypted(frame.flags), Upto(frame.payload, n - 1)).Opened?
      && Accept(o, After(o, a, frame, n - 1).state, Fragments(frame)[n - 1]) == Done(o, a, frame, m)
  {
    var n := FrameCount(|frame.payload|);
    var f := Fragments(frame)[n - 1];
    UptoSplits(frame, n);
    ReadSplits(o, a.crypto, HasEncrypted(frame.flags), Upto(frame.payload, n - 1), f.payload);
    var x := After(o, a, frame, n - 1).state;
    AcceptLast(o, x, f, m);
    assert x.buffers[frame.channel := []] == a.buffers[frame.channel := []];
  }

  lemma AcceptOnlyPiece<K(!new)>(o: Opening<K>, a: Assembly<K>, frame: OutboundFrame, m: Message)
    requires FrameCount(|frame.payload|) == 1
    requires HasEncrypted(frame.flags) ==> o.established(a.crypto)
    requires Read(o, a.crypto, HasEncrypted(frame.flags), frame.payload).Opened?
    requires MessageIn(frame.channel, Read(o, a.crypto, HasEncrypted(frame.flags), frame.payload).bytes) == Some(m)
    ensures Accept(o, a, Fragments(frame)[0]) == Done(o, a, frame, m)
  {
    var f := Fragments(frame)[0];
    assert f.payload == frame.payload;
    var bytes := Read(o, a.crypto, HasEncrypted(frame.flags), f.payload).bytes;
    assert [] + bytes == bytes;
    AcceptLast(o, a, f, m);
  }

  /** All fragments of one frame: one message, and the channel's buffer is empty again. */
  lemma AcceptFrame<K(!new)>(o: Opening<K>, a: Assembly<K>, frame: OutboundFrame, m: Message)
    requires Streaming(o)
    requires HasEncrypted(frame.flags) ==> o.established(a.crypto)
    requires Read(o, a.crypto, HasEncrypted(frame.flags), frame.payload).Opened?
    requires MessageIn(frame.channel, Read(o, a.crypto, HasEncrypted(frame.flags), frame.payload).bytes) == Some(m)
    ensures AcceptAll(o, a, Fragments(frame)) == Done(o, a, frame, m)
  {
    var fs := Fragments(frame);
    var n := FrameCount(|frame.payload|);
    var f := fs[n - 1];
    if n == 1 {
      AcceptOnlyPiece(o, a, frame, m);
      assert fs == [f];
      AcceptOne(o, a, f);
    } else {
      AcceptPieces(o, a, frame, n - 1);
      assert fs == fs[..n - 1] + [f];
      AcceptSnoc(o, a, fs[..n - 1], f);
      AcceptLastPiece(o, a, frame, m);
    }
  }

  lemma MessageInPayload(m: Message)
    ensures MessageIn(m.channel, MessagePayload(m)) == Some(m)
  {
    Be16Value(m.messageType);
    assert MessagePayload(m)[2..] == m.payload;
    assert MessagePayload(m)[..2] == Be16(m.messageType);
  }

  // ----- A list of messages -----

  /** A message and the path it takes: through the cipher, or in the clear. */
  datatype Item = Item(message: Message, sealed: bool)

  function MessagesOf(items: seq<Item>): seq<Message> {
    seq(|items|, i requires 0 <= i < |items| => items[i].message)
  }

  function SendItem<E>(s: Sealing<E>, e: E, item: Item): Sent<E> {
    if item.sealed then Send(s, e, item.message) else SendPlain(e, item.message)
  }

  /** Everything the sender's encoder queues for the items, in order. */
  function SendAll<E>(s: Sealing<E>, e: E, items: seq<Item>): Sent<E>
    decreases |items|
  {
    if items == [] then
      Sent(e, [], false)
    else
      var x := SendItem(s, e, items[0]);
      var y := SendAll(s, x.crypto, items[1..]);
      Sent(y.crypto, x.wires + y.wires, x.failed || y.failed)
  }

  ghost predicate Ready<E, K>(e: E, k: K, sync: (E, K) -> bool, items: seq<Item>) {
    (forall item :: item in items ==> !item.sealed) || sync(e, k)
  }

  lemma ItemArrives<E(!new), K(!new)>(
    s: Sealing<E>, o: Opening<K>, sync: (E, K) -> bool, e: E, a: Assembly<K>, item: Item)
    returns (fs: seq<Fragment>)
    requires Laws(s, o, sync) && (item.sealed ==> sync(e, a.crypto))
    ensures var x := SendItem(s, e, item);
      && !x.failed
      && AreFrames(x.wires, fs)
      && AcceptAll(o, a, fs).messages == [item.message]
      && AcceptAll(o, a, fs).errors == 0
      && (sync(e, a.crypto) ==> sync(x.crypto, AcceptAll(o, a, fs).state.crypto))
  {
    var m := item.message;
    var body := if item.sealed then s.encrypt(e, MessagePayload(m)).bytes else MessagePayload(m);
    var frame := FrameOf(m, item.sealed, body);
    ComputedFlags(m.channel, m.messageType, item.sealed);
    FlagFacts(frame.flags, UNFRAGMENTED);
    MessageInPayload(m);
    fs := Fragments(frame);
    WiresAreFrames(frame);
    AcceptFrame(o, a, frame, m);
  }

  /** What a list of items comes to, from its first item and the rest. */
  lemma SendStep<E>(s: Sealing<E>, e: E, items: seq<Item>)
    requires items != []
    ensures var x := SendItem(s, e, items[0]); var y := SendAll(s, x.crypto, items[1..]);
      && SendAll(s, e, items).failed == (x.failed || y.failed)
      && Flatten(SendAll(s, e, items).wires) == Flatten(x.wires) + Flatten(y.wires)
    ensures MessagesOf(items) == [items[0].message] + MessagesOf(items[1..])
  {
    var x := SendItem(s, e, items[0]);
    FlattenConcat(x.wires, SendAll(s, x.crypto, items[1..]).wires);
  }

  /** The wire frames of a list of messages, parsed and assembled in one go. */
  lemma {:induction false} ItemsArrive<E(!new), K(!new)>(
    s: Sealing<E>, o: Opening<K>, sync: (E, K) -> bool, e: E, a: Assembly<K>, items: seq<Item>)
    requires Laws(s, o, sync) && Ready(e, a.crypto, sync, items)
    ensures !SendAll(s, e, items).failed
    ensures Parse(Flatten(SendAll(s, e, items).wires)).rest == []
    ensures var p := Parse(Flatten(SendAll(s, e, items).wires));
      AcceptAll(o, a, p.fragments).messages == MessagesOf(items) && AcceptAll(o, a, p.fragments).errors == 0
    decreases |items|
  {
    if items == [] {
      assert MessagesOf(items) == [];
    } else {
      var x := SendItem(s, e, items[0]);
      var fs := ItemArrives(s, o, sync, e, a, items[0]);
      var b := AcceptAll(o, a, fs).state;
      ItemsArrive(s, o, sync, x.crypto, b, items[1..]);
      SendStep(s, e, items);
      var later := Flatten(SendAll(s, x.crypto, items[1..]).wires);
      ParseFrames(x.wires, fs, later);
      AcceptConcat(o, a, fs, Parse(later).fragments);
    }
  }

  // ----- Over a byte stream -----

  /** The receiver, fed with one read after the other. */
  function Receive<K>(o: Opening<K>, a: Assembly<K>, rest: seq<Byte>, chunks: seq<seq<Byte>>): Run<K>
    decreases |chunks|
  {
    if chunks == [] then
      Run(a, [], 0)
    else
      var p := Parse(rest + chunks[0]);
      var x := AcceptAll(o, a, p.fragments);
      Then(x, Receive(o, x.state, p.rest, chunks[1..]))
  }

  lemma {:induction false} ReceiveIsOneRun<K>(o: Opening<K>, a: Assembly<K>, rest: seq<Byte>, chunks: seq<seq<Byte>>)
    requires !HasFrame(rest)
    ensures Receive(o, a, rest, chunks) == AcceptAll(o, a, Parse(rest + Flatten(chunks)).fragments)
    decreases |chunks|
  {
    ChunkingDoesNotMatter(rest, chunks);
    if chunks != [] {
      var p := Parse(rest + chunks[0]);
      var x := AcceptAll(o, a, p.fragments);
      ReceiveIsOneRun(o, x.state, p.rest, chunks[1..]);
      ChunkingDoesNotMatter(p.rest, chunks[1..]);
      AcceptConcat(o, a, p.fragments, FeedAll(p.rest, chunks[1..]).fragments);
    }
  }

  /** The receiver of a list of messages, after all of its bytes in any chunks, has delivered exactly the list. */
  lemma Delivery<E(!new), K(!new)>(
    s: Sealing<E>, o: Opening<K>, sync: (E, K) -> bool, e: E, a: Assembly<K>, items: seq<Item>, chunks: seq<seq<Byte>>)
    requires Laws(s, o, sync) && Ready(e, a.crypto, sync, items)
    requires Flatten(chunks) == Flatten(SendAll(s, e, items).wires)
    ensures Receive(o, a, [], chunks).messages == MessagesOf(items)
    ensures Receive(o, a, [], chunks).errors == 0
    ensures FeedAll([], chunks).rest == []
  {
    assert [] + Flatten(chunks) == Flatten(chunks);
    ReceiveIsOneRun(o, a, [], chunks);
    ChunkingDoesNotMatter([], chunks);
    ItemsArrive(s, o, sync, e, a, items);
  }

  lemma AcceptPrefix<K>(o: Opening<K>, a: Assembly<K>, some: seq<Fragment>, all: seq<Fragment>)
    requires some <= all
    ensures AcceptAll(o, a, some).messages <= AcceptAll(o, a, all).messages
    ensures AcceptAll(o, a, some).errors <= AcceptAll(o, a, all).errors
  {
    assert all == some + all[|some|..];
    AcceptConcat(o, a, some, all[|some|..]);
  }

  /** At any moment, with any part of the bytes arrived, what is delivered is a prefix of what was sent. */
  lemma DeliveredSoFar<E(!new), K(!new)>(
    s: Sealing<E>, o: Opening<K>, sync: (E, K) -> bool, e: E, a: Assembly<K>, items: seq<Item>, chunks: seq<seq<Byte>>)
    requires Laws(s, o, sync) && Ready(e, a.crypto, sync, items)
    requires Flatten(chunks) <= Flatten(SendAll(s, e, items).wires)
    ensures Receive(o, a, [], chunks).messages <= MessagesOf(items)
    ensures Receive(o, a, [], chunks).errors == 0
  {
    var stream := Flatten(SendAll(s, e, items).wires);
    assert [] + Flatten(chunks) == Flatten(chunks);
    ReceiveIsOneRun(o, a, [], chunks);
    ItemsArrive(s, o, sync, e, a, items);
    ParsePrefix(Flatten(chunks), stream);
    AcceptPrefix(o, a, Parse(Flatten(chunks)).fragments, Parse(stream).fragments);
  }

  // ----- The laws can be met -----

  /** A cipher of records: nothing of a record can be read before all of it is there. */
  function RecordEncrypt(e: nat, p: seq<Byte>): Sealed<nat> {
    Sealed(e + 1, Flatten(Wires(OutboundFrame(0, UNFRAGMENTED, p))))
  }

  function RecordDecrypt(k: seq<Byte>, c: seq<Byte>): Opened<seq<Byte>> {
    var p := Parse(k + c);
    Opened(p.rest, Flatten(Payloads(p.fragments)))
  }

  function RecordSealing(): Sealing<nat> {
    Sealing(e => true, RecordEncrypt)
  }

  function RecordOpening(): Opening<seq<Byte>> {
    Opening(k => true, RecordDecrypt, (k, m) => k)
  }

  lemma RecordsStream(k: seq<Byte>, a: seq<Byte>, b: seq<Byte>)
    ensures var first := RecordDecrypt(k, a); var second := RecordDecrypt(first.next, b);
      RecordDecrypt(k, a + b) == Opened(second.next, first.bytes + second.bytes)
  {
    assert k + (a + b) == (k + a) + b;
    ParseConcat(k + a, b);
    var p := Parse(k + a);
    var q := Parse(p.rest + b);
    assert Payloads(p.fragments + q.fragments) == Payloads(p.fragments) + Payloads(q.fragments);
    FlattenConcat(Payloads(p.fragments), Payloads(q.fragments));
  }

  lemma RecordsDecrypt(e: nat, p: seq<Byte>)
    ensures RecordDecrypt([], RecordEncrypt(e, p).bytes) == Opened([], p)
  {
    var frame := OutboundFrame(0, UNFRAGMENTED, p);
    EncodeThenParse(frame);
    FragmentsCarryPayload(frame);
    assert [] + Flatten(Wires(frame)) == Flatten(Wires(frame));
  }

  /** The laws assumed of the cipher hold of one whose records do not line up with fragments. */
  lemma RecordCipherMeetsLaws()
    ensures Laws(RecordSealing(), RecordOpening(), (e: nat, k: seq<Byte>) => k == [])
  {
    var o := RecordOpening();
    forall k: seq<Byte>, a: seq<Byte>, b: seq<Byte>
      ensures var first := RecordDecrypt(k, a); var second := RecordDecrypt(first.next, b);
        o.decrypt(k, a + b) == Opened(second.next, first.bytes + second.bytes)
    {
      RecordsStream(k, a, b);
    }
    forall e: nat, p: seq<Byte>
      ensures RecordDecrypt([], RecordEncrypt(e, p).bytes) == Opened([], p)
    {
      RecordsDecrypt(e, p);
    }
  }
}
