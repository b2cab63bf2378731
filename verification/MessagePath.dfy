/**
The whole path: encoder, write queue, link, read-ahead transport, assembler.

The sender's queue and the receiver's transport run through any of their runs; the link has carried any
part of what the queue has accepted.
*/
module MessagePath {
  import opened Bytes
  import opened Framing
  import opened Crypto
  import opened Messages
  import opened EndToEnd
  import WriteQueue
  import ReadAhead
  import Interleavings

  /** What the read handlers were given, call by call. */
  function Reads(done: seq<ReadAhead.Completion>): seq<seq<Byte>> {
    seq(|done|, i requires 0 <= i < |done| => done[i].data)
  }

  lemma {:induction false} ReadsAreDelivered(done: seq<ReadAhead.Completion>)
    ensures Flatten(Reads(done)) == Interleavings.Delivered(done)
    decreases |done|
  {
    if done == [] {
      assert Reads(done) == [];
    } else {
      var front, last := done[..|done| - 1], done[|done| - 1];
      ReadsAreDelivered(front);
      assert Reads(done) == Reads(front) + [last.data];
      FlattenSnoc(Reads(front), last.data);
    }
  }

  lemma FlattenPrefix<T>(a: seq<seq<T>>, b: seq<seq<T>>)
    requires a <= b
    ensures Flatten(a) <= Flatten(b)
  {
    assert b == a + b[|a|..];
    FlattenConcat(a, b[|a|..]);
  }

  /** The stream a queue without drops has accepted is a prefix of what it may be offered. */
  lemma AcceptedIsPrefix(ws: seq<WriteQueue.WriterEvent>, wires: seq<seq<Byte>>)
    requires WriteQueue.Offers(ws) <= wires && WriteQueue.Run(WriteQueue.NEW, ws).dropped == 0
    ensures Flatten(WriteQueue.Run(WriteQueue.NEW, ws).accepted) <= Flatten(wires)
  {
    WriteQueue.RunOrdered(WriteQueue.NEW, ws);
    FlattenPrefix(WriteQueue.Run(WriteQueue.NEW, ws).accepted, wires);
  }

  /** The stream a transport without losses has delivered is a prefix of what it received. */
  lemma DeliveredIsPrefix(events: seq<Interleavings.Event>)
    requires Interleavings.Run(Interleavings.INIT, events).past.lost == 0
    ensures var t := Interleavings.Run(Interleavings.INIT, events);
      Interleavings.Delivered(t.past.done) <= Interleavings.Received(t)
  {
    Interleavings.ByteFifo(events);
  }

  /**
  For any messages, any run of the sender's write queue that drops nothing, any part of its accepted bytes
  carried over in any pieces, the frame being written included, and any interleaving of the receiver's transport that loses nothing: the
  messages delivered are a prefix of the messages sent, and all of them once all bytes are delivered.
  */
  lemma MessagesArriveInOrder<E(!new), K(!new)>(
    s: Sealing<E>, o: Opening<K>, sync: (E, K) -> bool, e: E, a: Assembly<K>, items: seq<Item>,
    ws: seq<WriteQueue.WriterEvent>, events: seq<Interleavings.Event>)
    requires Laws(s, o, sync) && Ready(e, a.crypto, sync, items)
    requires WriteQueue.Offers(ws) <= SendAll(s, e, items).wires
    requires WriteQueue.Run(WriteQueue.NEW, ws).dropped == 0
    requires Interleavings.Run(Interleavings.INIT, events).past.lost == 0
    requires Interleavings.Accepted(Interleavings.INIT, events) <= Flatten(WriteQueue.Run(WriteQueue.NEW, ws).accepted)
    ensures var done := Interleavings.Run(Interleavings.INIT, events).past.done;
      var x := Receive(o, a, [], Reads(done));
      && x.messages <= MessagesOf(items)
      && x.errors == 0
      && (Interleavings.Delivered(done) == Flatten(SendAll(s, e, items).wires) ==> x.messages == MessagesOf(items))
  {
    var done := Interleavings.Run(Interleavings.INIT, events).past.done;
    var wires := SendAll(s, e, items).wires;
    AcceptedIsPrefix(ws, wires);
    Interleavings.ByteFifo(events);
    DeliveredIsPrefix(events);
    ReadsAreDelivered(done);
    assert Flatten(Reads(done)) <= Flatten(wires);
    DeliveredSoFar(s, o, sync, e, a, items, Reads(done));
    if Interleavings.Delivered(done) == Flatten(wires) {
      Delivery(s, o, sync, e, a, items, Reads(done));
    }
  }
}
