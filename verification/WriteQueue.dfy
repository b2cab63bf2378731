/** The session's write queue: one write at a time, in order, bounded. */
module WriteQueue {
  import opened Bytes

  const MAX_WRITE_QUEUE: nat := 256

  /** The queue, the write the transport is busy with, and what happened so far. */
  datatype Writer = Writer(
    queue: seq<seq<Byte>>,
    inProgress: bool,
    outstanding: Option<seq<Byte>>,
    offered: seq<seq<Byte>>,
    accepted: seq<seq<Byte>>,
    dropped: nat,
    written: seq<seq<Byte>>,
    issued: nat,
    stopped: bool)

  const NEW: Writer := Writer([], false, None, [], [], 0, [], 0, false)

  function WriteNext(w: Writer): Writer {
    if w.queue == [] then w.(inProgress := false)
    else w.(inProgress := true, outstanding := Some(w.queue[0]), issued := w.issued + 1)
  }

  function Enqueue(w: Writer, wire: seq<Byte>): Writer {
    var w := w.(offered := w.offered + [wire]);
    if MAX_WRITE_QUEUE <= |w.queue| then w.(dropped := w.dropped + 1)
    else
      var w := w.(queue := w.queue + [wire], accepted := w.accepted + [wire]);
      if w.inProgress then w else WriteNext(w)
  }

  function EnqueueAll(w: Writer, wires: seq<seq<Byte>>): Writer
    decreases |wires|
  {
    if wires == [] then w else EnqueueAll(Enqueue(w, wires[0]), wires[1..])
  }

  /** The outstanding write is over. After a failure nothing is started again. */
  function Complete(w: Writer, ok: bool): Writer
    requires w.outstanding.Some?
  {
    if !ok || w.queue == [] then w.(outstanding := None, stopped := true)
    else WriteNext(w.(queue := w.queue[1..], written := w.written + [w.queue[0]], outstanding := None))
  }

  /**
  At most one write is outstanding and it is the front of the queue; idle means empty; the written frames
  are a prefix of the accepted ones; every offered frame is accepted or counted as dropped.
  */
  ghost predicate Ordered(w: Writer) {
    && |w.queue| <= MAX_WRITE_QUEUE
    && (w.inProgress <==> w.queue != [])
    && (w.outstanding.Some? ==> w.inProgress && w.outstanding.value == w.queue[0] && !w.stopped)
    && (w.inProgress && w.outstanding.None? ==> w.stopped)
    && (w.stopped ==> w.inProgress)
    && w.accepted == w.written + w.queue
    && |w.offered| == |w.accepted| + w.dropped
    && (w.dropped == 0 ==> w.offered == w.accepted)
    && w.issued == |w.written| + (if w.inProgress then 1 else 0)
  }

  lemma EnqueueOrdered(w: Writer, wire: seq<Byte>)
    requires Ordered(w)
    ensures Ordered(Enqueue(w, wire))
  {
    ConcatAssociates(w.written, w.queue, [wire]);
  }

  lemma CompleteOrdered(w: Writer, ok: bool)
    requires Ordered(w) && w.outstanding.Some?
    ensures Ordered(Complete(w, ok))
  {
    if ok {
      assert w.written + w.queue == (w.written + [w.queue[0]]) + w.queue[1..];
    }
  }

  lemma {:induction false} EnqueueAllOffers(w: Writer, wires: seq<seq<Byte>>)
    ensures EnqueueAll(w, wires).offered == w.offered + wires
    ensures w.written == EnqueueAll(w, wires).written && w.stopped == EnqueueAll(w, wires).stopped
    decreases |wires|
  {
    if wires != [] {
      EnqueueAllOffers(Enqueue(w, wires[0]), wires[1..]);
      assert wires == [wires[0]] + wires[1..];
      ConcatAssociates(w.offered, [wires[0]], wires[1..]);
    }
  }

  lemma EnqueueAllSnoc(w: Writer, wires: seq<seq<Byte>>, wire: seq<Byte>)
    ensures EnqueueAll(w, wires + [wire]) == Enqueue(EnqueueAll(w, wires), wire)
    decreases |wires|
  {
    if wires == [] {
      assert [wire][1..] == [] && [] + [wire] == [wire];
    } else {
      ConcatTail(wires, [wire]);
      EnqueueAllSnoc(Enqueue(w, wires[0]), wires[1..], wire);
    }
  }

  // ----- Every run of the queue -----

  datatype WriterEvent = Offer(wire: seq<Byte>) | WriteDone(ok: bool)

  function Apply(w: Writer, e: WriterEvent): Writer {
    match e
    case Offer(wire) => Enqueue(w, wire)
    case WriteDone(ok) => if w.outstanding.Some? then Complete(w, ok) else w
  }

  function Run(w: Writer, events: seq<WriterEvent>): Writer
    decreases |events|
  {
    if events == [] then w else Run(Apply(w, events[0]), events[1..])
  }

  function Offers(events: seq<WriterEvent>): seq<seq<Byte>> {
    if events == [] then []
    else (if events[0].Offer? then [events[0].wire] else []) + Offers(events[1..])
  }

  lemma StepOrdered(w: Writer, e: WriterEvent)
    requires Ordered(w)
    ensures Ordered(Apply(w, e))
    ensures w.written <= Apply(w, e).written
    ensures Apply(w, e).offered == w.offered + Offers([e])
  {
    assert Offers([e]) == if e.Offer? then [e.wire] else [];
    match e
    case Offer(wire) => EnqueueOrdered(w, wire);
    case WriteDone(ok) =>
      if w.outstanding.Some? {
        CompleteOrdered(w, ok);
      }
  }

  lemma {:induction false} RunOrdered(w: Writer, events: seq<WriterEvent>)
    requires Ordered(w)
    ensures Ordered(Run(w, events))
    ensures w.written <= Run(w, events).written
    ensures Run(w, events).offered == w.offered + Offers(events)
    decreases |events|
  {
    if events != [] {
      StepOrdered(w, events[0]);
      RunOrdered(Apply(w, events[0]), events[1..]);
      ConcatAssociates(w.offered, Offers([events[0]]), Offers(events[1..]));
      assert [events[0]][1..] == [];
    }
  }

  lemma {:induction false} RunConcat(w: Writer, a: seq<WriterEvent>, b: seq<WriterEvent>)
    ensures Run(w, a + b) == Run(Run(w, a), b)
    decreases |a|
  {
    if a == [] {
      assert a + b == b;
    } else {
      ConcatTail(a, b);
      RunConcat(Apply(w, a[0]), a[1..], b);
    }
  }

  /** Queueing a list of frames is a run of the queue. */
  lemma {:induction false} EnqueueAllIsRun(w: Writer, wires: seq<seq<Byte>>) returns (events: seq<WriterEvent>)
    ensures Run(w, events) == EnqueueAll(w, wires)
    decreases |wires|
  {
    if wires == [] {
      events := [];
    } else {
      var more := EnqueueAllIsRun(Enqueue(w, wires[0]), wires[1..]);
      events := [Offer(wires[0])] + more;
      assert events[1..] == more;
    }
  }

  lemma {:induction false} StoppedStays(w: Writer, events: seq<WriterEvent>)
    requires Ordered(w) && w.stopped
    ensures var v := Run(w, events); v.stopped && v.issued == w.issued && v.written == w.written
    decreases |events|
  {
    if events != [] {
      StepOrdered(w, events[0]);
      StoppedStays(Apply(w, events[0]), events[1..]);
    }
  }

  /**
  Over every run: no write is issued before the one issued last is over, order is kept, 256 frames at most, nothing lost but what is counted, and after
  a failed write no write is ever issued again.
  */
  lemma SingleWriter(events: seq<WriterEvent>, later: seq<WriterEvent>)
    ensures var w := Run(NEW, events); var v := Run(w, later);
      && |w.queue| <= 256
      && (w.outstanding.Some? ==> w.queue != [] && w.outstanding.value == w.queue[0])
      && (!w.inProgress ==> w.queue == [])
      && w.issued == |w.written| + (if w.inProgress then 1 else 0)
      && w.written <= w.accepted
      && Offers(events) == w.offered
      && |w.offered| == |w.accepted| + w.dropped
      && (w.dropped == 0 ==> w.written + w.queue == Offers(events))
      && (w.stopped ==> v.issued == w.issued && v.written == w.written)
  {
    assert Ordered(NEW);
    RunOrdered(NEW, events);
    if Run(NEW, events).stopped {
      StoppedStays(Run(NEW, events), later);
    }
  }

  // ----- What is accepted -----

  /** A frame is dropped if and only if 256 frames are waiting; otherwise it is accepted, last. */
  lemma OfferExactly(events: seq<WriterEvent>, wire: seq<Byte>)
    ensures var w, v := Run(NEW, events), Run(NEW, events + [Offer(wire)]);
      && (v.dropped == w.dropped + 1 <==> |w.queue| == 256)
      && (|w.queue| < 256 ==> v.accepted == w.accepted + [wire] && v.dropped == w.dropped)
      && (|w.queue| == 256 ==> v == w.(offered := w.offered + [wire], dropped := w.dropped + 1))
  {
    RunOrdered(NEW, events);
    RunConcat(NEW, events, [Offer(wire)]);
    assert [Offer(wire)][1..] == [];
  }

  /** A finished write was the oldest frame's, and the next one starts; after a failure none does. */
  lemma DoneExactly(events: seq<WriterEvent>, ok: bool)
    requires Run(NEW, events).outstanding.Some?
    ensures var w, v := Run(NEW, events), Run(NEW, events + [WriteDone(ok)]);
      && w.queue != []
      && v.accepted == w.accepted && v.dropped == w.dropped
      && (ok ==> v.queue == w.queue[1..] && v.written == w.written + [w.queue[0]])
      && (ok ==> v.outstanding == if |w.queue| == 1 then None else Some(w.queue[1]))
      && (!ok ==> v.queue == w.queue && v.written == w.written && v.outstanding == None && v.stopped)
  {
    RunOrdered(NEW, events);
    RunConcat(NEW, events, [WriteDone(ok)]);
    assert [WriteDone(ok)][1..] == [];
  }

  lemma {:induction false} RoomForAll(w: Writer, events: seq<WriterEvent>)
    requires Ordered(w) && w.dropped == 0 && |w.offered| + |Offers(events)| <= 256
    ensures Run(w, events).dropped == 0
    decreases |events|
  {
    if events != [] {
      StepOrdered(w, events[0]);
      assert Offers([events[0]]) == if events[0].Offer? then [events[0].wire] else [];
      RoomForAll(Apply(w, events[0]), events[1..]);
    }
  }

  /** A run that offers 256 frames or fewer drops none. */
  lemma SmallRunsDropNothing(events: seq<WriterEvent>)
    requires |Offers(events)| <= 256
    ensures Run(NEW, events).dropped == 0
  {
    RoomForAll(NEW, events);
  }
}
