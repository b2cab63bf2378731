/** When the read-ahead queue keeps to its limit of 32 chunks, over all interleavings. */
module QueueLimit {
  import opened Bytes
  import opened ReadAhead
  import opened Interleavings

  lemma RunConcat(s: State, a: seq<Event>, b: seq<Event>)
    ensures Run(s, a + b) == Run(Run(s, a), b)
    decreases |a|
  {
    if a == [] {
      assert a + b == b;
    } else {
      ConcatTail(a, b);
      RunConcat(Apply(s, a[0]), a[1..], b);
    }
  }

  /** The caller's buffers have room for `room` bytes, and the chunks that arrive have `size` at most. */
  predicate Fits(e: Event, room: nat, size: nat) {
    match e
    case Call(dest) => room <= dest
    case Data(chunk) => |chunk| <= size
    case _ => true
  }

  ghost predicate AllFit(events: seq<Event>, room: nat, size: nat) {
    forall e :: e in events ==> Fits(e, room, size)
  }

  /** Whatever is handed over fits, so that nothing is ever pushed back. */
  ghost predicate Roomy(s: State, room: nat) {
    && |s.core.queue| <= MAX_QUEUED_READS
    && (forall k :: 0 <= k < |s.core.queue| ==> |s.core.queue[k]| <= room)
    && (s.core.parked.Some? ==> room <= s.core.parked.value)
    && FitsInHand(s.reader)
    && FitsInHand(LoopHand(s.loop))
    && FitsInHand(s.closer)
  }

  predicate FitsInHand(hand: Option<Hand>) {
    hand.Some? && hand.value.error.None? ==> |hand.value.data| <= hand.value.dest
  }

  lemma InvokeFits(c: Core, h: Hand)
    requires h.error.None? ==> |h.data| <= h.dest
    ensures Invoke(c, h).0 == c
  {
  }

  lemma CallStaysRoomy(s: State, dest: nat, room: nat)
    requires Roomy(s, room) && room <= dest
    ensures Roomy(OnCall(s, dest), room)
  {
  }

  lemma DataStaysRoomy(s: State, chunk: seq<Byte>, room: nat)
    requires Roomy(s, room) && |chunk| <= room
    ensures Roomy(OnData(s, chunk), room)
  {
  }

  lemma FinishesStayRoomy(s: State, room: nat)
    requires Roomy(s, room)
    ensures Roomy(OnFinishCall(s), room) && Roomy(OnFinishServe(s), room) && Roomy(OnFinishClose(s), room)
  {
    if s.reader.Some? {
      InvokeFits(s.core, s.reader.value);
    }
    if LoopHand(s.loop).Some? {
      InvokeFits(s.core, LoopHand(s.loop).value);
    }
    if s.closer.Some? {
      InvokeFits(s.core, s.closer.value);
    }
  }

  lemma OthersStayRoomy(s: State, code: int, room: nat)
    requires Roomy(s, room)
    ensures Roomy(OnStart(s), room) && Roomy(OnIssue(s), room)
    ensures Roomy(OnFail(s, code), room) && Roomy(OnClose(s), room)
  {
  }

  lemma RoomyStep(s: State, e: Event, room: nat)
    requires Roomy(s, room) && Fits(e, room, room)
    ensures Roomy(Apply(s, e), room)
  {
    match e
    case Call(dest) => CallStaysRoomy(s, dest, room);
    case Data(chunk) => DataStaysRoomy(s, chunk, room);
    case Fail(code) => OthersStayRoomy(s, code, room);
    case _ =>
      FinishesStayRoomy(s, room);
      OthersStayRoomy(s, 0, room);
  }

  lemma {:induction false} RoomyRun(s: State, events: seq<Event>, room: nat)
    requires Roomy(s, room) && AllFit(events, room, room)
    ensures Roomy(Run(s, events), room)
    decreases |events|
  {
    if events != [] {
      assert events[0] in events;
      RoomyStep(s, events[0], room);
      RoomyRun(Apply(s, events[0]), events[1..], room);
    }
  }

  /** An open transport with an underlying read in flight and nobody waiting. */
  ghost predicate Filling(s: State, size: nat) {
    && s.loop == InFlight && !s.core.closed && s.core.parked == None
    && forall k :: 0 <= k < |s.core.queue| ==> |s.core.queue[k]| == size
  }

  /** The loop reads `n` chunks while nobody calls. */
  lemma {:induction false} Fill(s: State, chunk: seq<Byte>, n: nat) returns (events: seq<Event>)
    requires Filling(s, |chunk|) && |s.core.queue| + n <= MAX_QUEUED_READS
    ensures forall e :: e in events ==> e == Data(chunk) || e == Issue
    ensures var s' := Run(s, events);
      && Filling(s', |chunk|)
      && |s'.core.queue| == |s.core.queue| + n
      && s'.reader == s.reader && s'.past.calls == s.past.calls && s'.past.done == s.past.done
    decreases n
  {
    if n == 0 {
      events := [];
    } else {
      var step := [Data(chunk), Issue];
      RunTwo(s, Data(chunk), Issue);
      var more := Fill(Run(s, step), chunk, n - 1);
      events := step + more;
      RunConcat(s, step, more);
    }
  }

  /** Some run does reach 33 chunks: a leftover comes back to a queue that filled up meanwhile. */
  lemma BoundIsTight(room: nat) returns (events: seq<Event>)
    ensures AllFit(events, room, room + 1)
    ensures |Run(INIT, events).core.queue| == 33
  {
    var chunk: seq<Byte> := seq(room + 1, _ => 0);
    var start := [Start, Issue];
    RunTwo(INIT, Start, Issue);
    var fill := Fill(Run(INIT, start), chunk, MAX_QUEUED_READS);
    var s1 := Run(Run(INIT, start), fill);
    RunOne(s1, Call(room));
    var s2 := Run(s1, [Call(room)]);
    assert |s2.reader.value.data| == room + 1;
    var again := Fill(s2, chunk, 1);
    RunOne(Run(s2, again), FinishCall);
    RunConcat(INIT, start, fill);
    RunConcat(INIT, start + fill, [Call(room)]);
    RunConcat(INIT, start + fill + [Call(room)], again);
    events := start + fill + [Call(room)] + again + [FinishCall];
    RunConcat(INIT, start + fill + [Call(room)] + again, [FinishCall]);
  }

  lemma FitsMore(events: seq<Event>, room: nat, size: nat, size': nat)
    requires AllFit(events, room, size) && size <= size'
    ensures AllFit(events, room, size')
  {
    forall e | e in events
      ensures Fits(e, room, size')
    {
      assert Fits(e, room, size);
    }
  }

  /**
  When the limit holds, exactly: with buffers for `room` bytes and chunks of at most `size` bytes the queue
  has 32 chunks at most in every interleaving, if and only if the chunks fit in the buffers.
  */
  lemma LimitHoldsExactly(room: nat, size: nat)
    ensures (forall events :: AllFit(events, room, size) ==> |Run(INIT, events).core.queue| <= 32) <==> size <= room
  {
    if size <= room {
      forall events | AllFit(events, room, size)
        ensures |Run(INIT, events).core.queue| <= 32
      {
        FitsMore(events, room, size, room);
        RoomyRun(INIT, events, room);
      }
    } else {
      var events := BoundIsTight(room);
      FitsMore(events, room, room + 1, size);
    }
  }

  /** The session's read buffer and the buffer of the underlying read have the same size. */
  const READ_BUFFER: nat := 16384

  /** So a session's transport keeps to the limit whatever the interleaving. */
  lemma SessionKeepsLimit(events: seq<Event>)
    requires AllFit(events, READ_BUFFER, READ_BUFFER)
    ensures |Run(INIT, events).core.queue| <= 32
  {
    LimitHoldsExactly(READ_BUFFER, READ_BUFFER);
  }
}
