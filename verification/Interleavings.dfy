/**
All interleavings of the read-ahead transport's lock regions.

Three threads work on one `Core`: the reader inside `async_read`, the underlying read loop, and a
closer. Each event is one lock region, or the end of a region's caller: invoking a handler. A disabled
event changes nothing, so every list of events is a run. The reader has one call outstanding at a time.
*/
module Interleavings {
  import opened Bytes
  import opened ReadAhead

  /** Where the underlying read loop is. */
  datatype Loop =
    | NotStarted
    | Issuing              // about to issue the next underlying read
    | InFlight             // an underlying read is outstanding
    | Serving(hand: Hand)  // has a chunk for the handler it took
    | Failing(hand: Hand)  // has an error for the handler it took
    | Stopped

  /** One received byte, and whether it is still in the stream or was lost with a chunk. */
  datatype Cell = Cell(byte: Byte, kept: bool)

  datatype History = History(
    calls: nat,             // calls of async_read
    done: seq<Completion>,  // handler invocations, in order
    cells: seq<Cell>,       // every byte accepted from the underlying transport
    lost: nat,              // bytes lost in dropped chunks or by close
    drops: nat,             // chunks dropped
    issued: nat,            // underlying reads issued
    answered: nat,          // underlying reads completed
    errors: nat)            // underlying errors accepted

  datatype State = State(core: Core, reader: Option<Hand>, loop: Loop, closer: Option<Hand>, past: History)

  datatype Event =
    | Start
    | Issue
    | Call(dest: nat)
    | FinishCall
    | Data(chunk: seq<Byte>)
    | Fail(code: int)
    | FinishServe
    | Close
    | FinishClose

  const INIT: State := State(INITIAL, None, NotStarted, None, History(0, [], [], 0, 0, 0, 0, 0))

  // ----- Byte histories -----

  function All(cells: seq<Cell>): seq<Byte> {
    seq(|cells|, i requires 0 <= i < |cells| => cells[i].byte)
  }

  function Kept(cells: seq<Cell>): seq<Byte> {
    if cells == [] then [] else (if cells[0].kept then [cells[0].byte] else []) + Kept(cells[1..])
  }

  function LostCount(cells: seq<Cell>): nat {
    if cells == [] then 0 else (if cells[0].kept then 0 else 1) + LostCount(cells[1..])
  }

  function Fresh(chunk: seq<Byte>): seq<Cell> {
    seq(|chunk|, i requires 0 <= i < |chunk| => Cell(chunk[i], true))
  }

  /** Lose `n` kept bytes, after leaving out the first `skip` kept bytes. */
  function CrossOut(cells: seq<Cell>, skip: nat, n: nat): seq<Cell> {
    if cells == [] || n == 0 then cells
    else if !cells[0].kept then [cells[0]] + CrossOut(cells[1..], skip, n)
    else if 0 < skip then [cells[0]] + CrossOut(cells[1..], skip - 1, n)
    else [cells[0].(kept := false)] + CrossOut(cells[1..], 0, n - 1)
  }

  lemma {:induction false} KeptConcat(a: seq<Cell>, b: seq<Cell>)
    ensures Kept(a + b) == Kept(a) + Kept(b)
    ensures LostCount(a + b) == LostCount(a) + LostCount(b)
  {
    if a == [] {
      assert a + b == b;
    } else {
      ConcatTail(a, b);
      KeptConcat(a[1..], b);
      ConcatAssociates(if a[0].kept then [a[0].byte] else [], Kept(a[1..]), Kept(b));
    }
  }

  lemma {:induction false} KeptFresh(chunk: seq<Byte>)
    ensures Kept(Fresh(chunk)) == chunk && LostCount(Fresh(chunk)) == 0
    decreases |chunk|
  {
    if chunk != [] {
      assert Fresh(chunk)[1..] == Fresh(chunk[1..]);
      KeptFresh(chunk[1..]);
      assert chunk == [chunk[0]] + chunk[1..];
    }
  }

  lemma {:induction false} KeptLength(cells: seq<Cell>)
    ensures |Kept(cells)| + LostCount(cells) == |cells|
  {
    if cells != [] {
      KeptLength(cells[1..]);
    }
  }

  /** Crossing out removes exactly the `n` bytes after the first `skip`, and nothing else. */
  lemma {:induction false} CrossOutKept(cells: seq<Cell>, skip: nat, n: nat)
    requires skip + n <= |Kept(cells)|
    ensures Kept(CrossOut(cells, skip, n)) == Kept(cells)[..skip] + Kept(cells)[skip + n..]
    ensures LostCount(CrossOut(cells, skip, n)) == LostCount(cells) + n
  {
    if cells != [] && n != 0 {
      var tail := cells[1..];
      if !cells[0].kept {
        CrossOutKept(tail, skip, n);
      } else if 0 < skip {
        CrossOutKept(tail, skip - 1, n);
        KeepHead(cells[0].byte, Kept(tail), skip, n);
      } else {
        CrossOutKept(tail, 0, n - 1);
        DropHead(cells[0].byte, Kept(tail), n);
      }
    }
  }

  lemma KeepHead(b: Byte, tail: seq<Byte>, skip: nat, n: nat)
    requires 0 < skip && skip + n <= |tail| + 1
    ensures ([b] + tail)[..skip] + ([b] + tail)[skip + n..] == [b] + (tail[..skip - 1] + tail[skip - 1 + n..])
  {
  }

  lemma DropHead(b: Byte, tail: seq<Byte>, n: nat)
    requires 0 < n <= |tail| + 1
    ensures ([b] + tail)[..0] + ([b] + tail)[n..] == tail[..0] + tail[n - 1..]
  {
  }

  lemma {:induction false} CrossOutAll(cells: seq<Cell>, skip: nat, n: nat)
    ensures All(CrossOut(cells, skip, n)) == All(cells)
  {
    if cells != [] && n != 0 {
      var tail := cells[1..];
      assert All(cells) == [cells[0].byte] + All(tail);
      var skip' := if cells[0].kept && 0 < skip then skip - 1 else skip;
      var n' := if cells[0].kept && skip == 0 then n - 1 else n;
      CrossOutAll(tail, skip', n');
      var rest := CrossOut(tail, skip', n');
      assert CrossOut(cells, skip, n)[1..] == rest;
    }
  }

  // ----- Steps -----

  function HandData(hand: Option<Hand>): seq<Byte> {
    match hand case Some(h) => h.data case None => []
  }

  function LoopHand(loop: Loop): Option<Hand> {
    match loop
    case Serving(h) => Some(h)
    case Failing(h) => Some(h)
    case _ => None
  }

  /** Bytes given to handlers so far. */
  function Delivered(done: seq<Completion>): seq<Byte> {
    if done == [] then [] else Delivered(done[..|done| - 1]) + done[|done| - 1].data
  }

  /** Bytes taken off the queue, or never put on it, for a handler not invoked yet. */
  function InHand(s: State): seq<Byte> {
    HandData(s.reader) + HandData(LoopHand(s.loop))
  }

  /** The bytes that count as passed on: what is lost is lost behind them. */
  function Passed(s: State): nat {
    |Delivered(s.past.done)| + |InHand(s)|
  }

  function Count(hand: Option<Hand>): nat {
    if hand.Some? then 1 else 0
  }

  /** Handlers accepted and not invoked yet, wherever they are. */
  function Outstanding(s: State): nat {
    (if s.core.parked.Some? then 1 else 0) + Count(s.reader) + Count(LoopHand(s.loop)) + Count(s.closer)
  }

  function Finish(s: State, h: Hand): State {
    var (c, done) := Invoke(s.core, h);
    s.(core := c, past := s.past.(done := s.past.done + [done]))
  }

  function OnStart(s: State): State {
    if s.core.started || s.core.closed then s else s.(core := s.core.(started := true), loop := Issuing)
  }

  function OnIssue(s: State): State {
    if s.loop != Issuing then s
    else if s.core.closed then s.(loop := Stopped)
    else s.(loop := InFlight, past := s.past.(issued := s.past.issued + 1))
  }

  function OnCall(s: State, dest: nat): State {
    if s.past.calls != |s.past.done| then s
    else
      var (c, hand) := ClaimRead(s.core, dest);
      s.(core := c, reader := hand, past := s.past.(calls := s.past.calls + 1))
  }

  function OnFinishCall(s: State): State {
    match s.reader
    case Some(h) => Finish(s.(reader := None), h)
    case None => s
  }

  function Record(s: State, chunk: seq<Byte>, dropped: Option<seq<Byte>>): History {
    var p := s.past.(answered := s.past.answered + 1);
    match dropped
    case Some(old_) =>
      p.(cells := CrossOut(p.cells, Passed(s), |old_|) + Fresh(chunk), lost := p.lost + |old_|, drops := p.drops + 1)
    case None =>
      p.(cells := p.cells + Fresh(chunk))
  }

  function OnData(s: State, chunk: seq<Byte>): State {
    if s.loop != InFlight then s
    else
      var x := Arrive(s.core, chunk);
      if !x.goOn then
        s.(loop := Stopped, past := s.past.(answered := s.past.answered + 1))
      else
        s.(core := x.core,
           loop := (match x.hand case Some(h) => Serving(h) case None => Issuing),
           past := Record(s, chunk, x.dropped))
  }

  function OnFail(s: State, code: int): State {
    if s.loop != InFlight then s
    else
      var (c, hand) := ArriveError(s.core, Underlying(code));
      s.(core := c,
         loop := (match hand case Some(h) => Failing(h) case None => Stopped),
         past := s.past.(answered := s.past.answered + 1,
                         errors := s.past.errors + (if s.core.closed then 0 else 1)))
  }

  function OnFinishServe(s: State): State {
    match s.loop
    case Serving(h) => Finish(s.(loop := Issuing), h)
    case Failing(h) => Finish(s.(loop := Stopped), h)
    case _ => s
  }

  function OnClose(s: State): State {
    if s.core.closed then s
    else
      var (c, hand) := Shut(s.core);
      var n := |Flatten(s.core.queue)|;
      s.(core := c, closer := hand,
         past := s.past.(cells := CrossOut(s.past.cells, Passed(s), n), lost := s.past.lost + n))
  }

  function OnFinishClose(s: State): State {
    match s.closer
    case Some(h) => Finish(s.(closer := None), h)
    case None => s
  }

  function Apply(s: State, e: Event): State {
    match e
    case Start => OnStart(s)
    case Issue => OnIssue(s)
    case Call(dest) => OnCall(s, dest)
    case FinishCall => OnFinishCall(s)
    case Data(chunk) => OnData(s, chunk)
    case Fail(code) => OnFail(s, code)
    case FinishServe => OnFinishServe(s)
    case Close => OnClose(s)
    case FinishClose => OnFinishClose(s)
  }

  function Run(s: State, events: seq<Event>): State
    decreases |events|
  {
    if events == [] then s else Run(Apply(s, events[0]), events[1..])
  }

  // ----- Who holds what -----

  ghost predicate CarriesNoData(hand: Option<Hand>) {
    hand.Some? ==> hand.value.error.Some? && hand.value.data == []
  }

  /** One handler at most, in one place; a parked one means there is nothing for it. */
  ghost predicate Orderly(s: State) {
    && (s.core.started <==> s.loop != NotStarted)
    && s.past.calls == |s.past.done| + Outstanding(s)
    && Outstanding(s) <= 1
    && (s.core.parked.Some? ==> s.core.queue == [] && s.core.deferred == None && !s.core.closed)
    && (s.loop.Serving? ==> s.loop.hand.error == None && s.core.queue == [])
    && (s.loop.Failing? ==> CarriesNoData(Some(s.loop.hand)) && s.core.queue == [])
    && (s.reader.Some? && s.reader.value.error.Some? ==> s.reader.value.data == [])
    && (s.closer.Some? ==> s.core.closed && CarriesNoData(s.closer))
  }

  /** 33 chunks at most, and 32 while one more may be pushed back. */
  ghost predicate Bounded(s: State) {
    && |s.core.queue| <= MAX_QUEUED_READS + 1
    && (s.reader.Some? && s.reader.value.error.None? ==> |s.core.queue| <= MAX_QUEUED_READS)
  }

  lemma OrderlyStep(s: State, e: Event)
    requires Orderly(s)
    ensures Orderly(Apply(s, e))
  {
    match e
    case Start => assert Orderly(OnStart(s));
    case Issue => assert Orderly(OnIssue(s));
    case Call(dest) => assert Orderly(OnCall(s, dest));
    case FinishCall => assert Orderly(OnFinishCall(s));
    case Data(chunk) => assert Orderly(OnData(s, chunk));
    case Fail(code) => assert Orderly(OnFail(s, code));
    case FinishServe => assert Orderly(OnFinishServe(s));
    case Close => assert Orderly(OnClose(s));
    case FinishClose => assert Orderly(OnFinishClose(s));
  }

  lemma BoundedStep(s: State, e: Event)
    requires Orderly(s) && Bounded(s)
    ensures Bounded(Apply(s, e))
  {
  }

  // ----- The byte stream -----

  /** Delivered, then in hand, then queued: exactly the received bytes that were not lost. */
  ghost predicate Fifo(s: State) {
    && Kept(s.past.cells) == Delivered(s.past.done) + InHand(s) + Flatten(s.core.queue)
    && LostCount(s.past.cells) == s.past.lost
  }

  lemma DeliveredSnoc(done: seq<Completion>, c: Completion)
    ensures Delivered(done + [c]) == Delivered(done) + c.data
  {
    assert (done + [c])[..|done|] == done;
  }

  /** A handler leaves the hand: its bytes are delivered, or back at the front of the queue. */
  lemma InvokeMovesBytes(c: Core, h: Hand)
    requires h.error.Some? ==> h.data == []
    ensures Invoke(c, h).1.data + Flatten(Invoke(c, h).0.queue) == h.data + Flatten(c.queue)
  {
    var n := CopySize(h);
    if h.error.None? && n < |h.data| {
      FlattenCons(h.data[n..], c.queue);
      assert h.data == h.data[..n] + h.data[n..];
    } else {
      assert h.data[..n] == h.data;
    }
  }

  lemma Regroup(d: seq<Byte>, hand: seq<Byte>, queue: seq<Byte>, given: seq<Byte>, queue': seq<Byte>)
    requires given + queue' == hand + queue
    ensures (d + given) + [] + queue' == d + hand + queue
  {
    ConcatAssociates(d, hand, queue);
    ConcatAssociates(d, given, queue');
    assert (d + given) + [] == d + given;
  }

  lemma FinishKeepsFifo(s: State, s': State, h: Hand)
    requires h.error.Some? ==> h.data == []
    requires s'.core == s.core && s'.past == s.past
    requires InHand(s) == h.data && InHand(s') == []
    requires Fifo(s)
    ensures Fifo(Finish(s', h))
  {
    var (c, done) := Invoke(s.core, h);
    InvokeMovesBytes(s.core, h);
    DeliveredSnoc(s.past.done, done);
    Regroup(Delivered(s.past.done), h.data, Flatten(s.core.queue), done.data, Flatten(c.queue));
  }

  lemma CallKeepsFifo(s: State, dest: nat)
    requires Orderly(s) && Fifo(s)
    ensures Fifo(OnCall(s, dest))
  {
    if s.past.calls == |s.past.done| {
      assert InHand(s) == [];
      if !s.core.closed && s.core.queue != [] {
        var d, q := Delivered(s.past.done), s.core.queue;
        assert d + [] + Flatten(q) == d + q[0] + Flatten(q[1..]);
        assert InHand(OnCall(s, dest)) == q[0];
      } else {
        assert InHand(OnCall(s, dest)) == [];
      }
    }
  }

  lemma DropFront(stream: seq<Byte>, front: seq<Byte>, first: seq<Byte>, rest: seq<Byte>)
    requires stream == front + (first + rest)
    ensures |front| + |first| <= |stream|
    ensures stream[..|front|] + stream[|front| + |first|..] == front + rest
  {
  }

  lemma AddKeepsFifo(cells: seq<Cell>, front: seq<Byte>, queue: seq<seq<Byte>>, chunk: seq<Byte>)
    requires Kept(cells) == front + Flatten(queue)
    ensures Kept(cells + Fresh(chunk)) == front + Flatten(queue + [chunk])
    ensures LostCount(cells + Fresh(chunk)) == LostCount(cells)
  {
    KeptFresh(chunk);
    KeptConcat(cells, Fresh(chunk));
    FlattenSnoc(queue, chunk);
    ConcatAssociates(front, Flatten(queue), chunk);
  }

  lemma DropKeepsFifo(cells: seq<Cell>, front: seq<Byte>, queue: seq<seq<Byte>>)
    requires Kept(cells) == front + Flatten(queue) && queue != []
    ensures var cells' := CrossOut(cells, |front|, |queue[0]|);
      && Kept(cells') == front + Flatten(queue[1..])
      && LostCount(cells') == LostCount(cells) + |queue[0]|
  {
    DropFront(Kept(cells), front, queue[0], Flatten(queue[1..]));
    CrossOutKept(cells, |front|, |queue[0]|);
  }

  lemma DropAddKeepsFifo(cells: seq<Cell>, front: seq<Byte>, queue: seq<seq<Byte>>, chunk: seq<Byte>)
    requires Kept(cells) == front + Flatten(queue) && queue != []
    ensures var cells' := CrossOut(cells, |front|, |queue[0]|) + Fresh(chunk);
      && Kept(cells') == front + Flatten(queue[1..] + [chunk])
      && LostCount(cells') == LostCount(cells) + |queue[0]|
  {
    DropKeepsFifo(cells, front, queue);
    AddKeepsFifo(CrossOut(cells, |front|, |queue[0]|), front, queue[1..], chunk);
  }

  lemma ServeKeepsFifo(cells: seq<Cell>, front: seq<Byte>, chunk: seq<Byte>)
    requires Kept(cells) == front + [] + Flatten([])
    ensures Kept(cells + Fresh(chunk)) == front + chunk + Flatten([])
    ensures LostCount(cells + Fresh(chunk)) == LostCount(cells)
  {
    KeptFresh(chunk);
    KeptConcat(cells, Fresh(chunk));
  }

  lemma DataKeepsFifo(s: State, chunk: seq<Byte>)
    requires Orderly(s) && Fifo(s)
    ensures Fifo(OnData(s, chunk))
  {
    if s.loop == InFlight && !s.core.closed {
      var s' := OnData(s, chunk);
      var front := Delivered(s.past.done) + InHand(s);
      if s.core.parked.Some? {
        assert InHand(s) == [] && InHand(s') == chunk;
        ServeKeepsFifo(s.past.cells, Delivered(s.past.done), chunk);
      } else if MAX_QUEUED_READS <= |s.core.queue| {
        assert InHand(s') == InHand(s);
        DropAddKeepsFifo(s.past.cells, front, s.core.queue, chunk);
      } else {
        assert InHand(s') == InHand(s);
        AddKeepsFifo(s.past.cells, front, s.core.queue, chunk);
      }
    }
  }

  lemma CloseKeepsFifo(s: State)
    requires Orderly(s) && Fifo(s)
    ensures Fifo(OnClose(s))
  {
    if !s.core.closed {
      var front := Delivered(s.past.done) + InHand(s);
      var rest := Flatten(s.core.queue);
      assert rest == rest + [];
      DropFront(Kept(s.past.cells), front, rest, []);
      CrossOutKept(s.past.cells, |front|, |rest|);
    }
  }

  lemma FifoStep(s: State, e: Event)
    requires Orderly(s) && Fifo(s)
    ensures Fifo(Apply(s, e))
  {
    match e
    case Start =>
    case Issue =>
    case Call(dest) => CallKeepsFifo(s, dest);
    case FinishCall =>
      if s.reader.Some? {
        FinishKeepsFifo(s, s.(reader := None), s.reader.value);
      }
    case Data(chunk) => DataKeepsFifo(s, chunk);
    case Fail(code) =>
    case FinishServe =>
      if s.loop.Serving? {
        FinishKeepsFifo(s, s.(loop := Issuing), s.loop.hand);
      } else if s.loop.Failing? {
        FinishKeepsFifo(s, s.(loop := Stopped), s.loop.hand);
      }
    case Close => CloseKeepsFifo(s);
    case FinishClose =>
      if s.closer.Some? {
        FinishKeepsFifo(s, s.(closer := None), s.closer.value);
      }
  }

  // ----- Underlying reads and errors -----

  predicate IsUnderlying(error: Option<Error>) {
    error.Some? && error.value.Underlying?
  }

  /** Underlying errors reported to a handler. */
  function Reports(done: seq<Completion>): nat {
    if done == [] then 0
    else Reports(done[..|done| - 1]) + (if IsUnderlying(done[|done| - 1].error) then 1 else 0)
  }

  function CountError(hand: Option<Hand>): nat {
    if hand.Some? && IsUnderlying(hand.value.error) then 1 else 0
  }

  /** Errors on their way: stored, or carried to a handler. */
  function ErrorsPending(s: State): nat {
    (if IsUnderlying(s.core.deferred) then 1 else 0) + CountError(s.reader) + CountError(LoopHand(s.loop))
  }

  /**
  One underlying read at a time, and the loop goes on until an error or `close`. One error at most, told
  at most once, and only when every received byte has been delivered.
  */
  ghost predicate Reading(s: State) {
    && s.past.issued == s.past.answered + (if s.loop == InFlight then 1 else 0)
    && (s.core.started && !s.core.closed && s.past.errors == 0 ==>
          s.loop == Issuing || s.loop == InFlight || s.loop.Serving?)
    && s.past.errors == Reports(s.past.done) + ErrorsPending(s)
    && s.past.errors <= 1
    && (0 < s.past.errors ==> s.loop.Failing? || s.loop == Stopped)
    && (s.core.deferred.Some? ==> IsUnderlying(s.core.deferred))
    && (s.closer.Some? ==> !IsUnderlying(s.closer.value.error))
    && (0 < Reports(s.past.done) + CountError(s.reader) + CountError(LoopHand(s.loop)) ==>
          s.core.queue == [] && InHand(s) == [])
  }

  lemma ReportsSnoc(done: seq<Completion>, c: Completion)
    ensures Reports(done + [c]) == Reports(done) + (if IsUnderlying(c.error) then 1 else 0)
  {
    assert (done + [c])[..|done|] == done;
  }

  lemma FinishReports(s: State, h: Hand)
    ensures Reports(Finish(s, h).past.done) == Reports(s.past.done) + (if IsUnderlying(h.error) then 1 else 0)
  {
    ReportsSnoc(s.past.done, Invoke(s.core, h).1);
  }

  lemma FinishCallKeepsReading(s: State)
    requires Orderly(s) && Reading(s)
    ensures Reading(OnFinishCall(s))
  {
    if s.reader.Some? {
      FinishReports(s.(reader := None), s.reader.value);
    }
  }

  lemma FinishServeKeepsReading(s: State)
    requires Orderly(s) && Reading(s)
    ensures Reading(OnFinishServe(s))
  {
    if s.loop.Serving? {
      FinishReports(s.(loop := Issuing), s.loop.hand);
    } else if s.loop.Failing? {
      FinishReports(s.(loop := Stopped), s.loop.hand);
    }
  }

  lemma FinishCloseKeepsReading(s: State)
    requires Orderly(s) && Reading(s)
    ensures Reading(OnFinishClose(s))
  {
    if s.closer.Some? {
      FinishReports(s.(closer := None), s.closer.value);
    }
  }

  lemma ReadingStep(s: State, e: Event)
    requires Orderly(s) && Reading(s)
    ensures Reading(Apply(s, e))
  {
    match e
    case Start => assert Reading(OnStart(s));
    case Issue => assert Reading(OnIssue(s));
    case Call(dest) => assert Reading(OnCall(s, dest));
    case FinishCall => FinishCallKeepsReading(s);
    case Data(chunk) => assert Reading(OnData(s, chunk));
    case Fail(code) => assert Reading(OnFail(s, code));
    case FinishServe => FinishServeKeepsReading(s);
    case Close => assert Reading(OnClose(s));
    case FinishClose => FinishCloseKeepsReading(s);
  }

  // ----- Every run -----

  ghost predicate Inv(s: State) {
    Orderly(s) && Bounded(s) && Fifo(s) && Reading(s)
  }

  lemma {:induction false} InvRun(s: State, events: seq<Event>)
    requires Inv(s)
    ensures Inv(Run(s, events))
    decreases |events|
  {
    if events != [] {
      OrderlyStep(s, events[0]);
      BoundedStep(s, events[0]);
      FifoStep(s, events[0]);
      ReadingStep(s, events[0]);
      InvRun(Apply(s, events[0]), events[1..]);
    }
  }

  lemma InitHolds()
    ensures Inv(INIT)
  {
  }

  function Received(s: State): seq<Byte> {
    All(s.past.cells)
  }

  /** The bytes of the chunks accepted along a run: read while the loop waits for them and nothing is closed. */
  function Accepted(s: State, events: seq<Event>): seq<Byte>
    decreases |events|
  {
    if events == [] then []
    else
      (match events[0]
       case Data(chunk) => if s.loop == InFlight && !s.core.closed then chunk else []
       case _ => [])
      + Accepted(Apply(s, events[0]), events[1..])
  }

  lemma AllConcat(cells: seq<Cell>, chunk: seq<Byte>)
    ensures All(cells + Fresh(chunk)) == All(cells) + chunk
  {
  }

  lemma ReceivedStep(s: State, e: Event)
    ensures Received(Apply(s, e)) == Received(s) + Accepted(s, [e])
  {
    match e
    case Data(chunk) =>
      if s.loop == InFlight && !s.core.closed {
        var x := Arrive(s.core, chunk);
        if x.dropped.Some? {
          CrossOutAll(s.past.cells, Passed(s), |x.dropped.value|);
          AllConcat(CrossOut(s.past.cells, Passed(s), |x.dropped.value|), chunk);
        } else {
          AllConcat(s.past.cells, chunk);
        }
      }
    case Close => CrossOutAll(s.past.cells, Passed(s), |Flatten(s.core.queue)|);
    case _ =>
  }

  lemma {:induction false} ReceivedIsAccepted(s: State, events: seq<Event>)
    ensures Received(Run(s, events)) == Received(s) + Accepted(s, events)
    decreases |events|
  {
    if events != [] {
      ReceivedStep(s, events[0]);
      ReceivedIsAccepted(Apply(s, events[0]), events[1..]);
      ConcatAssociates(Received(s), Accepted(s, [events[0]]), Accepted(Apply(s, events[0]), events[1..]));
    }
  }

  lemma {:induction false} NothingLost(cells: seq<Cell>)
    ensures LostCount(cells) == 0 ==> Kept(cells) == All(cells)
  {
    if cells != [] {
      NothingLost(cells[1..]);
      assert All(cells) == [cells[0].byte] + All(cells[1..]);
    }
  }

  /**
  The read-ahead transport is a byte FIFO with holes. In every state of every run, what was delivered,
  what is in hand and what is queued are, in this order, the received bytes without the lost ones; and
  with nothing lost they are the received bytes.
  */
  lemma ByteFifo(events: seq<Event>)
    ensures var s := Run(INIT, events);
      && Received(s) == Accepted(INIT, events)
      && Kept(s.past.cells) == Delivered(s.past.done) + InHand(s) + Flatten(s.core.queue)
      && |Received(s)| == |Kept(s.past.cells)| + s.past.lost
      && (s.past.lost == 0 ==> Received(s) == Delivered(s.past.done) + InHand(s) + Flatten(s.core.queue))
  {
    InitHolds();
    InvRun(INIT, events);
    ReceivedIsAccepted(INIT, events);
    assert Received(INIT) == [];
    var s := Run(INIT, events);
    KeptLength(s.past.cells);
    NothingLost(s.past.cells);
  }

  /** A chunk is dropped only from a full queue; it is the oldest entry, and its bytes are all that is lost. */
  lemma DropIsOldest(s: State, chunk: seq<Byte>)
    requires Orderly(s) && Fifo(s)
    ensures var s' := OnData(s, chunk);
      if s'.past.drops == s.past.drops then
        s'.past.lost == s.past.lost
      else
        && MAX_QUEUED_READS <= |s.core.queue|
        && s'.core.queue == s.core.queue[1..] + [chunk]
        && s'.past.lost == s.past.lost + |s.core.queue[0]|
        && Kept(s'.past.cells)
          == Delivered(s.past.done) + InHand(s) + Flatten(s.core.queue[1..]) + chunk
  {
    var s' := OnData(s, chunk);
    if s'.past.drops != s.past.drops {
      var front := Delivered(s.past.done) + InHand(s);
      DropKeepsFifo(s.past.cells, front, s.core.queue);
      KeptFresh(chunk);
      KeptConcat(CrossOut(s.past.cells, |front|, |s.core.queue[0]|), Fresh(chunk));
    }
  }

  /**
  In every run: a call is completed, or its handler is in exactly one place; a parked handler has an empty
  queue and no stored error before it; the queue holds at most 33 chunks.
  */
  lemma ReaderAccounting(events: seq<Event>)
    ensures var s := Run(INIT, events);
      && s.past.calls == |s.past.done| + Outstanding(s)
      && Outstanding(s) <= 1
      && (s.core.parked.Some? ==> s.core.queue == [] && s.core.deferred == None && !s.core.closed)
      && |s.core.queue| <= 33
  {
    InitHolds();
    InvRun(INIT, events);
  }

  /**
  In every run: one underlying read is outstanding at most, and the loop does not stop by itself; an
  underlying error is told once at most, and once it is told every byte that was not lost is delivered.
  */
  lemma LoopAccounting(events: seq<Event>)
    ensures var s := Run(INIT, events);
      && s.past.issued == s.past.answered + (if s.loop == InFlight then 1 else 0)
      && (s.core.started && !s.core.closed && s.past.errors == 0 ==>
            s.loop == Issuing || s.loop == InFlight || s.loop.Serving?)
      && Reports(s.past.done) <= s.past.errors <= 1
      && (0 < Reports(s.past.done) ==> Kept(s.past.cells) == Delivered(s.past.done))
  {
    InitHolds();
    InvRun(INIT, events);
    var s := Run(INIT, events);
    if 0 < Reports(s.past.done) {
      assert Delivered(s.past.done) + [] + Flatten<Byte>([]) == Delivered(s.past.done);
    }
  }

  // ----- Operations without interruption -----

  datatype Op = OpStart | OpRead(dest: nat) | OpData(chunk: seq<Byte>) | OpFail(code: int) | OpClose

  /** The regions of an operation, one after the other. */
  function Regions(op: Op): seq<Event> {
    match op
    case OpStart => [Start, Issue]
    case OpRead(dest) => [Call(dest), FinishCall]
    case OpData(chunk) => [Data(chunk), FinishServe, Issue]
    case OpFail(code) => [Fail(code), FinishServe]
    case OpClose => [Close, FinishClose]
  }

  function PerformAll(s: State, ops: seq<Op>): State
    decreases |ops|
  {
    if ops == [] then s else PerformAll(Run(s, Regions(ops[0])), ops[1..])
  }

  lemma RunOne(s: State, e: Event)
    ensures Run(s, [e]) == Apply(s, e)
  {
    assert [e][1..] == [];
  }

  lemma RunTwo(s: State, a: Event, b: Event)
    ensures Run(s, [a, b]) == Apply(Apply(s, a), b)
  {
    assert [a, b][1..] == [b] && [b][1..] == [];
    assert Run(s, [a, b]) == Run(Apply(s, a), [b]);
  }

  lemma RunThree(s: State, a: Event, b: Event, c: Event)
    ensures Run(s, [a, b, c]) == Apply(Apply(Apply(s, a), b), c)
  {
    assert [a, b, c][1..] == [b, c];
    RunTwo(Apply(s, a), b, c);
  }

  function InARow(s: State, op: Op): State {
    match op
    case OpStart => OnIssue(OnStart(s))
    case OpRead(dest) => OnFinishCall(OnCall(s, dest))
    case OpData(chunk) => OnIssue(OnFinishServe(OnData(s, chunk)))
    case OpFail(code) => OnFinishServe(OnFail(s, code))
    case OpClose => OnFinishClose(OnClose(s))
  }

  lemma RegionsUnfold(s: State, op: Op)
    ensures Run(s, Regions(op)) == InARow(s, op)
  {
    match op
    case OpStart => RunTwo(s, Start, Issue);
    case OpRead(dest) => RunTwo(s, Call(dest), FinishCall);
    case OpData(chunk) => RunThree(s, Data(chunk), FinishServe, Issue);
    case OpFail(code) => RunTwo(s, Fail(code), FinishServe);
    case OpClose => RunTwo(s, Close, FinishClose);
  }

  /** Between two operations no thread is inside one, and one chunk less may be queued. */
  ghost predicate Quiet(s: State) {
    && s.reader == None && s.closer == None
    && (s.loop == NotStarted || s.loop == InFlight || s.loop == Stopped)
    && |s.core.queue| <= MAX_QUEUED_READS
  }

  lemma QuietStep(s: State, op: Op)
    requires Orderly(s) && Quiet(s)
    ensures Quiet(Run(s, Regions(op)))
  {
    RegionsUnfold(s, op);
  }

  /** What the object's methods do to the protected fields, and the handler they invoke. */
  function Effect(c: Core, op: Op): (Core, Option<Completion>) {
    match op
    case OpStart => (if c.closed then c else c.(started := true), None)
    case OpRead(dest) => var (c', hand) := ClaimRead(c, dest); Settle(c', hand)
    case OpData(chunk) => var x := Arrive(c, chunk); Settle(x.core, x.hand)
    case OpFail(code) => var (c', hand) := ArriveError(c, Underlying(code)); Settle(c', hand)
    case OpClose => var (c', hand) := Shut(c); Settle(c', hand)
  }

  predicate Enabled(s: State, op: Op) {
    match op
    case OpRead(_) => s.past.calls == |s.past.done|
    case OpData(_) => s.loop == InFlight
    case OpFail(_) => s.loop == InFlight
    case _ => true
  }

  /** A method call that is not interrupted is its regions in a row. */
  lemma MethodsAreRegions(s: State, op: Op)
    requires Orderly(s) && Quiet(s) && Enabled(s, op)
    ensures var s' := Run(s, Regions(op)); var (c, completion) := Effect(s.core, op);
      && s'.core == c
      && s'.past.done == s.past.done + (match completion case Some(d) => [d] case None => [])
  {
    RegionsUnfold(s, op);
  }

  lemma {:induction false} PerformAllHolds(s: State, ops: seq<Op>)
    requires Inv(s) && Quiet(s)
    ensures Inv(PerformAll(s, ops)) && Quiet(PerformAll(s, ops))
    decreases |ops|
  {
    if ops != [] {
      InvRun(s, Regions(ops[0]));
      QuietStep(s, ops[0]);
      PerformAllHolds(Run(s, Regions(ops[0])), ops[1..]);
    }
  }

  /**
  Without interruption the queue holds at most 32 chunks, and while started, open and error-free exactly
  one underlying read is outstanding.
  */
  lemma AtomicOperations(ops: seq<Op>)
    ensures var s := PerformAll(INIT, ops);
      && |s.core.queue| <= 32
      && (s.core.started && !s.core.closed && s.past.errors == 0 ==> s.past.issued == s.past.answered + 1)
  {
    InitHolds();
    PerformAllHolds(INIT, ops);
  }
}
