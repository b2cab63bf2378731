/**
The read-ahead transport: a bounded queue of chunks, one parked reader, a deferred error.

Each function from `Core` to `Core` is one region under the mutex. `Hand` is what a thread carries from
one region to the next: a handler that is going to be invoked, with its outcome.
*/
module ReadAhead {
  import opened Bytes

  const MAX_QUEUED_READS: nat := 32

  datatype Error = Aborted | Underlying(code: int)

  /** A call of a read handler: the error, or the bytes copied to the caller's buffer. */
  datatype Completion = Completion(error: Option<Error>, data: seq<Byte>)

  /** A handler about to be invoked, with the size of the caller's buffer. */
  datatype Hand = Hand(dest: nat, error: Option<Error>, data: seq<Byte>)

  /** Everything the mutex protects. `parked` is the waiting handler's buffer size. */
  datatype Core = Core(
    queue: seq<seq<Byte>>,
    parked: Option<nat>,
    deferred: Option<Error>,
    closed: bool,
    started: bool)

  const INITIAL: Core := Core([], None, None, false, false)

  /** The locked part of `async_read`; no hand means the handler was parked. */
  function ClaimRead(c: Core, dest: nat): (Core, Option<Hand>) {
    if c.closed then
      (c, Some(Hand(dest, Some(Aborted), [])))
    else if c.queue != [] then
      (c.(queue := c.queue[1..]), Some(Hand(dest, None, c.queue[0])))
    else if c.deferred.Some? then
      (c.(deferred := None), Some(Hand(dest, c.deferred, [])))
    else
      (c.(parked := Some(dest)), None)
  }

  /** How many bytes go to the caller. */
  function CopySize(h: Hand): (n: nat)
    ensures n <= |h.data|
  {
    if h.error.None? then Min(h.dest, |h.data|) else 0
  }

  /** `invoke_handler`: copy what fits, and push the rest back to the front. */
  function Invoke(c: Core, h: Hand): (Core, Completion) {
    var n := CopySize(h);
    (if h.error.None? && n < |h.data| then c.(queue := [h.data[n..]] + c.queue) else c,
     Completion(h.error, h.data[..n]))
  }

  datatype Arrival = Arrival(core: Core, hand: Option<Hand>, dropped: Option<seq<Byte>>, goOn: bool)

  /** The locked part of a successful underlying read. */
  function Arrive(c: Core, chunk: seq<Byte>): Arrival {
    if c.closed then
      Arrival(c, None, None, false)
    else if c.parked.Some? then
      Arrival(c.(parked := None), Some(Hand(c.parked.value, None, chunk)), None, true)
    else if MAX_QUEUED_READS <= |c.queue| then
      Arrival(c.(queue := c.queue[1..] + [chunk]), None, Some(c.queue[0]), true)
    else
      Arrival(c.(queue := c.queue + [chunk]), None, None, true)
  }

  /** The locked part of a failed underlying read. */
  function ArriveError(c: Core, e: Error): (Core, Option<Hand>) {
    if c.closed then
      (c, None)
    else if c.parked.Some? then
      (c.(parked := None), Some(Hand(c.parked.value, Some(e), [])))
    else
      (c.(deferred := Some(e)), None)
  }

  /** The locked part of `close`. */
  function Shut(c: Core): (Core, Option<Hand>) {
    if c.closed then
      (c, None)
    else
      (c.(closed := true, parked := None, queue := []),
       match c.parked
       case Some(dest) => Some(Hand(dest, Some(Aborted), []))
       case None => None)
  }

  /** `Invoke` on an optional hand. */
  function Settle(c: Core, hand: Option<Hand>): (Core, Option<Completion>) {
    match hand
    case Some(h) => (Invoke(c, h).0, Some(Invoke(c, h).1))
    case None => (c, None)
  }

  class BufferedTransport {
    var rxQueue: seq<seq<Byte>>
    var loopStarted: bool
    var closed: bool
    var pendingHandler: bool
    var pendingDest: nat
    var deferredError: Option<Error>
    /** A read on the underlying transport is outstanding. */
    var reading: bool
    var underlyingClosed: bool

    constructor ()
      ensures State() == INITIAL && !reading && !underlyingClosed
    {
      rxQueue := [];
      loopStarted, closed, pendingHandler, reading, underlyingClosed := false, false, false, false, false;
      pendingDest := 0;
      deferredError := None;
    }

    ghost function State(): Core
      reads this
    {
      Core(rxQueue, if pendingHandler then Some(pendingDest) else None, deferredError, closed, loopStarted)
    }

    method Start()
      modifies this
      ensures State() == if old(loopStarted) || old(closed) then old(State()) else old(State()).(started := true)
      ensures reading == (old(reading) || (!old(loopStarted) && !old(closed)))
      ensures underlyingClosed == old(underlyingClosed)
    {
      if loopStarted || closed {
        return;
      }
      loopStarted := true;
      IssueUnderlyingRead();
    }

    method IssueUnderlyingRead()
      modifies this`reading
      ensures reading == (old(reading) || !closed)
    {
      if closed {
        return;
      }
      reading := true;
    }

    method AsyncRead(dest: nat) returns (completion: Option<Completion>)
      modifies this
      ensures var (c, hand) := ClaimRead(old(State()), dest);
        (State(), completion) == Settle(c, hand)
      ensures reading == old(reading) && underlyingClosed == old(underlyingClosed)
    {
      if closed {
        var done := InvokeHandler(Some(Aborted), [], dest);
        return Some(done);
      }
      if rxQueue != [] {
        var chunk := rxQueue[0];
        rxQueue := rxQueue[1..];
        var done := InvokeHandler(None, chunk, dest);
        return Some(done);
      }
      if deferredError.Some? {
        var error := deferredError;
        deferredError := None;
        var done := InvokeHandler(error, [], dest);
        return Some(done);
      }
      pendingHandler := true;
      pendingDest := dest;
      completion := None;
    }

    method Close() returns (completion: Option<Completion>)
      modifies this
      ensures var (c, hand) := Shut(old(State()));
        (State(), completion) == Settle(c, hand)
      ensures underlyingClosed == (old(underlyingClosed) || !old(closed))
      ensures reading == old(reading)
    {
      completion := None;
      if closed {
        return;
      }
      closed := true;
      var pending, dest := pendingHandler, pendingDest;
      pendingHandler, pendingDest := false, 0;
      rxQueue := [];
      underlyingClosed := true;
      if pending {
        var done := InvokeHandler(Some(Aborted), [], dest);
        completion := Some(done);
      }
    }

    /** The underlying read completed, with an error or with a chunk. */
    method OnUnderlyingRead(error: Option<Error>, buf: seq<Byte>) returns (completion: Option<Completion>)
      requires reading
      modifies this
      ensures error.Some? ==>
        var (c, hand) := ArriveError(old(State()), error.value);
        (State(), completion) == Settle(c, hand) && !reading
      ensures error.None? ==>
        var x := Arrive(old(State()), buf);
        (State(), completion) == Settle(x.core, x.hand) && (reading <==> x.goOn)
      ensures underlyingClosed == old(underlyingClosed)
    {
      completion := None;
      reading := false;
      if error.Some? {
        if closed {
          return;
        }
        var pending, dest := pendingHandler, pendingDest;
        pendingHandler, pendingDest := false, 0;
        if pending {
          var done := InvokeHandler(error, [], dest);
          return Some(done);
        }
        deferredError := error;
        return;
      }
      if closed {
        return;
      }
      if pendingHandler {
        var dest := pendingDest;
        pendingHandler, pendingDest := false, 0;
        var done := InvokeHandler(None, buf, dest);
        completion := Some(done);
      } else {
        if |rxQueue| >= MAX_QUEUED_READS {
          rxQueue := rxQueue[1..];
        }
        rxQueue := rxQueue + [buf];
      }
      IssueUnderlyingRead();
    }

    method InvokeHandler(error: Option<Error>, data: seq<Byte>, dest: nat) returns (completion: Completion)
      requires error.Some? ==> data == []
      modifies this`rxQueue
      ensures (State(), completion) == Invoke(old(State()), Hand(dest, error, data))
    {
      var toCopy := 0;
      if error.None? && data != [] {
        toCopy := Min(dest, |data|);
        if toCopy < |data| {
          var leftover := data[toCopy..];
          rxQueue := [leftover] + rxQueue;
        }
      }
      completion := Completion(error, data[..toCopy]);
    }
  }
}
