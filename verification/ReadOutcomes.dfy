/**
What a call of `async_read` comes to, in every reachable state of the read-ahead transport: when it waits,
and what it is completed with.
*/
module ReadOutcomes {
  import opened Bytes
  import opened ReadAhead
  import opened Interleavings

  /** A transport state some interleaving leads to. */
  ghost predicate Reachable(s: State) {
    exists events :: s == Run(INIT, events)
  }

  /** No call is outstanding: the reader may call. */
  predicate MayCall(s: State) {
    s.past.calls == |s.past.done|
  }

  /** There is nothing for a reader. */
  predicate NothingToRead(s: State) {
    !s.core.closed && s.core.queue == [] && s.core.deferred == None
  }

  /** What a call gives at once, unless there is nothing. */
  function Answer(s: State, dest: nat): Completion
    requires !NothingToRead(s)
  {
    if s.core.closed then Completion(Some(Aborted), [])
    else if s.core.queue != [] then Completion(None, s.core.queue[0][..Min(dest, |s.core.queue[0]|)])
    else Completion(s.core.deferred, [])
  }

  lemma ReachableHolds(s: State)
    requires Reachable(s)
    ensures Inv(s)
  {
    var events :| s == Run(INIT, events);
    InitHolds();
    InvRun(INIT, events);
  }

  /**
  A call waits if and only if the transport is open and has neither a chunk nor an error. Otherwise it is
  completed: aborted when closed, else with what fits of the oldest chunk, else with the stored error.
  */
  lemma CallExactly(s: State, dest: nat)
    requires Reachable(s) && MayCall(s)
    ensures var t := Run(s, [Call(dest), FinishCall]);
      && (t.past.done == s.past.done <==> NothingToRead(s))
      && (NothingToRead(s) ==> t.core.parked == Some(dest))
      && (!NothingToRead(s) ==> t.past.done == s.past.done + [Answer(s, dest)])
  {
    ReachableHolds(s);
    RunTwo(s, Call(dest), FinishCall);
  }

  /** What is left of the oldest chunk comes next; a stored error is told once. */
  lemma CallLeaves(s: State, dest: nat)
    requires Reachable(s) && MayCall(s) && !s.core.closed
    ensures var t := Run(s, [Call(dest), FinishCall]);
      && (s.core.queue != [] ==>
        var chunk := s.core.queue[0];
        t.core.queue == (if dest < |chunk| then [chunk[dest..]] else []) + s.core.queue[1..])
      && t.core.deferred == (if s.core.queue == [] then None else s.core.deferred)
  {
    ReachableHolds(s);
    RunTwo(s, Call(dest), FinishCall);
  }

  /** Only data, an error or a close end the wait. */
  lemma WaitGoesOn(s: State, e: Event)
    requires Reachable(s) && s.core.parked.Some?
    requires !e.Data? && !e.Fail? && !e.Close?
    ensures Apply(s, e).core.parked == s.core.parked && Apply(s, e).past.done == s.past.done
  {
    ReachableHolds(s);
  }

  /** The next data completes a waiting call with what fits, and keeps the rest. */
  lemma WaitEndsWithData(s: State, chunk: seq<Byte>)
    requires Reachable(s) && s.core.parked.Some? && s.loop == InFlight
    ensures var dest := s.core.parked.value; var t := Run(s, [Data(chunk), FinishServe]);
      && t.past.done == s.past.done + [Completion(None, chunk[..Min(dest, |chunk|)])]
      && t.core.queue == (if dest < |chunk| then [chunk[dest..]] else [])
      && t.core.parked == None
  {
    ReachableHolds(s);
    RunTwo(s, Data(chunk), FinishServe);
  }

  /** The next error completes it with that error. */
  lemma WaitEndsWithError(s: State, code: int)
    requires Reachable(s) && s.core.parked.Some? && s.loop == InFlight
    ensures var t := Run(s, [Fail(code), FinishServe]);
      t.past.done == s.past.done + [Completion(Some(Underlying(code)), [])] && t.core.deferred == None
  {
    ReachableHolds(s);
    RunTwo(s, Fail(code), FinishServe);
  }

  /** A close aborts it. */
  lemma WaitEndsWithClose(s: State)
    requires Reachable(s) && s.core.parked.Some?
    ensures Run(s, [Close, FinishClose]).past.done == s.past.done + [Completion(Some(Aborted), [])]
  {
    ReachableHolds(s);
    RunTwo(s, Close, FinishClose);
  }

  /** An error nobody waits for is kept as it is, behind the chunks that came before it. */
  lemma ErrorIsStored(s: State, code: int)
    requires Reachable(s) && s.core.parked == None && s.loop == InFlight && !s.core.closed
    ensures var t := Run(s, [Fail(code)]);
      t.core.deferred == Some(Underlying(code)) && t.core.queue == s.core.queue && t.past.done == s.past.done
  {
    ReachableHolds(s);
    RunOne(s, Fail(code));
  }

  /** A chunk nobody waits for is put last, as it is; the oldest one goes if 32 are waiting. */
  lemma ChunkIsStored(s: State, chunk: seq<Byte>)
    requires Reachable(s) && s.core.parked == None && s.loop == InFlight && !s.core.closed
    ensures var t := Run(s, [Data(chunk)]);
      t.core.queue == (if |s.core.queue| < 32 then s.core.queue else s.core.queue[1..]) + [chunk]
      && t.past.done == s.past.done && t.loop == Issuing
  {
    ReachableHolds(s);
    RunOne(s, Data(chunk));
  }

  // ----- After close -----

  lemma ClosedStep(s: State, e: Event)
    requires Orderly(s) && s.core.closed
    ensures var t := Apply(s, e);
      && t.core.closed && t.core.parked == None
      && t.past.issued == s.past.issued && t.past.cells == s.past.cells && t.past.errors == s.past.errors
  {
  }

  /**
  After a close, whatever happens: no underlying read is issued, nothing received is accepted, and every
  call is aborted at once.
  */
  lemma {:induction false} ClosedForGood(s: State, later: seq<Event>)
    requires Reachable(s) && s.core.closed
    ensures var t := Run(s, later);
      && t.core.closed
      && t.past.issued == s.past.issued && t.past.cells == s.past.cells && t.past.errors == s.past.errors
      && (MayCall(t) ==> forall dest ::
            Run(t, [Call(dest), FinishCall]).past.done == t.past.done + [Completion(Some(Aborted), [])])
  {
    ReachableHolds(s);
    ClosedRun(s, later);
    var t := Run(s, later);
    if MayCall(t) {
      forall dest
        ensures Run(t, [Call(dest), FinishCall]).past.done == t.past.done + [Completion(Some(Aborted), [])]
      {
        RunTwo(t, Call(dest), FinishCall);
      }
    }
  }

  lemma {:induction false} ClosedRun(s: State, later: seq<Event>)
    requires Orderly(s) && s.core.closed
    ensures var t := Run(s, later);
      && Orderly(t) && t.core.closed
      && t.past.issued == s.past.issued && t.past.cells == s.past.cells && t.past.errors == s.past.errors
    decreases |later|
  {
    if later != [] {
      OrderlyStep(s, later[0]);
      ClosedStep(s, later[0]);
      ClosedRun(Apply(s, later[0]), later[1..]);
    }
  }
}
