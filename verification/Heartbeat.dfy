/**
The ping watchdog of the control service. Times are in nanoseconds and do not go back.

A timer armed for a moment fires at that moment or later, but at most `lateness` later. A wait that was
cancelled too late may still fire: a stale firing.
*/
module Heartbeat {
  import opened Bytes

  const NS_PER_MS: int := 1_000_000
  const PING_INTERVAL_MS: int := 5000
  const PING_TIMEOUT_MS: int := 10000

  datatype Watchdog = Watchdog(
    running: bool,
    lastPong: int,
    closeTriggered: bool,
    deadline: Option<int>,  // of the armed timer
    closes: nat,            // close callbacks since the channel was opened
    pings: nat)

  const NEW: Watchdog := Watchdog(false, 0, false, None, 0, 0)

  /** Integer division as the source language does it. */
  function TruncDiv(a: int, b: int): int
    requires 0 < b
  {
    if 0 <= a then a / b else -(-a / b)
  }

  function Schedule(w: Watchdog, now: int): Watchdog {
    w.(deadline := Some(now + PING_INTERVAL_MS * NS_PER_MS))
  }

  function OnOpen(w: Watchdog, now: int): Watchdog {
    Schedule(w.(lastPong := now, closeTriggered := false, running := true, closes := 0), now)
  }

  function OnClose(w: Watchdog): Watchdog {
    w.(running := false, deadline := None)
  }

  function OnPong(w: Watchdog, now: int): Watchdog {
    w.(lastPong := now)
  }

  function TriggerClose(w: Watchdog): Watchdog {
    if w.closeTriggered then w else w.(closeTriggered := true, closes := w.closes + 1)
  }

  /** The timer handler, not aborted. */
  function OnTimer(w: Watchdog, now: int): Watchdog {
    if !w.running then w
    else
      var p := w.(pings := w.pings + 1);
      if PING_TIMEOUT_MS < TruncDiv(now - w.lastPong, NS_PER_MS) then TriggerClose(p) else Schedule(p, now)
  }

  class ControlService {
    var running: bool
    var lastPongNs: int
    var closeTriggered: bool
    var timer: Option<int>
    ghost var closes: nat
    ghost var pings: nat

    constructor ()
      ensures State() == NEW
    {
      running, lastPongNs, closeTriggered, timer := false, 0, false, None;
      closes, pings := 0, 0;
    }

    ghost function State(): Watchdog
      reads this
    {
      Watchdog(running, lastPongNs, closeTriggered, timer, closes, pings)
    }

    method OnChannelOpen(now: int)
      modifies this
      ensures State() == OnOpen(old(State()), now)
    {
      lastPongNs := now;
      closeTriggered := false;
      running := true;
      closes := 0;
      ScheduleHeartbeat(now);
    }

    method OnChannelClose()
      modifies this
      ensures State() == OnClose(old(State()))
    {
      running := false;
      timer := None;
    }

    method OnPingResponse(now: int)
      modifies this
      ensures State() == OnPong(old(State()), now)
    {
      lastPongNs := now;
    }

    method ScheduleHeartbeat(now: int)
      modifies this`timer
      ensures State() == Schedule(old(State()), now)
    {
      timer := Some(now + PING_INTERVAL_MS * NS_PER_MS);
    }

    /** `stale` firings leave the armed wait as it is; a regular one has used it up. */
    method OnHeartbeatTimer(aborted: bool, stale: bool, now: int)
      modifies this
      ensures State() == if aborted then old(State()) else OnTimer(Expire(old(State()), stale), now)
    {
      if aborted {
        return;
      }
      if !stale {
        timer := None;
      }
      if !running {
        return;
      }
      pings := pings + 1;
      var elapsedNs := now - lastPongNs;
      var elapsedMs := if 0 <= elapsedNs then elapsedNs / NS_PER_MS else -(-elapsedNs / NS_PER_MS);
      if elapsedMs > PING_TIMEOUT_MS {
        TriggerSessionClose();
        return;
      }
      ScheduleHeartbeat(now);
    }

    method TriggerSessionClose()
      modifies this
      ensures State() == TriggerClose(old(State()))
    {
      if closeTriggered {
        return;
      }
      closeTriggered := true;
      closes := closes + 1;
    }
  }

  // ----- Timed runs -----

  datatype Event =
    | Open
    | ChannelClose
    | Pong
    | ByeBye
    | Fire(stale: bool)

  datatype Timed = Timed(at: int, event: Event)

  /** A regular firing uses up the armed wait. */
  function Expire(w: Watchdog, stale: bool): Watchdog {
    if stale then w else w.(deadline := None)
  }

  function Apply(w: Watchdog, e: Timed): Watchdog {
    match e.event
    case Open => OnOpen(w, e.at)
    case ChannelClose => OnClose(w)
    case Pong => OnPong(w, e.at)
    case ByeBye => TriggerClose(w)
    case Fire(stale) => OnTimer(Expire(w, stale), e.at)
  }

  function Run(w: Watchdog, events: seq<Timed>): Watchdog
    decreases |events|
  {
    if events == [] then w else Run(Apply(w, events[0]), events[1..])
  }

  /** Time may go on to `t`: it does not go back, and an armed timer is not forgotten. */
  predicate MayReach(w: Watchdog, now: int, lateness: nat, t: int) {
    now <= t && (w.deadline.Some? ==> t <= w.deadline.value + lateness)
  }

  /** A regular firing needs an armed timer that is due. */
  predicate MayHappen(w: Watchdog, e: Timed) {
    e.event.Fire? && !e.event.stale ==> w.deadline.Some? && w.deadline.value <= e.at
  }

  predicate IsRun(w: Watchdog, now: int, lateness: nat, events: seq<Timed>)
    decreases |events|
  {
    events == [] ||
    (MayReach(w, now, lateness, events[0].at)
     && MayHappen(w, events[0])
     && IsRun(Apply(w, events[0]), events[0].at, lateness, events[1..]))
  }

  function EndTime(now: int, events: seq<Timed>): int {
    if events == [] then now else events[|events| - 1].at
  }

  /** While open and not closing, the next check is due before the last pong is 15001 ms old. */
  ghost predicate Watched(w: Watchdog, now: int) {
    && w.closes == (if w.closeTriggered then 1 else 0)
    && (w.running ==> w.lastPong <= now)
    && (w.running && !w.closeTriggered ==>
          w.deadline.Some? && w.deadline.value < w.lastPong + 15001 * NS_PER_MS)
  }

  /** The check at a firing, exactly: the session is given up when the last pong is 10001 ms old or more. */
  lemma TimeoutExactly(w: Watchdog, now: int)
    requires w.running && !w.closeTriggered && w.lastPong <= now
    ensures OnTimer(w, now).closeTriggered <==> w.lastPong + 10001 * NS_PER_MS <= now
  {
  }

  lemma WatchedStep(w: Watchdog, now: int, lateness: nat, e: Timed)
    requires Watched(w, now) && MayReach(w, now, lateness, e.at) && MayHappen(w, e)
    ensures Watched(Apply(w, e), e.at)
  {
  }

  lemma {:induction false} WatchedRun(w: Watchdog, now: int, lateness: nat, events: seq<Timed>)
    requires Watched(w, now) && IsRun(w, now, lateness, events)
    ensures Watched(Run(w, events), EndTime(now, events))
    decreases |events|
  {
    if events != [] {
      WatchedStep(w, now, lateness, events[0]);
      WatchedRun(Apply(w, events[0]), events[0].at, lateness, events[1..]);
      assert EndTime(events[0].at, events[1..]) == EndTime(now, events);
    }
  }

  /**
  The watchdog's bound from above, in every run and at every later moment it may reach: a channel that is
  open and not closing has heard a pong, or was opened, less than 15001 ms plus the lateness ago.
  */
  lemma ClosesInTime(now: int, lateness: nat, events: seq<Timed>, t: int)
    requires IsRun(NEW, now, lateness, events)
    requires MayReach(Run(NEW, events), EndTime(now, events), lateness, t)
    ensures var w := Run(NEW, events);
      w.running && !w.closeTriggered ==> t < w.lastPong + 15001 * NS_PER_MS + lateness
  {
    WatchedRun(NEW, now, lateness, events);
  }

  /**
  The bound from below: along every run, a firing that starts the close finds the last pong, or the open,
  at least 10001 ms old; and the close callback runs at most once for each open.
  */
  lemma NeverClosesEarly(now: int, lateness: nat, events: seq<Timed>, e: Timed)
    requires IsRun(NEW, now, lateness, events + [e]) && e.event.Fire?
    ensures var w := Run(NEW, events); var v := Run(NEW, events + [e]);
      && (!w.closeTriggered && v.closeTriggered ==> w.lastPong + 10001 * NS_PER_MS <= e.at)
      && v.closes <= 1
  {
    RunSnoc(NEW, now, lateness, events, e);
    WatchedRun(NEW, now, lateness, events);
    WatchedRun(NEW, now, lateness, events + [e]);
    var w := Run(NEW, events);
    if w.running && !w.closeTriggered {
      TimeoutExactly(Expire(w, e.event.stale), e.at);
    }
  }

  lemma {:induction false} RunSnoc(w: Watchdog, now: int, lateness: nat, events: seq<Timed>, e: Timed)
    requires IsRun(w, now, lateness, events + [e])
    ensures IsRun(w, now, lateness, events)
    ensures Run(w, events + [e]) == Apply(Run(w, events), e)
    ensures MayReach(Run(w, events), EndTime(now, events), lateness, e.at) && MayHappen(Run(w, events), e)
    decreases |events|
  {
    if events == [] {
      assert [] + [e] == [e] && [e][1..] == [];
    } else {
      ConcatTail(events, [e]);
      RunSnoc(Apply(w, events[0]), events[0].at, lateness, events[1..], e);
      assert EndTime(events[0].at, events[1..]) == EndTime(now, events);
    }
  }

  // ----- A phone that answers -----

  /** Every ping is answered before the next check, and nobody says goodbye or closes. */
  predicate Answers(events: seq<Timed>, answered: bool)
    decreases |events|
  {
    events == [] ||
    match events[0].event
    case Pong => Answers(events[1..], true)
    case Fire(_) => answered && Answers(events[1..], false)
    case _ => false
  }

  /** The timer was armed no later than the last pong, if the last ping is answered. */
  ghost predicate Alive(w: Watchdog, now: int, answered: bool) {
    && w.running && !w.closeTriggered && w.lastPong <= now && w.deadline.Some?
    && (answered ==> w.deadline.value <= w.lastPong + PING_INTERVAL_MS * NS_PER_MS)
    && w.deadline.value <= now + PING_INTERVAL_MS * NS_PER_MS
  }

  /** With timers late by 5 s at most, a phone that answers every ping before the next is never given up. */
  lemma {:induction false} AnsweringPhoneStays(
    w: Watchdog, now: int, lateness: nat, events: seq<Timed>, answered: bool)
    requires Alive(w, now, answered) && IsRun(w, now, lateness, events) && Answers(events, answered)
    requires lateness <= 5000 * NS_PER_MS
    ensures !Run(w, events).closeTriggered && Run(w, events).running
    decreases |events|
  {
    if events != [] {
      var e := events[0];
      var v := Apply(w, e);
      if e.event.Fire? {
        TimeoutExactly(Expire(w, e.event.stale), e.at);
      }
      AnsweringPhoneStays(v, e.at, lateness, events[1..], e.event.Pong?);
    }
  }

  lemma OpenIsAlive(w: Watchdog, now: int)
    ensures Alive(OnOpen(w, now), now, true)
  {
  }

  lemma {:induction false} RunSplits(w: Watchdog, now: int, lateness: nat, a: seq<Timed>, b: seq<Timed>)
    requires IsRun(w, now, lateness, a + b)
    ensures Run(w, a + b) == Run(Run(w, a), b)
    ensures IsRun(Run(w, a), EndTime(now, a), lateness, b)
    decreases |a|
  {
    if a == [] {
      assert a + b == b;
    } else {
      ConcatTail(a, b);
      RunSplits(Apply(w, a[0]), a[0].at, lateness, a[1..], b);
      assert EndTime(a[0].at, a[1..]) == EndTime(now, a);
    }
  }

  /**
  In every run of the service, whatever came before: after the channel is opened, a phone that answers
  every ping before the next check keeps its session, with timers late by 5 s at most.
  */
  lemma AnsweredSinceOpen(now: int, lateness: nat, before: seq<Timed>, open: Timed, after: seq<Timed>)
    requires IsRun(NEW, now, lateness, before + ([open] + after))
    requires open.event.Open? && Answers(after, true) && lateness <= 5000 * NS_PER_MS
    ensures var w := Run(NEW, before + ([open] + after)); w.running && !w.closeTriggered
  {
    RunSplits(NEW, now, lateness, before, [open] + after);
    var w := Run(NEW, before);
    assert ([open] + after)[1..] == after;
    OpenIsAlive(w, open.at);
    AnsweringPhoneStays(OnOpen(w, open.at), open.at, lateness, after, true);
  }
}
