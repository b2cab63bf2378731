/**
The watchdog told from its events alone: when the channel is open, when the phone was last heard, how many
pings went out, and when the session is given up.
*/
module Pings {
  import opened Bytes
  import opened Heartbeat

  /** The channel was opened, and not closed since. */
  predicate IsOpen(events: seq<Timed>) {
    events != [] &&
    match events[|events| - 1].event
    case Open => true
    case ChannelClose => false
    case _ => IsOpen(events[..|events| - 1])
  }

  /** When the phone was heard last: a pong, or the opening of the channel. */
  function LastHeard(events: seq<Timed>): int {
    if events == [] then 0
    else
      var e := events[|events| - 1];
      if e.event.Pong? || e.event.Open? then e.at else LastHeard(events[..|events| - 1])
  }

  /** How often the timer fired on an open channel. */
  function OpenFirings(events: seq<Timed>): nat {
    if events == [] then 0
    else
      var front := events[..|events| - 1];
      OpenFirings(front) + (if events[|events| - 1].event.Fire? && IsOpen(front) then 1 else 0)
  }

  lemma {:induction false} RunOneMore(w: Watchdog, events: seq<Timed>, e: Timed)
    ensures Run(w, events + [e]) == Apply(Run(w, events), e)
    decreases |events|
  {
    if events == [] {
      assert [] + [e] == [e] && [e][1..] == [];
    } else {
      ConcatTail(events, [e]);
      RunOneMore(Apply(w, events[0]), events[1..], e);
    }
  }

  /** For any events: one ping for each firing on an open channel, and no other; whatever the times are. */
  lemma {:induction false} PingsAreFirings(events: seq<Timed>)
    ensures var w := Run(NEW, events);
      w.running == IsOpen(events) && w.lastPong == LastHeard(events) && w.pings == OpenFirings(events)
    decreases |events|
  {
    if events != [] {
      var front, e := events[..|events| - 1], events[|events| - 1];
      PingsAreFirings(front);
      RunOneMore(NEW, front, e);
      assert events == front + [e];
    }
  }

  /**
  A session that was not given up is given up by an event if and only if that is the phone's goodbye, or a
  firing on an open channel with the phone unheard of for 10001 ms or more.
  */
  lemma GivesUpExactly(now: int, lateness: nat, events: seq<Timed>, e: Timed)
    requires IsRun(NEW, now, lateness, events + [e]) && !Run(NEW, events).closeTriggered
    ensures Run(NEW, events + [e]).closeTriggered <==>
      e.event.ByeBye?
      || (e.event.Fire? && IsOpen(events) && LastHeard(events) + 10_001_000_000 <= e.at)
  {
    RunSnoc(NEW, now, lateness, events, e);
    WatchedRun(NEW, now, lateness, events);
    PingsAreFirings(events);
    var w := Run(NEW, events);
    if e.event.Fire? && w.running {
      TimeoutExactly(Expire(w, e.event.stale), e.at);
    }
  }

  /** Once given up, a session stays so until the channel is opened again; each time one callback. */
  lemma GivenUpOnce(now: int, lateness: nat, events: seq<Timed>, e: Timed)
    requires IsRun(NEW, now, lateness, events + [e])
    ensures var w, v := Run(NEW, events), Run(NEW, events + [e]);
      && v.closes == (if v.closeTriggered then 1 else 0)
      && (w.closeTriggered ==> (v.closeTriggered <==> !e.event.Open?))
  {
    RunSnoc(NEW, now, lateness, events, e);
    WatchedRun(NEW, now, lateness, events + [e]);
  }

  // ----- The rhythm of the pings -----

  /** Events that leave the timer alone. */
  predicate LeavesTimer(e: Timed) {
    e.event.Pong? || e.event.ByeBye?
  }

  lemma {:induction false} TimerWaits(w: Watchdog, between: seq<Timed>)
    requires forall e :: e in between ==> LeavesTimer(e)
    ensures Run(w, between).deadline == w.deadline
    decreases |between|
  {
    if between != [] {
      assert between[0] in between;
      TimerWaits(Apply(w, between[0]), between[1..]);
    }
  }

  /** The timer is set for 5 s by an opening, and by a firing on an open channel that does not give up. */
  lemma TimerIsSet(before: seq<Timed>, a: Timed)
    requires a.event.Open? || (a.event.Fire? && IsOpen(before) && !Run(NEW, before + [a]).closeTriggered)
    ensures Run(NEW, before + [a]).deadline == Some(a.at + 5_000_000_000)
  {
    PingsAreFirings(before);
    RunOneMore(NEW, before, a);
  }

  /**
  The check after an opening or a check comes 5 s later, and at most the timer's lateness after that, if
  nothing but pongs and goodbyes comes between.
  */
  lemma ChecksAreSpaced(
    now: int, lateness: nat, before: seq<Timed>, a: Timed, between: seq<Timed>, b: Timed)
    requires IsRun(NEW, now, lateness, (before + [a] + between) + [b])
    requires a.event.Open? || (a.event.Fire? && IsOpen(before) && !Run(NEW, before + [a]).closeTriggered)
    requires forall e :: e in between ==> LeavesTimer(e)
    requires b.event.Fire? && !b.event.stale
    ensures a.at + 5_000_000_000 <= b.at <= a.at + 5_000_000_000 + lateness
  {
    TimerIsSet(before, a);
    RunSnoc(NEW, now, lateness, before + [a] + between, b);
    RunSplits(NEW, now, lateness, before + [a], between);
    TimerWaits(Run(NEW, before + [a]), between);
  }

  // ----- A phone that answers the pings it gets -----

  /**
  Each pong answers a ping that went out, and each ping is answered before the next check; the channel is
  not closed and nobody says goodbye. `open` pings wait for their answer.
  */
  predicate Healthy(w: Watchdog, open: nat, events: seq<Timed>)
    decreases |events|
  {
    events == [] ||
    var v := Apply(w, events[0]);
    match events[0].event
    case Pong => 0 < open && Healthy(v, open - 1, events[1..])
    case Fire(_) => open == 0 && w.pings <= v.pings && Healthy(v, v.pings - w.pings, events[1..])
    case _ => false
  }

  lemma {:induction false} HealthyAnswers(w: Watchdog, open: nat, events: seq<Timed>)
    requires w.running && open <= 1 && Healthy(w, open, events)
    ensures Answers(events, open == 0)
    decreases |events|
  {
    if events != [] {
      var v := Apply(w, events[0]);
      match events[0].event
      case Pong => HealthyAnswers(v, 0, events[1..]);
      case Fire(_) => HealthyAnswers(v, 1, events[1..]);
      case _ =>
    }
  }

  /**
  In every run, from any opening of the channel on: a phone that answers the pings it gets, each before the
  next check, keeps its session, with timers late by 5 s at most.
  */
  lemma HealthyPhoneStays(now: int, lateness: nat, before: seq<Timed>, open: Timed, after: seq<Timed>)
    requires IsRun(NEW, now, lateness, before + ([open] + after)) && lateness <= 5_000_000_000
    requires open.event.Open? && Healthy(OnOpen(Run(NEW, before), open.at), 0, after)
    ensures var w := Run(NEW, before + ([open] + after)); w.running && !w.closeTriggered
  {
    HealthyAnswers(OnOpen(Run(NEW, before), open.at), 0, after);
    AnsweredSinceOpen(now, lateness, before, open, after);
  }

  /** There is such a phone: open, a check, its pong, and so on; the session lasts as long as it likes. */
  lemma {:induction false} HealthyRun(w: Watchdog, now: int, n: nat) returns (events: seq<Timed>)
    requires Alive(w, now, true) && now <= w.deadline.value <= w.lastPong + 5_000_000_000
    ensures |events| == 2 * n && IsRun(w, now, 0, events) && Healthy(w, 0, events)
    decreases n
  {
    if n == 0 {
      events := [];
    } else {
      var at := w.deadline.value;
      var check, pong := Timed(at, Fire(false)), Timed(at, Pong);
      TimeoutExactly(Expire(w, false), at);
      var v := Apply(Apply(w, check), pong);
      var more := HealthyRun(v, at, n - 1);
      events := [check] + ([pong] + more);
      assert events[1..] == [pong] + more && events[1..][1..] == more;
    }
  }
}
