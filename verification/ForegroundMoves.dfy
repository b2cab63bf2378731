/** What each operation of the foreground policy does to every session, for any calls to the engine that fail. */
module ForegroundMoves {
  import opened Bytes
  import opened Foreground

  // ----- The list as a map from ids -----

  function Find(es: seq<Entry>, id: int): Option<Entry> {
    if Has(es, id) then Some(es[IndexOf(es, id)]) else None
  }

  function Ids(es: seq<Entry>): seq<int> {
    seq(|es|, i requires 0 <= i < |es| => es[i].id)
  }

  ghost predicate UniqueIds(es: seq<Entry>) {
    forall i, j :: 0 <= i < j < |es| ==> es[i].id != es[j].id
  }

  lemma FindAt(es: seq<Entry>, k: nat)
    requires UniqueIds(es) && k < |es|
    ensures IndexOf(es, es[k].id) == k && Find(es, es[k].id) == Some(es[k])
  {
  }

  lemma FindNone(es: seq<Entry>, id: int)
    ensures Find(es, id).None? <==> forall k :: 0 <= k < |es| ==> es[k].id != id
  {
  }

  /** Changing one entry, whose id stays. */
  lemma FindUpdated(es: seq<Entry>, k: nat, e: Entry, x: int)
    requires UniqueIds(es) && k < |es| && e.id == es[k].id
    ensures UniqueIds(es[k := e]) && Ids(es[k := e]) == Ids(es)
    ensures Find(es[k := e], x) == if x == e.id then Some(e) else Find(es, x)
  {
    var fs := es[k := e];
    if x == e.id {
      FindAt(fs, k);
    } else if Has(es, x) {
      FindAt(fs, IndexOf(es, x));
    } else {
      FindNone(es, x);
      FindNone(fs, x);
    }
  }

  lemma CreateExactly(es: seq<Entry>, id: int, transport: string, x: int)
    requires UniqueIds(es)
    ensures UniqueIds(Create(es, id, transport))
    ensures Find(Create(es, id, transport), x) == if x == id then Some(Entry(id, transport, None, CONNECTING)) else Find(es, x)
    ensures Ids(Create(es, id, transport)) == Ids(es) + (if Has(es, id) then [] else [id])
  {
    var e := Entry(id, transport, None, CONNECTING);
    if Has(es, id) {
      FindUpdated(es, IndexOf(es, id), e, x);
      assert Ids(es) + [] == Ids(es);
    } else {
      var fs := es + [e];
      FindNone(es, id);
      if x == id {
        FindAt(fs, |es|);
      } else if Has(es, x) {
        FindAt(fs, IndexOf(es, x));
      } else {
        FindNone(es, x);
        FindNone(fs, x);
      }
    }
  }

  lemma IdentifyExactly(es: seq<Entry>, id: int, name: string, x: int)
    requires UniqueIds(es)
    ensures UniqueIds(Identify(es, id, name)) && Ids(Identify(es, id, name)) == Ids(es)
    ensures Find(Identify(es, id, name), x) ==
      if x == id && Has(es, id) then Some(Find(es, id).value.(name := Some(name), state := CONNECTED)) else Find(es, x)
  {
    if Has(es, id) {
      var k := IndexOf(es, id);
      FindUpdated(es, k, es[k].(name := Some(name), state := CONNECTED), x);
    }
  }

  lemma SetStateExactly(es: seq<Entry>, id: int, state: SessionState, x: int)
    requires UniqueIds(es)
    ensures UniqueIds(SetState(es, id, state)) && Ids(SetState(es, id, state)) == Ids(es)
    ensures Find(SetState(es, id, state), x) ==
      if x == id && Has(es, id) then Some(Find(es, id).value.(state := state)) else Find(es, x)
  {
    if Has(es, id) {
      var k := IndexOf(es, id);
      FindUpdated(es, k, es[k].(state := state), x);
    }
  }

  lemma DropAt(es: seq<Entry>, k: nat)
    requires UniqueIds(es) && k < |es|
    ensures var fs := es[..k] + es[k + 1..];
      && UniqueIds(fs) && |fs| == |es| - 1
      && (forall i :: 0 <= i < |fs| ==> fs[i] == es[if i < k then i else i + 1])
      && (forall i :: 0 <= i < |fs| ==> fs[i].id != es[k].id)
  {
  }

  lemma FindDropped(es: seq<Entry>, k: nat, x: int)
    requires UniqueIds(es) && k < |es| && x != es[k].id
    ensures Find(es[..k] + es[k + 1..], x) == Find(es, x)
  {
    var fs := es[..k] + es[k + 1..];
    DropAt(es, k);
    var j := IndexOf(es, x);
    if j < |es| {
      FindAt(fs, if j < k then j else j - 1);
    } else {
      FindNone(es, x);
      FindNone(fs, x);
    }
  }

  lemma RemoveAt(es: seq<Entry>, id: int)
    requires Has(es, id)
    ensures var k := IndexOf(es, id); es[k].id == id && Remove(es, id) == es[..k] + es[k + 1..]
  {
  }

  lemma RemoveExactly(es: seq<Entry>, id: int, x: int)
    requires UniqueIds(es)
    ensures UniqueIds(Remove(es, id))
    ensures Find(Remove(es, id), x) == if x == id then None else Find(es, x)
  {
    if Has(es, id) {
      var k := IndexOf(es, id);
      RemoveAt(es, id);
      DropAt(es, k);
      if x == id {
        FindNone(Remove(es, id), id);
      } else {
        FindDropped(es, k, x);
      }
    }
  }

  /** The others keep their order. */
  lemma RemoveOrder(es: seq<Entry>, id: int)
    requires Has(es, id)
    ensures var k := IndexOf(es, id); Ids(Remove(es, id)) == Ids(es)[..k] + Ids(es)[k + 1..]
  {
    RemoveAt(es, id);
  }

  lemma SetStateAt(es: seq<Entry>, k: nat, state: SessionState)
    requires UniqueIds(es) && k < |es|
    ensures SetState(es, es[k].id, state) == es[k := es[k].(state := state)]
    ensures UniqueIds(SetState(es, es[k].id, state))
  {
    FindAt(es, k);
  }

  // ----- Calls -----

  /** The next `n` calls go through. */
  predicate AllGo(calls: seq<bool>, n: nat) {
    forall j :: 0 <= j < n && j < |calls| ==> calls[j]
  }

  lemma {:induction false} TryExactly(calls: seq<bool>, n: nat)
    ensures Try(calls, n).ok <==> AllGo(calls, n)
    ensures AllGo(calls, n) ==> Try(calls, n).rest == calls[Min(n, |calls|)..]
    decreases n
  {
    if n != 0 && calls != [] && calls[0] {
      TryExactly(calls[1..], n - 1);
      assert AllGo(calls, n) <==> AllGo(calls[1..], n - 1) by {
        assert forall j :: 0 < j < |calls| ==> calls[j] == calls[1..][j - 1];
      }
    }
  }

  lemma GoOn(calls: seq<bool>, a: nat, b: nat)
    ensures AllGo(calls, a + b) <==> AllGo(calls, a) && AllGo(calls[Min(a, |calls|)..], b)
  {
    var rest := calls[Min(a, |calls|)..];
    assert forall j :: a <= j < |calls| ==> calls[j] == rest[j - a];
  }

  lemma RestOfRest(calls: seq<bool>, a: nat, b: nat)
    ensures var rest := calls[Min(a, |calls|)..];
      rest[Min(b, |rest|)..] == calls[Min(a + b, |calls|)..]
  {
  }

  // ----- Promotion -----

  /** Other sessions in the foreground, from the `i`-th on. */
  function Others(es: seq<Entry>, i: nat, keep: int): nat
    requires i <= |es|
    decreases |es| - i
  {
    if i == |es| then 0
    else (if es[i].id != keep && InForeground(es[i]) then 1 else 0) + Others(es, i + 1, keep)
  }

  lemma {:induction false} OthersFrom(es: seq<Entry>, fs: seq<Entry>, i: nat, keep: int)
    requires |es| == |fs| && i <= |es| && forall k :: i <= k < |es| ==> es[k] == fs[k]
    ensures Others(es, i, keep) == Others(fs, i, keep)
    decreases |es| - i
  {
    if i < |es| {
      OthersFrom(es, fs, i + 1, keep);
    }
  }

  /** A demoted session is CONNECTED, all else about it as it was. */
  function Demoted(e: Entry, keep: int): Entry {
    if e.id != keep && InForeground(e) then e.(state := CONNECTED) else e
  }

  lemma DemoteUnfolds(es: seq<Entry>, i: nat, keep: int, calls: seq<bool>)
    requires UniqueIds(es) && i < |es| && es[i].id != keep && InForeground(es[i])
    ensures Others(es, i, keep) == 1 + Others(es, i + 1, keep)
    ensures Demote(es, i, keep, calls) ==
      if Try(calls, 3).ok then Demote(es[i := es[i].(state := CONNECTED)], i + 1, keep, Try(calls, 3).rest)
      else Progress(es, false, Try(calls, 3).rest)
  {
    SetStateAt(es, i, CONNECTED);
  }

  /** Demotion succeeds if and only if the three calls of each session in the foreground go through. */
  lemma {:induction false} DemoteCalls(es: seq<Entry>, i: nat, keep: int, calls: seq<bool>)
    requires UniqueIds(es) && i <= |es|
    ensures var d := Demote(es, i, keep, calls); var n := 3 * Others(es, i, keep);
      && (d.ok <==> AllGo(calls, n))
      && (d.ok ==> d.rest == calls[Min(n, |calls|)..])
    decreases |es| - i
  {
    if i == |es| {
      assert calls[0..] == calls;
    } else if es[i].id == keep || !InForeground(es[i]) {
      DemoteCalls(es, i + 1, keep, calls);
    } else {
      var t := Try(calls, 3);
      var m := 3 * Others(es, i + 1, keep);
      DemoteUnfolds(es, i, keep, calls);
      TryExactly(calls, 3);
      GoOn(calls, 3, m);
      if t.ok {
        var fs := es[i := es[i].(state := CONNECTED)];
        SetStateAt(es, i, CONNECTED);
        OthersFrom(es, fs, i + 1, keep);
        DemoteCalls(fs, i + 1, keep, t.rest);
        RestOfRest(calls, 3, m);
      }
    }
  }

  /** Then each such session is CONNECTED, and the others are as before. */
  lemma {:induction false} DemoteLeaves(es: seq<Entry>, i: nat, keep: int, calls: seq<bool>)
    requires UniqueIds(es) && i <= |es|
    ensures var d := Demote(es, i, keep, calls);
      && |d.sessions| == |es|
      && (forall k :: 0 <= k < i ==> d.sessions[k] == es[k])
      && (d.ok ==> forall k :: i <= k < |es| ==> d.sessions[k] == Demoted(es[k], keep))
    decreases |es| - i
  {
    if i < |es| {
      if es[i].id == keep || !InForeground(es[i]) {
        DemoteLeaves(es, i + 1, keep, calls);
      } else {
        DemoteUnfolds(es, i, keep, calls);
        if Try(calls, 3).ok {
          SetStateAt(es, i, CONNECTED);
          DemoteLeaves(es[i := es[i].(state := CONNECTED)], i + 1, keep, Try(calls, 3).rest);
        }
      }
    }
  }

  lemma {:induction false} NobodyElse(es: seq<Entry>, i: nat, keep: int)
    requires i <= |es|
    ensures Others(es, i, keep) == 0 <==> forall k :: i <= k < |es| && es[k].id != keep ==> !InForeground(es[k])
    decreases |es| - i
  {
    if i < |es| {
      NobodyElse(es, i + 1, keep);
    }
  }

  lemma {:induction false} AtMostOne(es: seq<Entry>, i: nat, keep: int)
    requires SingleForeground(es) && i <= |es|
    ensures Others(es, i, keep) <= 1
    decreases |es| - i
  {
    if i < |es| {
      AtMostOne(es, i + 1, keep);
      if es[i].id != keep && InForeground(es[i]) {
        NobodyElse(es, i + 1, keep);
      }
    }
  }

  lemma OneOther(es: seq<Entry>, i: nat, keep: int, calls: seq<bool>)
    requires UniqueIds(es) && i < |es| && es[i].id != keep && InForeground(es[i])
    requires Others(es, i, keep) <= 1 && Try(calls, 3).ok
    ensures Demote(es, i, keep, calls).ok
  {
    DemoteCalls(es, i, keep, calls);
    TryExactly(calls, 3);
    assert Others(es, i, keep) == 1;
  }

  /** A demotion that fails has changed nothing, if there was one session to demote. */
  lemma {:induction false} FailedDemotion(es: seq<Entry>, i: nat, keep: int, calls: seq<bool>)
    requires UniqueIds(es) && i <= |es| && Others(es, i, keep) <= 1 && !Demote(es, i, keep, calls).ok
    ensures Demote(es, i, keep, calls).sessions == es
    decreases |es| - i
  {
    if i < |es| {
      if es[i].id == keep || !InForeground(es[i]) {
        FailedDemotion(es, i + 1, keep, calls);
      } else if Try(calls, 3).ok {
        OneOther(es, i, keep, calls);
        assert false;
      }
    }
  }

  /** What a promotion makes of one session: whether the others are demoted, and whether it succeeds. */
  function Outcome(e: Entry, id: int, state: SessionState, demoted: bool, promoted: bool): Entry {
    if e.id == id then (if promoted then e.(state := state) else e)
    else if demoted then Demoted(e, id)
    else e
  }

  /**
  A promotion, exactly: three calls for the session to demote, if any, and three for the one to promote.
  The first three decide about the demotion, all of them about the promotion.
  */
  lemma PromoteExactly(es: seq<Entry>, id: int, state: SessionState, calls: seq<bool>)
    requires SingleForeground(es) && Has(es, id)
    ensures var p := Promote(es, id, state, calls); var n := 3 * Others(es, 0, id);
      && (p.ok <==> AllGo(calls, n + 3))
      && |p.sessions| == |es|
      && forall k :: 0 <= k < |es| ==>
           p.sessions[k] == Outcome(es[k], id, state, AllGo(calls, n), AllGo(calls, n + 3))
  {
    var n := 3 * Others(es, 0, id);
    var d := Demote(es, 0, id, calls);
    AtMostOne(es, 0, id);
    DemoteCalls(es, 0, id, calls);
    DemoteLeaves(es, 0, id, calls);
    GoOn(calls, n, 3);
    if d.ok {
      TryExactly(d.rest, 3);
      var k := IndexOf(es, id);
      assert forall j :: 0 <= j < |es| ==> d.sessions[j].id == es[j].id;
      FindAt(d.sessions, k);
    } else {
      FailedDemotion(es, 0, id, calls);
    }
  }

  /** The session can be promoted: the engine is there, and the session is listed and connected. */
  predicate Ready(a: App, id: int) {
    a.engine && Find(a.sessions, id).Some? && Find(a.sessions, id).value.state != CONNECTING
  }

  /** Activating and backgrounding, for every session and any failing calls; a session that is not ready changes nothing. */
  lemma ActivateExactly(a: App, id: int, calls: seq<bool>)
    requires SingleForeground(a.sessions)
    ensures var b := ActivateSession(a, id, calls); var n := 3 * Others(a.sessions, 0, id);
      if Ready(a, id) then
        && |b.sessions| == |a.sessions| && b.engine == a.engine
        && forall k :: 0 <= k < |a.sessions| ==>
             b.sessions[k] == Outcome(a.sessions[k], id, ACTIVE, AllGo(calls, n), AllGo(calls, n + 3))
      else b == a
  {
    if Ready(a, id) {
      PromoteExactly(a.sessions, id, ACTIVE, calls);
    }
  }

  lemma BackgroundExactly(a: App, id: int, calls: seq<bool>)
    requires SingleForeground(a.sessions)
    ensures var b := ActivateBackground(a, id, calls); var n := 3 * Others(a.sessions, 0, id);
      if Ready(a, id) && Find(a.sessions, id).value.state != BACKGROUND then
        && |b.sessions| == |a.sessions| && b.engine == a.engine
        && forall k :: 0 <= k < |a.sessions| ==>
             b.sessions[k] == Outcome(a.sessions[k], id, BACKGROUND, AllGo(calls, n), AllGo(calls, n + 3))
      else b == a
  {
    if Ready(a, id) {
      PromoteExactly(a.sessions, id, BACKGROUND, calls);
    }
  }

  // ----- The surface -----

  lemma {:induction false} NoneActive(es: seq<Entry>, i: nat, calls: seq<bool>)
    requires i <= |es| && forall k :: i <= k < |es| ==> es[k].state != ACTIVE
    ensures LoseSurface(es, i, calls) == es
    decreases |es| - i
  {
    if i < |es| {
      NoneActive(es, i + 1, calls);
    }
  }

  lemma OnlyActive(es: seq<Entry>, i: nat)
    requires SingleForeground(es) && i < |es| && es[i].state == ACTIVE
    ensures forall k :: 0 <= k < |es| && k != i ==> es[k].state != ACTIVE
  {
    assert InForeground(es[i]);
    forall k | 0 <= k < |es| && k != i
      ensures es[k].state != ACTIVE
    {
      assert !InForeground(es[k]);
    }
  }

  /** Losing the surface takes the ACTIVE session to BACKGROUND, if its call goes through, and no other anywhere. */
  lemma {:induction false} LoseSurfaceExactly(es: seq<Entry>, i: nat, calls: seq<bool>)
    requires SingleForeground(es) && i <= |es|
    ensures |LoseSurface(es, i, calls)| == |es|
    ensures forall k :: 0 <= k < |es| ==>
      LoseSurface(es, i, calls)[k] ==
        if i <= k && es[k].state == ACTIVE && AllGo(calls, 1) then es[k].(state := BACKGROUND) else es[k]
    decreases |es| - i
  {
    if i < |es| {
      if es[i].state != ACTIVE {
        LoseSurfaceExactly(es, i + 1, calls);
      } else {
        var t := Try(calls, 1);
        TryExactly(calls, 1);
        SetStateAt(es, i, BACKGROUND);
        OnlyActive(es, i);
        NoneActive(if t.ok then SetState(es, es[i].id, BACKGROUND) else es, i + 1, t.rest);
      }
    }
  }

  // ----- A phone is identified -----

  /** Another session than `id` is in the foreground, and not of the phone `name`. */
  ghost predicate OtherPhonePlays(es: seq<Entry>, id: int, name: string) {
    exists k :: 0 <= k < |es| && es[k].id != id && es[k].name != Some(name) && InForeground(es[k])
  }

  /** The calls left for the activation: closing the phone's old session takes one, whatever becomes of it. */
  function AfterClosing(a: App, id: int, name: string, calls: seq<bool>): seq<bool> {
    if SamePhone(a.sessions, id, name) < |a.sessions| && a.engine && calls != [] then calls[1..] else calls
  }

  lemma CloseSame(a: App, id: int, name: string, x: int)
    requires SingleForeground(a.sessions) && OnePerPhone(a.sessions)
    ensures var k := SamePhone(a.sessions, id, name);
      var es := if k < |a.sessions| then Remove(a.sessions, a.sessions[k].id) else a.sessions;
      && SingleForeground(es)
      && Find(es, x) == (match Find(a.sessions, x)
         case Some(e) => if x != id && e.name == Some(name) then None else Some(e)
         case None => None)
  {
    var k := SamePhone(a.sessions, id, name);
    if k < |a.sessions| {
      RemoveKeeps(a.sessions, a.sessions[k].id);
      RemoveExactly(a.sessions, a.sessions[k].id, x);
      FindAt(a.sessions, k);
    }
  }

  /** Nobody else in the foreground: the activation demotes nobody. */
  lemma ActivateAlone(a: App, id: int, calls: seq<bool>, x: int)
    requires SingleForeground(a.sessions) && Has(a.sessions, id) && !HasAudioOrVideo(a.sessions)
    requires Find(a.sessions, id).value.state == CONNECTED
    ensures Find(ActivateSession(a, id, calls).sessions, x) ==
      if x == id && a.engine && AllGo(calls, 3) then Some(Find(a.sessions, id).value.(state := ACTIVE))
      else Find(a.sessions, x)
  {
    ActivateExactly(a, id, calls);
    NobodyElse(a.sessions, 0, id);
    if a.engine {
      var fs := ActivateSession(a, id, calls).sessions;
      var k := IndexOf(a.sessions, id);
      assert fs == a.sessions[k := if AllGo(calls, 3) then a.sessions[k].(state := ACTIVE) else a.sessions[k]];
      FindUpdated(a.sessions, k, fs[k], x);
    }
  }

  lemma PlaysAfter(es: seq<Entry>, fs: seq<Entry>, id: int, name: string)
    requires UniqueIds(es) && UniqueIds(fs) && Has(fs, id) && Find(fs, id).value.state == CONNECTED
    requires forall x :: x != id ==> Find(fs, x) == (match Find(es, x)
      case Some(e) => if e.name == Some(name) then None else Some(e)
      case None => None)
    ensures HasAudioOrVideo(fs) <==> OtherPhonePlays(es, id, name)
  {
    if HasAudioOrVideo(fs) {
      var j :| 0 <= j < |fs| && InForeground(fs[j]);
      FindAt(fs, j);
      assert fs[j].id != id;
      var x := fs[j].id;
      assert Find(es, x) == Some(fs[j]);
      assert es[IndexOf(es, x)] == fs[j];
    }
    if OtherPhonePlays(es, id, name) {
      var k :| 0 <= k < |es| && es[k].id != id && es[k].name != Some(name) && InForeground(es[k]);
      FindAt(es, k);
      assert Find(fs, es[k].id) == Some(es[k]);
      assert fs[IndexOf(fs, es[k].id)] == es[k];
    }
  }

  /**
  A phone that is identified, exactly: its other session is gone, this one bears its name and is CONNECTED,
  or ACTIVE if no other phone plays and the calls go through; every other session is as it was.
  */
  lemma IdentifiedExactly(a: App, id: int, name: string, calls: seq<bool>, x: int)
    requires SingleForeground(a.sessions) && OnePerPhone(a.sessions)
    ensures Find(PhoneIdentified(a, id, name, calls).sessions, x) ==
      var plays := !OtherPhonePlays(a.sessions, id, name) && a.engine && AllGo(AfterClosing(a, id, name, calls), 3);
      match Find(a.sessions, x)
      case None => None
      case Some(e) =>
        if x == id then Some(e.(name := Some(name), state := if plays then ACTIVE else CONNECTED))
        else if e.name == Some(name) then None
        else Some(e)
  {
    var k := SamePhone(a.sessions, id, name);
    var es := if k < |a.sessions| then Remove(a.sessions, a.sessions[k].id) else a.sessions;
    var fs := Identify(es, id, name);
    var b := a.(sessions := fs);
    IdentifiedRest(a, id, name, calls);
    if Has(a.sessions, id) {
      IdentifiedList(a, id, name);
      PlaysAfter(a.sessions, fs, id, name);
      if !HasAudioOrVideo(fs) {
        ActivateAlone(b, id, AfterClosing(a, id, name, calls), x);
      }
    } else {
      CloseSame(a, id, name, id);
      CloseSame(a, id, name, x);
      ActivateExactly(b, id, AfterClosing(a, id, name, calls));
    }
  }

  lemma IdentifiedRest(a: App, id: int, name: string, calls: seq<bool>)
    ensures var k := SamePhone(a.sessions, id, name);
      (if k < |a.sessions| && a.engine then Try(calls, 1).rest else calls) == AfterClosing(a, id, name, calls)
  {
    if calls != [] {
      assert Try(calls[1..], 0) == Attempt(true, calls[1..]);
    }
  }

  lemma IdentifiedList(a: App, id: int, name: string)
    requires SingleForeground(a.sessions) && OnePerPhone(a.sessions) && Has(a.sessions, id)
    ensures var k := SamePhone(a.sessions, id, name);
      var es := if k < |a.sessions| then Remove(a.sessions, a.sessions[k].id) else a.sessions;
      var fs := Identify(es, id, name);
      && SingleForeground(fs)
      && Find(fs, id) == Some(Find(a.sessions, id).value.(name := Some(name), state := CONNECTED))
      && forall x :: x != id ==> Find(fs, x) == (match Find(a.sessions, x)
           case Some(e) => if e.name == Some(name) then None else Some(e)
           case None => None)
  {
    var k := SamePhone(a.sessions, id, name);
    var es := if k < |a.sessions| then Remove(a.sessions, a.sessions[k].id) else a.sessions;
    CloseSame(a, id, name, id);
    IdentifyKeeps(es, id, name);
    IdentifyExactly(es, id, name, id);
    forall x | x != id
      ensures Find(Identify(es, id, name), x) == (match Find(a.sessions, x)
        case Some(e) => if e.name == Some(name) then None else Some(e)
        case None => None)
    {
      CloseSame(a, id, name, x);
      IdentifyExactly(es, id, name, x);
    }
  }
}
