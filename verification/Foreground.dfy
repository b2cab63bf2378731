/**
Which phone is in the foreground: the app's session list and the policy that moves sessions between
CONNECTED, BACKGROUND and ACTIVE, when any call to the engine may fail.

`calls` is what becomes of the next calls to the engine, in order: true when the call goes through. After
its end all calls go through.
*/
module Foreground {
  import opened Bytes

  datatype SessionState = CONNECTING | CONNECTED | BACKGROUND | ACTIVE

  datatype Entry = Entry(id: int, transport: string, name: Option<string>, state: SessionState)

  predicate InForeground(e: Entry) {
    e.state == ACTIVE || e.state == BACKGROUND
  }

  // ----- The session list -----

  function IndexOf(es: seq<Entry>, id: int): (k: nat)
    ensures k <= |es|
    ensures k < |es| ==> es[k].id == id
    ensures forall i :: 0 <= i < k ==> es[i].id != id
  {
    if es == [] || es[0].id == id then 0 else 1 + IndexOf(es[1..], id)
  }

  predicate Has(es: seq<Entry>, id: int) {
    IndexOf(es, id) < |es|
  }

  function SetState(es: seq<Entry>, id: int, state: SessionState): seq<Entry> {
    var k := IndexOf(es, id);
    if k < |es| then es[k := es[k].(state := state)] else es
  }

  function Create(es: seq<Entry>, id: int, transport: string): seq<Entry> {
    var k := IndexOf(es, id);
    var entry := Entry(id, transport, None, CONNECTING);
    if k < |es| then es[k := entry] else es + [entry]
  }

  function Identify(es: seq<Entry>, id: int, name: string): seq<Entry> {
    var k := IndexOf(es, id);
    if k < |es| then es[k := es[k].(name := Some(name), state := CONNECTED)] else es
  }

  function Remove(es: seq<Entry>, id: int): seq<Entry> {
    var k := IndexOf(es, id);
    if k < |es| then es[..k] + es[k + 1..] else es
  }

  predicate HasAudioOrVideo(es: seq<Entry>) {
    exists i :: 0 <= i < |es| && InForeground(es[i])
  }

  class SessionManager {
    var sessions: seq<Entry>

    constructor ()
      ensures sessions == []
    {
      sessions := [];
    }

    method Find(id: int) returns (k: nat)
      ensures k == IndexOf(sessions, id)
    {
      k := 0;
      while k < |sessions| && sessions[k].id != id
        invariant k <= |sessions|
        invariant forall i :: 0 <= i < k ==> sessions[i].id != id
      {
        k := k + 1;
      }
    }

    method CreateSession(id: int, transport: string)
      modifies this
      ensures sessions == Create(old(sessions), id, transport)
    {
      var k := Find(id);
      var entry := Entry(id, transport, None, CONNECTING);
      sessions := if k < |sessions| then sessions[k := entry] else sessions + [entry];
    }

    method OnPhoneIdentified(id: int, name: string)
      modifies this
      ensures sessions == Identify(old(sessions), id, name)
    {
      var k := Find(id);
      if k < |sessions| {
        sessions := sessions[k := sessions[k].(name := Some(name), state := CONNECTED)];
      }
    }

    /** `activate`, `deactivate`, `background` and `onVideoFocusChanged` differ in the state they set. */
    method Put(id: int, state: SessionState)
      modifies this
      ensures sessions == SetState(old(sessions), id, state)
    {
      var k := Find(id);
      if k < |sessions| {
        sessions := sessions[k := sessions[k].(state := state)];
      }
    }

    method RemoveSession(id: int)
      modifies this
      ensures sessions == Remove(old(sessions), id)
    {
      var k := Find(id);
      if k < |sessions| {
        sessions := sessions[..k] + sessions[k + 1..];
      }
    }

    method AnyAudioOrVideo() returns (found: bool)
      ensures found == HasAudioOrVideo(sessions)
    {
      found := false;
      for i := 0 to |sessions|
        invariant found == exists j :: 0 <= j < i && InForeground(sessions[j])
      {
        if InForeground(sessions[i]) {
          found := true;
        }
      }
    }
  }

  // ----- Calls to the engine -----

  datatype Attempt = Attempt(ok: bool, rest: seq<bool>)

  /** `n` calls in a row, up to the first that fails. */
  function Try(calls: seq<bool>, n: nat): Attempt
    decreases n
  {
    if n == 0 || calls == [] then Attempt(true, calls)
    else if calls[0] then Try(calls[1..], n - 1)
    else Attempt(false, calls[1..])
  }

  datatype Progress = Progress(sessions: seq<Entry>, ok: bool, rest: seq<bool>)

  /** Demote the foreground sessions from the `i`-th on, except `keep`; three calls each. */
  function Demote(es: seq<Entry>, i: nat, keep: int, calls: seq<bool>): Progress
    requires i <= |es|
    decreases |es| - i
  {
    if i == |es| then Progress(es, true, calls)
    else if es[i].id == keep || !InForeground(es[i]) then Demote(es, i + 1, keep, calls)
    else
      var t := Try(calls, 3);
      if t.ok then Demote(SetState(es, es[i].id, CONNECTED), i + 1, keep, t.rest)
      else Progress(es, false, t.rest)
  }

  /** Demote the others, attach the sinks, resume the phone, and set the state: what both promotions do. */
  function Promote(es: seq<Entry>, id: int, state: SessionState, calls: seq<bool>): Progress {
    var d := Demote(es, 0, id, calls);
    if !d.ok then d
    else
      var t := Try(d.rest, 3);
      if t.ok then Progress(SetState(d.sessions, id, state), true, t.rest)
      else Progress(d.sessions, false, t.rest)
  }

  datatype App = App(sessions: seq<Entry>, engine: bool, surfaceLive: bool)

  predicate Promotable(a: App, id: int) {
    a.engine && Has(a.sessions, id) && a.sessions[IndexOf(a.sessions, id)].state != CONNECTING
  }

  function ActivateSession(a: App, id: int, calls: seq<bool>): App {
    if Promotable(a, id) then a.(sessions := Promote(a.sessions, id, ACTIVE, calls).sessions) else a
  }

  function ActivateBackground(a: App, id: int, calls: seq<bool>): App {
    if Promotable(a, id) && a.sessions[IndexOf(a.sessions, id)].state != BACKGROUND then
      a.(sessions := Promote(a.sessions, id, BACKGROUND, calls).sessions)
    else a
  }

  /** The first other session of the same phone, if any. */
  function SamePhone(es: seq<Entry>, id: int, name: string): (k: nat)
    ensures k <= |es|
    ensures k < |es| ==> es[k].id != id && es[k].name == Some(name)
    ensures forall i :: 0 <= i < k ==> !(es[i].id != id && es[i].name == Some(name))
  {
    if es == [] || (es[0].id != id && es[0].name == Some(name)) then 0 else 1 + SamePhone(es[1..], id, name)
  }

  function PhoneIdentified(a: App, id: int, name: string, calls: seq<bool>): App {
    var k := SamePhone(a.sessions, id, name);
    var closes := k < |a.sessions|;
    var es := if closes then Remove(a.sessions, a.sessions[k].id) else a.sessions;
    var rest := if closes && a.engine then Try(calls, 1).rest else calls;
    var b := a.(sessions := Identify(es, id, name));
    if HasAudioOrVideo(b.sessions) then b else ActivateSession(b, id, rest)
  }

  /** From the `i`-th session on: every ACTIVE one whose call goes through becomes BACKGROUND. */
  function LoseSurface(es: seq<Entry>, i: nat, calls: seq<bool>): seq<Entry>
    requires i <= |es|
    decreases |es| - i
  {
    if i == |es| then es
    else if es[i].state != ACTIVE then LoseSurface(es, i + 1, calls)
    else
      var t := Try(calls, 1);
      LoseSurface(if t.ok then SetState(es, es[i].id, BACKGROUND) else es, i + 1, t.rest)
  }

  class AaService {
    const manager: SessionManager
    var engineConnected: bool
    var surfaceLive: bool

    constructor ()
      ensures View() == App([], false, false) && fresh(manager)
    {
      manager := new SessionManager();
      engineConnected, surfaceLive := false, false;
    }

    ghost function View(): App
      reads this, manager
    {
      App(manager.sessions, engineConnected, surfaceLive)
    }

    /** One call to the engine. */
    method Call(calls: seq<bool>) returns (ok: bool, rest: seq<bool>)
      ensures Attempt(ok, rest) == Try(calls, 1)
    {
      if calls == [] {
        return true, [];
      }
      assert Try(calls[1..], 0) == Attempt(true, calls[1..]);
      ok, rest := calls[0], calls[1..];
    }

    /** Three calls of which a failing one throws past the others. */
    method CallThree(calls: seq<bool>) returns (ok: bool, rest: seq<bool>)
      ensures Attempt(ok, rest) == Try(calls, 3)
    {
      ok, rest := true, calls;
      var n := 0;
      while n < 3 && ok
        invariant n <= 3
        invariant ok ==> Try(calls, 3) == Try(rest, 3 - n)
        invariant !ok ==> Try(calls, 3) == Attempt(false, rest)
      {
        ok, rest := Call(rest);
        n := n + 1;
      }
    }

    method DemoteOtherSessions(keep: int, calls: seq<bool>) returns (ok: bool, rest: seq<bool>)
      modifies manager
      ensures Progress(manager.sessions, ok, rest) == Demote(old(manager.sessions), 0, keep, calls)
      ensures engineConnected == old(engineConnected)
    {
      ok, rest := true, calls;
      var i := 0;
      while i < |manager.sessions|
        invariant i <= |manager.sessions|
        invariant Demote(old(manager.sessions), 0, keep, calls) == Demote(manager.sessions, i, keep, rest)
        invariant ok
        decreases |manager.sessions| - i
      {
        var e := manager.sessions[i];
        if e.id != keep && (e.state == ACTIVE || e.state == BACKGROUND) {
          ok, rest := CallThree(rest);
          if !ok {
            return;
          }
          manager.Put(e.id, CONNECTED);
        }
        i := i + 1;
      }
    }

    method PromoteSession(id: int, state: SessionState, calls: seq<bool>) returns (ok: bool, rest: seq<bool>)
      modifies manager
      ensures Progress(manager.sessions, ok, rest) == Promote(old(manager.sessions), id, state, calls)
      ensures engineConnected == old(engineConnected)
    {
      ok, rest := DemoteOtherSessions(id, calls);
      if !ok {
        return;
      }
      ok, rest := CallThree(rest);
      if !ok {
        return;
      }
      manager.Put(id, state);
    }

    method Activate(id: int, calls: seq<bool>)
      modifies manager
      ensures View() == ActivateSession(old(View()), id, calls)
    {
      var k := manager.Find(id);
      if !engineConnected || k == |manager.sessions| || manager.sessions[k].state == CONNECTING {
        return;
      }
      var ok, rest := PromoteSession(id, ACTIVE, calls);
      if ok {
        OnSurfaceReady(rest);
      }
    }

    /** A session that is not ready, or in the background already, makes no call. */
    method Background(id: int, calls: seq<bool>) returns (rest: seq<bool>)
      modifies manager
      ensures View() == ActivateBackground(old(View()), id, calls)
      ensures rest == if Promotable(old(View()), id)
          && old(manager.sessions)[IndexOf(old(manager.sessions), id)].state != BACKGROUND
        then Promote(old(manager.sessions), id, BACKGROUND, calls).rest else calls
    {
      rest := calls;
      var k := manager.Find(id);
      if !engineConnected || k == |manager.sessions| || manager.sessions[k].state == CONNECTING {
        return;
      }
      if manager.sessions[k].state == BACKGROUND {
        return;
      }
      var _, after := PromoteSession(id, BACKGROUND, calls);
      rest := after;
    }

    /** Sends the focus message to the ACTIVE session; the app's own state does not change. */
    method OnSurfaceReady(calls: seq<bool>)
      ensures View() == old(View())
    {
      if !engineConnected || !surfaceLive {
        return;
      }
      for i := 0 to |manager.sessions| {
        if manager.sessions[i].state == ACTIVE {
          var _, _ := Call(calls);
          return;
        }
      }
    }

    method OnPhoneIdentified(id: int, name: string, calls: seq<bool>)
      modifies manager
      ensures View() == PhoneIdentified(old(View()), id, name, calls)
    {
      var rest := calls;
      var k := FindSamePhone(id, name);
      if k < |manager.sessions| {
        rest := StopAndRemoveSession(manager.sessions[k].id, calls);
      }
      manager.OnPhoneIdentified(id, name);
      var busy := manager.AnyAudioOrVideo();
      if !busy {
        Activate(id, rest);
      }
    }

    method FindSamePhone(id: int, name: string) returns (k: nat)
      ensures k == SamePhone(manager.sessions, id, name)
    {
      k := 0;
      while k < |manager.sessions| && !(manager.sessions[k].id != id && manager.sessions[k].name == Some(name))
        invariant k <= |manager.sessions|
        invariant forall i :: 0 <= i < k ==>
          !(manager.sessions[i].id != id && manager.sessions[i].name == Some(name))
      {
        k := k + 1;
      }
    }

    method StopAndRemoveSession(id: int, calls: seq<bool>) returns (rest: seq<bool>)
      modifies manager
      ensures manager.sessions == Remove(old(manager.sessions), id)
      ensures rest == if engineConnected then Try(calls, 1).rest else calls
      ensures engineConnected == old(engineConnected)
    {
      rest := calls;
      if engineConnected {
        var _, after := Call(calls);
        rest := after;
      }
      manager.RemoveSession(id);
    }

    method OnSurfaceDestroyed(calls: seq<bool>)
      modifies manager
      ensures View() == if old(engineConnected)
        then old(View()).(sessions := LoseSurface(old(manager.sessions), 0, calls)) else old(View())
    {
      if !engineConnected {
        return;
      }
      var rest := calls;
      var i := 0;
      while i < |manager.sessions|
        invariant i <= |manager.sessions|
        invariant LoseSurface(old(manager.sessions), 0, calls) == LoseSurface(manager.sessions, i, rest)
        decreases |manager.sessions| - i
      {
        var e := manager.sessions[i];
        if e.state == ACTIVE {
          var ok, after := Call(rest);
          rest := after;
          if ok {
            manager.Put(e.id, BACKGROUND);
          }
        }
        i := i + 1;
      }
    }
  }

  // ----- Every run -----

  datatype Event =
    | Created(id: int, transport: string)
    | Identified(id: int, name: string, calls: seq<bool>)
    | Activated(id: int, calls: seq<bool>)
    | Backgrounded(id: int, calls: seq<bool>)
    | SurfaceLost(calls: seq<bool>)
    | SurfaceSet(live: bool)
    | FocusChanged(id: int, projected: bool)
    | Removed(id: int)
    | EngineChanged(connected: bool)

  function Apply(a: App, e: Event): App {
    match e
    case Created(id, transport) => a.(sessions := Create(a.sessions, id, transport))
    case Identified(id, name, calls) => PhoneIdentified(a, id, name, calls)
    case Activated(id, calls) => ActivateSession(a, id, calls)
    case Backgrounded(id, calls) => ActivateBackground(a, id, calls)
    case SurfaceLost(calls) => if a.engine then a.(sessions := LoseSurface(a.sessions, 0, calls)) else a
    case SurfaceSet(live) => a.(surfaceLive := live)
    case FocusChanged(id, projected) =>
      a.(sessions := SetState(a.sessions, id, if projected then ACTIVE else BACKGROUND))
    case Removed(id) => a.(sessions := Remove(a.sessions, id))
    case EngineChanged(connected) => a.(engine := connected)
  }

  /**
  What a focus event of the phone must meet: the session it names is gone, or no other one is in the
  foreground.
  */
  predicate Expected(a: App, e: Event) {
    e.FocusChanged? && Has(a.sessions, e.id) ==>
      forall k :: 0 <= k < |a.sessions| && a.sessions[k].id != e.id ==> !InForeground(a.sessions[k])
  }

  predicate IsRun(a: App, events: seq<Event>)
    decreases |events|
  {
    events == [] || (Expected(a, events[0]) && IsRun(Apply(a, events[0]), events[1..]))
  }

  function Run(a: App, events: seq<Event>): App
    decreases |events|
  {
    if events == [] then a else Run(Apply(a, events[0]), events[1..])
  }

  /** Each session is listed once, and one of them at most is in the foreground. */
  ghost predicate SingleForeground(es: seq<Entry>) {
    && (forall i, j :: 0 <= i < j < |es| ==> es[i].id != es[j].id)
    && (forall i, j :: 0 <= i < j < |es| ==> !(InForeground(es[i]) && InForeground(es[j])))
  }

  /** A phone has one session at most. */
  ghost predicate OnePerPhone(es: seq<Entry>) {
    forall i, j :: 0 <= i < j < |es| ==> !(es[i].name.Some? && es[i].name == es[j].name)
  }

  ghost predicate SameNames(es: seq<Entry>, fs: seq<Entry>) {
    |es| == |fs| && forall k :: 0 <= k < |es| ==> fs[k].name == es[k].name
  }

  /** No session but `keep` is in the foreground before the `i`-th. */
  ghost predicate ClearedUpTo(es: seq<Entry>, i: nat, keep: int)
    requires i <= |es|
  {
    forall k :: 0 <= k < i ==> es[k].id == keep || !InForeground(es[k])
  }

  lemma SetStateKeepsIds(es: seq<Entry>, id: int, state: SessionState)
    ensures |SetState(es, id, state)| == |es|
    ensures forall k :: 0 <= k < |es| ==>
      SetState(es, id, state)[k] == es[k] || (k == IndexOf(es, id) && SetState(es, id, state)[k] == es[k].(state := state))
  {
  }

  lemma IndexIsUnique(es: seq<Entry>, k: nat)
    requires SingleForeground(es) && k < |es|
    ensures IndexOf(es, es[k].id) == k
  {
  }

  /** Demotion keeps the rule at every point where it may stop; done, all others are out of the foreground. */
  lemma {:induction false} DemoteKeeps(es: seq<Entry>, i: nat, keep: int, calls: seq<bool>)
    requires SingleForeground(es) && i <= |es| && ClearedUpTo(es, i, keep)
    ensures var d := Demote(es, i, keep, calls);
      && SingleForeground(d.sessions)
      && |d.sessions| == |es|
      && (forall k :: 0 <= k < |es| ==>
            d.sessions[k] == es[k] || (es[k].id != keep && d.sessions[k] == es[k].(state := CONNECTED)))
      && (d.ok ==> ClearedUpTo(d.sessions, |d.sessions|, keep))
    decreases |es| - i
  {
    if i < |es| {
      if es[i].id == keep || !InForeground(es[i]) {
        DemoteKeeps(es, i + 1, keep, calls);
      } else if Try(calls, 3).ok {
        var fs := SetState(es, es[i].id, CONNECTED);
        IndexIsUnique(es, i);
        assert SingleForeground(fs) && ClearedUpTo(fs, i + 1, keep);
        DemoteKeeps(fs, i + 1, keep, Try(calls, 3).rest);
      }
    }
  }

  /**
  A promotion either succeeds, and then exactly the session named is in the foreground, or fails, and then
  no session has come to the foreground; whichever call fails.
  */
  lemma PromoteKeeps(es: seq<Entry>, id: int, state: SessionState, calls: seq<bool>)
    requires SingleForeground(es) && Has(es, id) && (state == ACTIVE || state == BACKGROUND)
    ensures var p := Promote(es, id, state, calls);
      && SingleForeground(p.sessions)
      && |p.sessions| == |es|
      && (forall k :: 0 <= k < |es| ==> p.sessions[k].id == es[k].id)
      && (p.ok ==> forall k :: 0 <= k < |es| ==>
            (InForeground(p.sessions[k]) <==> es[k].id == id) && (es[k].id == id ==> p.sessions[k].state == state))
      && (!p.ok ==> forall k :: 0 <= k < |es| ==>
            p.sessions[k] == es[k] || (es[k].id != id && p.sessions[k].state == CONNECTED))
  {
    DemoteKeeps(es, 0, id, calls);
    var d := Demote(es, 0, id, calls);
    if d.ok && Try(d.rest, 3).ok {
      var k := IndexOf(es, id);
      IndexIsUnique(d.sessions, k);
      SetStateKeepsIds(d.sessions, id, state);
    }
  }

  lemma {:induction false} DemoteKeepsNames(es: seq<Entry>, i: nat, keep: int, calls: seq<bool>)
    requires i <= |es|
    ensures SameNames(es, Demote(es, i, keep, calls).sessions)
    decreases |es| - i
  {
    if i < |es| {
      DemoteKeepsNames(es, i + 1, keep, calls);
      if Try(calls, 3).ok {
        DemoteKeepsNames(SetState(es, es[i].id, CONNECTED), i + 1, keep, Try(calls, 3).rest);
      }
    }
  }

  lemma {:induction false} LoseSurfaceKeepsNames(es: seq<Entry>, i: nat, calls: seq<bool>)
    requires i <= |es|
    ensures SameNames(es, LoseSurface(es, i, calls))
    decreases |es| - i
  {
    if i < |es| {
      var t := Try(calls, 1);
      LoseSurfaceKeepsNames(es, i + 1, calls);
      LoseSurfaceKeepsNames(es, i + 1, t.rest);
      LoseSurfaceKeepsNames(SetState(es, es[i].id, BACKGROUND), i + 1, t.rest);
    }
  }

  lemma ActivateKeepsNames(a: App, id: int, calls: seq<bool>)
    ensures SameNames(a.sessions, ActivateSession(a, id, calls).sessions)
    ensures SameNames(a.sessions, ActivateBackground(a, id, calls).sessions)
  {
    DemoteKeepsNames(a.sessions, 0, id, calls);
  }

  lemma DropKeepsPhones(es: seq<Entry>, k: nat)
    requires OnePerPhone(es) && k < |es|
    ensures OnePerPhone(es[..k] + es[k + 1..])
  {
    var fs := es[..k] + es[k + 1..];
    assert forall i :: 0 <= i < |fs| ==> fs[i] == es[if i < k then i else i + 1];
  }

  /** Identifying a phone closes its other session first, so that the new one is its only one. */
  lemma IdentifiedKeepsPhones(a: App, id: int, name: string, calls: seq<bool>)
    requires SingleForeground(a.sessions) && OnePerPhone(a.sessions)
    ensures OnePerPhone(PhoneIdentified(a, id, name, calls).sessions)
  {
    var k := SamePhone(a.sessions, id, name);
    var es := a.sessions;
    if k < |a.sessions| {
      IndexIsUnique(a.sessions, k);
      DropKeepsPhones(a.sessions, k);
      es := Remove(a.sessions, a.sessions[k].id);
      assert es == a.sessions[..k] + a.sessions[k + 1..];
      assert forall i :: 0 <= i < |es| ==> es[i] == a.sessions[if i < k then i else i + 1];
    }
    assert forall i :: 0 <= i < |es| && es[i].id != id ==> es[i].name != Some(name);
    RemovedIdsUnique(a.sessions, k);
    IdentifyIsOnly(es, id, name);
    var rest := if k < |a.sessions| && a.engine then Try(calls, 1).rest else calls;
    ActivateKeepsNames(a.(sessions := Identify(es, id, name)), id, rest);
  }

  lemma RemovedIdsUnique(es: seq<Entry>, k: nat)
    requires SingleForeground(es) && k <= |es|
    ensures k < |es| ==> SingleForeground(Remove(es, es[k].id))
  {
    if k < |es| {
      RemoveKeeps(es, es[k].id);
    }
  }

  lemma IdentifyIsOnly(es: seq<Entry>, id: int, name: string)
    requires SingleForeground(es) && OnePerPhone(es)
    requires forall i :: 0 <= i < |es| && es[i].id != id ==> es[i].name != Some(name)
    ensures OnePerPhone(Identify(es, id, name))
  {
    var k := IndexOf(es, id);
    if k < |es| {
      assert forall i :: 0 <= i < |es| && i != k ==> es[i].id != id;
    }
  }

  lemma StepKeepsPhones(a: App, e: Event)
    requires SingleForeground(a.sessions) && OnePerPhone(a.sessions)
    ensures OnePerPhone(Apply(a, e).sessions)
  {
    match e
    case Created(id, transport) =>
    case Identified(id, name, calls) => IdentifiedKeepsPhones(a, id, name, calls);
    case Activated(id, calls) => ActivateKeepsNames(a, id, calls);
    case Backgrounded(id, calls) => ActivateKeepsNames(a, id, calls);
    case SurfaceLost(calls) => LoseSurfaceKeepsNames(a.sessions, 0, calls);
    case SurfaceSet(live) =>
    case FocusChanged(id, projected) =>
    case Removed(id) =>
      if Has(a.sessions, id) {
        DropKeepsPhones(a.sessions, IndexOf(a.sessions, id));
      }
    case EngineChanged(connected) =>
  }

  lemma ActivateKeeps(a: App, id: int, calls: seq<bool>)
    requires SingleForeground(a.sessions)
    ensures SingleForeground(ActivateSession(a, id, calls).sessions)
  {
    if Promotable(a, id) {
      PromoteKeeps(a.sessions, id, ACTIVE, calls);
    }
  }

  lemma RemoveKeeps(es: seq<Entry>, id: int)
    requires SingleForeground(es)
    ensures SingleForeground(Remove(es, id))
  {
    var k := IndexOf(es, id);
    if k < |es| {
      DropKeeps(es, k);
    }
  }

  lemma DropKeeps(es: seq<Entry>, k: nat)
    requires SingleForeground(es) && k < |es|
    ensures SingleForeground(es[..k] + es[k + 1..])
  {
    var fs := es[..k] + es[k + 1..];
    assert forall i :: 0 <= i < |fs| ==> fs[i] == es[if i < k then i else i + 1];
  }

  lemma {:induction false} LoseSurfaceKeeps(es: seq<Entry>, i: nat, calls: seq<bool>)
    requires SingleForeground(es) && i <= |es|
    ensures SingleForeground(LoseSurface(es, i, calls))
    decreases |es| - i
  {
    if i < |es| {
      if es[i].state != ACTIVE {
        LoseSurfaceKeeps(es, i + 1, calls);
      } else {
        IndexIsUnique(es, i);
        var t := Try(calls, 1);
        LoseSurfaceKeeps(if t.ok then SetState(es, es[i].id, BACKGROUND) else es, i + 1, t.rest);
      }
    }
  }

  lemma IdentifyKeeps(es: seq<Entry>, id: int, name: string)
    requires SingleForeground(es)
    ensures SingleForeground(Identify(es, id, name))
  {
  }

  lemma IdentifiedKeeps(a: App, id: int, name: string, calls: seq<bool>)
    requires SingleForeground(a.sessions)
    ensures SingleForeground(PhoneIdentified(a, id, name, calls).sessions)
  {
    var k := SamePhone(a.sessions, id, name);
    var es := if k < |a.sessions| then Remove(a.sessions, a.sessions[k].id) else a.sessions;
    if k < |a.sessions| {
      RemoveKeeps(a.sessions, a.sessions[k].id);
    }
    IdentifyKeeps(es, id, name);
    var rest := if k < |a.sessions| && a.engine then Try(calls, 1).rest else calls;
    ActivateKeeps(a.(sessions := Identify(es, id, name)), id, rest);
  }

  lemma StepKeeps(a: App, e: Event)
    requires SingleForeground(a.sessions) && Expected(a, e)
    ensures SingleForeground(Apply(a, e).sessions)
  {
    match e
    case Created(id, transport) =>
    case Identified(id, name, calls) => IdentifiedKeeps(a, id, name, calls);
    case Activated(id, calls) => ActivateKeeps(a, id, calls);
    case Backgrounded(id, calls) =>
      if Promotable(a, id) {
        PromoteKeeps(a.sessions, id, BACKGROUND, calls);
      }
    case SurfaceLost(calls) => LoseSurfaceKeeps(a.sessions, 0, calls);
    case SurfaceSet(live) =>
    case FocusChanged(id, projected) =>
    case Removed(id) => RemoveKeeps(a.sessions, id);
    case EngineChanged(connected) =>
  }

  /**
  The focus callback does not check the session it names. It keeps the rule exactly when that session is
  gone, or no other session is in the foreground.
  */
  lemma FocusKeepsRuleExactly(a: App, id: int, projected: bool)
    requires SingleForeground(a.sessions)
    ensures SingleForeground(Apply(a, FocusChanged(id, projected)).sessions) <==>
      Expected(a, FocusChanged(id, projected))
  {
    var es := a.sessions;
    var k := IndexOf(es, id);
    if k < |es| {
      var fs := Apply(a, FocusChanged(id, projected)).sessions;
      assert InForeground(fs[k]);
      forall i | 0 <= i < |es| && es[i].id != id && InForeground(es[i])
        ensures !SingleForeground(fs)
      {
        assert fs[i] == es[i] && i != k;
        var lo, hi := if i < k then i else k, if i < k then k else i;
        assert InForeground(fs[lo]) && InForeground(fs[hi]);
      }
    }
  }

  /** A step keeps the rule if and only if it is expected. */
  lemma StepKeepsExactly(a: App, e: Event)
    requires SingleForeground(a.sessions)
    ensures SingleForeground(Apply(a, e).sessions) <==> Expected(a, e)
  {
    if e.FocusChanged? {
      FocusKeepsRuleExactly(a, e.id, e.projected);
    } else {
      StepKeeps(a, e);
    }
  }

  lemma {:induction false} RunKeeps(a: App, events: seq<Event>)
    requires SingleForeground(a.sessions) && OnePerPhone(a.sessions) && IsRun(a, events)
    ensures SingleForeground(Run(a, events).sessions) && OnePerPhone(Run(a, events).sessions)
    decreases |events|
  {
    if events != [] {
      StepKeeps(a, events[0]);
      StepKeepsPhones(a, events[0]);
      RunKeeps(Apply(a, events[0]), events[1..]);
    }
  }

  /**
  In every run at most one session is ACTIVE or BACKGROUND, and no phone has two sessions, whatever calls
  to the engine fail.
  */
  lemma OneForegroundSession(events: seq<Event>, i: nat, j: nat)
    requires IsRun(App([], false, false), events)
    requires i < j < |Run(App([], false, false), events).sessions|
    ensures var es := Run(App([], false, false), events).sessions;
      && !(InForeground(es[i]) && InForeground(es[j]))
      && es[i].id != es[j].id
      && !(es[i].name.Some? && es[i].name == es[j].name)
  {
    RunKeeps(App([], false, false), events);
  }

  /** The rule holds in the given state and after each event. */
  ghost predicate RuleHolds(a: App, events: seq<Event>)
    decreases |events|
  {
    && SingleForeground(a.sessions)
    && (events != [] ==> RuleHolds(Apply(a, events[0]), events[1..]))
  }

  /** The rule holds all along a run if and only if each focus event in it is expected. */
  lemma {:induction false} RuleHoldsExactly(a: App, events: seq<Event>)
    requires SingleForeground(a.sessions)
    ensures RuleHolds(a, events) <==> IsRun(a, events)
    decreases |events|
  {
    if events != [] {
      StepKeepsExactly(a, events[0]);
      if Expected(a, events[0]) {
        RuleHoldsExactly(Apply(a, events[0]), events[1..]);
      }
    }
  }

  /** The phone's focus events the app counts on: for a session in the foreground already. Those are expected. */
  lemma ForegroundFocusIsExpected(a: App, id: int, projected: bool)
    requires SingleForeground(a.sessions)
    requires Has(a.sessions, id) ==> InForeground(a.sessions[IndexOf(a.sessions, id)])
    ensures Expected(a, FocusChanged(id, projected))
  {
    var k := IndexOf(a.sessions, id);
    forall i | 0 <= i < |a.sessions| && a.sessions[i].id != id && k < |a.sessions|
      ensures !InForeground(a.sessions[i])
    {
      assert i != k;
    }
  }

  lemma RunFirst(a: App, e: Event, later: seq<Event>)
    ensures Run(a, [e] + later) == Run(Apply(a, e), later)
  {
    assert ([e] + later)[1..] == later;
  }

  lemma RunThree(a: App, e: Event, f: Event, g: Event, later: seq<Event>)
    ensures Run(a, [e, f, g] + later) == Run(Apply(Apply(Apply(a, e), f), g), later)
  {
    RunFirst(a, e, [f, g] + later);
    RunFirst(Apply(a, e), f, [g] + later);
    RunFirst(Apply(Apply(a, e), f), g, later);
    assert [e, f, g] + later == [e] + ([f, g] + later) && [f, g] + later == [f] + ([g] + later);
  }

  /** Two phones connect; the first one plays. */
  function TwoPhones(): seq<Event> {
    [EngineChanged(true), Created(1, "usb"), Created(2, "wireless")]
  }

  /** The second one asks for the screen. */
  function SecondAsks(): seq<Event> {
    [Identified(1, "a", []), Identified(2, "b", []), FocusChanged(2, true)]
  }

  lemma TwoPhonesCreated()
    ensures Run(App([], false, false), TwoPhones())
      == App([Entry(1, "usb", None, CONNECTING), Entry(2, "wireless", None, CONNECTING)], true, false)
  {
    RunThree(App([], false, false), EngineChanged(true), Created(1, "usb"), Created(2, "wireless"), []);
    assert TwoPhones() + [] == TwoPhones();
    assert IndexOf([Entry(1, "usb", None, CONNECTING)], 2) == 1;
  }

  lemma FocusMoves(a: App)
    requires a.sessions == [Entry(1, "usb", Some("a"), ACTIVE), Entry(2, "wireless", Some("b"), CONNECTED)]
    ensures Apply(a, FocusChanged(2, true)).sessions
      == [Entry(1, "usb", Some("a"), ACTIVE), Entry(2, "wireless", Some("b"), ACTIVE)]
  {
    assert IndexOf(a.sessions, 2) == 1;
  }

  lemma SecondPhoneAsks(a: App)
    requires a.engine && a.sessions == [Entry(1, "usb", None, CONNECTING), Entry(2, "wireless", None, CONNECTING)]
    ensures Run(a, SecondAsks()).sessions
      == [Entry(1, "usb", Some("a"), ACTIVE), Entry(2, "wireless", Some("b"), ACTIVE)]
  {
    RunThree(a, Identified(1, "a", []), Identified(2, "b", []), FocusChanged(2, true), []);
    assert SecondAsks() + [] == SecondAsks();
    FirstPhoneActivates(a);
    SecondPhoneConnects(Apply(a, Identified(1, "a", [])));
    FocusMoves(Apply(Apply(a, Identified(1, "a", [])), Identified(2, "b", [])));
  }

  /** A focus event for a second session breaks the rule in a run from the start. */
  lemma SecondPhoneTakesFocus()
    ensures Run(App([], false, false), TwoPhones() + SecondAsks()).sessions
      == [Entry(1, "usb", Some("a"), ACTIVE), Entry(2, "wireless", Some("b"), ACTIVE)]
  {
    RunThree(App([], false, false), EngineChanged(true), Created(1, "usb"), Created(2, "wireless"), SecondAsks());
    RunThree(App([], false, false), EngineChanged(true), Created(1, "usb"), Created(2, "wireless"), []);
    assert TwoPhones() + [] == TwoPhones();
    TwoPhonesCreated();
    SecondPhoneAsks(Run(App([], false, false), TwoPhones()));
  }

  lemma FirstPhoneActivates(a: App)
    requires a.engine && a.sessions == [Entry(1, "usb", None, CONNECTING), Entry(2, "wireless", None, CONNECTING)]
    ensures Apply(a, Identified(1, "a", [])).sessions
      == [Entry(1, "usb", Some("a"), ACTIVE), Entry(2, "wireless", None, CONNECTING)]
    ensures Apply(a, Identified(1, "a", [])).engine
  {
    var es := [Entry(1, "usb", Some("a"), CONNECTED), Entry(2, "wireless", None, CONNECTING)];
    assert SamePhone(a.sessions, 1, "a") == 2;
    assert Identify(a.sessions, 1, "a") == es;
    assert IndexOf(es, 1) == 0;
    assert Demote(es, 2, 1, []) == Progress(es, true, []);
    assert Demote(es, 1, 1, []) == Progress(es, true, []);
    assert Demote(es, 0, 1, []) == Progress(es, true, []);
  }

  lemma SecondPhoneConnects(a: App)
    requires a.sessions == [Entry(1, "usb", Some("a"), ACTIVE), Entry(2, "wireless", None, CONNECTING)]
    ensures Apply(a, Identified(2, "b", [])).sessions
      == [Entry(1, "usb", Some("a"), ACTIVE), Entry(2, "wireless", Some("b"), CONNECTED)]
  {
    assert "a"[0] == 'a' && "b"[0] == 'b';
    assert SamePhone(a.sessions, 2, "b") == 2;
    assert IndexOf(a.sessions, 2) == 1;
    var es := [Entry(1, "usb", Some("a"), ACTIVE), Entry(2, "wireless", Some("b"), CONNECTED)];
    assert Identify(a.sessions, 2, "b") == es;
    assert InForeground(es[0]);
  }
}
