/**
How a goodbye ends. The session waits in Disconnecting; only its timer takes it to Disconnected, and a
second `stop`, which the phone's BYEBYE_RESPONSE causes, takes it to Error.
*/
module Goodbye {
  import opened Bytes
  import opened ProtocolConstants
  import opened Crypto
  import opened Messages
  import opened WriteQueue
  import opened Sessions
  import opened SessionSafety

  /** A reply that cannot be encrypted. */
  ghost predicate FailsToSend(rs: seq<SendRequest>) {
    exists r :: r in rs && r.cipher.None?
  }

  /** What an inbound item does to a session that says goodbye. */
  ghost predicate ItemHarms(services: set<Byte>, item: Inbound) {
    item.Garbled? || (item.message.channel in services && FailsToSend(item.replies))
  }

  ghost predicate ItemsHarm(services: set<Byte>, items: seq<Inbound>) {
    exists item :: item in items && ItemHarms(services, item)
  }

  /** An event that spoils a goodbye: a stop, a failed read or write, a garbled fragment, a failed encryption. */
  ghost predicate Harms(s: Status, e: Event) {
    match e
    case Stop(_) => true
    case ReadComplete(r) => s.reading && (r.ReadFailed? || (r.ReadData? && ItemsHarm(s.services, r.items)))
    case WriteComplete(r) => s.writer.outstanding.Some? && r.WriteFailed?
    case Submit(r) => r.cipher.None?
    case Timeout => false
  }

  /** In the middle of a goodbye: still at it, or given up. */
  ghost predicate Closing(s: Status) {
    s.established && (s.phase == Disconnecting || s.phase == Error)
  }

  /** From `s` to `t` a goodbye goes on, unless something harmful happened. */
  ghost predicate ClosesOn(s: Status, t: Status, harm: bool) {
    && Closing(t) && t.services == s.services
    && (t.phase == Error <==> s.phase == Error || harm)
  }

  lemma SendCloses(s: Status, r: SendRequest)
    requires Closing(s)
    ensures ClosesOn(s, SendMessage(s, r), r.cipher.None?)
  {
  }

  lemma {:induction false} SendEachCloses(s: Status, rs: seq<SendRequest>)
    requires Closing(s)
    ensures ClosesOn(s, SendEach(s, rs), FailsToSend(rs))
    decreases |rs|
  {
    if rs != [] {
      assert FailsToSend(rs) <==> rs[0].cipher.None? || FailsToSend(rs[1..]) by {
        assert forall r :: r in rs <==> r == rs[0] || r in rs[1..];
      }
      SendCloses(s, rs[0]);
      SendEachCloses(SendMessage(s, rs[0]), rs[1..]);
    }
  }

  lemma InboundCloses(s: Status, item: Inbound)
    requires Closing(s)
    ensures ClosesOn(s, OnInbound(s, item), ItemHarms(s.services, item))
  {
    if item.Arrived? && item.message.channel in s.services {
      SendEachCloses(s.(toServices := s.toServices + [item.message]), item.replies);
    }
  }

  lemma {:induction false} ItemsClose(s: Status, items: seq<Inbound>)
    requires Closing(s)
    ensures ClosesOn(s, OnItems(s, items), ItemsHarm(s.services, items))
    decreases |items|
  {
    if items != [] {
      assert ItemsHarm(s.services, items) <==> ItemHarms(s.services, items[0]) || ItemsHarm(s.services, items[1..]) by {
        assert forall item :: item in items <==> item == items[0] || item in items[1..];
      }
      InboundCloses(s, items[0]);
      ItemsClose(OnInbound(s, items[0]), items[1..]);
    }
  }

  function EndOf(e: Event, harm: bool): Phase {
    if e.Timeout? then Disconnected else if harm then Error else Disconnecting
  }

  lemma ReadCloses(s: Status, r: ReadResult)
    requires Closing(s) && s.phase == Disconnecting && s.reading
    ensures ClosesOn(s, OnReadComplete(s, r), Harms(s, ReadComplete(r)))
  {
    if r.ReadData? {
      ItemsClose(s.(reading := false), r.items);
    }
  }

  /** One event of a goodbye, exactly: the timer ends it well, harm ends it in Error, all else leaves it open. */
  lemma GoodbyeStep(s: Status, e: Event)
    requires s.phase == Disconnecting && s.established
    ensures Handle(s, e).phase == EndOf(e, Harms(s, e))
    ensures Handle(s, e).established
  {
    match e
    case Stop(bye) =>
    case ReadComplete(r) =>
      if s.reading {
        ReadCloses(s, r);
      }
    case WriteComplete(r) =>
    case Timeout =>
    case Submit(r) => SendCloses(s, r);
  }

  lemma {:induction false} SendEachStays(s: Status, rs: seq<SendRequest>)
    requires IsTerminal(s.phase)
    ensures SendEach(s, rs).phase == s.phase
    decreases |rs|
  {
    if rs != [] {
      SendEachStays(SendMessage(s, rs[0]), rs[1..]);
    }
  }

  lemma {:induction false} ItemsStay(s: Status, items: seq<Inbound>)
    requires IsTerminal(s.phase)
    ensures OnItems(s, items).phase == s.phase
    decreases |items|
  {
    if items != [] {
      if items[0].Arrived? {
        SendEachStays(s.(toServices := s.toServices + [items[0].message]), items[0].replies);
      }
      ItemsStay(OnInbound(s, items[0]), items[1..]);
    }
  }

  lemma EndStays(s: Status, e: Event)
    requires IsTerminal(s.phase)
    ensures Handle(s, e).phase == s.phase
  {
    match e
    case ReadComplete(r) =>
      if s.reading && r.ReadData? {
        ItemsStay(s.(reading := false), r.items);
      }
    case _ =>
  }

  lemma {:induction false} EndStaysOn(s: Status, events: seq<Event>)
    requires IsTerminal(s.phase)
    ensures HandleAll(s, events).phase == s.phase
    decreases |events|
  {
    if events != [] {
      EndStays(s, events[0]);
      EndStaysOn(Handle(s, events[0]), events[1..]);
    }
  }

  /** The first event that ends the goodbye is the `k`-th. */
  ghost predicate EndsAt(s: Status, events: seq<Event>, k: nat) {
    && k < |events|
    && (events[k].Timeout? || Harms(HandleAll(s, events[..k]), events[k]))
    && forall i :: 0 <= i < k ==> !events[i].Timeout? && !Harms(HandleAll(s, events[..i]), events[i])
  }

  lemma {:induction false} StillClosing(s: Status, events: seq<Event>, k: nat)
    requires s.phase == Disconnecting && s.established && k <= |events|
    requires forall i :: 0 <= i < k ==> !events[i].Timeout? && !Harms(HandleAll(s, events[..i]), events[i])
    ensures HandleAll(s, events[..k]).phase == Disconnecting && HandleAll(s, events[..k]).established
  {
    if k == 0 {
      assert events[..k] == [];
    } else {
      StillClosing(s, events, k - 1);
      OneMore(s, events, k - 1);
      GoodbyeStep(HandleAll(s, events[..k - 1]), events[k - 1]);
    }
  }

  lemma OneMore(s: Status, events: seq<Event>, k: nat)
    requires k < |events|
    ensures HandleAll(s, events[..k + 1]) == Handle(HandleAll(s, events[..k]), events[k])
  {
    assert events[..k + 1] == events[..k] + [events[k]];
    HandleAllConcat(s, events[..k], [events[k]]);
    assert [events[k]][1..] == [];
  }

  lemma GoodbyeEndsAt(s: Status, events: seq<Event>, k: nat)
    requires s.phase == Disconnecting && s.established && EndsAt(s, events, k)
    ensures HandleAll(s, events).phase == if events[k].Timeout? then Disconnected else Error
  {
    StillClosing(s, events, k);
    OneMore(s, events, k);
    GoodbyeStep(HandleAll(s, events[..k]), events[k]);
    EndStaysOn(HandleAll(s, events[..k + 1]), events[k + 1..]);
    assert events == events[..k + 1] + events[k + 1..];
    HandleAllConcat(s, events[..k + 1], events[k + 1..]);
  }

  lemma {:induction false} FirstEnd(s: Status, events: seq<Event>, n: nat) returns (k: nat)
    requires n <= |events|
    ensures k <= n && (k < n ==> EndsAt(s, events, k))
    ensures k == n ==>
      forall i :: 0 <= i < n ==> !events[i].Timeout? && !Harms(HandleAll(s, events[..i]), events[i])
  {
    if n == 0 {
      k := 0;
    } else {
      k := FirstEnd(s, events, n - 1);
      if k == n - 1 && !(events[k].Timeout? || Harms(HandleAll(s, events[..k]), events[k])) {
        k := n;
      }
    }
  }

  /**
  How a goodbye ends, exactly, for any events: in Disconnected if and only if the timer fires before any
  stop, failed read or write, garbled fragment or failed encryption; in Error if and only if one of those
  comes first; and it goes on if and only if neither has come.
  */
  lemma GoodbyeEndsExactly(s: Status, events: seq<Event>)
    requires s.phase == Disconnecting && s.established
    ensures var p := HandleAll(s, events).phase;
      && (p == Disconnected <==> exists k: nat :: EndsAt(s, events, k) && events[k].Timeout?)
      && (p == Error <==> exists k: nat :: EndsAt(s, events, k) && !events[k].Timeout?)
      && (p == Disconnecting <==> !exists k: nat :: EndsAt(s, events, k))
  {
    forall k: nat | EndsAt(s, events, k)
      ensures HandleAll(s, events).phase == if events[k].Timeout? then Disconnected else Error
    {
      GoodbyeEndsAt(s, events, k);
    }
    var k := FirstEnd(s, events, |events|);
    if k == |events| {
      StillClosing(s, events, k);
      assert events[..k] == events;
    } else {
      assert EndsAt(s, events, k);
    }
  }

  /** The same for a goodbye of any run from the start. */
  lemma GoodbyeOfARun(services: set<Byte>, events: seq<Event>, later: seq<Event>)
    requires forall e :: e in events ==> QuietEvent(e)
    requires HandleAll(Started(services), events).phase == Disconnecting
    ensures var s := HandleAll(Started(services), events); var p := HandleAll(Started(services), events + later).phase;
      && (p == Disconnected <==> exists k: nat :: EndsAt(s, later, k) && later[k].Timeout?)
      && (p == Error <==> exists k: nat :: EndsAt(s, later, k) && !later[k].Timeout?)
  {
    StartKeeps(services);
    RunKeeps(Started(services), events);
    HandleAllConcat(Started(services), events, later);
    GoodbyeEndsExactly(HandleAll(Started(services), events), later);
  }

  // ----- A run of the program in which a graceful goodbye ends in Error -----

  /** One message read by itself. */
  function Hears(messageType: U16, payload: seq<Byte>, step: Step): Event {
    ReadComplete(ReadData([Arrived(Message(CONTROL_CHANNEL, messageType, payload), step, [])]))
  }

  lemma HearsOne(s: Status, messageType: U16, payload: seq<Byte>, step: Step)
    requires s.reading
    ensures Handle(s, Hears(messageType, payload, step))
      == StartRead(Dispatch(s.(reading := false), Message(CONTROL_CHANNEL, messageType, payload), step, []))
  {
    var item := Arrived(Message(CONTROL_CHANNEL, messageType, payload), step, []);
    assert [item][1..] == [];
    assert OnItems(s.(reading := false), [item]) == OnInbound(s.(reading := false), item);
  }

  const VERSION_OK: Event := Hears(VERSION_RESPONSE, [0, 1, 0, 1, 0, 0], StepDone([22], false, None))
  const SERVER_FINISHED: Event := Hears(ENCAPSULATED_SSL, [22], StepDone([], true, None))
  const BYE_ANSWERED: Event := Hears(BYEBYE_RESPONSE, [], StepFailed)

  lemma VersionAnswered(s: Status)
    requires s.phase == VersionExchange && s.reading && !s.established
    ensures var t := Handle(s, VERSION_OK); t.phase == SslHandshake && t.reading && !t.established
  {
    HearsOne(s, VERSION_RESPONSE, [0, 1, 0, 1, 0, 0], StepDone([22], false, None));
  }

  lemma HandshakeFinished(s: Status)
    requires s.phase == SslHandshake && s.reading
    ensures var t := Handle(s, SERVER_FINISHED); t.phase == Running && t.reading && t.established
  {
    HearsOne(s, ENCAPSULATED_SSL, [22], StepDone([], true, None));
  }

  lemma GoodbyeSaid(s: Status, bye: SendRequest)
    requires s.phase == Running && s.reading && s.established && CONTROL_CHANNEL in s.services && bye.cipher.Some?
    ensures var t := Handle(s, Stop(bye)); t.phase == Disconnecting && t.reading && t.established
  {
  }

  lemma GoodbyeAnswered(s: Status)
    requires s.phase == Disconnecting && s.reading && s.established
    ensures var t := Handle(s, BYE_ANSWERED); t.phase == Disconnecting && t.established
  {
    HearsOne(s, BYEBYE_RESPONSE, [], StepFailed);
  }

  lemma StartedReads(services: set<Byte>)
    ensures var s := Started(services);
      s.phase == VersionExchange && s.reading && !s.established && s.services == services
  {
  }

  lemma HandleFour(s: Status, a: Event, b: Event, c: Event, d: Event)
    ensures HandleAll(s, [a, b, c, d]) == Handle(Handle(Handle(Handle(s, a), b), c), d)
  {
    assert [a, b, c, d] == (([a] + [b]) + [c]) + [d];
    HandleAllConcat(s, ([a] + [b]) + [c], [d]);
    HandleAllConcat(s, [a] + [b], [c]);
    HandleAllConcat(s, [a], [b]);
    assert forall t: Status, e: Event {:trigger HandleAll(t, [e])} :: HandleAll(t, [e]) == Handle(t, e) by {
      forall t: Status, e: Event
        ensures HandleAll(t, [e]) == Handle(t, e)
      {
        assert [e][1..] == [];
      }
    }
  }

  /**
  A goodbye by the book, from the start: handshake, `stop`, the phone's BYEBYE_RESPONSE. The `stop` it
  causes ends the run in Error; the timer would have ended it in Disconnected.
  */
  lemma AnsweredGoodbyeFails(services: set<Byte>, bye: SendRequest)
    requires CONTROL_CHANNEL in services && bye.cipher.Some?
    ensures var run := [VERSION_OK, SERVER_FINISHED, Stop(bye), BYE_ANSWERED];
      && HandleAll(Started(services), run).phase == Disconnecting
      && HandleAll(Started(services), run + [Stop(bye)]).phase == Error
      && HandleAll(Started(services), run + [Timeout]).phase == Disconnected
  {
    var s0 := Started(services);
    StartedReads(services);
    VersionAnswered(s0);
    var s1 := Handle(s0, VERSION_OK);
    HandshakeFinished(s1);
    var s2 := Handle(s1, SERVER_FINISHED);
    StartKeeps(services);
    HandleKeeps(s0, VERSION_OK);
    HandleKeeps(s1, SERVER_FINISHED);
    GoodbyeSaid(s2, bye);
    var s3 := Handle(s2, Stop(bye));
    GoodbyeAnswered(s3);
    var s4 := Handle(s3, BYE_ANSWERED);
    HandleFour(s0, VERSION_OK, SERVER_FINISHED, Stop(bye), BYE_ANSWERED);
    var run := [VERSION_OK, SERVER_FINISHED, Stop(bye), BYE_ANSWERED];
    OneEventMore(s0, run, Stop(bye));
    OneEventMore(s0, run, Timeout);
    GoodbyeStep(s4, Stop(bye));
    GoodbyeStep(s4, Timeout);
  }

  lemma OneEventMore(s: Status, events: seq<Event>, e: Event)
    ensures HandleAll(s, events + [e]) == Handle(HandleAll(s, events), e)
  {
    HandleAllConcat(s, events, [e]);
    assert [e][1..] == [];
  }
}
