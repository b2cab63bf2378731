/**
Credit-based flow control of an audio channel: a phone that counts credits, the audio service, and a
lossless link in order between them.

The phone asks for the channel once with SETUP, gets its credits with CONFIG, spends one with each DATA
and gets one back with each ACK.
*/
module AudioCredits {
  import opened Bytes

  const MAX_UNACKED: nat := 10
  const TIMESTAMP_BYTES: nat := 8

  datatype ToHeadUnit = Setup | Start(session: int) | Stop | CodecConfig | Data(bytes: seq<Byte>)

  datatype ToPhone = Config(maxUnacked: nat) | Ack(session: int, count: nat)

  /** The service: what it has been told, and what its sinks were given. */
  datatype Audio = Audio(started: bool, sinksActive: bool, session: int, played: seq<seq<Byte>>)

  /** The sound of a data message: without its timestamp, if it is long enough to have one. */
  function Sound(bytes: seq<Byte>): seq<Byte> {
    if TIMESTAMP_BYTES < |bytes| then bytes[TIMESTAMP_BYTES..] else bytes
  }

  /** One message handled: the new state, and the replies. */
  function OnMessage(a: Audio, m: ToHeadUnit): (Audio, seq<ToPhone>) {
    match m
    case Setup => (a, [Config(MAX_UNACKED)])
    case Start(session) => (a.(session := session, started := true), [])
    case Stop => (a.(started := false), [])
    case CodecConfig => (a, [])
    case Data(bytes) =>
      (if a.started && a.sinksActive then a.(played := a.played + [Sound(bytes)]) else a, [Ack(a.session, 1)])
  }

  class AudioService {
    var started: bool
    var sinksActive: bool
    var sessionId: int
    ghost var played: seq<seq<Byte>>

    constructor ()
      ensures State() == Audio(false, false, 0, [])
    {
      started, sinksActive, sessionId := false, false, 0;
      played := [];
    }

    ghost function State(): Audio
      reads this
    {
      Audio(started, sinksActive, sessionId, played)
    }

    method AttachSinks()
      modifies this
      ensures State() == old(State()).(sinksActive := true)
    {
      sinksActive := true;
    }

    method DetachSinks()
      modifies this
      ensures State() == old(State()).(sinksActive := false)
    {
      sinksActive := false;
    }

    method OnChannelClose()
      modifies this
      ensures State() == old(State()).(started := false)
    {
      started := false;
    }

    method Handle(m: ToHeadUnit) returns (replies: seq<ToPhone>)
      modifies this
      ensures (State(), replies) == OnMessage(old(State()), m)
    {
      replies := [];
      match m
      case Setup => replies := [Config(MAX_UNACKED)];
      case Start(session) =>
        sessionId := session;
        started := true;
      case Stop => started := false;
      case CodecConfig =>
      case Data(bytes) => replies := OnData(bytes);
    }

    method OnData(bytes: seq<Byte>) returns (replies: seq<ToPhone>)
      modifies this
      ensures (State(), replies) == OnMessage(old(State()), Data(bytes))
    {
      if !started || !sinksActive {
        return [Ack(sessionId, 1)];
      }
      var sound := bytes;
      if |bytes| > TIMESTAMP_BYTES {
        sound := bytes[TIMESTAMP_BYTES..];
      }
      played := played + [sound];
      replies := [Ack(sessionId, 1)];
    }
  }

  // ----- Phone, link and service together -----

  datatype System = System(
    setupSent: bool,
    credits: nat,
    down: seq<ToHeadUnit>,  // from the phone, oldest first
    up: seq<ToPhone>,       // to the phone, oldest first
    audio: Audio)

  const INIT: System := System(false, 0, [], [], Audio(false, false, 0, []))

  datatype Event =
    | SendSetup
    | SendData(bytes: seq<Byte>)
    | SendStart(session: int)
    | SendStop
    | SendCodecConfig
    | HeadUnitHandles
    | PhoneHandles
    | Attach
    | Detach
    | CloseService

  predicate Enabled(s: System, e: Event) {
    match e
    case SendSetup => !s.setupSent
    case SendData(_) => 0 < s.credits
    case HeadUnitHandles => s.down != []
    case PhoneHandles => s.up != []
    case _ => true
  }

  function Step(s: System, e: Event): System
    requires Enabled(s, e)
  {
    match e
    case SendSetup => s.(setupSent := true, down := s.down + [Setup])
    case SendData(bytes) => s.(credits := s.credits - 1, down := s.down + [Data(bytes)])
    case SendStart(session) => s.(down := s.down + [Start(session)])
    case SendStop => s.(down := s.down + [Stop])
    case SendCodecConfig => s.(down := s.down + [CodecConfig])
    case HeadUnitHandles =>
      var (a, replies) := OnMessage(s.audio, s.down[0]);
      s.(down := s.down[1..], up := s.up + replies, audio := a)
    case PhoneHandles =>
      s.(up := s.up[1..],
         credits := match s.up[0] case Config(n) => n case Ack(_, n) => s.credits + n)
    case Attach => s.(audio := s.audio.(sinksActive := true))
    case Detach => s.(audio := s.audio.(sinksActive := false))
    case CloseService => s.(audio := s.audio.(started := false))
  }

  function Run(s: System, events: seq<Event>): System
    decreases |events|
  {
    if events == [] then s
    else Run(if Enabled(s, events[0]) then Step(s, events[0]) else s, events[1..])
  }

  // ----- Conservation -----

  function Worth(m: ToHeadUnit): nat {
    match m
    case Setup => MAX_UNACKED
    case Data(_) => 1
    case _ => 0
  }

  function Refund(m: ToPhone): nat {
    match m
    case Config(n) => n
    case Ack(_, n) => n
  }

  /** Credits on their way to the service: a DATA is one, the SETUP stands for all of them. */
  function InDown(ms: seq<ToHeadUnit>): nat {
    if ms == [] then 0 else Worth(ms[0]) + InDown(ms[1..])
  }

  function InUp(ms: seq<ToPhone>): nat {
    if ms == [] then 0 else Refund(ms[0]) + InUp(ms[1..])
  }

  lemma {:induction false} InDownConcat(a: seq<ToHeadUnit>, b: seq<ToHeadUnit>)
    ensures InDown(a + b) == InDown(a) + InDown(b)
  {
    if a == [] {
      assert a + b == b;
    } else {
      ConcatTail(a, b);
      InDownConcat(a[1..], b);
    }
  }

  lemma {:induction false} InUpConcat(a: seq<ToPhone>, b: seq<ToPhone>)
    ensures InUp(a + b) == InUp(a) + InUp(b)
  {
    if a == [] {
      assert a + b == b;
    } else {
      ConcatTail(a, b);
      InUpConcat(a[1..], b);
    }
  }

  /** Before the phone has its CONFIG it has no credit, and nothing else is worth one. */
  ghost predicate Conserved(s: System) {
    && s.credits + InDown(s.down) + InUp(s.up) == (if s.setupSent then MAX_UNACKED else 0)
    && (forall i :: 0 <= i < |s.up| && s.up[i].Config? ==> s.up[i].maxUnacked == MAX_UNACKED)
  }

  /** Every message of the phone that is worth credits is answered with as many. */
  lemma RepliesRefund(a: Audio, m: ToHeadUnit)
    ensures InUp(OnMessage(a, m).1) == Worth(m)
  {
    var replies := OnMessage(a, m).1;
    assert replies != [] ==> replies[1..] == [];
  }

  lemma StepConserves(s: System, e: Event)
    requires Conserved(s) && Enabled(s, e)
    ensures Conserved(Step(s, e))
  {
    match e
    case HeadUnitHandles =>
      RepliesRefund(s.audio, s.down[0]);
      InUpConcat(s.up, OnMessage(s.audio, s.down[0]).1);
    case PhoneHandles =>
    case SendSetup => SendWorth(s.down, Setup);
    case SendData(bytes) => SendWorth(s.down, Data(bytes));
    case SendStart(session) => SendWorth(s.down, Start(session));
    case SendStop => SendWorth(s.down, Stop);
    case SendCodecConfig => SendWorth(s.down, CodecConfig);
    case _ =>
  }

  lemma SendWorth(ms: seq<ToHeadUnit>, m: ToHeadUnit)
    ensures InDown(ms + [m]) == InDown(ms) + Worth(m)
  {
    InDownConcat(ms, [m]);
    assert [m][1..] == [];
  }

  lemma {:induction false} RunConserves(s: System, events: seq<Event>)
    requires Conserved(s)
    ensures Conserved(Run(s, events))
    decreases |events|
  {
    if events != [] {
      if Enabled(s, events[0]) {
        StepConserves(s, events[0]);
        RunConserves(Step(s, events[0]), events[1..]);
      } else {
        RunConserves(s, events[1..]);
      }
    }
  }

  /**
  In every reachable state, started or not and attached or not, no credit is lost or made; so a phone that
  has asked and has no credit has one coming.
  */
  lemma CreditsAreConserved(events: seq<Event>)
    ensures var s := Run(INIT, events);
      && s.credits + InDown(s.down) + InUp(s.up) == (if s.setupSent then 10 else 0)
      && (s.setupSent && s.credits == 0 ==> 0 < InDown(s.down) + InUp(s.up))
  {
    RunConserves(INIT, events);
  }

  // ----- The stream goes on -----

  /** `n` times the same event. */
  function Repeat(e: Event, n: nat): seq<Event> {
    if n == 0 then [] else [e] + Repeat(e, n - 1)
  }

  /** Handle all that is on the link: the service first, then the phone. */
  function Settle(s: System): System {
    var t := Run(s, Repeat(HeadUnitHandles, |s.down|));
    Run(t, Repeat(PhoneHandles, |t.up|))
  }

  lemma {:induction false} ServiceCatchesUp(s: System)
    ensures var t := Run(s, Repeat(HeadUnitHandles, |s.down|));
      t.down == [] && t.setupSent == s.setupSent
    decreases |s.down|
  {
    if s.down != [] {
      RepeatStep(HeadUnitHandles, |s.down|, s);
      ServiceCatchesUp(Step(s, HeadUnitHandles));
    }
  }

  lemma {:induction false} PhoneCatchesUp(s: System)
    ensures var t := Run(s, Repeat(PhoneHandles, |s.up|));
      t.up == [] && t.down == s.down && t.setupSent == s.setupSent
    decreases |s.up|
  {
    if s.up != [] {
      RepeatStep(PhoneHandles, |s.up|, s);
      PhoneCatchesUp(Step(s, PhoneHandles));
    }
  }

  lemma RepeatStep(e: Event, n: nat, s: System)
    requires 0 < n && Enabled(s, e)
    ensures Run(s, Repeat(e, n)) == Run(Step(s, e), Repeat(e, n - 1))
  {
    assert Repeat(e, n)[1..] == Repeat(e, n - 1);
  }

  /**
  From every reachable state, handling what is on the link brings all ten credits back and leaves the link
  empty: the stream never stops for good.
  */
  lemma CreditsComeBack(events: seq<Event>)
    requires Run(INIT, events).setupSent
    ensures var t := Settle(Run(INIT, events));
      t.credits == 10 && t.down == [] && t.up == []
  {
    var s := Run(INIT, events);
    var t := Run(s, Repeat(HeadUnitHandles, |s.down|));
    RunConserves(INIT, events);
    ServiceCatchesUp(s);
    RunConserves(s, Repeat(HeadUnitHandles, |s.down|));
    PhoneCatchesUp(t);
    RunConserves(t, Repeat(PhoneHandles, |t.up|));
  }
}
