/** The audio service told from what happens to it: what it plays, and what it answers. */
module AudioPlay {
  import opened Bytes
  import opened AudioCredits

  datatype Happening = Received(message: ToHeadUnit) | Attached | Detached | Closed

  const IDLE: Audio := Audio(false, false, 0, [])

  function OnHappening(a: Audio, x: Happening): (Audio, seq<ToPhone>) {
    match x
    case Received(m) => OnMessage(a, m)
    case Attached => (a.(sinksActive := true), [])
    case Detached => (a.(sinksActive := false), [])
    case Closed => (a.(started := false), [])
  }

  /** The service after the happenings, and all its replies in order. */
  function Serve(xs: seq<Happening>): (Audio, seq<ToPhone>) {
    if xs == [] then (IDLE, [])
    else
      var (a, replies) := Serve(xs[..|xs| - 1]);
      var (b, more) := OnHappening(a, xs[|xs| - 1]);
      (b, replies + more)
  }

  // ----- From the happenings alone -----

  /** The stream was started, and neither stopped nor closed since. */
  predicate IsStarted(xs: seq<Happening>) {
    xs != [] &&
    match xs[|xs| - 1]
    case Received(Start(_)) => true
    case Received(Stop) => false
    case Closed => false
    case _ => IsStarted(xs[..|xs| - 1])
  }

  /** The sinks were attached, and not detached since. */
  predicate IsAttached(xs: seq<Happening>) {
    xs != [] &&
    match xs[|xs| - 1]
    case Attached => true
    case Detached => false
    case _ => IsAttached(xs[..|xs| - 1])
  }

  /** The session the stream was started with last. */
  function LastSession(xs: seq<Happening>): int {
    if xs == [] then 0
    else
      match xs[|xs| - 1]
      case Received(Start(session)) => session
      case _ => LastSession(xs[..|xs| - 1])
  }

  /** The sound in a data message: what follows the eight bytes of the timestamp, or all if there is none. */
  function Pcm(bytes: seq<Byte>): seq<Byte> {
    if |bytes| <= 8 then bytes else bytes[8..]
  }

  /** What should be heard: the data that came while the stream was started and the sinks attached. */
  function Heard(xs: seq<Happening>): seq<seq<Byte>> {
    if xs == [] then []
    else
      var front := xs[..|xs| - 1];
      match xs[|xs| - 1]
      case Received(Data(bytes)) =>
        Heard(front) + (if IsStarted(front) && IsAttached(front) then [Pcm(bytes)] else [])
      case _ => Heard(front)
  }

  /** What should be answered: ten credits for a SETUP, and one for each DATA, in the current session. */
  function Answers(xs: seq<Happening>): seq<ToPhone> {
    if xs == [] then []
    else
      var front := xs[..|xs| - 1];
      match xs[|xs| - 1]
      case Received(Setup) => Answers(front) + [Config(10)]
      case Received(Data(_)) => Answers(front) + [Ack(LastSession(front), 1)]
      case _ => Answers(front)
  }

  /** The service plays and answers exactly that, whatever happens to it. */
  lemma {:induction false} PlaysExactly(xs: seq<Happening>)
    ensures Serve(xs).0 == Audio(IsStarted(xs), IsAttached(xs), LastSession(xs), Heard(xs))
    ensures Serve(xs).1 == Answers(xs)
  {
    if xs != [] {
      PlaysExactly(xs[..|xs| - 1]);
    }
  }

  /** A timestamp is left out of the sound. */
  lemma TimestampIsCut(timestamp: seq<Byte>, sound: seq<Byte>)
    requires |timestamp| == 8 && sound != []
    ensures Sound(timestamp + sound) == sound
  {
  }
}
