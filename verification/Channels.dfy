/**
Reassembly keeps channels apart, and a message is what its channel received since the last fresh start,
for fragments in any order and with any First and Last flags.

These hold when receiving leaves the crypto state alone: plaintext, or a cipher that decrypts each
fragment by itself.
*/
module Channels {
  import opened Bytes
  import opened Framing
  import opened Crypto
  import opened Messages

  ghost predicate LeavesCryptoAlone<K>(o: Opening<K>, k: K) {
    && (o.established(k) ==> forall c :: o.decrypt(k, c).next == k)
    && (forall m :: o.react(k, m) == k)
  }

  function FragmentsOn(fs: seq<Fragment>, channel: Byte): seq<Fragment> {
    if fs == [] then []
    else (if fs[0].channel == channel then [fs[0]] else []) + FragmentsOn(fs[1..], channel)
  }

  function MessagesOn(ms: seq<Message>, channel: Byte): seq<Message> {
    if ms == [] then []
    else (if ms[0].channel == channel then [ms[0]] else []) + MessagesOn(ms[1..], channel)
  }

  lemma {:induction false} MessagesOnConcat(a: seq<Message>, b: seq<Message>, channel: Byte)
    ensures MessagesOn(a + b, channel) == MessagesOn(a, channel) + MessagesOn(b, channel)
  {
    if a == [] {
      assert a + b == b;
    } else {
      ConcatTail(a, b);
      MessagesOnConcat(a[1..], b, channel);
      ConcatAssociates(if a[0].channel == channel then [a[0]] else [], MessagesOn(a[1..], channel), MessagesOn(b, channel));
    }
  }

  /** One fragment changes no other channel's buffer and yields no other channel's message. */
  lemma AcceptStaysOnChannel<K>(o: Opening<K>, a: Assembly<K>, f: Fragment, channel: Byte)
    requires LeavesCryptoAlone(o, a.crypto)
    ensures Accept(o, a, f).state.crypto == a.crypto
    ensures f.channel != channel ==>
      && Pending(Accept(o, a, f).state, channel) == Pending(a, channel)
      && MessagesOn(Accept(o, a, f).messages, channel) == []
    ensures f.channel == channel ==> MessagesOn(Accept(o, a, f).messages, channel) == Accept(o, a, f).messages
  {
  }

  lemma AcceptSeesOneChannel<K>(o: Opening<K>, a: Assembly<K>, b: Assembly<K>, f: Fragment)
    requires a.crypto == b.crypto && Pending(a, f.channel) == Pending(b, f.channel)
    ensures Accept(o, a, f).messages == Accept(o, b, f).messages
    ensures Pending(Accept(o, a, f).state, f.channel) == Pending(Accept(o, b, f).state, f.channel)
    ensures Accept(o, a, f).state.crypto == Accept(o, b, f).state.crypto
  {
  }

  /** A channel's messages and buffer are those of a run on that channel's fragments alone. */
  lemma {:induction false} ChannelIndependence<K>(
    o: Opening<K>, a: Assembly<K>, alone: Assembly<K>, fs: seq<Fragment>, channel: Byte)
    requires LeavesCryptoAlone(o, a.crypto)
    requires alone.crypto == a.crypto && Pending(alone, channel) == Pending(a, channel)
    ensures var x, y := AcceptAll(o, a, fs), AcceptAll(o, alone, FragmentsOn(fs, channel));
      && MessagesOn(x.messages, channel) == y.messages
      && Pending(x.state, channel) == Pending(y.state, channel)
    decreases |fs|
  {
    if fs != [] {
      var f := fs[0];
      var x := Accept(o, a, f);
      AcceptStaysOnChannel(o, a, f, channel);
      MessagesOnConcat(x.messages, AcceptAll(o, x.state, fs[1..]).messages, channel);
      if f.channel == channel {
        var y := Accept(o, alone, f);
        AcceptSeesOneChannel(o, a, alone, f);
        ChannelIndependence(o, x.state, y.state, fs[1..], channel);
        AcceptConcat(o, alone, [f], FragmentsOn(fs[1..], channel));
        AcceptOne(o, alone, f);
      } else {
        assert FragmentsOn(fs, channel) == FragmentsOn(fs[1..], channel);
        ChannelIndependence(o, x.state, alone, fs[1..], channel);
      }
    }
  }

  // ----- What a message is made of -----

  /** What one fragment contributes, or nothing when it does not decrypt. */
  function Plain<K>(o: Opening<K>, k: K, f: Fragment): Option<seq<Byte>> {
    if f.encrypted && o.established(k) then
      match o.decrypt(k, f.payload)
      case Opened(_, bytes) => Some(bytes)
      case OpenFailed(_) => None
    else
      Some(f.payload)
  }

  /** After this fragment the channel's buffer is empty. */
  predicate Clears<K>(o: Opening<K>, k: K, f: Fragment) {
    f.isLast || Plain(o, k, f).None?
  }

  function Plains<K>(o: Opening<K>, k: K, fs: seq<Fragment>): seq<seq<Byte>> {
    seq(|fs|, i requires 0 <= i < |fs| => match Plain(o, k, fs[i]) case Some(bytes) => bytes case None => [])
  }

  /** Fragment `j` opens what is pending: nothing after it restarts or clears, and it is itself a fresh start. */
  ghost predicate OpensPending<K>(o: Opening<K>, k: K, fs: seq<Fragment>, j: nat) {
    && j <= |fs|
    && (forall i :: j <= i < |fs| ==> !Clears(o, k, fs[i]))
    && (forall i :: j < i < |fs| ==> !fs[i].isFirst)
    && (j == 0 || Clears(o, k, fs[j - 1]) || (j < |fs| && fs[j].isFirst))
  }

  lemma AcceptPlain<K>(o: Opening<K>, a: Assembly<K>, f: Fragment)
    requires LeavesCryptoAlone(o, a.crypto)
    ensures Accept(o, a, f).state.crypto == a.crypto
    ensures var kept := if f.isFirst then [] else Pending(a, f.channel);
      Pending(Accept(o, a, f).state, f.channel)
        == if Clears(o, a.crypto, f) then [] else kept + Plain(o, a.crypto, f).value
    ensures var kept := if f.isFirst then [] else Pending(a, f.channel);
      f.isLast && Plain(o, a.crypto, f).Some? ==>
        Accept(o, a, f).messages == match MessageIn(f.channel, kept + Plain(o, a.crypto, f).value)
          case Some(m) => [m] case None => []
  {
  }

  /** Where the pending buffer starts, after one more fragment. */
  lemma StillOpens<K>(o: Opening<K>, k: K, front: seq<Fragment>, f: Fragment, j: nat)
    requires OpensPending(o, k, front, j)
    ensures OpensPending(o, k, front + [f],
      if Clears(o, k, f) then |front| + 1 else if f.isFirst then |front| else j)
  {
  }

  lemma PlainsStep<K>(o: Opening<K>, k: K, front: seq<Fragment>, f: Fragment, j: nat)
    requires j <= |front|
    ensures Plains(o, k, (front + [f])[|front| + 1..]) == []
    ensures Plain(o, k, f).Some? ==>
      Flatten(Plains(o, k, (front + [f])[j..])) == Flatten(Plains(o, k, front[j..])) + Plain(o, k, f).value
  {
    if Plain(o, k, f).Some? {
      var bytes := Plain(o, k, f).value;
      var before := Plains(o, k, front[j..]);
      assert Plains(o, k, (front + [f])[j..]) == before + [bytes];
      FlattenSnoc(before, bytes);
    }
  }

  lemma {:induction false} PendingSinceStart<K>(
    o: Opening<K>, a: Assembly<K>, fs: seq<Fragment>, channel: Byte) returns (j: nat)
    requires LeavesCryptoAlone(o, a.crypto) && Pending(a, channel) == []
    requires forall f :: f in fs ==> f.channel == channel
    ensures OpensPending(o, a.crypto, fs, j)
    ensures AcceptAll(o, a, fs).state.crypto == a.crypto
    ensures Pending(AcceptAll(o, a, fs).state, channel) == Flatten(Plains(o, a.crypto, fs[j..]))
    decreases |fs|
  {
    if fs == [] {
      j := 0;
      assert Plains(o, a.crypto, fs[j..]) == [];
    } else {
      var front, f := fs[..|fs| - 1], fs[|fs| - 1];
      assert fs == front + [f];
      var j0 := PendingSinceStart(o, a, front, channel);
      var x := AcceptAll(o, a, front).state;
      AcceptSnoc(o, a, front, f);
      AcceptPlain(o, x, f);
      j := if Clears(o, a.crypto, f) then |fs| else if f.isFirst then |fs| - 1 else j0;
      StillOpens(o, a.crypto, front, f, j0);
      PlainsStep(o, a.crypto, front, f, if f.isFirst then |front| else j0);
    }
  }

  /**
  The message a Last fragment completes is the concatenation of its channel's plaintext since the last
  fresh start: from fragment `j` on, or from the fragment itself if it is also First.
  */
  lemma MessageSinceStart<K>(
    o: Opening<K>, a: Assembly<K>, fs: seq<Fragment>, f: Fragment) returns (j: nat)
    requires LeavesCryptoAlone(o, a.crypto) && Pending(a, f.channel) == []
    requires forall g :: g in fs ==> g.channel == f.channel
    requires f.isLast && Plain(o, a.crypto, f).Some?
    ensures j <= |fs| && (f.isFirst ==> j == |fs|) && (!f.isFirst ==> OpensPending(o, a.crypto, fs, j))
    ensures var body := Flatten(Plains(o, a.crypto, fs[j..] + [f]));
      AcceptAll(o, a, fs + [f]).messages == AcceptAll(o, a, fs).messages
        + (match MessageIn(f.channel, body) case Some(m) => [m] case None => [])
  {
    var j0 := PendingSinceStart(o, a, fs, f.channel);
    j := if f.isFirst then |fs| else j0;
    AcceptSnoc(o, a, fs, f);
    AcceptPlain(o, AcceptAll(o, a, fs).state, f);
    PlainsStep(o, a.crypto, fs, f, j);
    assert (fs + [f])[j..] == fs[j..] + [f];
  }

  // ----- Decryption errors -----

  /** The fragments that do not decrypt. */
  function Unreadable<K>(o: Opening<K>, k: K, fs: seq<Fragment>): nat {
    if fs == [] then 0 else (if Plain(o, k, fs[0]).None? then 1 else 0) + Unreadable(o, k, fs[1..])
  }

  /** Each fragment that does not decrypt is reported once, and nothing else is. */
  lemma {:induction false} ErrorsExactly<K>(o: Opening<K>, a: Assembly<K>, fs: seq<Fragment>)
    requires LeavesCryptoAlone(o, a.crypto)
    ensures AcceptAll(o, a, fs).errors == Unreadable(o, a.crypto, fs)
    decreases |fs|
  {
    if fs != [] {
      AcceptPlain(o, a, fs[0]);
      ErrorsExactly(o, Accept(o, a, fs[0]).state, fs[1..]);
    }
  }
}
