/**
The wire format: an incremental frame parser and a fragmenting frame printer.

`Parse` is the result of the parser's loop on one buffer. What it means is given apart from the loop,
by `IsFrame`: a buffer is cut into whole frames, and what is left over holds no whole frame.
*/
module Framing {
  import opened Bytes
  import opened ProtocolConstants

  datatype Fragment = Fragment(channel: Byte, isFirst: bool, isLast: bool, encrypted: bool, payload: seq<Byte>)

  datatype OutboundFrame = OutboundFrame(channel: Byte, flags: Byte, payload: seq<Byte>)

  // ----- Receive path -----

  /** Bytes between the header and the payload: a First that is not also Last carries a size field. */
  function ExtraSkip(flags: Byte): nat {
    if HasFirst(flags) && !HasLast(flags) then 4 else 0
  }

  function FrameSize(s: seq<Byte>): nat
    requires HEADER_SIZE <= |s|
  {
    HEADER_SIZE + ExtraSkip(s[1]) + ReadBe16(s[2], s[3])
  }

  /** The buffer starts with a whole frame. */
  predicate HasFrame(s: seq<Byte>) {
    HEADER_SIZE <= |s| && FrameSize(s) <= |s|
  }

  function HeadFragment(s: seq<Byte>): Fragment
    requires HasFrame(s)
  {
    Fragment(s[0], HasFirst(s[1]), HasLast(s[1]), HasEncrypted(s[1]),
             s[HEADER_SIZE + ExtraSkip(s[1])..FrameSize(s)])
  }

  datatype Parsed = Parsed(fragments: seq<Fragment>, rest: seq<Byte>)

  function Parse(s: seq<Byte>): (p: Parsed)
    ensures !HasFrame(p.rest)
  {
    if HasFrame(s) then
      var tail := Parse(s[FrameSize(s)..]);
      Parsed([HeadFragment(s)] + tail.fragments, tail.rest)
    else
      Parsed([], s)
  }

  /** `raw` is exactly one frame, and it says `f`. */
  ghost predicate IsFrame(raw: seq<Byte>, f: Fragment) {
    HasFrame(raw) && FrameSize(raw) == |raw| && HeadFragment(raw) == f
  }

  ghost predicate AreFrames(raws: seq<seq<Byte>>, fs: seq<Fragment>) {
    |raws| == |fs| && forall i :: 0 <= i < |raws| ==> IsFrame(raws[i], fs[i])
  }

  lemma PrependAll<T>(a: seq<T>, b: seq<T>)
    requires a != []
    ensures a + b == [a[0]] + (a[1..] + b)
  {
  }

  lemma FramesTail(raws: seq<seq<Byte>>, fs: seq<Fragment>)
    requires AreFrames(raws, fs) && raws != []
    ensures IsFrame(raws[0], fs[0]) && AreFrames(raws[1..], fs[1..])
  {
  }

  lemma FramesCons(raw: seq<Byte>, f: Fragment, raws: seq<seq<Byte>>, fs: seq<Fragment>)
    requires IsFrame(raw, f) && AreFrames(raws, fs)
    ensures AreFrames([raw] + raws, [f] + fs)
  {
  }

  lemma FramesConcat(raws: seq<seq<Byte>>, fs: seq<Fragment>, raws': seq<seq<Byte>>, fs': seq<Fragment>)
    requires AreFrames(raws, fs) && AreFrames(raws', fs')
    ensures AreFrames(raws + raws', fs + fs')
  {
  }

  lemma ParseOne(raw: seq<Byte>, f: Fragment, tail: seq<Byte>)
    requires IsFrame(raw, f)
    ensures Parse(raw + tail) == Parsed([f] + Parse(tail).fragments, Parse(tail).rest)
  {
    HeadOfConcat(raw, f, tail);
  }

  lemma HeadOfConcat(raw: seq<Byte>, f: Fragment, tail: seq<Byte>)
    requires IsFrame(raw, f)
    ensures HasFrame(raw + tail) && FrameSize(raw + tail) == |raw|
    ensures HeadFragment(raw + tail) == f
    ensures (raw + tail)[|raw|..] == tail
  {
    var s := raw + tail;
    assert s[0] == raw[0] && s[1] == raw[1] && s[2] == raw[2] && s[3] == raw[3];
    assert s[HEADER_SIZE + ExtraSkip(s[1])..|raw|] == raw[HEADER_SIZE + ExtraSkip(raw[1])..|raw|];
  }

  /** Frames in front of a buffer are parsed off one by one, whatever follows them. */
  lemma {:induction false} ParseFrames(raws: seq<seq<Byte>>, fs: seq<Fragment>, rest: seq<Byte>)
    requires AreFrames(raws, fs)
    ensures Parse(Flatten(raws) + rest) == Parsed(fs + Parse(rest).fragments, Parse(rest).rest)
  {
    if raws == [] {
      assert Flatten(raws) + rest == rest;
      assert fs + Parse(rest).fragments == Parse(rest).fragments;
    } else {
      var tail := Flatten(raws[1..]) + rest;
      FramesTail(raws, fs);
      assert Flatten(raws) + rest == raws[0] + tail;
      ParseFrames(raws[1..], fs[1..], rest);
      ParseOne(raws[0], fs[0], tail);
      PrependAll(fs, Parse(rest).fragments);
    }
  }

  lemma FlattenAfterCut(s: seq<Byte>, n: nat, tail: seq<seq<Byte>>, rest: seq<Byte>)
    requires n <= |s| && s[n..] == Flatten(tail) + rest
    ensures s == Flatten([s[..n]] + tail) + rest
  {
    FlattenCons(s[..n], tail);
  }

  lemma HeadOfPrefix(s: seq<Byte>)
    requires HasFrame(s)
    ensures IsFrame(s[..FrameSize(s)], HeadFragment(s))
  {
    var raw := s[..FrameSize(s)];
    assert raw[HEADER_SIZE + ExtraSkip(s[1])..] == s[HEADER_SIZE + ExtraSkip(s[1])..FrameSize(s)];
  }

  /** The frames `Parse` finds are a way to cut the buffer. */
  lemma {:induction false} ParseCuts(s: seq<Byte>) returns (raws: seq<seq<Byte>>)
    ensures AreFrames(raws, Parse(s).fragments)
    ensures s == Flatten(raws) + Parse(s).rest
  {
    if HasFrame(s) {
      var n := FrameSize(s);
      var tail := ParseCuts(s[n..]);
      raws := [s[..n]] + tail;
      FlattenAfterCut(s, n, tail, Parse(s[n..]).rest);
      HeadOfPrefix(s);
      FramesCons(s[..n], HeadFragment(s), tail, Parse(s[n..]).fragments);
    } else {
      raws := [];
    }
  }

  /** There is only one way to cut a buffer into frames and a remainder without one: `Parse` finds it. */
  lemma ParseIsTheCut(s: seq<Byte>, fs: seq<Fragment>, rest: seq<Byte>)
    ensures Parse(s) == Parsed(fs, rest)
      <==> !HasFrame(rest) && exists raws :: AreFrames(raws, fs) && s == Flatten(raws) + rest
  {
    if Parse(s) == Parsed(fs, rest) {
      var raws := ParseCuts(s);
      assert AreFrames(raws, fs) && s == Flatten(raws) + rest;
    }
    if !HasFrame(rest) {
      forall raws | AreFrames(raws, fs) && s == Flatten(raws) + rest
        ensures Parse(s) == Parsed(fs, rest)
      {
        ParseFrames(raws, fs, rest);
        assert fs + [] == fs;
      }
    }
  }

  /** Parsing may stop anywhere and go on with what was left. */
  lemma ParseConcat(a: seq<Byte>, b: seq<Byte>)
    ensures Parse(a + b) == var p, q := Parse(a), Parse(Parse(a).rest + b);
      Parsed(p.fragments + q.fragments, q.rest)
  {
    var p := Parse(a);
    var raws := ParseCuts(a);
    assert a + b == Flatten(raws) + (p.rest + b);
    ParseFrames(raws, p.fragments, p.rest + b);
  }

  /** What stays in the buffer is less than one frame of the largest size. */
  lemma RestIsBounded(s: seq<Byte>)
    ensures |Parse(s).rest| <= 65542
  {
    var r := Parse(s).rest;
    if HEADER_SIZE <= |r| {
      assert FrameSize(r) <= 65543;
    }
  }

  /** The parser's state and output after feeding the buffers one after the other. */
  function FeedAll(rest: seq<Byte>, chunks: seq<seq<Byte>>): Parsed
    decreases |chunks|
  {
    if chunks == [] then
      Parsed([], rest)
    else
      var p := Parse(rest + chunks[0]);
      var q := FeedAll(p.rest, chunks[1..]);
      Parsed(p.fragments + q.fragments, q.rest)
  }

  /** Where the stream is cut into reads does not matter. */
  lemma {:induction false} ChunkingDoesNotMatter(rest: seq<Byte>, chunks: seq<seq<Byte>>)
    requires !HasFrame(rest)
    ensures FeedAll(rest, chunks) == Parse(rest + Flatten(chunks))
    decreases |chunks|
  {
    if chunks == [] {
      assert rest + Flatten(chunks) == rest;
    } else {
      var p := Parse(rest + chunks[0]);
      ChunkingDoesNotMatter(p.rest, chunks[1..]);
      ConcatAssociates(rest, chunks[0], Flatten(chunks[1..]));
      ParseConcat(rest + chunks[0], Flatten(chunks[1..]));
    }
  }

  /** A prefix of the stream yields a prefix of the fragments. */
  lemma ParsePrefix(a: seq<Byte>, s: seq<Byte>)
    requires a <= s
    ensures Parse(a).fragments <= Parse(s).fragments
  {
    ParseConcat(a, s[|a|..]);
    assert s == a + s[|a|..];
  }

  // ----- Send path -----

  /** Number of wire frames for a payload of `n` bytes. */
  function FrameCount(n: nat): (k: nat)
    ensures 1 <= k
    ensures n == 0 ==> k == 1
    ensures 0 < n ==> (k - 1) * MAX_PAYLOAD < n <= k * MAX_PAYLOAD
  {
    if n == 0 then 1 else (n + MAX_PAYLOAD - 1) / MAX_PAYLOAD
  }

  /** The bytes the `i`-th wire frame carries. */
  function Piece(payload: seq<Byte>, i: nat): (piece: seq<Byte>)
    requires i < FrameCount(|payload|)
    ensures |piece| <= MAX_PAYLOAD
    ensures i < FrameCount(|payload|) - 1 ==> |piece| == MAX_PAYLOAD
  {
    payload[i * MAX_PAYLOAD..Min((i + 1) * MAX_PAYLOAD, |payload|)]
  }

  function FragInfoOf(i: nat, count: nat): (info: Byte)
    requires i < count && 1 < count
    ensures info < 3
  {
    if i == 0 then FIRST else if i == count - 1 then LAST else CONTINUATION
  }

  /** The `i`-th of several wire frames. */
  function FragmentWire(frame: OutboundFrame, i: nat): seq<Byte>
    requires i < FrameCount(|frame.payload|) && MAX_PAYLOAD < |frame.payload|
  {
    var piece := Piece(frame.payload, i);
    [frame.channel, WithFragInfo(frame.flags, FragInfoOf(i, FrameCount(|frame.payload|)))]
    + Be16(|piece|)
    + (if i == 0 then Be32(|frame.payload|) else [])
    + piece
  }

  /** A frame that needs no fragmentation keeps its flags byte as it is. */
  function SingleWire(frame: OutboundFrame): seq<Byte> {
    [frame.channel, frame.flags] + Be16(|frame.payload|) + frame.payload
  }

  /** The wire frames of an outbound frame, each given by its position. */
  function Wires(frame: OutboundFrame): seq<seq<Byte>> {
    if |frame.payload| <= MAX_PAYLOAD then
      [SingleWire(frame)]
    else
      seq(FrameCount(|frame.payload|),
          i requires 0 <= i < FrameCount(|frame.payload|) => FragmentWire(frame, i))
  }

  /** What the receiver should see: Unfragmented, or First Continuation* Last. */
  function Fragments(frame: OutboundFrame): seq<Fragment> {
    var count := FrameCount(|frame.payload|);
    seq(count, i requires 0 <= i < count =>
      Fragment(frame.channel, i == 0, i == count - 1, HasEncrypted(frame.flags), Piece(frame.payload, i)))
  }

  lemma FragmentWireIsFrame(frame: OutboundFrame, i: nat)
    requires i < FrameCount(|frame.payload|) && MAX_PAYLOAD < |frame.payload|
    ensures IsFrame(FragmentWire(frame, i), Fragments(frame)[i])
  {
    var count := FrameCount(|frame.payload|);
    var raw := FragmentWire(frame, i);
    var piece := Piece(frame.payload, i);
    var info := FragInfoOf(i, count);
    FlagFacts(frame.flags, info);
    Be16Value(|piece|);
    assert raw[0] == frame.channel && raw[1] == WithFragInfo(frame.flags, info);
    assert raw[2..4] == Be16(|piece|);
    assert raw[2] == Be16(|piece|)[0] && raw[3] == Be16(|piece|)[1];
    assert raw[HEADER_SIZE + ExtraSkip(raw[1])..] == piece;
  }

  lemma SingleWireIsFrame(frame: OutboundFrame)
    requires |frame.payload| <= MAX_PAYLOAD && frame.flags % 4 == UNFRAGMENTED
    ensures IsFrame(SingleWire(frame), Fragments(frame)[0])
  {
    var raw := SingleWire(frame);
    FlagFacts(frame.flags, UNFRAGMENTED);
    Be16Value(|frame.payload|);
    assert raw[2] == Be16(|frame.payload|)[0] && raw[3] == Be16(|frame.payload|)[1];
    assert raw[HEADER_SIZE..] == frame.payload;
    assert Piece(frame.payload, 0) == frame.payload;
  }

  /** Each wire frame is one frame with the intended content. */
  lemma WiresAreFrames(frame: OutboundFrame)
    requires frame.flags % 4 == UNFRAGMENTED || MAX_PAYLOAD < |frame.payload|
    ensures AreFrames(Wires(frame), Fragments(frame))
  {
    if |frame.payload| <= MAX_PAYLOAD {
      SingleWireIsFrame(frame);
    } else {
      forall i | 0 <= i < FrameCount(|frame.payload|)
        ensures IsFrame(Wires(frame)[i], Fragments(frame)[i])
      {
        FragmentWireIsFrame(frame, i);
      }
    }
  }

  /** Without both FragInfo bits a single wire frame is not read as First and Last. */
  lemma LoneWireMisread(frame: OutboundFrame)
    requires frame.flags % 4 != UNFRAGMENTED && |frame.payload| <= MAX_PAYLOAD
    ensures Parse(SingleWire(frame)) != Parsed(Fragments(frame), [])
  {
    var s := SingleWire(frame);
    FlagFacts(frame.flags, UNFRAGMENTED);
    assert s[1] == frame.flags;
    if HasFrame(s) {
      assert Parse(s).fragments[0] == HeadFragment(s);
      assert !HeadFragment(s).isFirst || !HeadFragment(s).isLast;
      assert Fragments(frame)[0].isFirst && Fragments(frame)[0].isLast;
    }
  }

  /**
  Printing and parsing, exactly: the receiver sees the intended fragments if and only if the flags byte
  has both FragInfo bits, or the payload is long enough for the printer to set them itself.
  */
  lemma EncodeThenParse(frame: OutboundFrame)
    ensures Parse(Flatten(Wires(frame))) == Parsed(Fragments(frame), [])
      <==> frame.flags % 4 == UNFRAGMENTED || MAX_PAYLOAD < |frame.payload|
  {
    var s := Flatten(Wires(frame));
    assert s + [] == s;
    if frame.flags % 4 == UNFRAGMENTED || MAX_PAYLOAD < |frame.payload| {
      WiresAreFrames(frame);
      ParseFrames(Wires(frame), Fragments(frame), []);
      assert Fragments(frame) + [] == Fragments(frame);
    } else {
      LoneWireMisread(frame);
      assert Flatten([SingleWire(frame)][1..]) == [];
      assert s == SingleWire(frame);
    }
  }

  function Payloads(fs: seq<Fragment>): seq<seq<Byte>> {
    seq(|fs|, i requires 0 <= i < |fs| => fs[i].payload)
  }

  lemma {:induction false} PiecesConcat(frame: OutboundFrame, k: nat)
    requires k <= FrameCount(|frame.payload|)
    ensures Flatten(Payloads(Fragments(frame)[..k])) == frame.payload[..Min(k * MAX_PAYLOAD, |frame.payload|)]
  {
    if k == 0 {
      assert Payloads(Fragments(frame)[..k]) == [];
    } else {
      PiecesConcat(frame, k - 1);
      var front := Payloads(Fragments(frame)[..k - 1]);
      assert Payloads(Fragments(frame)[..k]) == front + [Piece(frame.payload, k - 1)];
      FlattenSnoc(front, Piece(frame.payload, k - 1));
    }
  }

  /** The fragments carry the payload, whole and in order. */
  lemma FragmentsCarryPayload(frame: OutboundFrame)
    ensures Flatten(Payloads(Fragments(frame))) == frame.payload
  {
    var count := FrameCount(|frame.payload|);
    PiecesConcat(frame, count);
    assert Fragments(frame)[..count] == Fragments(frame);
    assert frame.payload[..|frame.payload|] == frame.payload;
  }

  lemma {:induction false} WireLengths(frame: OutboundFrame, k: nat)
    requires MAX_PAYLOAD < |frame.payload| && k <= FrameCount(|frame.payload|)
    ensures |Flatten(Wires(frame)[..k])|
      == Min(k * MAX_PAYLOAD, |frame.payload|) + HEADER_SIZE * k + (if k == 0 then 0 else 4)
  {
    if 0 < k {
      WireLengths(frame, k - 1);
      assert Wires(frame)[..k] == Wires(frame)[..k - 1] + [FragmentWire(frame, k - 1)];
      FlattenSnoc(Wires(frame)[..k - 1], FragmentWire(frame, k - 1));
    }
  }

  /** What framing costs: four bytes a frame, and four more once when the payload is fragmented. */
  lemma Overhead(frame: OutboundFrame)
    ensures |Flatten(Wires(frame))| == |frame.payload| + HEADER_SIZE * |Wires(frame)|
      + (if MAX_PAYLOAD < |frame.payload| then 4 else 0)
    ensures |Wires(frame)| == FrameCount(|frame.payload|)
  {
    if MAX_PAYLOAD < |frame.payload| {
      var count := FrameCount(|frame.payload|);
      WireLengths(frame, count);
      assert Wires(frame)[..count] == Wires(frame);
    } else {
      assert Flatten(Wires(frame)) == SingleWire(frame) + [];
    }
  }

  /** Every wire frame of a message shows whether the message is encrypted. */
  lemma WiresKeepEncryptedBit(frame: OutboundFrame)
    ensures forall i :: 0 <= i < |Wires(frame)| ==>
      2 <= |Wires(frame)[i]| && (HasEncrypted(Wires(frame)[i][1]) <==> HasEncrypted(frame.flags))
  {
    if MAX_PAYLOAD < |frame.payload| {
      forall i | 0 <= i < |Wires(frame)|
        ensures 2 <= |Wires(frame)[i]|
        ensures HasEncrypted(Wires(frame)[i][1]) <==> HasEncrypted(frame.flags)
      {
        FlagFacts(frame.flags, FragInfoOf(i, FrameCount(|frame.payload|)));
      }
    }
  }

  // ----- The framer object -----

  class Framer {
    var recvBuffer: seq<Byte>

    constructor ()
      ensures recvBuffer == []
    {
      recvBuffer := [];
    }

    method Reset()
      modifies this
      ensures recvBuffer == []
    {
      recvBuffer := [];
    }

    /** Between two calls of `Feed` no whole frame is waiting. */
    predicate Settled()
      reads this
    {
      !HasFrame(recvBuffer)
    }

    method Feed(data: seq<Byte>) returns (fragments: seq<Fragment>)
      requires Settled()
      modifies this
      ensures Settled()
      ensures Parsed(fragments, recvBuffer) == Parse(old(recvBuffer) + data)
    {
      fragments := [];
      if data == [] {
        assert recvBuffer + data == recvBuffer;
        return;
      }
      recvBuffer := recvBuffer + data;
      ghost var all := Parse(recvBuffer);
      var more := true;
      while more
        invariant !more ==> !HasFrame(recvBuffer)
        invariant all.rest == Parse(recvBuffer).rest
        invariant all.fragments == fragments + Parse(recvBuffer).fragments
        decreases |recvBuffer|, more
      {
        ghost var later := Parse(recvBuffer).fragments;
        var next := TryParseFragment();
        match next
        case Some(fragment) =>
          ConcatAssociates(fragments, [fragment], later[1..]);
          fragments := fragments + [fragment];
        case None =>
          more := false;
      }
    }

    method TryParseFragment() returns (fragment: Option<Fragment>)
      modifies this
      ensures HasFrame(old(recvBuffer)) ==>
        && fragment == Some(HeadFragment(old(recvBuffer)))
        && recvBuffer == old(recvBuffer)[FrameSize(old(recvBuffer))..]
      ensures !HasFrame(old(recvBuffer)) ==> fragment == None && recvBuffer == old(recvBuffer)
    {
      if |recvBuffer| < HEADER_SIZE {
        return None;
      }
      var flags := recvBuffer[1];
      var payloadLength := ReadBe16(recvBuffer[2], recvBuffer[3]);
      var extraSkip := if HasFirst(flags) && !HasLast(flags) then 4 else 0;
      var totalFrameSize := HEADER_SIZE + extraSkip + payloadLength;
      if |recvBuffer| < totalFrameSize {
        return None;
      }
      var payload := recvBuffer[HEADER_SIZE + extraSkip..][..payloadLength];
      assert payload == recvBuffer[HEADER_SIZE + extraSkip..totalFrameSize];
      fragment := Some(Fragment(recvBuffer[0], HasFirst(flags), HasLast(flags), HasEncrypted(flags), payload));
      recvBuffer := recvBuffer[totalFrameSize..];
    }

    method Encode(frame: OutboundFrame) returns (wires: seq<seq<Byte>>)
      ensures wires == Wires(frame)
    {
      var payload := frame.payload;
      if |payload| <= MAX_PAYLOAD {
        return [[frame.channel, frame.flags] + Be16(|payload|) + payload];
      }
      wires := [];
      var offset := 0;
      while offset < |payload|
        invariant offset == Min(|wires| * MAX_PAYLOAD, |payload|)
        invariant |wires| <= FrameCount(|payload|)
        invariant forall i :: 0 <= i < |wires| ==> wires[i] == Wires(frame)[i]
      {
        var chunkSize := Min(|payload| - offset, MAX_PAYLOAD);
        var isFirst := offset == 0;
        var isLast := offset + chunkSize >= |payload|;
        var info := if isFirst then FIRST else if isLast then LAST else CONTINUATION;
        var sizeField := if isFirst then Be32(|payload|) else [];
        var wire := [frame.channel, WithFragInfo(frame.flags, info)] + Be16(chunkSize)
          + sizeField + payload[offset..offset + chunkSize];
        assert payload[offset..offset + chunkSize] == Piece(payload, |wires|);
        wires := wires + [wire];
        offset := offset + chunkSize;
      }
    }
  }
}
