/**
What a sent message looks like on the wire, byte by byte: the parts the phone reads and the parser of
`Framing` does not.
*/
module WireShape {
  import opened Bytes
  import opened ProtocolConstants
  import opened Framing
  import opened Crypto
  import opened Messages

  // ----- The flags byte -----

  /** The four flag bits of a wire frame, two of them set by fragmentation. */
  predicate HasHeader(wire: seq<Byte>, m: Message, encrypted: bool) {
    && 4 <= |wire|
    && wire[0] == m.channel
    && wire[1] < 16
    && (wire[1] / 8 % 2 != 0 <==> encrypted)
    && (wire[1] / 4 % 2 != 0 <==> m.channel != 0 && 1 <= m.messageType <= 19)
  }

  lemma FrameHeaders(m: Message, encrypted: bool, body: seq<Byte>)
    ensures forall i :: 0 <= i < |Wires(FrameOf(m, encrypted, body))| ==>
      HasHeader(Wires(FrameOf(m, encrypted, body))[i], m, encrypted)
  {
    var frame := FrameOf(m, encrypted, body);
    ComputedFlags(m.channel, m.messageType, encrypted);
    forall i | 0 <= i < |Wires(frame)|
      ensures HasHeader(Wires(frame)[i], m, encrypted)
    {
      if MAX_PAYLOAD < |body| {
        HighBits(frame.flags, FragInfoOf(i, FrameCount(|body|)));
      }
    }
  }

  lemma HighBits(flags: Byte, info: Byte)
    requires info < 4 && flags < 16
    ensures var w := WithFragInfo(flags, info);
      w < 16 && w / 8 % 2 == flags / 8 % 2 && w / 4 % 2 == flags / 4 % 2
  {
  }

  /**
  Every wire frame of a message shows the message's own channel, whether it was encrypted, and whether it
  is a control message on a channel that is not the control channel; and no other bit.
  */
  lemma SentHeaders<E>(s: Sealing<E>, e: E, m: Message)
    ensures forall i :: 0 <= i < |Send(s, e, m).wires| ==> HasHeader(Send(s, e, m).wires[i], m, s.established(e))
    ensures forall i :: 0 <= i < |SendPlain(e, m).wires| ==> HasHeader(SendPlain(e, m).wires[i], m, false)
  {
    FrameHeaders(m, false, MessagePayload(m));
    if s.established(e) {
      var c := s.encrypt(e, MessagePayload(m));
      if c.Sealed? {
        FrameHeaders(m, true, c.bytes);
      }
    }
  }

  // ----- The size fields -----

  /** The number four bytes stand for, high byte first. */
  function ReadBe32(b: seq<Byte>): nat
    requires |b| == 4
  {
    (((b[0] as int) * 256 + b[1]) * 256 + b[2]) * 256 + b[3]
  }

  lemma Be32Value(n: nat)
    ensures ReadBe32(Be32(n)) == n % 0x1_0000_0000
  {
    var a, b, c := n / 0x100, n / 0x1_0000, n / 0x100_0000;
    assert b == a / 0x100 && c == b / 0x100;
    assert n % 0x1_0000_0000 == c % 0x100 * 0x100_0000 + n % 0x100_0000;
    assert n % 0x100_0000 == b % 0x100 * 0x1_0000 + n % 0x1_0000;
    assert n % 0x1_0000 == a % 0x100 * 0x100 + n % 0x100;
  }

  /** A frame is cut when it has more than 16384 bytes; all pieces but the last have 16384. */
  lemma PiecesAreFull(frame: OutboundFrame, i: nat)
    requires i < |Wires(frame)|
    ensures |Wires(frame)| == 1 <==> |frame.payload| <= 16384
    ensures 4 <= |Wires(frame)[i]|
    ensures ReadBe16(Wires(frame)[i][2], Wires(frame)[i][3])
      == if i < |Wires(frame)| - 1 then 16384 else |frame.payload| - 16384 * (|Wires(frame)| - 1)
  {
    if |frame.payload| <= 16384 {
      Be16Value(|frame.payload|);
    } else {
      Be16Value(|Piece(frame.payload, i)|);
    }
  }

  /** The first of several frames tells the size of the whole, in 32 bits. */
  lemma FirstTellsSize(frame: OutboundFrame)
    requires 16384 < |frame.payload|
    ensures 8 <= |Wires(frame)[0]|
    ensures ReadBe32(Wires(frame)[0][4..8]) == |frame.payload| % 0x1_0000_0000
  {
    var w := Wires(frame)[0];
    assert w == [frame.channel, WithFragInfo(frame.flags, FIRST)] + Be16(|Piece(frame.payload, 0)|)
      + Be32(|frame.payload|) + Piece(frame.payload, 0);
    assert w[4..8] == Be32(|frame.payload|);
    Be32Value(|frame.payload|);
  }

  // ----- The message in a buffer -----

  /** A finished buffer holds a message if and only if it is what the sender makes of that message. */
  lemma MessageInExactly(channel: Byte, buffer: seq<Byte>, m: Message)
    ensures MessageIn(channel, buffer) == Some(m) <==> m.channel == channel && buffer == MessagePayload(m)
  {
    Be16Value(m.messageType);
    assert MessagePayload(m)[..2] == Be16(m.messageType) && MessagePayload(m)[2..] == m.payload;
    if 2 <= |buffer| {
      var t := ReadBe16(buffer[0], buffer[1]);
      assert Be16(t) == buffer[..2];
      assert buffer == buffer[..2] + buffer[2..];
    }
  }
}
