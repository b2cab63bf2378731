/** Messages over a Bluetooth serial stream: a length, an id, a payload, read in whatever pieces come. */
module Rfcomm {
  import opened Bytes

  datatype Packet = Packet(id: U16, payload: seq<Byte>)

  /** What `sendMessage` writes; the length keeps its low 16 bits. */
  function PacketBytes(p: Packet): (s: seq<Byte>)
    ensures |s| == 4 + |p.payload|
  {
    Be16(|p.payload|) + Be16(p.id) + p.payload
  }

  datatype Decoded = Decoded(packet: Packet, rest: seq<Byte>)

  /** What `readMessage` makes of the bytes to come, if they are enough. */
  function Decode(stream: seq<Byte>): Option<Decoded> {
    if |stream| < 4 then None
    else
      var len := ReadBe16(stream[0], stream[1]);
      if |stream| < 4 + len then None
      else Some(Decoded(Packet(ReadBe16(stream[2], stream[3]), stream[4..4 + len]), stream[4 + len..]))
  }

  /** A packet is read back, with the stream behind it untouched, if and only if its length fits in 16 bits. */
  lemma PacketRoundTrip(p: Packet, rest: seq<Byte>)
    ensures Decode(PacketBytes(p) + rest) == Some(Decoded(p, rest)) <==> |p.payload| <= 0xFFFF
  {
    var stream := PacketBytes(p) + rest;
    assert stream[..2] == Be16(|p.payload|) && stream[2..4] == Be16(p.id);
    Be16Value(p.id);
    assert stream[0] == Be16(|p.payload|)[0] && stream[1] == Be16(|p.payload|)[1];
    assert stream[2] == Be16(p.id)[0] && stream[3] == Be16(p.id)[1];
    if |p.payload| <= 0xFFFF {
      Be16Value(|p.payload|);
      assert stream[4..4 + |p.payload|] == p.payload;
      assert stream[4 + |p.payload|..] == rest;
    }
  }

  /** What is read is what was written, exactly: a stream decodes to a packet if and only if it starts with its bytes. */
  lemma DecodeExactly(stream: seq<Byte>, d: Decoded)
    ensures Decode(stream) == Some(d) <==>
      stream == PacketBytes(d.packet) + d.rest && |d.packet.payload| <= 0xFFFF
  {
    PacketRoundTrip(d.packet, d.rest);
    if Decode(stream) == Some(d) {
      var len := ReadBe16(stream[0], stream[1]);
      assert Be16(len) == stream[..2] && Be16(d.packet.id) == stream[2..4];
      assert stream == stream[..2] + stream[2..4] + stream[4..4 + len] + stream[4 + len..];
    }
  }

  function PacketsBytes(ps: seq<Packet>): seq<Byte> {
    if ps == [] then [] else PacketBytes(ps[0]) + PacketsBytes(ps[1..])
  }

  /** Reading `n` packets one after the other. */
  function DecodeMany(stream: seq<Byte>, n: nat): Option<(seq<Packet>, seq<Byte>)> {
    if n == 0 then Some(([], stream))
    else
      match Decode(stream)
      case None => None
      case Some(d) =>
        match DecodeMany(d.rest, n - 1)
        case None => None
        case Some(more) => Some(([d.packet] + more.0, more.1))
  }

  lemma DecodeFirst(p: Packet, tail: seq<Byte>, more: seq<Packet>, rest: seq<Byte>)
    requires |p.payload| <= 0xFFFF && DecodeMany(tail, |more|) == Some((more, rest))
    ensures DecodeMany(PacketBytes(p) + tail, |more| + 1) == Some(([p] + more, rest))
  {
    PacketRoundTrip(p, tail);
  }

  /** Any list of packets is read back in order. */
  lemma {:induction false} PacketsRoundTrip(ps: seq<Packet>, rest: seq<Byte>)
    requires forall p :: p in ps ==> |p.payload| <= 0xFFFF
    ensures DecodeMany(PacketsBytes(ps) + rest, |ps|) == Some((ps, rest))
    decreases |ps|
  {
    if ps == [] {
      assert PacketsBytes(ps) + rest == rest;
    } else {
      assert ps[0] in ps;
      PacketsRoundTrip(ps[1..], rest);
      DecodeFirst(ps[0], PacketsBytes(ps[1..]) + rest, ps[1..], rest);
      ConcatAssociates(PacketBytes(ps[0]), PacketsBytes(ps[1..]), rest);
      assert ps == [ps[0]] + ps[1..];
    }
  }

  /** A stream that hands out its bytes in pieces of its own choice, and -1 at its end. */
  class InputStream {
    var coming: seq<Byte>

    constructor (bytes: seq<Byte>)
      ensures coming == bytes
    {
      coming := bytes;
    }

    /** At least one byte, at most `n`, or nothing at the end of the stream. */
    method Read(n: nat) returns (piece: Option<seq<Byte>>)
      requires 0 < n
      modifies this
      ensures old(coming) == [] ==> piece == None && coming == []
      ensures old(coming) != [] ==> piece.Some? && 1 <= |piece.value| <= n && piece.value + coming == old(coming)
    {
      if coming == [] {
        return None;
      }
      var k :| 1 <= k <= n && k <= |coming|;
      piece := Some(coming[..k]);
      coming := coming[k..];
    }
  }

  class OutputStream {
    var written: seq<Byte>

    constructor ()
      ensures written == []
    {
      written := [];
    }

    method Write(bytes: seq<Byte>)
      modifies this
      ensures written == old(written) + bytes
    {
      written := written + bytes;
    }
  }

  method SendMessage(out: OutputStream, id: U16, payload: seq<Byte>)
    modifies out
    ensures out.written == old(out.written) + PacketBytes(Packet(id, payload))
  {
    var len := |payload|;
    var header := [len / 0x100 % 0x100, len % 0x100, id / 0x100 % 0x100, id % 0x100];
    out.Write(header);
    if len > 0 {
      out.Write(payload);
    }
    assert header + payload == PacketBytes(Packet(id, payload));
  }

  /** `n` bytes, however many reads they take; nothing when the stream ends before. */
  method ReadExact(stream: InputStream, n: nat) returns (bytes: Option<seq<Byte>>)
    modifies stream
    ensures n <= |old(stream.coming)| ==>
      bytes == Some(old(stream.coming)[..n]) && stream.coming == old(stream.coming)[n..]
    ensures |old(stream.coming)| < n ==> bytes == None && stream.coming == []
  {
    var buf: seq<Byte> := [];
    while |buf| < n
      invariant |buf| <= n
      invariant buf + stream.coming == old(stream.coming)
    {
      var piece := stream.Read(n - |buf|);
      if piece.None? {
        return None;
      }
      ConcatAssociates(buf, piece.value, stream.coming);
      buf := buf + piece.value;
    }
    assert old(stream.coming)[..n] == buf && old(stream.coming)[n..] == stream.coming;
    bytes := Some(buf);
  }

  method ReadMessage(stream: InputStream) returns (packet: Option<Packet>)
    modifies stream
    ensures match Decode(old(stream.coming))
      case Some(d) => packet == Some(d.packet) && stream.coming == d.rest
      case None => packet == None && stream.coming == []
  {
    var header := ReadExact(stream, 4);
    if header.None? {
      return None;
    }
    var len := ReadBe16(header.value[0], header.value[1]);
    var id := ReadBe16(header.value[2], header.value[3]);
    ghost var behind := stream.coming;
    assert behind == old(stream.coming)[4..];
    var payload := ReadExact(stream, len);
    if payload.None? {
      return None;
    }
    assert behind[..len] == old(stream.coming)[4..4 + len];
    assert behind[len..] == old(stream.coming)[4 + len..];
    packet := Some(Packet(id, payload.value));
  }
}
