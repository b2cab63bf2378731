/**
Protocol Buffers fields, written and read by hand: Base 128 varints of 64 bits, and the two wire types
the wireless handshake uses.

A Java `long` is the number of its 64 bits, an `int` is signed.
*/
module Varints {
  import opened Bytes

  const TWO31: int := 0x8000_0000
  const TWO32: int := 0x1_0000_0000
  const TWO64: int := 0x1_0000_0000_0000_0000

  type U64 = n: int | 0 <= n < TWO64

  type I32 = n: int | -TWO31 <= n < TWO31

  // ----- Java arithmetic -----

  /** Narrowing to `int`. */
  function Int32(n: int): I32 {
    (n + TWO31) % TWO32 - TWO31
  }

  lemma Int32Fits(n: I32)
    ensures Int32(n) == n
  {
  }

  /** Widening an `int` to `long`. */
  function Widen(n: I32): U64 {
    if n < 0 then n + TWO64 else n
  }

  function Pow2(n: nat): (p: nat)
    ensures 1 <= p
  {
    if n == 0 then 1 else 2 * Pow2(n - 1)
  }

  /** `(long) x << shift`: the distance counts modulo 64, and bits fall off at the top. */
  function ShiftLeft(x: nat, shift: nat): U64 {
    x * Pow2(shift % 64) % TWO64
  }

  /** `a | b` */
  function BitOr(a: nat, b: nat): nat {
    if a == 0 && b == 0 then 0
    else (if a % 2 == 1 || b % 2 == 1 then 1 else 0) + 2 * BitOr(a / 2, b / 2)
  }

  lemma {:induction false} OrZero(b: nat)
    ensures BitOr(0, b) == b
  {
    if b != 0 {
      OrZero(b / 2);
    }
  }

  lemma HalfOfDouble(b: nat, p: nat)
    ensures b * (2 * p) / 2 == b * p && b * (2 * p) % 2 == 0
  {
    assert b * (2 * p) == 2 * (b * p);
  }

  /** Or of bits that do not meet is a sum. */
  lemma {:induction false} OrIsSum(a: nat, b: nat, s: nat)
    requires a < Pow2(s)
    ensures BitOr(a, b * Pow2(s)) == a + b * Pow2(s)
    decreases s
  {
    if s == 0 {
      OrZero(b);
    } else {
      HalfOfDouble(b, Pow2(s - 1));
      OrIsSum(a / 2, b, s - 1);
    }
  }

  lemma {:induction false} Pow2Sum(a: nat, b: nat)
    ensures Pow2(a + b) == Pow2(a) * Pow2(b)
    decreases a
  {
    if a != 0 {
      Pow2Sum(a - 1, b);
      assert 2 * (Pow2(a - 1) * Pow2(b)) == (2 * Pow2(a - 1)) * Pow2(b);
    }
  }

  lemma Pow2Seven()
    ensures Pow2(7) == 128
  {
    assert Pow2(3) == 8;
    Pow2Sum(3, 4);
    assert Pow2(4) == 16;
  }

  lemma Pow2SixtyFour()
    ensures Pow2(64) == TWO64
  {
    assert Pow2(4) == 16;
    Pow2Sum(4, 4);
    Pow2Sum(8, 8);
    Pow2Sum(16, 16);
    Pow2Sum(32, 32);
  }

  // ----- Varints -----

  /** `writeVarInt`, as the bytes it appends. */
  function Varint(value: nat): (s: seq<Byte>)
    ensures 1 <= |s|
  {
    if 128 <= value then [value % 128 + 128] + Varint(value / 128) else [value]
  }

  datatype Cursor = Cursor(value: nat, offset: nat)

  /** `readVarint` from inside its loop. */
  function ReadOn(data: seq<Byte>, offset: nat, value: nat, shift: nat): (r: Cursor)
    requires offset <= |data|
    ensures offset <= r.offset <= |data|
    ensures offset < |data| ==> offset < r.offset
    decreases |data| - offset
  {
    if offset == |data| then
      Cursor(value, offset)
    else
      var b := data[offset];
      var more := BitOr(value, ShiftLeft(b % 128, shift));
      if b < 128 then Cursor(more, offset + 1) else ReadOn(data, offset + 1, more, shift + 7)
  }

  lemma {:induction false} VarintLength(value: nat, k: nat)
    requires value < Pow2(7 * k) && 0 < k
    ensures |Varint(value)| <= k
    decreases k
  {
    if 128 <= value {
      Pow2Sum(7, 7 * (k - 1));
      Pow2Seven();
      assert k != 1;
      VarintLength(value / 128, k - 1);
    }
  }

  /** A 64-bit value takes ten bytes at most. */
  lemma TenBytes(value: U64)
    ensures |Varint(value)| <= 10
  {
    Pow2SixtyFour();
    Pow2Sum(64, 6);
    VarintLength(value, 10);
  }

  lemma {:induction false} Pow2Monotone(a: nat, b: nat)
    ensures b <= a ==> Pow2(b) <= Pow2(a)
    decreases a
  {
    if b < a {
      Pow2Monotone(a - 1, b);
    }
  }

  lemma SplitProduct(v: nat, p: nat)
    ensures v % 128 * p + v / 128 * (128 * p) == v * p
    ensures v % 128 * p <= v * p
  {
    assert v == 128 * (v / 128) + v % 128;
    assert (128 * (v / 128) + v % 128) * p == 128 * (v / 128) * p + v % 128 * p;
    assert 128 * (v / 128) * p == v / 128 * (128 * p);
    assert v / 128 * (128 * p) >= 0;
  }

  lemma ShiftFits(bits: nat, s: nat)
    requires s < 64 && bits * Pow2(s) < TWO64
    ensures ShiftLeft(bits, s) == bits * Pow2(s)
  {
    assert s % 64 == s;
  }

  lemma SevenMore(k: nat)
    ensures Pow2(7 * (k + 1)) == 128 * Pow2(7 * k)
  {
    assert 7 * (k + 1) == 7 + 7 * k;
    Pow2Sum(7, 7 * k);
    Pow2Seven();
  }

  lemma RoomForBits(acc: nat, bits: nat, p: nat)
    requires acc < p && bits < 128
    ensures acc + bits * p < 128 * p
  {
    assert bits * p <= 127 * p;
  }

  /** Seven more bits go to their place, above the ones read so far. */
  lemma PlaceBits(acc: nat, bits: nat, k: nat)
    requires acc < Pow2(7 * k) && bits < 128 && 7 * k < 64
    requires bits * Pow2(7 * k) < TWO64
    ensures BitOr(acc, ShiftLeft(bits, 7 * k)) == acc + bits * Pow2(7 * k)
    ensures acc + bits * Pow2(7 * k) < Pow2(7 * (k + 1))
  {
    ShiftFits(bits, 7 * k);
    OrIsSum(acc, bits, 7 * k);
    SevenMore(k);
    RoomForBits(acc, bits, Pow2(7 * k));
  }

  lemma AtLeastOnce(rest: nat, p: nat)
    requires 0 < rest
    ensures p <= rest * p
  {
    assert rest * p == p + (rest - 1) * p;
  }

  lemma NextFits(rest: nat, k: nat)
    requires 0 < rest && rest * Pow2(7 * (k + 1)) < TWO64
    ensures 7 * (k + 1) < 64
  {
    AtLeastOnce(rest, Pow2(7 * (k + 1)));
    Pow2SixtyFour();
    Pow2Monotone(7 * (k + 1), 64);
  }

  lemma VarintBytes(data: seq<Byte>, offset: nat, value: nat)
    requires offset <= |data| && Varint(value) <= data[offset..]
    ensures offset < |data|
    ensures data[offset] == if 128 <= value then value % 128 + 128 else value
    ensures data[offset] % 128 == value % 128
    ensures 128 <= value ==> Varint(value / 128) <= data[offset + 1..]
  {
    assert data[offset] == Varint(value)[0];
    if 128 <= value {
      assert Varint(value)[1..] == Varint(value / 128);
      assert data[offset..][1..] == data[offset + 1..];
    }
  }

  /** The loop of `readVarint` over one byte, when the or is known. */
  lemma ReadByte(data: seq<Byte>, offset: nat, acc: nat, shift: nat, more: nat)
    requires offset < |data| && BitOr(acc, ShiftLeft(data[offset] % 128, shift)) == more
    ensures ReadOn(data, offset, acc, shift)
      == if data[offset] < 128 then Cursor(more, offset + 1) else ReadOn(data, offset + 1, more, shift + 7)
  {
  }

  /** What is left of the value takes its place seven bits higher. */
  lemma NextProducts(value: nat, k: nat)
    requires value * Pow2(7 * k) < TWO64 && 128 <= value
    ensures value % 128 * Pow2(7 * k) < TWO64
    ensures value / 128 * Pow2(7 * (k + 1)) < TWO64
    ensures value % 128 * Pow2(7 * k) + value / 128 * Pow2(7 * (k + 1)) == value * Pow2(7 * k)
    ensures 7 * (k + 1) < 64
  {
    SplitProduct(value, Pow2(7 * k));
    SevenMore(k);
    NextFits(value / 128, k);
  }

  lemma {:induction false} ReadWritten(data: seq<Byte>, offset: nat, value: nat, acc: nat, k: nat)
    requires offset <= |data| && Varint(value) <= data[offset..]
    requires acc < Pow2(7 * k) && value * Pow2(7 * k) < TWO64 && 7 * k < 64
    ensures ReadOn(data, offset, acc, 7 * k)
      == Cursor(acc + value * Pow2(7 * k), offset + |Varint(value)|)
    decreases value
  {
    VarintBytes(data, offset, value);
    if 128 <= value {
      NextProducts(value, k);
      PlaceBits(acc, value % 128, k);
      var acc' := acc + value % 128 * Pow2(7 * k);
      ReadByte(data, offset, acc, 7 * k, acc');
      ReadWritten(data, offset + 1, value / 128, acc', k + 1);
    } else {
      assert data[offset] % 128 == value;
      PlaceBits(acc, value, k);
      ReadByte(data, offset, acc, 7 * k, acc + value * Pow2(7 * k));
    }
  }

  /** `readVarint` undoes `writeVarInt` for every 64-bit value, wherever it stands. */
  lemma VarintRoundTrip(data: seq<Byte>, offset: nat, value: U64)
    requires offset <= |data| && Varint(value) <= data[offset..]
    ensures ReadOn(data, offset, 0, 0) == Cursor(value, offset + |Varint(value)|)
  {
    assert value * Pow2(0) == value;
    ReadWritten(data, offset, value, 0, 0);
  }

  method WriteVarInt(buf: seq<Byte>, value: U64) returns (written: seq<Byte>)
    ensures written == buf + Varint(value)
  {
    written := buf;
    var rest: int := value;
    while 128 <= rest
      invariant 0 <= rest
      invariant written + Varint(rest) == buf + Varint(value)
    {
      ConcatAssociates(written, [rest % 128 + 128], Varint(rest / 128));
      written := written + [rest % 128 + 128];
      rest := rest / 128;
    }
    written := written + [rest];
  }

  method ReadVarint(data: seq<Byte>, start: nat) returns (r: Cursor)
    requires start <= |data|
    ensures r == ReadOn(data, start, 0, 0)
  {
    var value: nat, shift: nat, offset := 0, 0, start;
    while offset < |data|
      invariant start <= offset <= |data|
      invariant ReadOn(data, start, 0, 0) == ReadOn(data, offset, value, shift)
    {
      var b := data[offset];
      offset := offset + 1;
      value := BitOr(value, ShiftLeft(b % 128, shift));
      if b < 128 {
        break;
      }
      shift := shift + 7;
    }
    r := Cursor(value, offset);
  }

  // ----- Fields -----

  datatype Field = TextField(number: I32, text: seq<Byte>) | IntField(number: I32, value: U64)

  /** `(fieldNum << 3) | wireType`, an `int`, widened to `long`. */
  function Tag(number: I32, wireType: nat): U64
    requires wireType < 8
  {
    Widen(TagInt(number, wireType))
  }

  /** The shift leaves three zero bits, so the wire type is simply added. */
  function TagInt(number: I32, wireType: nat): (t: I32)
    requires wireType < 8
    ensures (t - wireType) % 8 == 0 && (t - number * 8 - wireType) % TWO32 == 0
  {
    Int32(number * 8) + wireType
  }

  /** `(int) (tag >>> 3)` */
  function FieldNumber(tag: U64): I32 {
    Int32(tag / 8)
  }

  /** A field number survives the tag if and only if it has 29 bits. */
  lemma FieldNumberSurvives(number: I32, wireType: nat)
    requires wireType < 8
    ensures Tag(number, wireType) % 8 == wireType
    ensures FieldNumber(Tag(number, wireType)) == number <==> -0x1000_0000 <= number < 0x1000_0000
  {
    var t := TagInt(number, wireType);
    var q := (t - wireType) / 8;
    assert t == 8 * q + wireType;
    assert -0x1000_0000 <= q < 0x1000_0000;
    assert Tag(number, wireType) / 8 == if t < 0 then q + TWO64 / 8 else q;
    assert Tag(number, wireType) % 8 == wireType;
    assert FieldNumber(Tag(number, wireType)) == q;
  }

  function FieldBytes(f: Field): seq<Byte> {
    match f
    case TextField(number, text) => Varint(Tag(number, 2)) + Varint(|text|) + text
    case IntField(number, value) => Varint(Tag(number, 0)) + Varint(value)
  }

  function FieldsBytes(fs: seq<Field>): seq<Byte> {
    if fs == [] then [] else FieldBytes(fs[0]) + FieldsBytes(fs[1..])
  }

  method WriteProtoString(buf: seq<Byte>, number: I32, text: seq<Byte>) returns (written: seq<Byte>)
    requires |text| < TWO31
    ensures written == buf + FieldBytes(TextField(number, text))
  {
    written := WriteVarInt(buf, Tag(number, 2));
    written := WriteVarInt(written, |text|);
    written := written + text;
    ConcatAssociates(buf, Varint(Tag(number, 2)), Varint(|text|));
    ConcatAssociates(buf, Varint(Tag(number, 2)) + Varint(|text|), text);
  }

  method WriteProtoVarint(buf: seq<Byte>, number: I32, value: U64) returns (written: seq<Byte>)
    ensures written == buf + FieldBytes(IntField(number, value))
  {
    written := WriteVarInt(buf, Tag(number, 0));
    written := WriteVarInt(written, value);
    ConcatAssociates(buf, Varint(Tag(number, 0)), Varint(value));
  }

  /** How `parseProtoVarint` ends; `Unfinished` when the given number of rounds was not enough. */
  datatype Outcome = Value(value: nat) | OutOfBounds | Unfinished

  /** One round of the loop: a result, or the next offset. */
  datatype Round = Done(outcome: Outcome) | Continue(offset: I32)

  function ParseRound(data: seq<Byte>, offset: I32, wanted: I32): Round
    requires |data| < TWO31
  {
    if |data| <= offset then Done(Value(0))
    else if offset < 0 then Done(OutOfBounds)
    else
      var tag := ReadOn(data, offset, 0, 0);
      var n := Int32(tag.value / 8);
      if tag.value % 8 == 0 then
        var v := ReadOn(data, tag.offset, 0, 0);
        if n == wanted then Done(Value(v.value)) else Continue(v.offset)
      else if tag.value % 8 == 2 then
        var len := ReadOn(data, tag.offset, 0, 0);
        Continue(Int32(len.offset + Int32(len.value)))
      else
        Done(Value(0))
  }

  /** A loop of at most `rounds` rounds. */
  function Loop(round: I32 -> Round, offset: I32, rounds: nat): Outcome
    decreases rounds
  {
    if rounds == 0 then Unfinished
    else
      match round(offset)
      case Done(outcome) => outcome
      case Continue(next) => Loop(round, next, rounds - 1)
  }

  function RoundOf(data: seq<Byte>, wanted: I32): I32 -> Round
    requires |data| < TWO31
  {
    (o: I32) => ParseRound(data, o, wanted)
  }

  function ParseFrom(data: seq<Byte>, offset: I32, wanted: I32, rounds: nat): Outcome
    requires |data| < TWO31
  {
    Loop(RoundOf(data, wanted), offset, rounds)
  }

  method ParseProtoVarint(data: seq<Byte>, wanted: I32, rounds: nat) returns (outcome: Outcome)
    requires |data| < TWO31
    ensures outcome == ParseFrom(data, 0, wanted, rounds)
  {
    var i: I32 := 0;
    var left := rounds;
    ghost var round := RoundOf(data, wanted);
    while 0 < left
      invariant Loop(round, 0, rounds) == Loop(round, i, left)
    {
      if i >= |data| {
        return Value(0);
      }
      if i < 0 {
        return OutOfBounds;
      }
      var tag := ReadVarint(data, i);
      if tag.value % 8 == 0 {
        var val := ReadVarint(data, tag.offset);
        if Int32(tag.value / 8) == wanted {
          return Value(val.value);
        }
        i := val.offset;
      } else if tag.value % 8 == 2 {
        var len := ReadVarint(data, tag.offset);
        i := Int32(len.offset + Int32(len.value));
      } else {
        return Value(0);
      }
      left := left - 1;
    }
    outcome := Unfinished;
  }

  /** What the reader takes from one field, looking for field `wanted`. */
  function Hit(f: Field, wanted: I32): Option<nat> {
    if f.IntField? && FieldNumber(Tag(f.number, 0)) == wanted then Some(f.value) else None
  }

  function FirstHit(hits: seq<Option<nat>>): nat {
    if hits == [] then 0
    else match hits[0] case Some(v) => v case None => FirstHit(hits[1..])
  }

  function Hits(fs: seq<Field>, wanted: I32): seq<Option<nat>> {
    seq(|fs|, i requires 0 <= i < |fs| => Hit(fs[i], wanted))
  }

  /** A round over a tag whose bytes read as `tag`, and a number behind it. */
  lemma RoundOver(data: seq<Byte>, offset: nat, tag: U64, second: U64, wanted: I32)
    requires |data| < TWO31 && offset <= |data|
    requires Varint(tag) <= data[offset..]
    requires offset + |Varint(tag)| <= |data| && Varint(second) <= data[offset + |Varint(tag)|..]
    ensures offset < |data|
    ensures var end := offset + |Varint(tag)| + |Varint(second)|;
      && end <= |data|
      && var round := ParseRound(data, offset, wanted);
      && (tag % 8 == 0 ==> round == if FieldNumber(tag) == wanted then Done(Value(second)) else Continue(end))
      && (tag % 8 == 2 ==> round == Continue(Int32(end + Int32(second))))
  {
    VarintRoundTrip(data, offset, tag);
    VarintRoundTrip(data, offset + |Varint(tag)|, second);
  }

  lemma PrefixParts(a: seq<Byte>, b: seq<Byte>, c: seq<Byte>, data: seq<Byte>, offset: nat)
    requires offset <= |data| && a + b + c <= data[offset..]
    ensures a <= data[offset..]
    ensures offset + |a| <= |data| && b <= data[offset + |a|..]
    ensures offset + |a| + |b| + |c| <= |data|
  {
    assert data[offset..][|a|..] == data[offset + |a|..];
    assert (a + b + c)[|a|..] == b + c;
  }

  /** Reading over one written varint field: its value if it is the wanted one. */
  lemma RoundOverInt(data: seq<Byte>, offset: nat, number: I32, value: U64, wanted: I32)
    requires |data| < TWO31 && offset <= |data| && FieldBytes(IntField(number, value)) <= data[offset..]
    ensures offset < |data|
    ensures ParseRound(data, offset, wanted) ==
      if FieldNumber(Tag(number, 0)) == wanted then Done(Value(value))
      else Continue(offset + |FieldBytes(IntField(number, value))|)
  {
    var tag := Tag(number, 0);
    assert FieldBytes(IntField(number, value)) == Varint(tag) + Varint(value) + [];
    PrefixParts(Varint(tag), Varint(value), [], data, offset);
    FieldNumberSurvives(number, 0);
    RoundOver(data, offset, tag, value, wanted);
  }

  /** Reading over one written text field: it is skipped. */
  lemma RoundOverText(data: seq<Byte>, offset: nat, number: I32, text: seq<Byte>, wanted: I32)
    requires |data| < TWO31 && offset <= |data| && FieldBytes(TextField(number, text)) <= data[offset..]
    ensures offset < |data|
    ensures ParseRound(data, offset, wanted) == Continue(offset + |FieldBytes(TextField(number, text))|)
  {
    var tag := Tag(number, 2);
    PrefixParts(Varint(tag), Varint(|text|), text, data, offset);
    FieldNumberSurvives(number, 2);
    RoundOver(data, offset, tag, |text|, wanted);
    var end := offset + |Varint(tag)| + |Varint(|text|)|;
    Int32Fits(|text|);
    Int32Fits(end + |text|);
  }

  /** What a round at `offset` comes to: a hit, or the next offset. */
  function Verdict(hit: Option<nat>, next: I32): Round {
    match hit case Some(v) => Done(Value(v)) case None => Continue(next)
  }

  lemma RoundOverField(data: seq<Byte>, offset: nat, f: Field, wanted: I32)
    requires |data| < TWO31 && offset <= |data| && FieldBytes(f) <= data[offset..]
    ensures ParseRound(data, offset, wanted) == Verdict(Hit(f, wanted), offset + |FieldBytes(f)|)
  {
    match f
    case TextField(number, text) => RoundOverText(data, offset, number, text, wanted);
    case IntField(number, value) => RoundOverInt(data, offset, number, value, wanted);
  }

  /** A loop whose rounds walk along `offsets` finds the first hit. */
  lemma {:induction false} LoopFindsFirst(
    round: I32 -> Round, offsets: seq<I32>, hits: seq<Option<nat>>, i: nat, rounds: nat)
    requires |offsets| == |hits| + 1 && i <= |hits| && |hits| - i < rounds
    requires forall k :: 0 <= k < |hits| ==> round(offsets[k]) == Verdict(hits[k], offsets[k + 1])
    requires round(offsets[|hits|]) == Done(Value(0))
    ensures Loop(round, offsets[i], rounds) == Value(FirstHit(hits[i..]))
    decreases |hits| - i
  {
    if i < |hits| {
      assert hits[i..][1..] == hits[i + 1..];
      assert round(offsets[i]) == Verdict(hits[i], offsets[i + 1]);
      if hits[i].None? {
        LoopFindsFirst(round, offsets, hits, i + 1, rounds - 1);
      }
    }
  }

  /** Where each field starts, and where the last one ends. */
  lemma {:induction false} FieldOffsets(data: seq<Byte>, offset: nat, fs: seq<Field>, wanted: I32)
    returns (offsets: seq<I32>)
    requires |data| < TWO31 && offset <= |data| && data[offset..] == FieldsBytes(fs)
    ensures |offsets| == |fs| + 1 && offsets[0] == offset && offsets[|fs|] == |data|
    ensures forall k :: 0 <= k < |fs| ==>
      RoundOf(data, wanted)(offsets[k]) == Verdict(Hit(fs[k], wanted), offsets[k + 1])
    decreases |fs|
  {
    if fs == [] {
      offsets := [offset];
    } else {
      NextField(data, offset, fs);
      RoundOverField(data, offset, fs[0], wanted);
      var tail := FieldOffsets(data, offset + |FieldBytes(fs[0])|, fs[1..], wanted);
      offsets := [offset] + tail;
    }
  }

  lemma NextField(data: seq<Byte>, offset: nat, fs: seq<Field>)
    requires offset <= |data| && data[offset..] == FieldsBytes(fs) && fs != []
    ensures FieldBytes(fs[0]) <= data[offset..]
    ensures offset + |FieldBytes(fs[0])| <= |data|
    ensures data[offset + |FieldBytes(fs[0])|..] == FieldsBytes(fs[1..])
  {
    SplitBehind(data, offset, FieldBytes(fs[0]), FieldsBytes(fs[1..]));
  }

  lemma SplitBehind(data: seq<Byte>, offset: nat, a: seq<Byte>, b: seq<Byte>)
    requires offset <= |data| && data[offset..] == a + b
    ensures a <= data[offset..] && offset + |a| <= |data| && data[offset + |a|..] == b
  {
    assert data[offset + |a|..] == data[offset..][|a|..];
  }

  /** On any written fields the parser finds the first varint of the wanted number, or 0, in a round a field. */
  lemma ParseFindsFirst(fs: seq<Field>, wanted: I32, rounds: nat)
    requires |FieldsBytes(fs)| < TWO31 && |fs| < rounds
    ensures ParseFrom(FieldsBytes(fs), 0, wanted, rounds) == Value(FirstHit(Hits(fs, wanted)))
  {
    var data := FieldsBytes(fs);
    assert data[0..] == data;
    var offsets := FieldOffsets(data, 0, fs, wanted);
    LoopFindsFirst(RoundOf(data, wanted), offsets, Hits(fs, wanted), 0, rounds);
    assert Hits(fs, wanted)[0..] == Hits(fs, wanted);
  }

  /** With field numbers of 29 bits a hit is a varint field with the number written. */
  lemma HitIsByNumber(f: Field, wanted: I32)
    requires -0x1000_0000 <= f.number < 0x1000_0000
    ensures Hit(f, wanted) == if f.IntField? && f.number == wanted then Some(f.value) else None
  {
    FieldNumberSurvives(f.number, 0);
  }

  /** Then the result is the value of the first such field, or 0 when there is none. */
  lemma {:induction false} FirstHitIsFirst(fs: seq<Field>, wanted: I32, i: nat)
    requires forall f :: f in fs ==> -0x1000_0000 <= f.number < 0x1000_0000
    requires i <= |fs| && (i < |fs| ==> fs[i].IntField? && fs[i].number == wanted)
    requires forall j :: 0 <= j < i && fs[j].IntField? ==> fs[j].number != wanted
    ensures FirstHit(Hits(fs, wanted)) == if i < |fs| then fs[i].value else 0
    decreases i
  {
    if fs != [] {
      assert fs[0] in fs;
      HitIsByNumber(fs[0], wanted);
      assert Hits(fs, wanted)[1..] == Hits(fs[1..], wanted);
      if 0 < i {
        FirstHitIsFirst(fs[1..], wanted, i - 1);
      }
    }
  }
}
