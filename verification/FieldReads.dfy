/** The field codec beyond its round trip: text fields, cut varints, unknown fields, bytes behind the fields. */
module FieldReads {
  import opened Bytes
  import opened Varints

  /** Seven bits a byte, and no byte more than needed. */
  lemma {:induction false} VarintLengthExactly(value: nat, k: nat)
    requires 0 < k
    ensures |Varint(value)| == k <==> value < Pow2(7 * k) && (k == 1 || Pow2(7 * (k - 1)) <= value)
    decreases k
  {
    Pow2Seven();
    assert Pow2(0) == 1;
    SevenMore(k - 1);
    if 128 <= value && k != 1 {
      SevenMore(k - 2);
      VarintLengthExactly(value / 128, k - 1);
    } else if value < 128 {
      Pow2Monotone(7 * k, 7);
      if k != 1 {
        Pow2Monotone(7 * (k - 1), 7);
      }
    }
  }

  // ----- A varint that is cut off -----

  /** The low seven bits of each of the first `n` digits. */
  function Low(value: nat, n: nat): nat {
    if n == 0 then 0 else value % 128 + 128 * Low(value / 128, n - 1)
  }

  lemma SplitAgain(value: nat, high: nat, low: nat, p: nat)
    requires value / 128 == high * p + low && low < p
    ensures value == high * (128 * p) + (value % 128 + 128 * low)
    ensures value % 128 + 128 * low < 128 * p
  {
    assert 128 * (high * p) == high * (128 * p);
  }

  /** That is the value modulo a power of two. */
  lemma {:induction false} LowIsRemainder(value: nat, n: nat) returns (high: nat)
    ensures value == high * Pow2(7 * n) + Low(value, n) && Low(value, n) < Pow2(7 * n)
    decreases n
  {
    if n == 0 {
      high := value;
      assert Pow2(7 * n) == 1;
    } else {
      high := LowIsRemainder(value / 128, n - 1);
      SevenMore(n - 1);
      SplitAgain(value, high, Low(value / 128, n - 1), Pow2(7 * (n - 1)));
    }
  }

  /** A number put `k` digits higher. */
  function Shifted(x: nat, k: nat): nat {
    x * Pow2(7 * k)
  }

  lemma ShiftedSum(digit: nat, low: nat, k: nat)
    ensures Shifted(digit + 128 * low, k) == Shifted(digit, k) + Shifted(low, k + 1)
  {
    SevenMore(k);
    var p := Pow2(7 * k);
    assert (digit + 128 * low) * p == digit * p + 128 * low * p;
    assert 128 * low * p == low * (128 * p);
  }

  lemma CutBytes(data: seq<Byte>, offset: nat, value: nat, n: nat)
    requires 0 < n < |Varint(value)| && offset <= |data| && data[offset..] == Varint(value)[..n]
    ensures 128 <= value && offset < |data| && data[offset] == value % 128 + 128
    ensures n - 1 < |Varint(value / 128)| && data[offset + 1..] == Varint(value / 128)[..n - 1]
  {
    assert data[offset] == data[offset..][0] == Varint(value)[0];
    assert data[offset + 1..] == data[offset..][1..];
    assert Varint(value)[1..] == Varint(value / 128);
    assert Varint(value)[..n][1..] == Varint(value)[1..][..n - 1];
  }

  /** One more digit is read. */
  lemma ReadDigit(data: seq<Byte>, offset: nat, value: nat, acc: nat, k: nat)
    requires offset < |data| && 128 <= value && data[offset] == value % 128 + 128
    requires acc < Pow2(7 * k) && Shifted(value, k) < TWO64 && 7 * k < 64
    ensures var acc' := acc + Shifted(value % 128, k);
      && ReadOn(data, offset, acc, 7 * k) == ReadOn(data, offset + 1, acc', 7 * (k + 1))
      && acc' < Pow2(7 * (k + 1))
    ensures Shifted(value / 128, k + 1) < TWO64 && 7 * (k + 1) < 64
  {
    NextProducts(value, k);
    assert data[offset] % 128 == value % 128;
    PlaceBits(acc, value % 128, k);
    ReadByte(data, offset, acc, 7 * k, acc + value % 128 * Pow2(7 * k));
  }

  lemma {:induction false} ReadCut(data: seq<Byte>, offset: nat, value: nat, acc: nat, k: nat, n: nat)
    requires offset <= |data| && n < |Varint(value)| && data[offset..] == Varint(value)[..n]
    requires acc < Pow2(7 * k) && Shifted(value, k) < TWO64 && 7 * k < 64
    ensures ReadOn(data, offset, acc, 7 * k) == Cursor(acc + Shifted(Low(value, n), k), |data|)
    decreases n
  {
    if n != 0 {
      CutBytes(data, offset, value, n);
      ReadDigit(data, offset, value, acc, k);
      ReadCut(data, offset + 1, value / 128, acc + Shifted(value % 128, k), k + 1, n - 1);
      ShiftedSum(value % 128, Low(value / 128, n - 1), k);
    }
  }

  /** A varint cut off after `n` bytes, at the end of the data, reads as the bits that are there. */
  lemma CutVarintReads(data: seq<Byte>, offset: nat, value: U64, n: nat) returns (high: nat)
    requires offset <= |data| && n < |Varint(value)| && data[offset..] == Varint(value)[..n]
    ensures ReadOn(data, offset, 0, 0).offset == |data|
    ensures ReadOn(data, offset, 0, 0).value < Pow2(7 * n)
    ensures value == high * Pow2(7 * n) + ReadOn(data, offset, 0, 0).value
  {
    assert Pow2(0) == 1;
    ReadCut(data, offset, value, 0, 0, n);
    high := LowIsRemainder(value, n);
  }

  // ----- What a written field consists of -----

  /** A tag stands at the offset, with this field number, if that has 29 bits, and this wire type. */
  predicate TagAt(data: seq<Byte>, offset: nat, number: I32, wireType: nat, next: nat) {
    && offset <= |data|
    && var tag := ReadOn(data, offset, 0, 0);
    && tag.offset == next
    && tag.value % 8 == wireType
    && tag.value < TWO64
    && (-0x1000_0000 <= number < 0x1000_0000 ==> FieldNumber(tag.value) == number)
  }

  /** A number stands there. */
  predicate NumberAt(data: seq<Byte>, offset: nat, value: nat, next: nat) {
    offset <= |data| && ReadOn(data, offset, 0, 0) == Cursor(value, next)
  }

  predicate TextAt(data: seq<Byte>, offset: nat, text: seq<Byte>, next: nat) {
    offset <= next <= |data| && data[offset..next] == text
  }

  lemma TagReads(data: seq<Byte>, offset: nat, number: I32, wireType: nat)
    requires wireType < 8 && offset <= |data| && Varint(Tag(number, wireType)) <= data[offset..]
    ensures TagAt(data, offset, number, wireType, offset + |Varint(Tag(number, wireType))|)
  {
    FieldNumberSurvives(number, wireType);
    VarintRoundTrip(data, offset, Tag(number, wireType));
  }

  lemma TextStands(data: seq<Byte>, offset: nat, a: seq<Byte>, b: seq<Byte>, c: seq<Byte>)
    requires offset <= |data| && a + b + c <= data[offset..]
    ensures TextAt(data, offset + |a| + |b|, c, offset + |a| + |b| + |c|)
  {
    var n := |a| + |b|;
    assert data[offset + n..offset + n + |c|] == data[offset..][n..n + |c|];
    assert (a + b + c)[n..] == c;
  }

  /** A text field is its tag, its length and its text, as an independent reader finds them. */
  lemma TextReadsBack(data: seq<Byte>, offset: nat, number: I32, text: seq<Byte>) returns (p: nat, q: nat)
    requires |text| < TWO31 && offset <= |data| && FieldBytes(TextField(number, text)) <= data[offset..]
    ensures TagAt(data, offset, number, 2, p) && NumberAt(data, p, |text|, q)
    ensures TextAt(data, q, text, offset + |FieldBytes(TextField(number, text))|)
  {
    var tag, len := Varint(Tag(number, 2)), Varint(|text|);
    p, q := offset + |tag|, offset + |tag| + |len|;
    PrefixParts(tag, len, text, data, offset);
    TagReads(data, offset, number, 2);
    VarintRoundTrip(data, p, |text|);
    TextStands(data, offset, tag, len, text);
  }

  /** A varint field is its tag and its value. */
  lemma IntReadsBack(data: seq<Byte>, offset: nat, number: I32, value: U64) returns (p: nat)
    requires offset <= |data| && FieldBytes(IntField(number, value)) <= data[offset..]
    ensures TagAt(data, offset, number, 0, p)
    ensures NumberAt(data, p, value, offset + |FieldBytes(IntField(number, value))|)
  {
    var tag, v := Varint(Tag(number, 0)), Varint(value);
    p := offset + |tag|;
    assert FieldBytes(IntField(number, value)) == tag + v + [];
    PrefixParts(tag, v, [], data, offset);
    TagReads(data, offset, number, 0);
    VarintRoundTrip(data, p, value);
  }

  // ----- Bytes behind the fields -----

  ghost predicate AnyHit(hits: seq<Option<nat>>) {
    exists k :: 0 <= k < |hits| && hits[k].Some?
  }

  /** A loop whose rounds walk along `offsets` takes the first hit, or goes on behind them. */
  lemma {:induction false} LoopThrough(
    round: I32 -> Round, offsets: seq<I32>, hits: seq<Option<nat>>, i: nat, rounds: nat)
    requires |offsets| == |hits| + 1 && i <= |hits| && |hits| - i < rounds
    requires forall k :: 0 <= k < |hits| ==> round(offsets[k]) == Verdict(hits[k], offsets[k + 1])
    ensures Loop(round, offsets[i], rounds) ==
      if AnyHit(hits[i..]) then Value(FirstHit(hits[i..])) else Loop(round, offsets[|hits|], rounds - (|hits| - i))
    decreases |hits| - i
  {
    if i < |hits| {
      var rest := hits[i..];
      assert rest[0] == hits[i] && rest[1..] == hits[i + 1..];
      assert round(offsets[i]) == Verdict(hits[i], offsets[i + 1]);
      if hits[i].None? {
        AnyLater(rest);
        LoopThrough(round, offsets, hits, i + 1, rounds - 1);
      }
    }
  }

  lemma AnyLater(hits: seq<Option<nat>>)
    requires hits != [] && hits[0].None?
    ensures AnyHit(hits) <==> AnyHit(hits[1..])
    ensures FirstHit(hits) == FirstHit(hits[1..])
  {
    assert forall k :: 0 < k < |hits| ==> hits[k] == hits[1..][k - 1];
  }

  lemma FieldsInFront(data: seq<Byte>, offset: nat, fs: seq<Field>)
    requires offset <= |data| && FieldsBytes(fs) <= data[offset..] && fs != []
    ensures FieldBytes(fs[0]) <= data[offset..]
    ensures offset + |FieldBytes(fs[0])| <= |data|
    ensures FieldsBytes(fs[1..]) <= data[offset + |FieldBytes(fs[0])|..]
    ensures |FieldsBytes(fs)| == |FieldBytes(fs[0])| + |FieldsBytes(fs[1..])|
  {
    var n := |FieldBytes(fs[0])|;
    assert data[offset..][n..] == data[offset + n..];
    assert FieldsBytes(fs)[n..] == FieldsBytes(fs[1..]);
    assert FieldsBytes(fs)[..n] == FieldBytes(fs[0]);
  }

  /** Where each of the fields in front starts, and where the last one ends. */
  lemma {:induction false} FrontOffsets(data: seq<Byte>, offset: nat, fs: seq<Field>, wanted: I32)
    returns (offsets: seq<I32>)
    requires |data| < TWO31 && offset <= |data| && FieldsBytes(fs) <= data[offset..]
    ensures |offsets| == |fs| + 1 && offsets[0] == offset && offsets[|fs|] == offset + |FieldsBytes(fs)|
    ensures forall k :: 0 <= k < |fs| ==>
      RoundOf(data, wanted)(offsets[k]) == Verdict(Hit(fs[k], wanted), offsets[k + 1])
    decreases |fs|
  {
    if fs == [] {
      offsets := [offset];
    } else {
      FieldsInFront(data, offset, fs);
      RoundOverField(data, offset, fs[0], wanted);
      var tail := FrontOffsets(data, offset + |FieldBytes(fs[0])|, fs[1..], wanted);
      offsets := [offset] + tail;
    }
  }

  lemma LoopFromFront(
    round: I32 -> Round, offsets: seq<I32>, hits: seq<Option<nat>>, start: I32, end: I32, rounds: nat)
    requires |offsets| == |hits| + 1 && |hits| < rounds && offsets[0] == start && offsets[|hits|] == end
    requires forall k :: 0 <= k < |hits| ==> round(offsets[k]) == Verdict(hits[k], offsets[k + 1])
    ensures AnyHit(hits) ==> Loop(round, start, rounds) == Value(FirstHit(hits))
    ensures !AnyHit(hits) ==> Loop(round, start, rounds) == Loop(round, end, rounds - |hits|)
  {
    LoopThrough(round, offsets, hits, 0, rounds);
    assert hits[0..] == hits;
  }

  lemma FrontWalk(data: seq<Byte>, fs: seq<Field>, wanted: I32, round: I32 -> Round) returns (offsets: seq<I32>)
    requires |data| < TWO31 && FieldsBytes(fs) <= data && round == RoundOf(data, wanted)
    ensures |offsets| == |Hits(fs, wanted)| + 1 && offsets[0] == 0 && offsets[|fs|] == |FieldsBytes(fs)|
    ensures forall k :: 0 <= k < |Hits(fs, wanted)| ==>
      round(offsets[k]) == Verdict(Hits(fs, wanted)[k], offsets[k + 1])
  {
    assert data[0..] == data;
    offsets := FrontOffsets(data, 0, fs, wanted);
  }

  /** A hit is found whatever bytes follow the fields. */
  lemma HitBeforeAnything(fs: seq<Field>, tail: seq<Byte>, wanted: I32, rounds: nat)
    requires |FieldsBytes(fs) + tail| < TWO31 && |fs| < rounds && AnyHit(Hits(fs, wanted))
    ensures ParseFrom(FieldsBytes(fs) + tail, 0, wanted, rounds) == Value(FirstHit(Hits(fs, wanted)))
  {
    var data := FieldsBytes(fs) + tail;
    var round := RoundOf(data, wanted);
    var offsets := FrontWalk(data, fs, wanted, round);
    LoopFromFront(round, offsets, Hits(fs, wanted), 0, |FieldsBytes(fs)|, rounds);
  }

  lemma UnknownRound(data: seq<Byte>, offset: nat, tag: U64, wanted: I32)
    requires |data| < TWO31 && offset <= |data| && Varint(tag) <= data[offset..] && tag % 8 != 0 && tag % 8 != 2
    ensures ParseRound(data, offset, wanted) == Done(Value(0))
  {
    VarintRoundTrip(data, offset, tag);
  }

  lemma LoopEnds(round: I32 -> Round, offset: I32, rounds: nat)
    requires round(offset) == Done(Value(0)) && 0 < rounds
    ensures Loop(round, offset, rounds) == Value(0)
  {
  }

  lemma {:induction false} NoHitIsZero(hits: seq<Option<nat>>)
    requires !AnyHit(hits)
    ensures FirstHit(hits) == 0
  {
    if hits != [] {
      assert hits[0].None?;
      AnyLater(hits);
      NoHitIsZero(hits[1..]);
    }
  }

  /** A field of any other wire type ends the parsing: 0, unless there was a hit before it. */
  lemma UnknownFieldEnds(fs: seq<Field>, tag: U64, tail: seq<Byte>, wanted: I32, rounds: nat)
    requires |FieldsBytes(fs) + (Varint(tag) + tail)| < TWO31 && |fs| < rounds
    requires tag % 8 != 0 && tag % 8 != 2
    ensures ParseFrom(FieldsBytes(fs) + (Varint(tag) + tail), 0, wanted, rounds) == Value(FirstHit(Hits(fs, wanted)))
  {
    var data := FieldsBytes(fs) + (Varint(tag) + tail);
    var round := RoundOf(data, wanted);
    var offsets := FrontWalk(data, fs, wanted, round);
    LoopFromFront(round, offsets, Hits(fs, wanted), 0, |FieldsBytes(fs)|, rounds);
    if !AnyHit(Hits(fs, wanted)) {
      var offset := |FieldsBytes(fs)|;
      assert data[offset..] == Varint(tag) + tail;
      UnknownRound(data, offset, tag, wanted);
      LoopEnds(round, offset, rounds - |fs|);
      NoHitIsZero(Hits(fs, wanted));
    }
  }
}
