/** When the field parser ends: exactly when its cursor never comes back to an offset. */
module FieldParserEnds {
  import opened Bytes
  import opened Varints

  /** The length of the text field whose tag stands at `o`, if it is one: what the low 32 bits read as. */
  function LengthAt(data: seq<Byte>, o: nat): (len: I32)
    requires o <= |data|
  {
    Int32(ReadOn(data, ReadOn(data, o, 0, 0).offset, 0, 0).value)
  }

  lemma Forward(position: int, length: I32, offset: nat)
    requires offset < position < TWO31 && 0 <= length
    ensures Int32(position + length) < 0 || offset < Int32(position + length)
  {
  }

  /** A round at an offset whose text length is not negative goes forward, or out of bounds. */
  lemma RoundMoves(data: seq<Byte>, offset: nat, wanted: I32)
    requires |data| < TWO31 && offset < |data|
    requires ReadOn(data, offset, 0, 0).value % 8 == 2 ==> 0 <= LengthAt(data, offset)
    ensures var r := ParseRound(data, offset, wanted); r.Done? || r.offset < 0 || offset < r.offset
  {
    var tag := ReadOn(data, offset, 0, 0);
    var next := ReadOn(data, tag.offset, 0, 0);
    assert offset < tag.offset <= next.offset <= |data|;
    if tag.value % 8 == 2 {
      Forward(next.offset, LengthAt(data, offset), offset);
      assert ParseRound(data, offset, wanted) == Continue(Int32(next.offset + LengthAt(data, offset)));
    }
  }

  // ----- The walk of the cursor -----

  /** Where the cursor is after `n` rounds from `offset`, if all of them go on. */
  function Walk(round: I32 -> Round, offset: I32, n: nat): Option<I32>
    decreases n
  {
    if n == 0 then Some(offset)
    else
      match round(offset)
      case Done(_) => None
      case Continue(next) => Walk(round, next, n - 1)
  }

  ghost predicate NeverUnfinished(round: I32 -> Round) {
    forall o: I32 :: round(o).Done? ==> round(o).outcome != Unfinished
  }

  /** Outside the data the loop is over. */
  ghost predicate StopsOutside(round: I32 -> Round, size: nat) {
    forall o: I32 :: o < 0 || size <= o ==> round(o).Done?
  }

  lemma {:induction false} LoopIsWalk(round: I32 -> Round, offset: I32, n: nat)
    requires NeverUnfinished(round)
    ensures Loop(round, offset, n) == Unfinished <==> Walk(round, offset, n).Some?
    decreases n
  {
    if n != 0 && round(offset).Continue? {
      LoopIsWalk(round, round(offset).offset, n - 1);
    }
  }

  lemma {:induction false} WalkOn(round: I32 -> Round, offset: I32, a: nat, b: nat)
    ensures Walk(round, offset, a + b)
      == match Walk(round, offset, a) case Some(o) => Walk(round, o, b) case None => None
    decreases a
  {
    if a != 0 && round(offset).Continue? {
      WalkOn(round, round(offset).offset, a - 1, b);
    }
  }

  /** The cursor comes back to an offset within the first `size` rounds. */
  ghost predicate ComesBack(round: I32 -> Round, offset: I32, size: nat) {
    exists i: nat, j: nat :: i < j <= size && BackAt(round, offset, i, j)
  }

  ghost predicate BackAt(round: I32 -> Round, offset: I32, i: nat, j: nat) {
    Walk(round, offset, i).Some? && Walk(round, offset, i) == Walk(round, offset, j)
  }

  /** A cursor that comes back once goes round for ever. */
  lemma {:induction false} BackForEver(round: I32 -> Round, offset: I32, i: nat, j: nat, n: nat)
    requires i < j && BackAt(round, offset, i, j)
    ensures Walk(round, offset, n).Some?
    decreases n
  {
    if n < j {
      WalkOn(round, offset, n, j - n);
    } else {
      BackForEver(round, offset, i, j, n - (j - i));
      WalkOn(round, offset, j, n - j);
      WalkOn(round, offset, i, n - j);
    }
  }

  lemma {:induction false} DistinctAreMany(s: seq<nat>, m: nat)
    requires forall i :: 0 <= i < |s| ==> s[i] < m
    requires forall i, j :: 0 <= i < j < |s| ==> s[i] != s[j]
    ensures |s| <= m
    decreases m
  {
    if s != [] {
      assert s[0] < m;
      if k :| 0 <= k < |s| && s[k] == m - 1 {
        var t := s[..k] + s[k + 1..];
        assert forall i :: 0 <= i < |t| ==> t[i] == s[if i < k then i else i + 1];
        DistinctAreMany(t, m - 1);
      } else {
        DistinctAreMany(s, m - 1);
      }
    }
  }

  lemma WalkStays(round: I32 -> Round, size: nat, n: nat, k: nat)
    requires StopsOutside(round, size) && Walk(round, 0, n).Some? && k < n
    ensures Walk(round, 0, k).Some? && 0 <= Walk(round, 0, k).value < size
  {
    WalkOn(round, 0, k, n - k);
  }

  /** More rounds than offsets: some offset is seen twice. */
  lemma LongWalkComesBack(round: I32 -> Round, size: nat)
    requires StopsOutside(round, size) && Walk(round, 0, size + 1).Some?
    ensures ComesBack(round, 0, size)
  {
    forall k | 0 <= k <= size
      ensures Walk(round, 0, k).Some? && 0 <= Walk(round, 0, k).value < size
    {
      WalkStays(round, size, size + 1, k);
    }
    var seen: seq<nat> := seq(size + 1, k requires 0 <= k <= size => Walk(round, 0, k).value);
    if forall i, j :: 0 <= i < j < |seen| ==> seen[i] != seen[j] {
      DistinctAreMany(seen, size);
      assert false;
    }
    var i, j :| 0 <= i < j < |seen| && seen[i] == seen[j];
    assert BackAt(round, 0, i, j);
  }

  /** The parser ends on these bytes, after some number of rounds. */
  ghost predicate Ends(data: seq<Byte>, wanted: I32)
    requires |data| < TWO31
  {
    exists n: nat :: ParseFrom(data, 0, wanted, n) != Unfinished
  }

  /**
  When the parser ends, exactly: a round a byte and one more are enough, or it never does; and it never
  does if and only if the cursor comes back to an offset it was at before.
  */
  lemma ParserEndsExactly(data: seq<Byte>, wanted: I32)
    requires |data| < TWO31
    ensures Ends(data, wanted) <==> ParseFrom(data, 0, wanted, |data| + 1) != Unfinished
    ensures Ends(data, wanted) <==> !ComesBack(RoundOf(data, wanted), 0, |data|)
  {
    var round := RoundOf(data, wanted);
    LoopIsWalk(round, 0, |data| + 1);
    if ParseFrom(data, 0, wanted, |data| + 1) == Unfinished {
      LongWalkComesBack(round, |data|);
    }
    if ComesBack(round, 0, |data|) {
      var i: nat, j: nat :| i < j <= |data| && BackAt(round, 0, i, j);
      forall n: nat
        ensures ParseFrom(data, 0, wanted, n) == Unfinished
      {
        BackForEver(round, 0, i, j, n);
        LoopIsWalk(round, 0, n);
      }
    }
  }

  /** No text length the cursor meets on its way is read as a negative `int`. */
  ghost predicate ForwardLengths(data: seq<Byte>, wanted: I32)
    requires |data| < TWO31
  {
    forall n: nat :: TextAhead(data, Walk(RoundOf(data, wanted), 0, n))
  }

  predicate TextAhead(data: seq<Byte>, at: Option<I32>) {
    at.Some? && 0 <= at.value < |data| && ReadOn(data, at.value, 0, 0).value % 8 == 2 ==>
      0 <= LengthAt(data, at.value)
  }

  lemma {:induction false} WalkRises(data: seq<Byte>, wanted: I32, i: nat, j: nat)
    requires |data| < TWO31 && ForwardLengths(data, wanted) && i < j
    requires Walk(RoundOf(data, wanted), 0, j).Some? && 0 <= Walk(RoundOf(data, wanted), 0, j).value
    ensures Walk(RoundOf(data, wanted), 0, i).Some?
    ensures Walk(RoundOf(data, wanted), 0, i).value < Walk(RoundOf(data, wanted), 0, j).value
    decreases j
  {
    var round := RoundOf(data, wanted);
    WalkOn(round, 0, j - 1, 1);
    var at := Walk(round, 0, j - 1);
    assert TextAhead(data, at);
    WalkStays(round, |data|, j, j - 1);
    RoundMoves(data, at.value, wanted);
    assert Walk(round, at.value, 1) == Some(round(at.value).offset);
    if i < j - 1 {
      WalkRises(data, wanted, i, j - 1);
    }
  }

  /** Only a negative length on its way can keep the parser from ending. */
  lemma ParseEnds(data: seq<Byte>, wanted: I32)
    requires |data| < TWO31 && ForwardLengths(data, wanted)
    ensures ParseFrom(data, 0, wanted, |data| + 1) != Unfinished
  {
    var round := RoundOf(data, wanted);
    ParserEndsExactly(data, wanted);
    if ComesBack(round, 0, |data|) {
      var i: nat, j: nat :| i < j <= |data| && BackAt(round, 0, i, j);
      WalkOn(round, 0, i, 0);
      BackForEver(round, 0, i, j, j + 1);
      WalkStays(round, |data|, j + 1, j);
      WalkRises(data, wanted, i, j);
      assert false;
    }
  }

  /** A text field of length -6, which takes the cursor back to its own start. */
  function Backwards(): (data: seq<Byte>)
    ensures |data| == 6
  {
    [10, 250, 255, 255, 255, 15]
  }

  lemma SmallVarint(value: nat)
    requires value < 128
    ensures Varint(value) == [value]
  {
  }

  lemma LongVarint(value: nat)
    requires 128 <= value
    ensures Varint(value) == [value % 128 + 128] + Varint(value / 128)
  {
  }

  lemma MinusSix()
    ensures Varint(4294967290) == [250, 255, 255, 255, 15]
  {
    SmallVarint(15);
    LongVarint(2047);
    LongVarint(262143);
    LongVarint(33554431);
    LongVarint(4294967290);
  }

  lemma BackwardsReads()
    ensures ReadOn(Backwards(), 0, 0, 0) == Cursor(10, 1)
    ensures ReadOn(Backwards(), 1, 0, 0) == Cursor(4294967290, 6)
  {
    var data := Backwards();
    SmallVarint(10);
    MinusSix();
    assert Varint(10) <= data[0..];
    assert Varint(4294967290) <= data[1..];
    VarintRoundTrip(data, 0, 10);
    VarintRoundTrip(data, 1, 4294967290);
  }

  lemma TextRound(data: seq<Byte>, offset: nat, wanted: I32, tag: Cursor, len: Cursor)
    requires |data| < TWO31 && offset < |data|
    requires ReadOn(data, offset, 0, 0) == tag && tag.value % 8 == 2
    requires tag.offset <= |data| && ReadOn(data, tag.offset, 0, 0) == len
    ensures ParseRound(data, offset, wanted) == Continue(Int32(len.offset + Int32(len.value)))
  {
  }

  lemma MinusSixIsBack()
    ensures Int32(6 + Int32(4294967290)) == 0
  {
  }

  lemma BackwardsRound(wanted: I32)
    ensures ParseRound(Backwards(), 0, wanted) == Continue(0)
  {
    BackwardsReads();
    MinusSixIsBack();
    TextRound(Backwards(), 0, wanted, Cursor(10, 1), Cursor(4294967290, 6));
  }

  /** These six bytes keep the parser going for ever. */
  lemma {:induction false} BackwardsNeverEnds(wanted: I32, rounds: nat)
    ensures ParseFrom(Backwards(), 0, wanted, rounds) == Unfinished
  {
    if rounds != 0 {
      BackwardsRound(wanted);
      BackwardsNeverEnds(wanted, rounds - 1);
    }
  }
}
