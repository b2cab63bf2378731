/** Bytes, byte strings and the flattening of a list of byte strings. */
module Bytes {

  type Byte = b: int | 0 <= b < 256

  type U16 = n: int | 0 <= n < 0x1_0000

  datatype Option<+T> = None | Some(value: T)

  function Min(a: nat, b: nat): nat {
    if a <= b then a else b
  }

  /** The concatenation of all strings of a list. */
  function Flatten<T>(ss: seq<seq<T>>): seq<T> {
    if ss == [] then [] else ss[0] + Flatten(ss[1..])
  }

  lemma ConcatTail<T>(a: seq<T>, b: seq<T>)
    requires a != []
    ensures (a + b)[0] == a[0] && (a + b)[1..] == a[1..] + b
  {
  }

  lemma ConcatAssociates<T>(a: seq<T>, b: seq<T>, c: seq<T>)
    ensures a + (b + c) == (a + b) + c
  {
  }

  lemma {:induction false} FlattenConcat<T>(a: seq<seq<T>>, b: seq<seq<T>>)
    ensures Flatten(a + b) == Flatten(a) + Flatten(b)
  {
    if a == [] {
      assert a + b == b;
    } else {
      ConcatTail(a, b);
      FlattenConcat(a[1..], b);
      ConcatAssociates(a[0], Flatten(a[1..]), Flatten(b));
    }
  }

  lemma FlattenSnoc<T>(a: seq<seq<T>>, x: seq<T>)
    ensures Flatten(a + [x]) == Flatten(a) + x
  {
    FlattenConcat(a, [x]);
    assert [x][1..] == [];
  }

  lemma FlattenCons<T>(x: seq<T>, a: seq<seq<T>>)
    ensures Flatten([x] + a) == x + Flatten(a)
  {
    assert ([x] + a)[1..] == a;
  }

  function Be16(n: nat): (s: seq<Byte>)
    ensures |s| == 2
  {
    [n / 0x100 % 0x100, n % 0x100]
  }

  function Be32(n: nat): (s: seq<Byte>)
    ensures |s| == 4
  {
    [n / 0x100_0000 % 0x100, n / 0x1_0000 % 0x100, n / 0x100 % 0x100, n % 0x100]
  }

  /** The number two bytes stand for, high byte first. */
  function ReadBe16(hi: Byte, lo: Byte): (n: nat)
    ensures n <= 65535
  {
    (hi as int) * 0x100 + lo as int
  }

  lemma Be16Value(n: nat)
    requires n < 0x1_0000
    ensures ReadBe16(Be16(n)[0], Be16(n)[1]) == n
  {
  }
}
