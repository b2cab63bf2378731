/**
The two halves of the cipher, seen from outside, and the laws a message path relies on.

`Sealing` is the sender's half and `Opening` the receiver's. Their states are abstract. `Opening.react`
says what delivering a message does to the receiver's crypto state, since the message handler runs
between two fragments.
*/
module Crypto {
  import opened Bytes

  datatype Message = Message(channel: Byte, messageType: U16, payload: seq<Byte>)

  datatype Sealed<E> = Sealed(next: E, bytes: seq<Byte>) | SealFailed(next: E)

  datatype Opened<K> = Opened(next: K, bytes: seq<Byte>) | OpenFailed(next: K)

  datatype Sealing<!E> = Sealing(established: E -> bool, encrypt: (E, seq<Byte>) -> Sealed<E>)

  datatype Opening<!K> = Opening(
    established: K -> bool,
    decrypt: (K, seq<Byte>) -> Opened<K>,
    react: (K, Message) -> K)

  /**
  The decryptor is a stream transducer: what decrypts in one piece decrypts in two, with the same
  plaintext and the same state at the end.
  */
  ghost predicate Streaming<K(!new)>(o: Opening<K>) {
    forall k: K, a: seq<Byte>, b: seq<Byte> {:trigger o.decrypt(k, a + b)} ::
      o.decrypt(k, a + b).Opened? ==>
        var first := o.decrypt(k, a);
        && first.Opened?
        && (o.established(k) ==> o.established(first.next))
        && var second := o.decrypt(first.next, b);
        && second.Opened?
        && o.decrypt(k, a + b) == Opened(second.next, first.bytes + second.bytes)
  }

  /** The decryptor undoes the encryptor on anything but nothing, and the two stay in step. */
  ghost predicate InStep<E(!new), K(!new)>(s: Sealing<E>, o: Opening<K>, sync: (E, K) -> bool) {
    && (forall e: E, k: K :: sync(e, k) ==> s.established(e) && o.established(k))
    && (forall e: E, k: K, p: seq<Byte> {:trigger sync(e, k), s.encrypt(e, p)} :: sync(e, k) && p != [] ==>
      var c := s.encrypt(e, p);
      && c.Sealed?
      && var d := o.decrypt(k, c.bytes);
      && d.Opened?
      && d.bytes == p
      && sync(c.next, d.next))
    && (forall e: E, k: K, m: Message {:trigger sync(e, k), o.react(k, m)} :: sync(e, k) ==> sync(e, o.react(k, m)))
  }

  ghost predicate Laws<E(!new), K(!new)>(s: Sealing<E>, o: Opening<K>, sync: (E, K) -> bool) {
    Streaming(o) && InStep(s, o, sync)
  }
}
