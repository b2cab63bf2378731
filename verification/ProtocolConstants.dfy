/** Frame constants and the flags byte. */
module ProtocolConstants {
  import opened Bytes

  const CONTROL_CHANNEL: Byte := 0
  const MAX_PAYLOAD: nat := 16384
  const HEADER_SIZE: nat := 4

  // FragInfo: the two low bits of the flags byte.
  const CONTINUATION: Byte := 0
  const FIRST: Byte := 1
  const LAST: Byte := 2
  const UNFRAGMENTED: Byte := 3

  const CONTROL_ON_MEDIA: Byte := 4
  const ENCRYPTED: Byte := 8

  // The control message types the session itself acts on.
  const VERSION_REQUEST: U16 := 1
  const VERSION_RESPONSE: U16 := 2
  const ENCAPSULATED_SSL: U16 := 3
  const AUTH_COMPLETE: U16 := 4
  const BYEBYE_REQUEST: U16 := 15
  const BYEBYE_RESPONSE: U16 := 16

  /** flags & 0x01 */
  predicate HasFirst(flags: Byte) { flags % 2 != 0 }

  /** flags & 0x02 */
  predicate HasLast(flags: Byte) { flags / 2 % 2 != 0 }

  /** flags & 0x08 */
  predicate HasEncrypted(flags: Byte) { flags / 8 % 2 != 0 }

  /** (flags & 0xFC) | info */
  function WithFragInfo(flags: Byte, info: Byte): Byte
    requires info < 4
  {
    flags - flags % 4 + info
  }

  /** The flags byte of an outgoing message, before fragmentation. */
  function ComputeFrameFlags(channel: Byte, messageType: U16, encrypted: bool): Byte {
    UNFRAGMENTED
    + (if encrypted then ENCRYPTED else 0)
    + (if channel != CONTROL_CHANNEL && 1 <= messageType <= 0x13 then CONTROL_ON_MEDIA else 0)
  }

  /** The number a byte of bits stands for. */
  ghost function BitValue(b: bv8): int {
    (if b & 1 != 0 then 1 else 0) + (if b & 2 != 0 then 2 else 0)
    + (if b & 4 != 0 then 4 else 0) + (if b & 8 != 0 then 8 else 0)
    + (if b & 16 != 0 then 16 else 0) + (if b & 32 != 0 then 32 else 0)
    + (if b & 64 != 0 then 64 else 0) + (if b & 128 != 0 then 128 else 0)
  }

  lemma BitValueIsInt(b: bv8)
    ensures b as int == BitValue(b)
  {
  }

  lemma SplitBits(low: int, bit: int, high: int)
    requires 0 <= low < 8 && 0 <= bit < 2
    ensures (low + 8 * (bit + 2 * high)) / 8 % 2 == bit
  {
    assert (low + 8 * (bit + 2 * high)) / 8 == bit + 2 * high;
  }

  lemma SplitLow(low: int, bit: int, high: int)
    requires 0 <= low < 2 && 0 <= bit < 2
    ensures (low + 2 * (bit + 2 * high)) % 2 == low
    ensures (low + 2 * (bit + 2 * high)) / 2 % 2 == bit
  {
    assert (low + 2 * (bit + 2 * high)) / 2 == bit + 2 * high;
  }

  /** The arithmetic readings above are the source's bit operations. */
  lemma FlagMasks(flags: bv8)
    ensures HasFirst(flags as Byte) <==> flags & 0x01 != 0
    ensures HasLast(flags as Byte) <==> flags & 0x02 != 0
    ensures HasEncrypted(flags as Byte) <==> flags & 0x08 != 0
  {
    var b0 := if flags & 1 != 0 then 1 else 0;
    var b1 := if flags & 2 != 0 then 1 else 0;
    var b2 := if flags & 4 != 0 then 1 else 0;
    var b3 := if flags & 8 != 0 then 1 else 0;
    var top := (if flags & 16 != 0 then 1 else 0) + (if flags & 32 != 0 then 2 else 0)
      + (if flags & 64 != 0 then 4 else 0) + (if flags & 128 != 0 then 8 else 0);
    BitValueIsInt(flags);
    assert BitValue(flags) == b0 + 2 * (b1 + 2 * (b2 + 2 * (b3 + 2 * top)));
    SplitLow(b0, b1, b2 + 2 * (b3 + 2 * top));
    SplitBits(b0 + 2 * b1 + 4 * b2, b3, top);
  }

  lemma FlagClear(flags: bv8)
    ensures BitValue(flags & 0xFC) == BitValue(flags) - BitValue(flags) % 4
  {
  }

  lemma FlagSet(cleared: bv8, info: bv8)
    requires cleared & 0x03 == 0 && info & 0xFC == 0
    ensures BitValue(cleared | info) == BitValue(cleared) + BitValue(info)
    ensures BitValue(info) < 4
  {
  }

  lemma FlagReplace(flags: bv8, info: bv8)
    requires info & 0xFC == 0
    ensures info as int < 4
    ensures WithFragInfo(flags as Byte, info as Byte) == ((flags & 0xFC) | info) as Byte
  {
    BitValueIsInt(flags);
    BitValueIsInt(info);
    BitValueIsInt((flags & 0xFC) | info);
    FlagClear(flags);
    assert (flags & 0xFC) & 0x03 == 0;
    FlagSet(flags & 0xFC, info);
  }

  /** What fragmentation preserves of the flags byte, and what a computed byte says. */
  lemma FlagFacts(flags: Byte, info: Byte)
    requires info < 4
    ensures HasFirst(WithFragInfo(flags, info)) <==> info == FIRST || info == UNFRAGMENTED
    ensures HasLast(WithFragInfo(flags, info)) <==> info == LAST || info == UNFRAGMENTED
    ensures HasEncrypted(WithFragInfo(flags, info)) <==> HasEncrypted(flags)
    ensures flags % 4 == 3 <==> HasFirst(flags) && HasLast(flags)
  {
    var q := flags / 4;
    var w := 4 * q + info;
    assert WithFragInfo(flags, info) == w;
    assert w % 2 == info % 2;
    assert w / 2 == 2 * q + info / 2;
    assert w / 2 % 2 == info / 2;
    assert w / 8 == q / 2;
  }

  lemma ComputedFlags(channel: Byte, messageType: U16, encrypted: bool)
    ensures var flags := ComputeFrameFlags(channel, messageType, encrypted);
      && HasFirst(flags) && HasLast(flags)
      && (HasEncrypted(flags) <==> encrypted)
      && (flags / 4 % 2 != 0 <==> channel != CONTROL_CHANNEL && 1 <= messageType <= 19)
  {
  }
}
