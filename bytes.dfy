/**
 Byte-level helpers used by the QOI decoder: the byte type, big-endian
 32-bit words (the header's width and height, and the packed colours of
 the colour index), and the modulo-256 wraparound of channel arithmetic.
 */
module Bytes {

  /** One unsigned 8-bit value, as read from a `Uint8Array`. */
  type byte = x: int | 0 <= x < 256

  const TwoTo32: nat := 0x1_0000_0000

  /** The unsigned value of four bytes read most significant first,
      i.e. `((b0 << 24) | (b1 << 16) | (b2 << 8) | b3) >>> 0`. */
  function FromBytesBE(b0: byte, b1: byte, b2: byte, b3: byte): (v: nat)
    ensures v < TwoTo32
  {
    ((b0 * 0x100 + b1) * 0x100 + b2) * 0x100 + b3
  }

  /** The four bytes of a 32-bit word, most significant first, as the
      expressions `(v >> 24) & 0xff`, `(v >> 16) & 0xff`, `(v >> 8) & 0xff`
      and `v & 0xff` extract them. */
  function ToBytesBE(v: nat): (s: seq<byte>)
    requires v < TwoTo32
    ensures |s| == 4
    ensures FromBytesBE(s[0], s[1], s[2], s[3]) == v
  {
    var v1 := v / 0x100;
    var v2 := v1 / 0x100;
    [v2 / 0x100, v2 % 0x100, v1 % 0x100, v % 0x100]
  }

  /** Splitting a word built from four bytes gives back those bytes. */
  lemma FromToBytesBE(b0: byte, b1: byte, b2: byte, b3: byte)
    ensures ToBytesBE(FromBytesBE(b0, b1, b2, b3)) == [b0, b1, b2, b3]
  {
    var v2 := b0 * 0x100 + b1;
    var v1 := v2 * 0x100 + b2;
    var v := v1 * 0x100 + b3;
    assert v / 0x100 == v1 && v % 0x100 == b3;
    assert v1 / 0x100 == v2 && v1 % 0x100 == b2;
  }

  /** The same bytes, extracted the way the source does, by shifting the
      whole word right by 24, 16, 8 and 0 bits and masking with 0xff. */
  lemma ShiftMaskBytes(b0: byte, b1: byte, b2: byte, b3: byte)
    ensures FromBytesBE(b0, b1, b2, b3) / 0x100_0000 % 0x100 == b0
    ensures FromBytesBE(b0, b1, b2, b3) / 0x1_0000 % 0x100 == b1
    ensures FromBytesBE(b0, b1, b2, b3) / 0x100 % 0x100 == b2
    ensures FromBytesBE(b0, b1, b2, b3) % 0x100 == b3
  {
    var v2 := b0 * 0x100 + b1;
    var v1 := v2 * 0x100 + b2;
    var v := v1 * 0x100 + b3;
    assert v == b0 * 0x100_0000 + (b1 * 0x1_0000 + b2 * 0x100 + b3);
    assert v == v2 * 0x1_0000 + (b2 * 0x100 + b3);
  }

  /** The source's wraparound `(v + 256) % 256` for a channel value that
      an 8-bit delta took at most 256 below zero: the result is the byte
      congruent to `v` modulo 256. */
  function Wrap(v: int): (r: byte)
    requires v >= -256
    ensures (r - v) % 256 == 0
    ensures 0 <= v < 256 ==> r == v
  {
    (v + 256) % 256
  }
}
