/**
 * Fixed-width integers and the byte orders used by the GP command stream
 * (big-endian on the wire) and by the recording file (little-endian, as
 * the recorder writes its structures in host order on x86).
 */
module Bytes {

  type Byte = b: int | 0 <= b < 0x100
  type U16 = x: int | 0 <= x < 0x1_0000
  type U32 = x: int | 0 <= x < 0x1_0000_0000

  /** A 16-bit value assembled big-endian from two bytes (BSWAP16 of a raw load). */
  function BE16(hi: Byte, lo: Byte): (r: U16)
    ensures r / 0x100 == hi && r % 0x100 == lo
  {
    hi * 0x100 + lo
  }

  /** `(b0 << 16) | (b1 << 8) | b2`: the three shifted bytes occupy disjoint bits. */
  function BE24(b0: Byte, b1: Byte, b2: Byte): (r: U32)
    ensures r < 0x100_0000
    ensures r / 0x1_0000 == b0 && (r / 0x100) % 0x100 == b1 && r % 0x100 == b2
  {
    Split(b0, BE16(b1, b2), 0x1_0000);
    Split(b0 * 0x100 + b1, b2, 0x100);
    Split(b0, b1, 0x100);
    b0 * 0x1_0000 + b1 * 0x100 + b2
  }

  /** A 32-bit value assembled big-endian from four bytes (BSWAP32 of a raw load). */
  function BE32(b0: Byte, b1: Byte, b2: Byte, b3: Byte): (r: U32)
    ensures r / 0x1_0000 == BE16(b0, b1) && r % 0x1_0000 == BE16(b2, b3)
    ensures r / 0x100_0000 == b0 && r % 0x100 == b3
  {
    var r := BE16(b0, b1) * 0x1_0000 + BE16(b2, b3);
    Split(BE16(b0, b1), BE16(b2, b3), 0x1_0000);
    Split(b0, b1 * 0x1_0000 + BE16(b2, b3), 0x100_0000);
    Split(b0 * 0x1_0000 + b1 * 0x100 + b2, b3, 0x100);
    r
  }

  /** Quotient and remainder of `q * d + m` for a remainder below `d`. */
  lemma Split(q: nat, m: nat, d: nat)
    requires 0 <= m < d && d in {0x100, 0x1_0000, 0x100_0000}
    ensures (q * d + m) / d == q && (q * d + m) % d == m
  {
  }

  /** The four bytes of a word, most significant first. */
  function BytesBE32(w: U32): (s: seq<Byte>)
    ensures |s| == 4
  {
    [w / 0x100_0000, (w / 0x1_0000) % 0x100, (w / 0x100) % 0x100, w % 0x100]
  }

  lemma BE32RoundTrip(w: U32)
    ensures var s := BytesBE32(w); BE32(s[0], s[1], s[2], s[3]) == w
  {
    var s := BytesBE32(w);
    assert w == (w / 0x1_0000) * 0x1_0000 + w % 0x1_0000;
    assert w / 0x1_0000 == (w / 0x100_0000) * 0x100 + (w / 0x1_0000) % 0x100;
    assert w % 0x1_0000 == ((w / 0x100) % 0x100) * 0x100 + w % 0x100;
  }

  lemma BE32Injective(a0: Byte, a1: Byte, a2: Byte, a3: Byte, b0: Byte, b1: Byte, b2: Byte, b3: Byte)
    requires BE32(a0, a1, a2, a3) == BE32(b0, b1, b2, b3)
    ensures [a0, a1, a2, a3] == [b0, b1, b2, b3]
  {
  }

  /** The four bytes of a word, least significant first. */
  function BytesLE32(w: U32): (s: seq<Byte>)
    ensures |s| == 4
  {
    [w % 0x100, (w / 0x100) % 0x100, (w / 0x1_0000) % 0x100, w / 0x100_0000]
  }

  /** A 32-bit value read little-endian from the four bytes of `s` at `k`. */
  function LE32At(s: seq<Byte>, k: nat): (r: U32)
    requires k + 4 <= |s|
    ensures r % 0x100 == s[k] && r / 0x100_0000 == s[k + 3]
  {
    BE32(s[k + 3], s[k + 2], s[k + 1], s[k])
  }

  lemma LE32AtRoundTrip(w: U32, s: seq<Byte>, k: nat)
    requires k + 4 <= |s| && s[k..k + 4] == BytesLE32(w)
    ensures LE32At(s, k) == w
  {
    BE32RoundTrip(w);
    assert s[k] == s[k..k + 4][0] && s[k + 1] == s[k..k + 4][1];
    assert s[k + 2] == s[k..k + 4][2] && s[k + 3] == s[k..k + 4][3];
  }

  /**
   * The byte address actually read for big-endian address `a`: main RAM
   * holds each 32-bit word byte-swapped, so byte addresses are XORed with 3,
   * which flips the two low bits and keeps the word index.
   */
  function Xor3(a: U32): (r: U32)
    ensures r / 4 == a / 4 && r % 4 == 3 - a % 4
  {
    (a / 4) * 4 + (3 - a % 4)
  }
}
