/**
  The C integer types the driver works with, and the conversions the C
  compiler performs between them. Dafny integers are unbounded, so the
  16-bit wrap-around of an `int16_t` assignment is written out here.
 */
module FixedWidth {

  /** `uint8_t`: one byte on the bus. */
  type uint8 = x: int | 0 <= x < 0x100

  /** `int16_t`. */
  type int16 = x: int | -0x8000 <= x < 0x8000

  /**
    Assignment of an `int` to an `int16_t`: the value is reduced modulo 2^16
    into the signed range (two's complement, as GCC for the RP2040 does it).
   */
  function Wrap16(x: int): (r: int16)
    ensures (x - r) % 0x10000 == 0
  {
    (x + 0x8000) % 0x10000 - 0x8000
  }

  /** Within one period of the signed range, the wrap adds or subtracts 2^16 at most once. */
  lemma Wrap16Near(x: int)
    requires -0x18000 <= x < 0x18000
    ensures Wrap16(x) == if x < -0x8000 then x + 0x10000 else if x >= 0x8000 then x - 0x10000 else x
  {
    var y := x + 0x8000;
    if y < 0 {
      assert y + 0x10000 >= 0 && (y + 0x10000) % 0x10000 == y % 0x10000;
    } else if y >= 0x10000 {
      assert (y - 0x10000) % 0x10000 == y % 0x10000;
    }
  }

  /** The value of two bytes read most significant first, as an unsigned 16-bit quantity. */
  function BigEndian16(hi: uint8, lo: uint8): (u: int)
    ensures 0 <= u < 0x10000
    ensures u / 0x100 == hi && u % 0x100 == lo
  {
    hi * 0x100 + lo
  }

  /**
    `(int16_t)((hi << 8) | lo)`: the two bytes reinterpreted as a
    two's-complement signed 16-bit number. For bytes, `(hi << 8) | lo` is
    `hi * 256 + lo`.
   */
  function SignedBigEndian16(hi: uint8, lo: uint8): (v: int16)
    ensures v == if hi < 0x80 then hi * 0x100 + lo else hi * 0x100 + lo - 0x10000
    ensures v < 0 <==> hi >= 0x80
  {
    Wrap16(BigEndian16(hi, lo))
  }

  /** The two bytes of an `int16_t`, most significant first. */
  function ToBigEndian16(v: int16): (bytes: (uint8, uint8))
  {
    var u := if v < 0 then v + 0x10000 else v;
    (u / 0x100, u % 0x100)
  }

  /** Decoding the bytes of a value gives the value back. */
  lemma SignedBigEndianOfBytes(v: int16)
    ensures SignedBigEndian16(ToBigEndian16(v).0, ToBigEndian16(v).1) == v
  {
  }

  /** Encoding a decoded pair of bytes gives the bytes back. */
  lemma BytesOfSignedBigEndian(hi: uint8, lo: uint8)
    ensures ToBigEndian16(SignedBigEndian16(hi, lo)) == (hi, lo)
  {
  }

  /** The wrap is the identity on values already in range. */
  lemma Wrap16Identity(x: int)
    requires -0x8000 <= x < 0x8000
    ensures Wrap16(x) == x
  {
  }

  /**
    `status >> 2` on an unsigned byte: the six high bits of a status byte.
    A right shift of an unsigned value by two is division by four, rounding down.
   */
  function StatusCode(status: uint8): (code: int)
    ensures 0 <= code < 64
    ensures 4 * code <= status < 4 * code + 4
  {
    status / 4
  }
}
