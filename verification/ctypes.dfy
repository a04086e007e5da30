/**
 * C-level integer widths and their in-memory images on the LP64 little-endian
 * platform the binding is built for (sizeof(int) == 4, sizeof(long) == 8,
 * sizeof(void *) == 8), and the host's 63-bit OCaml int.
 */
module CTypes {
  const TWO_31: int := 0x8000_0000
  const TWO_32: int := 0x1_0000_0000
  const TWO_62: int := 0x4000_0000_0000_0000
  const TWO_63: int := 0x8000_0000_0000_0000
  const TWO_64: int := 0x1_0000_0000_0000_0000

  const INT_MAX: int := 0x7fff_ffff
  const INT_MIN: int := -0x8000_0000

  /** sizeof(int), sizeof(int64), sizeof(void *) */
  const SIZEOF_INT: nat := 4
  const SIZEOF_INT64: nat := 8
  const SIZEOF_POINTER: nat := 8

  /** A C `unsigned char`: one byte of memory. */
  type Byte = b: int | 0 <= b < 256

  /** A C `int`. */
  type Int32 = x: int | -TWO_31 <= x < TWO_31
  /** A C `int64` (OCaml's boxed `int64`). */
  type Int64 = x: int | -TWO_63 <= x < TWO_63
  /** A C `uint64` / `size_t`. */
  type Uint64 = x: int | 0 <= x < TWO_64
  /** An OCaml `int` on a 64-bit host: 63 bits, two's complement. */
  type OInt = x: int | -TWO_62 <= x < TWO_62

  /** 256 to the power n: the number of values an n-byte buffer can hold. */
  function Pow256(n: nat): (r: nat)
    ensures r >= 1
  {
    if n == 0 then 1 else 256 * Pow256(n - 1)
  }

  lemma Pow256Widths()
    ensures Pow256(4) == TWO_32 && Pow256(8) == TWO_64
  {
  }

  /** The n little-endian bytes that store the unsigned value x. */
  function LeBytes(x: nat, n: nat): (b: seq<Byte>)
    requires x < Pow256(n)
    ensures |b| == n
    ensures n > 0 ==> b[0] == x % 256
  {
    if n == 0 then []
    else
      QuotientBelow(x, Pow256(n - 1));
      [x % 256] + LeBytes(x / 256, n - 1)
  }

  lemma QuotientBelow(x: nat, p: nat)
    requires x < 256 * p
    ensures x / 256 < p
  {
  }

  /** The unsigned value that the little-endian bytes b store. */
  function LeValue(b: seq<Byte>): (x: nat)
    ensures x < Pow256(|b|)
  {
    if b == [] then 0 else b[0] + 256 * LeValue(b[1..])
  }

  /** Storing a value and reading it back yields the value. */
  lemma {:induction false} LeValueOfBytes(x: nat, n: nat)
    requires x < Pow256(n)
    ensures LeValue(LeBytes(x, n)) == x
  {
    if n > 0 {
      LeValueOfBytes(x / 256, n - 1);
      assert LeBytes(x, n)[1..] == LeBytes(x / 256, n - 1);
    }
  }

  /** Reading a buffer and storing the value back yields the same bytes. */
  lemma {:induction false} LeBytesOfValue(b: seq<Byte>)
    ensures LeBytes(LeValue(b), |b|) == b
  {
    if b != [] {
      var rest := LeValue(b[1..]);
      LeBytesOfValue(b[1..]);
      ByteDivMod(b[0], rest);
      var x := LeValue(b);
      assert x == b[0] + 256 * rest;
      assert x % 256 == b[0] && x / 256 == rest;
      assert LeBytes(x, |b|) == [x % 256] + LeBytes(x / 256, |b| - 1);
      assert b == [b[0]] + b[1..];
    }
  }

  lemma ByteDivMod(d: int, q: nat)
    requires 0 <= d < 256
    ensures (d + 256 * q) % 256 == d && (d + 256 * q) / 256 == q
  {
  }

  /** The unsigned image (uint32) of a C int: two's complement. */
  function Int32Bits(x: Int32): (u: nat)
    ensures u < TWO_32
    ensures u % TWO_32 == x % TWO_32
  {
    if x < 0 then x + TWO_32 else x
  }

  /** The C int whose two's-complement image is u. */
  function Int32OfBits(u: nat): (x: Int32)
    requires u < TWO_32
    ensures Int32Bits(x) == u
  {
    if u >= TWO_31 then u - TWO_32 else u
  }

  /** The unsigned image (uint64) of an int64: two's complement. */
  function Int64Bits(x: Int64): (u: Uint64)
    ensures u % TWO_64 == x % TWO_64
  {
    if x < 0 then x + TWO_64 else x
  }

  /** The int64 whose two's-complement image is u. */
  function Int64OfBits(u: Uint64): (x: Int64)
    ensures Int64Bits(x) == u
  {
    if u >= TWO_63 then u - TWO_64 else u
  }

  /** Reading back the image of an int gives the int. */
  lemma Int32BitsInverse(x: Int32)
    ensures Int32OfBits(Int32Bits(x)) == x
  {
  }

  /** The int64/uint64 reinterpretation is a bijection. */
  lemma Int64BitsInverse(x: Int64)
    ensures Int64OfBits(Int64Bits(x)) == x
  {
  }

  /**
   * The C conversion `(int) v` of a long: the value modulo 2^32, read back as
   * a signed int (the conversion GCC documents for out-of-range values).
   */
  function TruncateToInt(v: int): (r: Int32)
    ensures (v - r) % TWO_32 == 0
    ensures INT_MIN <= v <= INT_MAX ==> r == v
  {
    Int32OfBits(v % TWO_32)
  }

  /** The memory image of a C int. */
  function IntBytes(x: Int32): (b: seq<Byte>)
    ensures |b| == SIZEOF_INT
  {
    Pow256Widths();
    LeBytes(Int32Bits(x), SIZEOF_INT)
  }

  /** `*((int *) p)`: the C int stored in the first four bytes. */
  function IntAt(b: seq<Byte>): Int32
    requires |b| >= SIZEOF_INT
  {
    Pow256Widths();
    Int32OfBits(LeValue(b[..SIZEOF_INT]))
  }

  /** The memory image of an unsigned 64-bit word. */
  function Uint64Bytes(u: Uint64): (b: seq<Byte>)
    ensures |b| == SIZEOF_INT64
  {
    Pow256Widths();
    LeBytes(u, SIZEOF_INT64)
  }

  /** `*((uint64 *) p)`: the uint64 stored in the first eight bytes. */
  function Uint64At(b: seq<Byte>): Uint64
    requires |b| >= SIZEOF_INT64
  {
    Pow256Widths();
    LeValue(b[..SIZEOF_INT64])
  }

  /** The memory image of an int64 (the same bytes as its uint64 image). */
  function Int64Bytes(x: Int64): (b: seq<Byte>)
    ensures |b| == SIZEOF_INT64
  {
    Uint64Bytes(Int64Bits(x))
  }

  /** `*((int64 *) p)`: the int64 stored in the first eight bytes. */
  function Int64At(b: seq<Byte>): Int64
    requires |b| >= SIZEOF_INT64
  {
    Int64OfBits(Uint64At(b))
  }

  lemma IntRoundTrip(x: Int32)
    ensures IntAt(IntBytes(x)) == x
  {
    Pow256Widths();
    Int32BitsInverse(x);
    LeValueOfBytes(Int32Bits(x), SIZEOF_INT);
    assert IntBytes(x)[..SIZEOF_INT] == IntBytes(x);
  }

  lemma Uint64RoundTrip(u: Uint64)
    ensures Uint64At(Uint64Bytes(u)) == u
  {
    Pow256Widths();
    LeValueOfBytes(u, SIZEOF_INT64);
    assert Uint64Bytes(u)[..SIZEOF_INT64] == Uint64Bytes(u);
  }

  lemma Int64RoundTrip(x: Int64)
    ensures Int64At(Int64Bytes(x)) == x
  {
    Uint64RoundTrip(Int64Bits(x));
  }

  /** Every four bytes are the image of the int read from them: the int read is a bijection. */
  lemma IntImageOfRead(b: seq<Byte>)
    requires |b| >= SIZEOF_INT
    ensures IntBytes(IntAt(b)) == b[..SIZEOF_INT]
  {
    Pow256Widths();
    LeBytesOfValue(b[..SIZEOF_INT]);
  }

  /** Every eight bytes are the image of the uint64 read from them. */
  lemma Uint64ImageOfRead(b: seq<Byte>)
    requires |b| >= SIZEOF_INT64
    ensures Uint64Bytes(Uint64At(b)) == b[..SIZEOF_INT64]
  {
    Pow256Widths();
    LeBytesOfValue(b[..SIZEOF_INT64]);
  }

  /** Every eight bytes are the image of the int64 read from them. */
  lemma Int64ImageOfRead(b: seq<Byte>)
    requires |b| >= SIZEOF_INT64
    ensures Int64Bytes(Int64At(b)) == b[..SIZEOF_INT64]
  {
    Uint64ImageOfRead(b);
  }
}
