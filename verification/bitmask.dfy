/**
 * The 64-element boolean array <-> uint64 bitmask codec of MCAST_LOOP and
 * AFFINITY: element i of the host array stands for bit i of the native word,
 * least significant bit first. The native word is a nat below 2^64.
 */
module Bitmask {
  import opened CTypes

  /** The uint64 `1 << i`. */
  function Pow2(i: nat): (r: nat)
    ensures r >= 1
  {
    if i == 0 then 1 else 2 * Pow2(i - 1)
  }

  /** Whether bit i of v is set, that is whether `v & (1 << i)` is non-zero. */
  predicate Bit(v: nat, i: nat)
  {
    if i == 0 then v % 2 == 1 else Bit(v / 2, i - 1)
  }

  /** The host array a word decodes to. */
  function BitsOf(v: nat): (bits: seq<bool>)
    ensures |bits| == 64
  {
    seq(64, i requires 0 <= i < 64 => Bit(v, i))
  }

  /** The word whose low |s| bits are the elements of s, the higher bits clear. */
  function MaskOf(s: seq<bool>): (m: nat)
    ensures m < Pow2(|s|)
    ensures forall i :: 0 <= i < |s| ==> Bit(m, i) == s[i]
  {
    if s == [] then 0
    else
      var m := (if s[0] then 1 else 0) + 2 * MaskOf(s[1..]);
      assert forall i :: 1 <= i < |s| ==> Bit(m, i) == Bit(MaskOf(s[1..]), i - 1);
      m
  }

  lemma Pow2Widths()
    ensures Pow2(31) == TWO_31 && Pow2(32) == TWO_32 && Pow2(64) == TWO_64
  {
    Pow2Int();
    assert Pow2(40) == 0x100_0000_0000;
    assert Pow2(48) == 0x1_0000_0000_0000;
    assert Pow2(56) == 0x100_0000_0000_0000;
  }

  lemma Pow2Int()
    ensures Pow2(31) == TWO_31 && Pow2(32) == TWO_32
  {
    assert Pow2(8) == 0x100;
    assert Pow2(16) == 0x1_0000;
    assert Pow2(24) == 0x100_0000;
  }

  /** No bit at or above the width of a word is set. */
  lemma {:induction false} BitAbove(v: nat, i: nat)
    requires v < Pow2(i)
    ensures !Bit(v, i)
  {
    if i > 0 {
      BitAbove(v / 2, i - 1);
    }
  }

  /** Appending an element adds its bit at the top. */
  lemma {:induction false} MaskOfSnoc(s: seq<bool>, b: bool)
    ensures MaskOf(s + [b]) == MaskOf(s) + (if b then Pow2(|s|) else 0)
  {
    if s != [] {
      assert (s + [b])[1..] == s[1..] + [b];
      MaskOfSnoc(s[1..], b);
    }
  }

  /** Bit i is the parity of `v / (1 << i)`: the test `v & mask` with `mask == 1 << i`. */
  lemma {:induction false} BitByDivision(v: nat, i: nat)
    ensures Bit(v, i) == ((v / Pow2(i)) % 2 == 1)
  {
    if i > 0 {
      BitByDivision(v / 2, i - 1);
      DivDiv(v, Pow2(i - 1));
    }
  }

  lemma DivDiv(v: nat, p: nat)
    requires p >= 1
    ensures (v / 2) / p == v / (2 * p)
  {
    var q, r := v / (2 * p), v % (2 * p);
    assert v == 2 * (p * q + r / 2) + r % 2;
    DivUnique(v, 2, p * q + r / 2, r % 2);
    DivUnique(v / 2, p, q, r / 2);
  }

  /** Division is determined by quotient and remainder. */
  lemma DivUnique(v: int, d: int, q: int, r: int)
    requires d > 0 && 0 <= r < d && v == d * q + r
    ensures v / d == q
  {
    var q', r' := v / d, v % d;
    assert v == d * q' + r' && 0 <= r' < d;
    assert d * q - d * q' == r' - r;
    assert d * (q - q') == d * q - d * q';
    if q > q' {
      MulAtLeast(d, q - q');
    } else if q < q' {
      assert d * (q' - q) == d * q' - d * q;
      MulAtLeast(d, q' - q);
    }
  }

  lemma MulAtLeast(d: int, k: int)
    requires d > 0 && k >= 1
    ensures d * k >= d
  {
    assert d * k == d * (k - 1) + d;
    assert d * (k - 1) >= 0;
  }

  /** A word below 2^n is the mask of its low n bits. */
  lemma {:induction false} MaskOfBits(v: nat, n: nat)
    requires v < Pow2(n)
    ensures MaskOf(seq(n, i requires 0 <= i < n => Bit(v, i))) == v
  {
    var s := seq(n, i requires 0 <= i < n => Bit(v, i));
    if n > 0 {
      var t := seq(n - 1, i requires 0 <= i < n - 1 => Bit(v / 2, i));
      assert s[1..] == t;
      MaskOfBits(v / 2, n - 1);
    }
  }

  /** Decoding after encoding gives back the 64 booleans. */
  lemma DecodeEncode(s: seq<bool>)
    requires |s| == 64
    ensures BitsOf(MaskOf(s)) == s
  {
  }

  /** Encoding after decoding gives back the word. */
  lemma EncodeDecode(v: nat)
    requires v < TWO_64
    ensures MaskOf(BitsOf(v)) == v
  {
    Pow2Widths();
    MaskOfBits(v, 64);
  }

  /**
   * The decode loop of getsockopt: fills a fresh 64-field host array, field i
   * true iff `val & (1 << i)` is non-zero.
   */
  method DecodeMask(val: nat) returns (fields: array<bool>)
    ensures fresh(fields)
    ensures fields.Length == 64
    ensures forall i :: 0 <= i < 64 ==> fields[i] == Bit(val, i)
    ensures fields[..] == BitsOf(val)
  {
    fields := new bool[64];
    for i := 0 to 64
      invariant forall k :: 0 <= k < i ==> fields[k] == Bit(val, k)
    {
      var mask := Pow2(i);
      BitByDivision(val, i);
      fields[i] := (val / mask) % 2 == 1;
    }
  }

  /**
   * The encode loop of setsockopt: adds `1 << i` to the word for every true
   * field i. The additions set distinct bits, so the sum is the bitmask, and
   * it stays below 2^64.
   */
  method EncodeMask(fields: seq<bool>) returns (val: nat)
    requires |fields| == 64
    ensures val < TWO_64
    ensures forall i :: 0 <= i < 64 ==> Bit(val, i) == fields[i]
    ensures val == MaskOf(fields)
  {
    val := 0;
    for i := 0 to 64
      invariant val == MaskOf(fields[..i])
    {
      assert fields[..i + 1] == fields[..i] + [fields[i]];
      MaskOfSnoc(fields[..i], fields[i]);
      if fields[i] {
        val := val + Pow2(i);
      }
    }
    assert fields[..64] == fields;
    Pow2Widths();
  }

  // The loops as the C code is written: `1 << i` shifts the 32-bit int 1, so
  // for i >= 31 the shift overflows int. On x86-64 the shift count is taken
  // modulo 32, and a result with bit 31 set is negative and sign-extends when
  // widened to uint64. The definitions below follow that behaviour; the
  // codec above is the one the rest of the model uses.

  /** The uint64 value of the C int `1 << i` on x86-64. */
  function ShiftAsWritten(i: nat): nat
  {
    if i % 32 == 31 then TWO_64 - TWO_31 else Pow2(i % 32)
  }

  /**
   * The decode loop as written: element i is `val & ShiftAsWritten(i)`; for
   * the mask 0xFFFF_FFFF_8000_0000 that is non-zero iff the word is at least 2^31.
   */
  function BitsAsWritten(v: nat): (bits: seq<bool>)
    ensures |bits| == 64
  {
    seq(64, i requires 0 <= i < 64 => if i % 32 == 31 then v >= TWO_31 else Bit(v, i % 32))
  }

  /** The encode loop as written: `val += 1 << i` in uint64 arithmetic. */
  function MaskAsWritten(s: seq<bool>): (m: nat)
    ensures m < TWO_64
  {
    if s == [] then 0
    else
      var k := |s| - 1;
      (MaskAsWritten(s[..k]) + (if s[k] then ShiftAsWritten(k) else 0)) % TWO_64
  }

  /** The 64-element array with element k alone set. */
  function OnlyAt(k: nat): (s: seq<bool>)
    ensures |s| == 64
  {
    seq(64, i => i == k)
  }

  lemma {:induction false} Pow2Mono(a: nat, b: nat)
    requires a <= b
    ensures Pow2(a) <= Pow2(b)
  {
    if a < b {
      Pow2Mono(a, b - 1);
    }
  }

  /** As written, the prefixes of OnlyAt(k) encode to 0 before k and to the shifted bit after. */
  lemma {:induction false} MaskAsWrittenOnlyAt(k: nat, n: nat)
    requires k % 32 != 31 && n <= 64
    ensures MaskAsWritten(OnlyAt(k)[..n]) == if n <= k then 0 else Pow2(k % 32)
  {
    if n > 0 {
      var s := OnlyAt(k)[..n];
      assert s[..n - 1] == OnlyAt(k)[..n - 1];
      assert s[n - 1] == (n - 1 == k);
      MaskAsWrittenOnlyAt(k, n - 1);
      Pow2Mono(k % 32, 31);
      Pow2Int();
      assert Pow2(k % 32) < TWO_64;
    }
  }

  /** As written, the word 1 decodes with element 32 set besides element 0. */
  lemma DecodeAsWrittenAliases()
    ensures BitsAsWritten(1)[0] && BitsAsWritten(1)[32]
    ensures BitsOf(1)[0] && !BitsOf(1)[32]
  {
    Pow2Int();
    BitAbove(1, 32);
  }

  /** As written, the arrays with only element 32 and only element 0 set both encode to 1. */
  lemma EncodeAsWrittenAliases()
    ensures MaskAsWritten(OnlyAt(32)) == 1 && MaskAsWritten(OnlyAt(0)) == 1
  {
    var a, b := OnlyAt(32), OnlyAt(0);
    MaskAsWrittenOnlyAt(32, 64);
    MaskAsWrittenOnlyAt(0, 64);
    assert a[..64] == a && b[..64] == b;
  }

  /** The encoding the model uses keeps distinct arrays apart. */
  lemma EncodeInjective(s: seq<bool>, t: seq<bool>)
    requires |s| == 64 && |t| == 64 && s != t
    ensures MaskOf(s) != MaskOf(t)
  {
    DecodeEncode(s);
    DecodeEncode(t);
  }
}
