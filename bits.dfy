/** `count_leading_zeros`, the mask-to-index step of the batched byte
    scanner. Despite its name and its doc comment it returns the index of the
    lowest set bit of its argument (the count of trailing zeros), and 16 when
    the argument is zero. */
module Bits {

  /** A C++ `unsigned`. */
  newtype Uint32 = x: int | 0 <= x < 0x1_0000_0000

  /** `1 << i`. */
  function Pow2(i: nat): (r: nat)
    ensures r > 0
  {
    if i == 0 then 1 else 2 * Pow2(i - 1)
  }

  /** Bit `j` of `x` is set. */
  predicate Bit(x: nat, j: nat) {
    if j == 0 then x % 2 == 1 else Bit(x / 2, j - 1)
  }

  /** Every bit of `x` below position `j` is clear. */
  predicate ClearBelow(x: nat, j: nat) {
    j == 0 || (x % 2 == 0 && ClearBelow(x / 2, j - 1))
  }

  /** `j` is the index of the lowest set bit of `x`. */
  predicate IsLowestSetBit(x: nat, j: nat) {
    Bit(x, j) && ClearBelow(x, j)
  }

  /** The lowest set bit, found one bit at a time (the behaviour of
      `__builtin_ctz` and `_BitScanForward`). */
  function LowestSetBit(x: nat): (r: nat)
    requires x > 0
    ensures IsLowestSetBit(x, r)
    decreases x
  {
    if x % 2 == 1 then 0 else LowestSetBit(x / 2) + 1
  }

  /** The lowest set bit is unique. */
  lemma {:induction false} LowestSetBitUnique(x: nat, i: nat, j: nat)
    requires IsLowestSetBit(x, i) && IsLowestSetBit(x, j)
    ensures i == j
    decreases i
  {
    if i != 0 && j != 0 {
      LowestSetBitUnique(x / 2, i - 1, j - 1);
    }
  }

  /** Only the bits below `n` can be set in a number below `1 << n`. */
  lemma {:induction false} BitsBelow(x: nat, j: nat, n: nat)
    requires x < Pow2(n) && Bit(x, j)
    ensures j < n
    decreases n
  {
    if n == 0 {
      ZeroHasNoBits(j);
    } else if j > 0 {
      BitsBelow(x / 2, j - 1, n - 1);
    }
  }

  lemma {:induction false} ZeroHasNoBits(j: nat)
    ensures !Bit(0, j)
  {
    if j > 0 { ZeroHasNoBits(j - 1); }
  }

  lemma {:induction false} Pow2Add(a: nat, b: nat)
    ensures Pow2(a + b) == Pow2(a) * Pow2(b)
    decreases a
  {
    if a > 0 {
      Pow2Add(a - 1, b);
      assert Pow2(a + b) == 2 * (Pow2(a - 1) * Pow2(b));
    }
  }

  lemma Pow2Values()
    ensures Pow2(14) == 16384 && Pow2(15) == 32768 && Pow2(32) == 0x1_0000_0000
  {
    assert Pow2(7) == 128 && Pow2(8) == 256;
    Pow2Add(7, 7);
    Pow2Add(7, 8);
    Pow2Add(8, 8);
    Pow2Add(16, 16);
  }

  lemma {:induction false} Pow2Increasing(i: nat, j: nat)
    requires i < j
    ensures Pow2(i) < Pow2(j)
    decreases j
  {
    if i < j - 1 { Pow2Increasing(i, j - 1); }
  }

  /** `count_leading_zeros(data)`. */
  function CountLeadingZeros(data: Uint32): (r: int)
    ensures data == 0 ==> r == 16
    ensures data != 0 ==> 0 <= r < 32 && IsLowestSetBit(data as nat, r)
  {
    if data != 0 then
      var r := LowestSetBit(data as nat);
      Pow2Values();
      BitsBelow(data as nat, r, 32);
      r
    else 16
  }

  /** The lowest set bit of an odd multiple of `1 << i` is bit `i`. */
  lemma {:induction false} OddShifted(m: nat, i: nat)
    requires m % 2 == 1
    ensures IsLowestSetBit(m * Pow2(i), i)
    decreases i
  {
    if i > 0 {
      OddShifted(m, i - 1);
      assert m * Pow2(i) == 2 * (m * Pow2(i - 1));
      assert (m * Pow2(i)) / 2 == m * Pow2(i - 1);
    }
  }

  /** `count_leading_zeros` finds the lowest set bit, and nothing else. */
  lemma CountIsLowestSetBit(x: Uint32, i: nat)
    requires x != 0 && IsLowestSetBit(x as nat, i)
    ensures CountLeadingZeros(x) == i
  {
    LowestSetBitUnique(x as nat, i, CountLeadingZeros(x));
  }

  /** A single set bit `1 << i` maps back to `i`. */
  lemma SingleBit(i: nat)
    requires i < 32
    ensures Pow2(i) < 0x1_0000_0000
    ensures CountLeadingZeros(Pow2(i) as Uint32) == i
  {
    Pow2Values();
    Pow2Increasing(i, 32);
    OddShifted(1, i);
    assert 1 * Pow2(i) == Pow2(i);
    CountIsLowestSetBit(Pow2(i) as Uint32, i);
  }

  /** The examples the unit test checks: zero, 32768 and 49152. */
  lemma Examples()
    ensures CountLeadingZeros(0) == 16
    ensures CountLeadingZeros(32768) == 15
    ensures CountLeadingZeros(49152) == 14
  {
    Pow2Values();
    SingleBit(15);
    OddShifted(3, 14);
    CountIsLowestSetBit(49152, 14);
  }
}
