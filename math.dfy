/**
 * Point sizes for rendered text are rounded up to a power of two so that the
 * texture cache holds few distinct sizes
 * (src/core/backends/rust_sdl2/math.rs). `leading_zeros` and `trailing_zeros`
 * of a u16 are modelled through the bit length of the number.
 */
module PointSizeMath {
  import opened Ints

  function Pow2(k: nat): (r: nat)
    ensures r >= 1
  {
    if k == 0 then 1 else 2 * Pow2(k - 1)
  }

  /** Number of significant bits of `n`. */
  function BitLength(n: nat): nat
  {
    if n == 0 then 0 else 1 + BitLength(n / 2)
  }

  predicate IsPowerOfTwo(n: int)
  {
    exists k: nat :: k < 16 && n == Pow2(k)
  }

  /** `u16::leading_zeros` */
  function LeadingZeros(n: U16): (r: nat)
    ensures r <= 16
  {
    Pow2Values();
    BitLengthBelow(n, 16);
    16 - BitLength(n)
  }

  /** `NonZeroU16::trailing_zeros` */
  function TrailingZeros(n: nat): nat
    requires n >= 1
  {
    if n % 2 == 1 then 0 else 1 + TrailingZeros(n / 2)
  }

  /** `capped_next_power_of_two` */
  function CappedNextPowerOfTwo(n: NonZeroU16): NonZeroU16
  {
    var leading := LeadingZeros(n);
    var trailing := TrailingZeros(n);
    if leading + trailing >= 15 then n
    else
      match leading
      case 14 => 4
      case 13 => 8
      case 12 => 16
      case 11 => 32
      case 10 => 64
      case 9 => 128
      case 8 => 256
      case 7 => 512
      case 6 => 1024
      case 5 => 2048
      case _ => 4096
  }

  lemma {:induction false} BitLengthBelow(n: nat, k: nat)
    requires n < Pow2(k)
    ensures BitLength(n) <= k
  {
    if n > 0 {
      BitLengthBelow(n / 2, k - 1);
    }
  }

  /** A number of bit length b lies in [2^(b-1), 2^b). */
  lemma {:induction false} BitLengthRange(n: nat)
    requires n >= 1
    ensures BitLength(n) >= 1
    ensures Pow2(BitLength(n) - 1) <= n < Pow2(BitLength(n))
  {
    if n > 1 {
      BitLengthRange(n / 2);
    }
  }

  /**
   * The trailing zeros never exceed the bit length less one, and reach it
   * exactly for the powers of two.
   */
  lemma {:induction false} TrailingZerosOfPower(n: nat)
    requires n >= 1
    ensures TrailingZeros(n) <= BitLength(n) - 1
    ensures TrailingZeros(n) == BitLength(n) - 1 <==> n == Pow2(BitLength(n) - 1)
  {
    BitLengthRange(n);
    if n % 2 == 0 {
      TrailingZerosOfPower(n / 2);
      BitLengthRange(n / 2);
    } else if n > 1 {
      BitLengthRange(n / 2);
      assert Pow2(BitLength(n) - 1) == 2 * Pow2(BitLength(n / 2) - 1);
    }
  }

  /** The bit length of 2^k is k + 1. */
  lemma {:induction false} BitLengthOfPow2(k: nat)
    ensures BitLength(Pow2(k)) == k + 1
  {
    if k > 0 {
      BitLengthOfPow2(k - 1);
      assert Pow2(k) / 2 == Pow2(k - 1);
    }
  }

  /** Below 2^16 the powers of two are the numbers equal to 2^(bit length - 1). */
  lemma PowerOfTwoByBitLength(n: NonZeroU16)
    ensures BitLength(n) >= 1
    ensures IsPowerOfTwo(n) <==> n == Pow2(BitLength(n) - 1)
  {
    BitLengthRange(n);
    if IsPowerOfTwo(n) {
      var k: nat :| k < 16 && n == Pow2(k);
      BitLengthOfPow2(k);
    } else {
      Pow2Values();
      BitLengthBelow(n, 16);
      assert BitLength(n) - 1 < 16;
    }
  }

  /** The test `leading + trailing >= 15` holds exactly for the powers of two. */
  lemma PowerOfTwoDetected(n: NonZeroU16)
    ensures LeadingZeros(n) + TrailingZeros(n) >= 15 <==> IsPowerOfTwo(n)
  {
    TrailingZerosOfPower(n);
    PowerOfTwoByBitLength(n);
  }

  lemma Pow2Values()
    ensures Pow2(1) == 2 && Pow2(2) == 4 && Pow2(3) == 8 && Pow2(4) == 16
    ensures Pow2(5) == 32 && Pow2(6) == 64 && Pow2(7) == 128 && Pow2(8) == 256
    ensures Pow2(9) == 512 && Pow2(10) == 1024 && Pow2(11) == 2048 && Pow2(12) == 4096
    ensures Pow2(16) == 0x1_0000
  {
    assert Pow2(1) == 2;
    assert Pow2(2) == 4;
    assert Pow2(3) == 8;
    assert Pow2(4) == 16;
    assert Pow2(5) == 32;
    assert Pow2(6) == 64;
    assert Pow2(7) == 128;
    assert Pow2(8) == 256;
    assert Pow2(9) == 512;
    assert Pow2(10) == 1024;
    assert Pow2(11) == 2048;
    assert Pow2(12) == 4096;
    assert Pow2(13) == 8192;
    assert Pow2(14) == 16384;
    assert Pow2(15) == 32768;
  }

  /** Outside the power-of-two branch the table returns 2^min(bit length, 12). */
  lemma TableValue(n: NonZeroU16)
    requires !IsPowerOfTwo(n)
    ensures BitLength(n) >= 2
    ensures CappedNextPowerOfTwo(n) == Pow2(if BitLength(n) <= 12 then BitLength(n) else 12)
  {
    PowerOfTwoDetected(n);
    BitLengthRange(n);
    BitLengthBelow(n, 16);
    Pow2Values();
  }

  /**
   * Up to 4096 the result is the least power of two not below `n`; above
   * 4096 the powers of two are returned as they are and every other size is
   * capped at 4096.
   */
  lemma CappedNextPowerOfTwoSpec(n: NonZeroU16)
    ensures IsPowerOfTwo(CappedNextPowerOfTwo(n))
    ensures IsPowerOfTwo(n) ==> CappedNextPowerOfTwo(n) == n
    ensures n <= 4096 ==> n <= CappedNextPowerOfTwo(n) < 2 * n
    ensures n > 4096 && !IsPowerOfTwo(n) ==> CappedNextPowerOfTwo(n) == 4096
  {
    PowerOfTwoDetected(n);
    Pow2Values();
    if !IsPowerOfTwo(n) {
      TableValue(n);
      BitLengthRange(n);
      var b := BitLength(n);
      if b <= 12 {
        assert Pow2(b) == 2 * Pow2(b - 1);
        assert n != Pow2(b - 1);
      } else {
        assert Pow2(b - 1) >= Pow2(12) by { Pow2Monotone(12, b - 1); }
      }
      assert IsPowerOfTwo(Pow2(if b <= 12 then b else 12));
    } else {
      var k: nat :| k < 16 && n == Pow2(k);
    }
  }

  lemma {:induction false} Pow2Monotone(i: nat, j: nat)
    requires i <= j
    ensures Pow2(i) <= Pow2(j)
  {
    if i < j {
      Pow2Monotone(i, j - 1);
    }
  }

  /** Rounding a rounded size changes nothing. */
  lemma CappedNextPowerOfTwoIdempotent(n: NonZeroU16)
    ensures CappedNextPowerOfTwo(CappedNextPowerOfTwo(n)) == CappedNextPowerOfTwo(n)
  {
    CappedNextPowerOfTwoSpec(n);
    CappedNextPowerOfTwoSpec(CappedNextPowerOfTwo(n));
  }
}
