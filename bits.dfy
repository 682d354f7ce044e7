/**
 * Bit operations on non-negative integers, defined one bit at a time from the
 * least significant end, and the sample's `BitCount` (Kernighan's population
 * count), proved to count the 1 bits of its argument.
 */
module Bits {

  function Pow2(k: nat): (r: nat)
    ensures r >= 1
  {
    if k == 0 then 1 else 2 * Pow2(k - 1)
  }

  /** C's `a & b` on non-negative operands. */
  function And(a: nat, b: nat): nat
    decreases a
  {
    if a == 0 || b == 0 then 0
    else 2 * And(a / 2, b / 2) + (if a % 2 == 1 && b % 2 == 1 then 1 else 0)
  }

  /** C's `a | b` on non-negative operands. */
  function Or(a: nat, b: nat): nat
    decreases a + b
  {
    if a == 0 then b
    else if b == 0 then a
    else 2 * Or(a / 2, b / 2) + (if a % 2 == 1 || b % 2 == 1 then 1 else 0)
  }

  /** Bit `k` of `n`. */
  predicate BitSet(n: nat, k: nat)
  {
    if k == 0 then n % 2 == 1 else BitSet(n / 2, k - 1)
  }

  /** The number of 1 bits of `n`. */
  function PopCount(n: nat): nat
  {
    if n == 0 then 0 else n % 2 + PopCount(n / 2)
  }

  /** The lowest set bit of a positive `n`, as a power of two. */
  function LowestBit(n: nat): (r: nat)
    requires n > 0
    ensures 1 <= r <= n
  {
    if n % 2 == 1 then 1 else 2 * LowestBit(n / 2)
  }

  lemma {:induction false} AndSelf(n: nat)
    ensures And(n, n) == n
  {
    if n != 0 {
      AndSelf(n / 2);
    }
  }

  /**
   * One step of Kernighan's loop: `n & (n - 1)` clears exactly the lowest set
   * bit of `n`, so it removes one 1 bit and makes the number strictly smaller.
   */
  lemma {:induction false} ClearLowestBit(n: nat)
    requires n > 0
    ensures And(n, n - 1) == n - LowestBit(n)
    ensures PopCount(And(n, n - 1)) == PopCount(n) - 1
  {
    if n % 2 == 1 {
      AndSelf(n / 2);
      assert And(n, n - 1) == 2 * And(n / 2, (n - 1) / 2);
      assert (n - 1) / 2 == n / 2;
      assert PopCount(n - 1) == PopCount(n / 2) by {
        if n - 1 != 0 {
          assert (n - 1) % 2 == 0;
        }
      }
    } else {
      var m := n / 2;
      assert m > 0;
      ClearLowestBit(m);
      assert (n - 1) / 2 == m - 1;
      assert And(n, n - 1) == 2 * And(m, m - 1);
      var c := And(n, n - 1);
      assert c == 2 * (m - LowestBit(m));
      if c != 0 {
        assert c % 2 == 0 && c / 2 == And(m, m - 1);
      }
    }
  }

  /** A number with exactly one 1 bit is a power of two. */
  lemma {:induction false} SingleBitIsPowerOfTwo(n: nat)
    requires PopCount(n) == 1
    ensures exists k :: n == Pow2(k)
  {
    if n % 2 == 1 {
      assert PopCount(n / 2) == 0;
      if n / 2 != 0 {
        PopCountPositive(n / 2);
      }
      assert n == Pow2(0);
    } else {
      SingleBitIsPowerOfTwo(n / 2);
      var k: nat :| n / 2 == Pow2(k);
      assert n == Pow2(k + 1);
    }
  }

  lemma {:induction false} PopCountPositive(n: nat)
    requires n > 0
    ensures PopCount(n) > 0
  {
    if n % 2 == 0 {
      PopCountPositive(n / 2);
    }
  }

  /** Bit `j` of 2^k is set exactly when j == k. */
  lemma {:induction false} BitOfPow2(k: nat, j: nat)
    ensures BitSet(Pow2(k), j) <==> j == k
  {
    if j == 0 {
      if k > 0 {
        assert Pow2(k) % 2 == 0;
      }
    } else if k == 0 {
      assert Pow2(0) / 2 == 0;
      ZeroHasNoBits(j - 1);
    } else {
      BitOfPow2(k - 1, j - 1);
      assert Pow2(k) / 2 == Pow2(k - 1);
    }
  }

  lemma {:induction false} ZeroHasNoBits(j: nat)
    ensures !BitSet(0, j)
  {
    if j > 0 {
      ZeroHasNoBits(j - 1);
    }
  }

  /** Testing bit `j` with `n & 2^j`. */
  lemma {:induction false} AndPow2(n: nat, j: nat)
    ensures And(n, Pow2(j)) != 0 <==> BitSet(n, j)
  {
    if n == 0 {
      ZeroHasNoBits(j);
    } else if j == 0 {
      assert And(n, 1) == 2 * And(n / 2, 0) + (if n % 2 == 1 then 1 else 0);
    } else {
      AndPow2(n / 2, j - 1);
      assert Pow2(j) / 2 == Pow2(j - 1) && Pow2(j) % 2 == 0;
      assert And(n, Pow2(j)) == 2 * And(n / 2, Pow2(j - 1));
    }
  }

  /** `a | b` stays below 2^k when both operands do. */
  lemma {:induction false} OrBound(a: nat, b: nat, k: nat)
    requires a < Pow2(k) && b < Pow2(k)
    ensures Or(a, b) < Pow2(k)
  {
    if a != 0 && b != 0 {
      if k == 0 {
        assert false;
      }
      OrBound(a / 2, b / 2, k - 1);
    }
  }

  /** Bit `j` of `a | b` is set exactly when it is set in `a` or in `b`. */
  lemma {:induction false} BitSetOr(a: nat, b: nat, j: nat)
    ensures BitSet(Or(a, b), j) <==> BitSet(a, j) || BitSet(b, j)
    decreases a + b
  {
    if a == 0 {
      ZeroHasNoBits(j);
    } else if b == 0 {
      ZeroHasNoBits(j);
    } else if j > 0 {
      BitSetOr(a / 2, b / 2, j - 1);
    }
  }

  /** Two numbers with the same bits are equal. */
  lemma {:induction false} BitsEqual(a: nat, b: nat)
    requires forall j :: BitSet(a, j) <==> BitSet(b, j)
    ensures a == b
    decreases a + b
  {
    assert BitSet(a, 0) <==> BitSet(b, 0);
    if a + b > 0 {
      forall j: nat
        ensures BitSet(a / 2, j) <==> BitSet(b / 2, j)
      {
        assert BitSet(a, j + 1) <==> BitSet(b, j + 1);
      }
      BitsEqual(a / 2, b / 2);
    }
  }

  lemma {:induction false} PopCountPow2(k: nat)
    ensures PopCount(Pow2(k)) == 1
  {
    if k > 0 {
      PopCountPow2(k - 1);
      assert Pow2(k) / 2 == Pow2(k - 1) && Pow2(k) % 2 == 0;
    }
  }

  /** `n` has bit `k` set and no other. */
  ghost predicate OnlyBit(n: nat, k: nat)
  {
    forall j :: BitSet(n, j) <==> j == k
  }

  /** The only number whose single 1 bit is bit `k` is 2^k. */
  lemma OnlyBitIsPow2(n: nat, k: nat)
    ensures OnlyBit(n, k) <==> n == Pow2(k)
  {
    forall j ensures BitSet(Pow2(k), j) <==> j == k {
      BitOfPow2(k, j);
    }
    if OnlyBit(n, k) {
      BitsEqual(n, Pow2(k));
    }
  }

  /** A population count of one means a single set bit, and conversely. */
  lemma PopCountOne(n: nat)
    ensures PopCount(n) == 1 <==> exists k :: OnlyBit(n, k)
  {
    if PopCount(n) == 1 {
      SingleBitIsPowerOfTwo(n);
      var k :| n == Pow2(k);
      OnlyBitIsPow2(n, k);
    }
    if exists k :: OnlyBit(n, k) {
      var k :| OnlyBit(n, k);
      OnlyBitIsPow2(n, k);
      PopCountPow2(k);
    }
  }

  /**
   * The sample's BitCount: repeatedly clear the lowest set bit and count the
   * steps. The source's `int` argument must be non-negative (for a negative
   * argument the loop reaches INT_MIN - 1, an overflow).
   */
  method BitCount(number: int) returns (bits: int)
    requires 0 <= number < 0x8000_0000
    ensures bits == PopCount(number)
  {
    var n: nat := number;
    bits := 0;
    while n != 0
      invariant bits + PopCount(n) == PopCount(number)
      decreases n
    {
      ClearLowestBit(n);
      n := And(n, n - 1);
      bits := bits + 1;
    }
  }
}
