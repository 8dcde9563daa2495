/** Bitwise operations on non-negative integers, defined one bit at a time.
    A non-negative 64-bit value has the same bits as its mathematical value, so
    these functions give `<<`, `>>`, `|` and `&` their meaning on the operands
    the ID generator combines. */
module Bits {

  function Pow2(n: nat): (p: nat)
    ensures p >= 1
  {
    if n == 0 then 1 else 2 * Pow2(n - 1)
  }

  /** `x << n` when nothing is shifted out of the word. */
  function ShiftLeft(x: nat, n: nat): nat
  {
    if n == 0 then x else 2 * ShiftLeft(x, n - 1)
  }

  /** `x >> n` for a non-negative `x`. */
  function ShiftRight(x: nat, n: nat): nat
  {
    if n == 0 then x else ShiftRight(x / 2, n - 1)
  }

  /** Bitwise OR: the lowest bit is set when it is set in either operand. */
  function Or(a: nat, b: nat): nat
    decreases a + b
  {
    if a == 0 then b
    else if b == 0 then a
    else 2 * Or(a / 2, b / 2) + (if a % 2 == 1 || b % 2 == 1 then 1 else 0)
  }

  /** Bitwise AND: the lowest bit is set when it is set in both operands. */
  function And(a: nat, b: nat): nat
    decreases a + b
  {
    if a == 0 || b == 0 then 0
    else 2 * And(a / 2, b / 2) + (if a % 2 == 1 && b % 2 == 1 then 1 else 0)
  }

  /** The bit pattern of a 64-bit two's-complement word holding `x` after
      wrap-around, read as an unsigned number. */
  function Unsigned64(x: int): (u: nat)
    ensures u < 0x1_0000_0000_0000_0000
    ensures (u - x) % 0x1_0000_0000_0000_0000 == 0
  {
    x % 0x1_0000_0000_0000_0000
  }

  /** Shifting left by `n` multiplies by `2^n`. */
  lemma {:induction false} ShiftLeftIsMul(x: nat, n: nat)
    ensures ShiftLeft(x, n) == x * Pow2(n)
  {
    if n > 0 {
      ShiftLeftIsMul(x, n - 1);
      MulDouble(x, Pow2(n - 1));
    }
  }

  /** Shifting left distributes over addition. */
  lemma {:induction false} ShiftLeftAdd(a: nat, b: nat, n: nat)
    ensures ShiftLeft(a, n) + ShiftLeft(b, n) == ShiftLeft(a + b, n)
  {
    if n > 0 {
      ShiftLeftAdd(a, b, n - 1);
    }
  }

  /** Two left shifts are one shift by the sum. */
  lemma {:induction false} ShiftLeftTwice(a: nat, m: nat, n: nat)
    ensures ShiftLeft(ShiftLeft(a, m), n) == ShiftLeft(a, m + n)
  {
    if n > 0 {
      ShiftLeftTwice(a, m, n - 1);
    }
  }

  /** A larger value shifted left by `n` exceeds a smaller one by at least `2^n`. */
  lemma {:induction false} ShiftLeftGap(a: nat, b: nat, n: nat)
    requires a < b
    ensures ShiftLeft(a, n) + Pow2(n) <= ShiftLeft(b, n)
  {
    if n > 0 {
      ShiftLeftGap(a, b, n - 1);
    }
  }

  /** Shifting `2^k` left by `n` gives `2^(k+n)`. */
  lemma {:induction false} ShiftLeftPow2(k: nat, n: nat)
    ensures ShiftLeft(Pow2(k), n) == Pow2(k + n)
  {
    if n > 0 {
      ShiftLeftPow2(k, n - 1);
    }
  }

  /** A `k`-bit value shifted above an `n`-bit value stays below `2^(k+n)`. */
  lemma FieldBelow(a: nat, b: nat, k: nat, n: nat)
    requires a < Pow2(k) && b < Pow2(n)
    ensures ShiftLeft(a, n) + b < Pow2(k + n)
  {
    ShiftLeftGap(a, Pow2(k), n);
    ShiftLeftPow2(k, n);
  }

  /** Shifting right by `n` drops a value below `2^n` added to a shifted one. */
  lemma {:induction false} ShiftRightDropsLow(x: nat, a: nat, b: nat, n: nat)
    requires x == ShiftLeft(a, n) + b && b < Pow2(n)
    ensures ShiftRight(x, n) == a
  {
    if n > 0 {
      assert x / 2 == ShiftLeft(a, n - 1) + b / 2;
      ShiftRightDropsLow(x / 2, a, b / 2, n - 1);
    }
  }

  lemma OrDouble(x: nat, y: nat)
    ensures Or(2 * x, 2 * y) == 2 * Or(x, y)
  {
    if x != 0 && y != 0 {
      assert (2 * x) / 2 == x && (2 * y) / 2 == y;
    }
  }

  /** Shifting both operands by the same amount commutes with OR. */
  lemma {:induction false} OrScaled(a: nat, b: nat, n: nat)
    ensures Or(ShiftLeft(a, n), ShiftLeft(b, n)) == ShiftLeft(Or(a, b), n)
  {
    if n > 0 {
      OrScaled(a, b, n - 1);
      OrDouble(ShiftLeft(a, n - 1), ShiftLeft(b, n - 1));
    }
  }

  /** OR of a value shifted left by `n` and a value below `2^n` is their sum:
      the two occupy disjoint bits. */
  lemma {:induction false} OrDisjoint(a: nat, b: nat, n: nat)
    requires b < Pow2(n)
    ensures Or(ShiftLeft(a, n), b) == ShiftLeft(a, n) + b
  {
    if n > 0 && ShiftLeft(a, n) != 0 && b != 0 {
      var x := ShiftLeft(a, n);
      assert x / 2 == ShiftLeft(a, n - 1) && x % 2 == 0;
      OrDisjoint(a, b / 2, n - 1);
    }
  }

  /** AND with `2^n - 1` recovers the `n`-bit value placed below a shifted one. */
  lemma {:induction false} AndLowMask(x: nat, a: nat, b: nat, n: nat)
    requires x == ShiftLeft(a, n) + b && b < Pow2(n)
    ensures And(x, Pow2(n) - 1) == b
    decreases n
  {
    if n > 0 && x != 0 {
      LowMaskHalves(n);
      AndOddStep(x, Pow2(n) - 1);
      assert x / 2 == ShiftLeft(a, n - 1) + b / 2 && x % 2 == b % 2;
      AndLowMask(x / 2, a, b / 2, n - 1);
    }
  }

  /** AND with 4095 keeps the low twelve bits. */
  lemma AndMask12(u: nat)
    ensures And(u, 4095) == u % 4096
  {
    Pow2Values();
    ShiftLeftIsMul(u / 4096, 12);
    AndLowMask(u, u / 4096, u % 4096, 12);
  }

  /** The mask `2^n - 1` is odd and halves to the mask one bit narrower. */
  lemma LowMaskHalves(n: nat)
    requires n > 0
    ensures Pow2(n) == 2 * Pow2(n - 1)
    ensures (Pow2(n) - 1) % 2 == 1 && (Pow2(n) - 1) / 2 == Pow2(n - 1) - 1
  {
    var p := Pow2(n - 1);
    assert Pow2(n) - 1 == (p - 1) * 2 + 1;
    DivModUnique(Pow2(n) - 1, 2, p - 1, 1);
  }

  /** One step of AND against an odd value keeps the low bit of `x`. */
  lemma AndOddStep(x: nat, m: nat)
    requires x != 0 && m % 2 == 1
    ensures And(x, m) == 2 * And(x / 2, m / 2) + x % 2
  {
  }

  /** Wrapping to 64 bits does not disturb the low 12 bits. */
  lemma LowBitsSurviveWrap(x: int)
    ensures Unsigned64(x) % 4096 == x % 4096
  {
    var k := x / 0x1_0000_0000_0000_0000;
    assert Unsigned64(x) == x - (k * 0x10_0000_0000_0000) * 4096;
    ShiftByMultiple(x, k * 0x10_0000_0000_0000, 4096);
  }

  lemma {:induction false} Pow2Add(m: nat, n: nat)
    ensures Pow2(m + n) == Pow2(m) * Pow2(n)
  {
    if m > 0 {
      Pow2Add(m - 1, n);
      MulAssoc(2, Pow2(m - 1), Pow2(n));
    }
  }

  /** The powers of two that the ID layout uses. */
  lemma Pow2Values()
    ensures Pow2(5) == 32 && Pow2(12) == 4096 && Pow2(17) == 131072 && Pow2(22) == 4194304
  {
    assert Pow2(2) == 4;
    assert Pow2(5) == 32;
    Pow2Add(5, 5);
    Pow2Add(10, 2);
    Pow2Add(12, 5);
    Pow2Add(17, 5);
  }

  lemma Pow2Large()
    ensures Pow2(41) == 0x200_0000_0000
    ensures Pow2(63) == 0x8000_0000_0000_0000
  {
    Pow2Values();
    Pow2Add(17, 2);
    Pow2Add(22, 19);
    Pow2Add(41, 22);
  }

  lemma ShiftByMultiple(x: int, j: int, d: int)
    requires d > 0
    ensures (x - j * d) % d == x % d
  {
    var q, r := x / d, x % d;
    MulSub(q, j, d);
    DivModUnique(x - j * d, d, q - j, r);
  }

  lemma MulSub(a: int, b: int, c: int)
    ensures (a - b) * c == a * c - b * c
  {
  }

  /** Quotient and remainder are the only pair with `x == q * d + r`, `0 <= r < d`. */
  lemma DivModUnique(x: int, d: int, q: int, r: int)
    requires 0 < d && 0 <= r < d && x == q * d + r
    ensures x / d == q && x % d == r
  {
    var q', r' := x / d, x % d;
    assert x == q' * d + r';
    assert (q - q') * d == r' - r;
    if q > q' {
      MulAtLeastOne(q - q', d);
    } else if q < q' {
      MulAtLeastOne(q' - q, d);
    }
  }

  lemma MulDouble(a: int, p: int)
    ensures a * (2 * p) == 2 * (a * p)
  {
  }

  lemma MulAssoc(a: int, b: int, c: int)
    ensures a * (b * c) == (a * b) * c
  {
  }

  lemma MulAtLeastOne(k: int, d: int)
    requires k >= 1 && d > 0
    ensures k * d >= d
  {
  }
}
