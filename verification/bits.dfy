/** Bitwise operators of C on non-negative integers, defined bit by bit. */
module Bits {

  function Pow2(k: nat): (p: nat)
    ensures p >= 1
  {
    if k == 0 then 1 else 2 * Pow2(k - 1)
  }

  /** `a | b` on non-negative integers. */
  function BitOr(a: nat, b: nat): (r: nat)
    decreases a + b
  {
    if a == 0 && b == 0 then 0
    else (if a % 2 == 1 || b % 2 == 1 then 1 else 0) + 2 * BitOr(a / 2, b / 2)
  }

  /** `a & b` on non-negative integers. */
  function BitAnd(a: nat, b: nat): (r: nat)
    decreases a + b
  {
    if a == 0 || b == 0 then 0
    else (if a % 2 == 1 && b % 2 == 1 then 1 else 0) + 2 * BitAnd(a / 2, b / 2)
  }

  /** `a >> k` on non-negative integers. */
  function ShiftRight(a: nat, k: nat): (r: nat)
  {
    if k == 0 then a else ShiftRight(a / 2, k - 1)
  }

  /**
   * `a << k` on non-negative integers, as the mathematical product. Where C's `int` is 16 bits
   * wide a shifted value of 0x8000 or more overflows; callers reduce the result to the width
   * they store it in.
   */
  function ShiftLeft(a: nat, k: nat): (r: nat)
  {
    if k == 0 then a else 2 * ShiftLeft(a, k - 1)
  }

  /** Quotient and remainder are determined by any exact decomposition. */
  lemma DivModUnique(u: int, q: int, r: int, d: int)
    requires 0 < d && 0 <= r < d && u == q * d + r
    ensures u / d == q && u % d == r
  {
    var q', r' := u / d, u % d;
    assert u == q' * d + r';
    assert (q - q') * d == r' - r;
    if q > q' {
      assert (q - q') * d >= d by { MulAtLeast(q - q', d); }
    } else if q < q' {
      assert (q' - q) * d >= d by { MulAtLeast(q' - q, d); }
    }
  }

  lemma MulAtLeast(a: int, d: int)
    requires a >= 1 && d > 0
    ensures a * d >= d
  {
  }

  lemma {:induction false} ShiftLeftIsMultiplication(a: nat, k: nat)
    ensures ShiftLeft(a, k) == a * Pow2(k)
  {
    if k > 0 {
      ShiftLeftIsMultiplication(a, k - 1);
    }
  }

  lemma {:induction false} BitOrZero(b: nat)
    ensures BitOr(0, b) == b
    decreases b
  {
    if b > 0 {
      BitOrZero(b / 2);
    }
  }

  /**
   * OR-ing a value below 2^k into a multiple of 2^k is addition: the two operands occupy
   * disjoint bits.
   */
  lemma {:induction false} BitOrDisjoint(l: nat, h: nat, k: nat)
    requires l < Pow2(k)
    ensures BitOr(l, h * Pow2(k)) == l + h * Pow2(k)
  {
    if k == 0 {
      assert l == 0;
      BitOrZero(h);
    } else {
      var p := Pow2(k - 1);
      var hk := h * Pow2(k);
      assert hk == 2 * (h * p);
      DivModUnique(hk, h * p, 0, 2);
      DivModUnique(l, l / 2, l % 2, 2);
      assert l / 2 < p;
      BitOrDisjoint(l / 2, h, k - 1);
      if l == 0 && hk == 0 {
      } else {
        assert BitOr(l, hk) == (if l % 2 == 1 then 1 else 0) + 2 * BitOr(l / 2, h * p);
      }
    }
  }

  /** Masking with 2^k - 1 keeps every value that already fits in k bits. */
  lemma {:induction false} BitAndMaskKeeps(s: nat, k: nat)
    requires s < Pow2(k)
    ensures BitAnd(s, Pow2(k) - 1) == s
  {
    if k > 0 && s > 0 {
      var m := Pow2(k) - 1;
      DivModUnique(m, Pow2(k - 1) - 1, 1, 2);
      BitAndMaskKeeps(s / 2, k - 1);
    }
  }

  /** Shifting right by k divides by 2^k, rounding down. */
  lemma {:induction false} ShiftRightIsDivision(a: nat, k: nat)
    ensures ShiftRight(a, k) == a / Pow2(k)
  {
    if k > 0 {
      ShiftRightIsDivision(a / 2, k - 1);
      var p := Pow2(k - 1);
      var q := (a / 2) / p;
      var r := (a / 2) % p;
      DivModUnique(a / 2, q, r, p);
      assert a == q * (2 * p) + (2 * r + a % 2);
      DivModUnique(a, q, 2 * r + a % 2, 2 * p);
    }
  }
}
