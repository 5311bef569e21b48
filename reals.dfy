/** Arithmetic on exact reals that the probability code shares. */
module Reals {

  /** `min(max(x, lo), hi)` as Python writes the clamps. */
  function Clamp(x: real, lo: real, hi: real): (r: real)
    requires lo <= hi
    ensures lo <= r <= hi
    ensures lo <= x <= hi ==> r == x
    ensures x < lo ==> r == lo
    ensures x > hi ==> r == hi
  {
    if x < lo then lo else if x > hi then hi else x
  }

  /** `x ** n` for a natural exponent; `Pow(0.0, 0) == 1.0` as in Python. */
  function Pow(x: real, n: nat): real {
    if n == 0 then 1.0 else x * Pow(x, n - 1)
  }

  lemma {:induction false} PowNonNegative(x: real, n: nat)
    requires x >= 0.0
    ensures Pow(x, n) >= 0.0
  {
    if n > 0 {
      PowNonNegative(x, n - 1);
      assert x * Pow(x, n - 1) >= 0.0;
    }
  }

  /** A weighted average with weight `w` in [0, 1] stays between any common bounds of its two terms. */
  lemma ConvexBetween(w: real, x: real, y: real, lo: real, hi: real)
    requires 0.0 <= w <= 1.0
    requires lo <= x <= hi && lo <= y <= hi
    ensures lo <= w * x + (1.0 - w) * y <= hi
  {
    assert w * (x - lo) >= 0.0;
    assert (1.0 - w) * (y - lo) >= 0.0;
    assert w * (hi - x) >= 0.0;
    assert (1.0 - w) * (hi - y) >= 0.0;
  }

  /** `w * x + (1 - w) * y`: the two-branch step every scoring chain takes. */
  function Mix(w: real, x: real, y: real): real {
    w * x + (1.0 - w) * y
  }

  lemma MixBetween(w: real, x: real, y: real, lo: real, hi: real)
    requires 0.0 <= w <= 1.0
    requires lo <= x <= hi && lo <= y <= hi
    ensures lo <= Mix(w, x, y) <= hi
  {
    ConvexBetween(w, x, y, lo, hi);
  }

  /**
   * A mixture grows with both branches and, when the first branch is the larger,
   * with its weight: the step behind every monotonicity proof of the chains.
   */
  lemma MixMono(w1: real, w2: real, x1: real, x2: real, y1: real, y2: real)
    requires 0.0 <= w1 <= w2 <= 1.0
    requires x1 <= x2 && y1 <= y2 && y2 <= x2
    ensures Mix(w1, x1, y1) <= Mix(w2, x2, y2)
  {
    assert w1 * (x2 - x1) >= 0.0;
    assert (1.0 - w1) * (y2 - y1) >= 0.0;
    assert (w2 - w1) * (x2 - y2) >= 0.0;
  }

  /** The complementary chain takes the complementary step: the two mixtures sum to 1. */
  lemma MixComplement(w: real, x: real, y: real, xc: real, yc: real)
    requires x + xc == 1.0 && y + yc == 1.0
    ensures Mix(w, x, y) + Mix(1.0 - w, yc, xc) == 1.0
  {
    assert (1.0 - w) * yc == (1.0 - w) - (1.0 - w) * y;
    assert (1.0 - (1.0 - w)) * xc == w - w * x;
  }

  /** Swapping the branches of a mixture swaps its weight for the complement. */
  lemma MixFlip(w: real, x: real, y: real)
    ensures Mix(1.0 - w, x, y) == Mix(w, y, x)
  {
  }

  /** Two outcomes that split every branch between them also split the mixture. */
  lemma MixPartition(w: real, x: real, y: real, xc: real, yc: real)
    requires x + xc == 1.0 && y + yc == 1.0
    ensures Mix(w, x, y) + Mix(w, xc, yc) == 1.0
  {
    assert w * xc == w - w * x;
    assert (1.0 - w) * yc == (1.0 - w) - (1.0 - w) * y;
  }

  /** The arithmetic of Pascal's rule for path probabilities: both branches share the factor `w x (1 - w) y`. */
  lemma PascalMix(w: real, c1: real, c2: real, x: real, y: real)
    ensures Mix(w, c1 * x * ((1.0 - w) * y), c2 * (w * x) * y) == (c1 + c2) * (w * x) * ((1.0 - w) * y)
  {
    assert w * (c1 * x * ((1.0 - w) * y)) == c1 * (w * x) * ((1.0 - w) * y);
    assert (1.0 - w) * (c2 * (w * x) * y) == c2 * (w * x) * ((1.0 - w) * y);
  }

  /** `w * x`, named so that a weighted sum over a dictionary stays linear in its entries. */
  function Scale(w: real, x: real): real {
    w * x
  }

  /** Binomial coefficient by Pascal's rule. */
  function Choose(n: nat, k: nat): nat {
    if k == 0 then 1
    else if n == 0 then 0
    else Choose(n - 1, k - 1) + Choose(n - 1, k)
  }

  lemma {:induction false} ChooseAll(n: nat)
    ensures Choose(n, n) == 1
  {
    if n > 0 {
      ChooseAll(n - 1);
      ChooseAbove(n - 1, n);
    }
  }

  lemma {:induction false} ChooseAbove(n: nat, k: nat)
    requires k > n
    ensures Choose(n, k) == 0
  {
    if n > 0 {
      ChooseAbove(n - 1, k - 1);
      ChooseAbove(n - 1, k);
    }
  }
}
