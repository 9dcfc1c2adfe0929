/** Powers of integers and of reals. */
module Powers {
  function Pow(b: int, n: nat): int {
    if n == 0 then 1 else b * Pow(b, n - 1)
  }

  function RealPow(b: real, n: nat): real {
    if n == 0 then 1.0 else b * RealPow(b, n - 1)
  }

  lemma {:induction false} FractionPow(b: real, n: nat)
    requires 0.0 < b < 1.0
    ensures 0.0 < RealPow(b, n) <= 1.0
  {
    if n == 0 {
    } else {
      FractionPow(b, n - 1);
      Shrinks(b, RealPow(b, n - 1));
    }
  }

  lemma Shrinks(b: real, p: real)
    requires 0.0 < b < 1.0 && 0.0 < p <= 1.0
    ensures 0.0 < b * p <= 1.0
  {
    assert (1.0 - b) * p >= 0.0;
  }

  /** Bernoulli's inequality: `(1 - d)^n >= 1 - n d`. */
  lemma {:induction false} Bernoulli(d: real, n: nat)
    requires 0.0 < d < 1.0
    ensures RealPow(1.0 - d, n) >= 1.0 - n as real * d
  {
    if n == 0 {
    } else {
      Bernoulli(d, n - 1);
      FractionPow(1.0 - d, n - 1);
      BernoulliStep(RealPow(1.0 - d, n - 1), (n - 1) as real, d);
      assert (n - 1) as real == n as real - 1.0;
    }
  }

  lemma BernoulliStep(p: real, n: real, d: real)
    requires 0.0 < d < 1.0 && 0.0 < p <= 1.0 && p >= 1.0 - n * d
    ensures (1.0 - d) * p >= 1.0 - (n + 1.0) * d
  {
    assert (1.0 - p) * d >= 0.0;
  }

  lemma {:induction false} PowPositive(b: int, n: nat)
    requires b > 0
    ensures Pow(b, n) > 0
  {
    if n == 0 {
    } else {
      PowPositive(b, n - 1);
      assert b * Pow(b, n - 1) > 0;
    }
  }
}
