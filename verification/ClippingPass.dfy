/**
 The laws of a single clipping pass: a Chebyshev bound on what it drops, the contraction of
 the variance, and the nesting of the acceptance interval. The arithmetic lemmas speak of
 plain numbers; the lemmas that connect them to sequences hide the recursive sums.
 */
module ClippingPass {
  import opened Samples
  import opened Clipping

  // ----- far samples

  lemma {:induction false} FarWeight(r: seq<real>, a: real, w: real)
    requires forall x :: x in r ==> (x - a) * (x - a) >= w
    ensures SumSq(r, a) >= |r| as real * w
  {
    hide *;
    if r == [] {
      NoSamples(r, a);
    } else {
      var rest, x := r[..|r| - 1], r[|r| - 1];
      assert forall y :: y in rest ==> y in r;
      FarWeight(rest, a, w);
      LastStep(r, rest, x, a);
      assert x in r && |r| as real * w == |rest| as real * w + w;
    }
  }

  lemma {:induction false} FarShift(r: seq<real>, a: real, t: real)
    requires t >= 0.0
    requires forall x :: x in r ==> Abs(x - a) >= t
    ensures Abs(SumDev(r, a)) * t <= SumSq(r, a)
  {
    hide Sum, SumSq, SumDev;
    if r == [] {
      NoSamples(r, a);
    } else {
      var rest, x := r[..|r| - 1], r[|r| - 1];
      assert forall y :: y in rest ==> y in r;
      FarShift(rest, a, t);
      LastStep(r, rest, x, a);
      assert x in r;
      ShiftStep(SumDev(rest, a), x - a, SumSq(rest, a), t);
    }
  }

  lemma ShiftStep(u: real, y: real, q: real, t: real)
    requires t >= 0.0 && Abs(y) >= t && Abs(u) * t <= q
    ensures Abs(u + y) * t <= q + y * y
  {
    ScaledTriangle(u, y, t);
    LongerSquare(y, t);
  }

  lemma LongerSquare(y: real, t: real)
    requires t >= 0.0 && Abs(y) >= t
    ensures t * t <= Abs(y) * t <= y * y
  {
    assert Abs(y) * Abs(y) == y * y;
    assert (Abs(y) - t) * t >= 0.0;
    assert (Abs(y) - t) * Abs(y) >= 0.0;
  }

  lemma ScaledTriangle(u: real, y: real, t: real)
    requires t >= 0.0
    ensures Abs(u + y) * t <= Abs(u) * t + Abs(y) * t
  {
    assert (Abs(u) + Abs(y) - Abs(u + y)) * t >= 0.0;
  }

  // ----- one pass, as numbers

  /**
   `n` samples of variance `v` become `m` of variance `v2` when the `r` at distance `t` or more
   from the mean go, where `t` is three standard deviations. `dSq` and `dev` are the squared and
   the signed deviations of those `r`; `shift` is the move of the mean and `e` its square.
   */
  datatype Move = Move(n: real, m: real, r: real, v: real, v2: real, t: real, w: real,
                       dSq: real, dev: real, shift: real, e: real) {

    ghost predicate Scaled() {
      n == m + r && n > 0.0 && m >= 0.0 && r >= 0.0 && v > 0.0 && t > 0.0 && w == 9.0 * v && t * t == w
    }

    /** The variance decomposes around the old mean, and every dropped sample weighs `w` or more. */
    ghost predicate Decomposes() {
      v2 >= 0.0 && e >= 0.0 && v * n == v2 * m + m * e + dSq && dSq >= r * w
    }

    /** The deviations of kept and dropped samples cancel, and the squares outweigh them. */
    ghost predicate Shifts() {
      m * shift == -dev && e == shift * shift && Abs(dev) * t <= dSq
    }

    ghost predicate Balanced() {
      Scaled() && Decomposes() && Shifts()
    }
  }

  lemma AtMostANinth(b: Move)
    requires b.Balanced()
    ensures 9.0 * b.r <= b.n
    ensures b.m * b.v2 <= (b.n - 9.0 * b.r) * b.v
  {
    hide Move.Shifts;
    Chebyshev(b.n, b.m, b.r, b.v, b.v2, b.w, b.dSq, b.e);
  }

  lemma Chebyshev(n: real, m: real, r: real, v: real, v2: real, w: real, dSq: real, e: real)
    requires m >= 0.0 && v > 0.0 && v2 >= 0.0 && e >= 0.0 && w == 9.0 * v
    requires v * n == v2 * m + m * e + dSq && dSq >= r * w
    ensures 9.0 * r <= n
    ensures m * v2 <= (n - 9.0 * r) * v
  {
    var excess := m * e;
    assert excess >= 0.0;
    assert r * w == (9.0 * r) * v;
    assert m * v2 == v * n - excess - dSq;
    assert m * v2 >= 0.0;
    assert (9.0 * r) * v <= n * v;
    CancelFactor(9.0 * r, n, v);
  }

  /** The new interval, of half width `t2`, fits inside the old one. */
  lemma IntervalShrinks(b: Move, t2: real)
    requires b.Balanced() && t2 >= 0.0 && t2 * t2 == 9.0 * b.v2
    ensures Abs(b.shift) + t2 <= b.t
  {
    hide Move.Scaled, Move.Decomposes, Move.Shifts;
    var d := Abs(b.shift);
    AtMostANinth(b);
    ShiftWeighs(b, d);
    DroppedShare(b);
    ShiftIsSmall(b, d);
    NewVarianceFits(b, d);
    SquareOrder(t2, b.t - d);
  }

  lemma ShiftWeighs(b: Move, d: real)
    requires b.Scaled() && b.Shifts() && d == Abs(b.shift)
    ensures (b.m * d) * b.t <= b.dSq && d * d == b.e
  {
    ShiftWeighsArith(b.m, b.t, b.dSq, b.dev, b.shift, b.e, d);
  }

  lemma ShiftWeighsArith(m: real, t: real, dSq: real, dev: real, shift: real, e: real, d: real)
    requires m >= 0.0 && m * shift == -dev && Abs(dev) * t <= dSq && e == shift * shift && d == Abs(shift)
    ensures (m * d) * t <= dSq && d * d == e
  {
    assert m * d == Abs(dev);
  }

  lemma DroppedShare(b: Move)
    requires b.Scaled() && b.Decomposes()
    ensures 0.0 <= b.dSq <= b.v * b.n
  {
    assert b.m * b.e >= 0.0 && b.v2 * b.m >= 0.0 && b.r * b.w >= 0.0;
  }

  lemma ShiftIsSmall(b: Move, d: real)
    requires b.Scaled() && d >= 0.0 && 9.0 * b.r <= b.n && (b.m * d) * b.t <= b.v * b.n
    ensures d <= b.t
  {
    ShiftIsSmallArith(b.n, b.m, b.t, b.v, d);
  }

  lemma ShiftIsSmallArith(n: real, m: real, t: real, v: real, d: real)
    requires t > 0.0 && m > 0.0 && d >= 0.0 && 8.0 * n <= 9.0 * m && t * t == 9.0 * v
    requires (m * d) * t <= v * n
    ensures d <= t
  {
    assert (9.0 * (m * d)) * t <= (n * t) * t;
    CancelFactor(9.0 * (m * d), n * t, t);
    assert (8.0 * n) * t <= (9.0 * m) * t;
    assert (72.0 * d) * m <= (9.0 * t) * m;
    CancelFactor(72.0 * d, 9.0 * t, m);
  }

  lemma NewVarianceFits(b: Move, d: real)
    requires b.Scaled() && b.Decomposes() && 9.0 * b.r <= b.n
    requires d * d == b.e && b.dSq >= 0.0 && (b.m * d) * b.t <= b.dSq
    ensures 9.0 * b.v2 <= (b.t - d) * (b.t - d)
  {
    var u, m, v := b.t - d, b.m, b.v;
    assert u * u == b.w - 2.0 * (d * b.t) + b.e;
    VarianceRoom(b.n, m, b.r, v, b.v2, b.w, b.dSq, b.e, d * b.t, u * u) by { assert (m * d) * b.t == m * (d * b.t); }
  }

  lemma VarianceRoom(n: real, m: real, r: real, v: real, v2: real, w: real, dSq: real, e: real, dt: real, uu: real)
    requires n == m + r && m > 0.0 && w == 9.0 * v && e >= 0.0 && dSq >= 0.0
    requires v * n == v2 * m + m * e + dSq && dSq >= r * w
    requires m * dt <= dSq && uu == w - 2.0 * dt + e
    ensures 9.0 * v2 <= uu
  {
    assert m * e >= 0.0;
    assert v * n == v * m + v * r;
    assert uu * m == 9.0 * (v * m) - 2.0 * (m * dt) + m * e;
    assert (9.0 * v2) * m <= uu * m;
    CancelFactor(9.0 * v2, uu, m);
  }

  lemma SquareOrder(a: real, b: real)
    requires a >= 0.0 && b >= 0.0 && a * a <= b * b
    ensures a <= b
  {
    if a + b > 0.0 {
      assert a * (a + b) <= b * (a + b);
      CancelFactor(a, b, a + b);
    }
  }

  /** One outlier alone needs nine companions: Samuelson's inequality at three deviations. */
  lemma LoneOutlier(b: Move)
    requires b.Balanced() && b.r == 1.0 && b.dSq == b.dev * b.dev
    ensures b.n >= 10.0
  {
    hide Move.Scaled, Move.Decomposes;
    SquaredMove(b.m, b.shift, b.e, b.dev);
    LoneOutlierArith(b);
  }

  lemma SquaredMove(m: real, shift: real, e: real, dev: real)
    requires m * shift == -dev && e == shift * shift
    ensures m * (m * e) == dev * dev
  {
    assert (m * shift) * (m * shift) == m * (m * (shift * shift));
  }

  lemma LoneOutlierArith(b: Move)
    requires b.Scaled() && b.Decomposes() && b.r == 1.0 && b.m * (b.m * b.e) == b.dSq
    ensures b.n >= 10.0
  {
    CompanionsArith(b.n, b.m, b.v, b.v2, b.e, b.dSq);
  }

  lemma CompanionsArith(n: real, m: real, v: real, v2: real, e: real, dSq: real)
    requires n == m + 1.0 && m >= 0.0 && v > 0.0 && v2 >= 0.0 && dSq >= 9.0 * v
    requires v * n == v2 * m + m * e + dSq && m * (m * e) == dSq
    ensures m >= 9.0
  {
    var q := v2 * m;
    assert q >= 0.0;
    assert q * m >= 0.0;
    assert (v * n) * m == q * m + m * (m * e) + dSq * m;
    assert dSq * n == dSq * m + dSq;
    assert (dSq - 9.0 * v) * n >= 0.0;
    assert n * v > 0.0;
    CancelFactor(9.0, m, n * v);
  }

  // ----- one pass, as sequences

  /** `s` is shared out between `k` and `r`, where `r` lies at distance `t` or more from `a`. */
  ghost predicate SplitAt(s: seq<real>, k: seq<real>, r: seq<real>, a: real, t: real) {
    && |s| == |k| + |r| && Sum(s) == Sum(k) + Sum(r) && SumSq(s, a) == SumSq(k, a) + SumSq(r, a)
    && forall x :: x in r ==> Abs(x - a) >= t
  }

  /** A pass over `s` with a positive deviation kept `k` and dropped `r`. */
  ghost predicate Pass(root: real -> real, s: seq<real>, k: seq<real>, r: seq<real>) {
    IsSqrt(root) && s != [] && root(Variance(s)) > 0.0
    && SplitAt(s, k, r, Mean(s), TOLERANCE * root(Variance(s)))
  }

  lemma PassByGate(root: real -> real, s: seq<real>)
    requires IsSqrt(root) && s != [] && root(Variance(s)) > 0.0
    ensures Pass(root, s, Kept(s, Spread(root, s)), Dropped(s, Spread(root, s)))
  {
    Partition(s, Spread(root, s), Mean(s));
    DroppedMembers(s, Spread(root, s));
  }

  ghost function MoveOf(root: real -> real, s: seq<real>, k: seq<real>, r: seq<real>): Move {
    Move(|s| as real, |k| as real, |r| as real, Variance(s), Variance(k), TOLERANCE * root(Variance(s)),
         9.0 * Variance(s), SumSq(r, Mean(s)), SumDev(r, Mean(s)), Mean(k) - Mean(s),
         (Mean(k) - Mean(s)) * (Mean(k) - Mean(s)))
  }

  lemma PassBalances(root: real -> real, s: seq<real>, k: seq<real>, r: seq<real>)
    requires Pass(root, s, k, r)
    ensures MoveOf(root, s, k, r).Balanced()
  {
    hide Sum, SumSq, SumDev, Mean, Variance, MoveOf, Pass, Move.Scaled, Move.Decomposes, Move.Shifts;
    var b := MoveOf(root, s, k, r);
    PassScales(root, s, k, r, b);
    ScaledIsPositive(b);
    PassDecomposes(root, s, k, r, b);
    PassShifts(root, s, k, r, b);
  }

  lemma ScaledIsPositive(b: Move)
    requires b.Scaled()
    ensures b.t > 0.0
  {
  }

  lemma PassScales(root: real -> real, s: seq<real>, k: seq<real>, r: seq<real>, b: Move)
    requires Pass(root, s, k, r) && b == MoveOf(root, s, k, r)
    ensures b.Scaled()
  {
    hide Sum, SumSq, SumDev, Mean, Variance;
    MeanTimesCount(s);
    SquaredDeviation(root, b.v);
  }

  lemma PassDecomposes(root: real -> real, s: seq<real>, k: seq<real>, r: seq<real>, b: Move)
    requires Pass(root, s, k, r) && b == MoveOf(root, s, k, r) && b.Scaled()
    ensures b.Decomposes()
  {
    hide Sum, SumSq, SumDev, Mean, Variance;
    var a := Mean(s);
    SquareNonNegative(b.shift);
    assert b.dSq >= b.r * b.w by {
      forall x | x in r ensures (x - a) * (x - a) >= b.w { LongerSquare(x - a, b.t); }
      FarWeight(r, a, b.w);
    }
    KeptBalance(k, a);
    assert b.v * b.n == SumSq(s, a) by { MeanTimesCount(s); }
  }

  lemma PassShifts(root: real -> real, s: seq<real>, k: seq<real>, r: seq<real>, b: Move)
    requires Pass(root, s, k, r) && b == MoveOf(root, s, k, r) && b.t > 0.0
    ensures b.Shifts()
  {
    hide Sum, SumSq, SumDev, Mean, Variance;
    var a := Mean(s);
    FarShift(r, a, b.t);
    KeptMean(k, a);
    assert SumDev(k, a) == -b.dev by { MeanTimesCount(s); DeviationsCancel(s, k, r, a); }
  }

  lemma KeptMean(k: seq<real>, a: real)
    ensures |k| as real * (Mean(k) - a) == SumDev(k, a)
  {
    hide Sum, SumSq, SumDev, Mean, Variance;
    MeanTimesCount(k);
    SumOfDeviations(k, a);
  }

  lemma KeptBalance(k: seq<real>, a: real)
    ensures SumSq(k, a) == Variance(k) * |k| as real + |k| as real * ((Mean(k) - a) * (Mean(k) - a))
    ensures Variance(k) >= 0.0
  {
    hide Sum, SumSq, SumDev, Mean, Variance;
    MeanTimesCount(k);
    AroundMean(k, a, Mean(k), Variance(k));
  }

  lemma DeviationsCancel(s: seq<real>, k: seq<real>, r: seq<real>, a: real)
    requires |s| == |k| + |r| && Sum(s) == Sum(k) + Sum(r) && a * |s| as real == Sum(s)
    ensures SumDev(k, a) == -SumDev(r, a)
  {
    hide *;
    SumOfDeviations(s, a); SumOfDeviations(k, a); SumOfDeviations(r, a);
    assert |s| as real == |k| as real + |r| as real;
    assert |s| as real * a == |k| as real * a + |r| as real * a;
  }

  lemma SquaredDeviation(root: real -> real, v: real)
    requires IsSqrt(root) && v >= 0.0
    ensures root(v) >= 0.0 && (TOLERANCE * root(v)) * (TOLERANCE * root(v)) == 9.0 * v
    ensures root(v) > 0.0 ==> v > 0.0
  {
    var x := root(v);
    assert (TOLERANCE * x) * (TOLERANCE * x) == 9.0 * (x * x);
    if x > 0.0 { PositiveProduct(x, x, v); }
  }

  lemma PositiveProduct(x: real, y: real, p: real)
    requires x > 0.0 && y > 0.0 && x * y == p
    ensures p > 0.0
  {
  }

  // The laws of one clipping pass over `s`, in terms of the samples `k` it keeps and `r` it drops.

  lemma DropsFew(root: real -> real, s: seq<real>, k: seq<real>, r: seq<real>)
    requires Pass(root, s, k, r)
    ensures 9 * |r| <= |s|
    ensures |k| as real * Variance(k) <= (|s| as real - 9.0 * |r| as real) * Variance(s)
  {
    hide Sum, SumSq, SumDev, Mean, Variance, Move.Balanced;
    PassBalances(root, s, k, r);
    var b := MoveOf(root, s, k, r);
    AtMostANinth(b);
  }

  lemma Narrows(root: real -> real, s: seq<real>, k: seq<real>, r: seq<real>)
    requires Pass(root, s, k, r)
    ensures Narrower(Spread(root, k), Spread(root, s))
  {
    hide Sum, SumSq, SumDev, Mean, Variance, Move.Balanced;
    PassBalances(root, s, k, r);
    MeanTimesCount(k);
    SquaredDeviation(root, Variance(k));
    IntervalShrinks(MoveOf(root, s, k, r), TOLERANCE * root(Variance(k)));
  }

  lemma SparesFew(root: real -> real, s: seq<real>, k: seq<real>, r: seq<real>)
    requires Pass(root, s, k, r) && |s| <= 9
    ensures r == []
  {
    hide Sum, SumSq, SumDev, Mean, Variance, Move.Balanced;
    DropsFew(root, s, k, r);
    if |r| == 1 {
      LoneSample(r, Mean(s));
      PassBalances(root, s, k, r);
      LoneOutlier(MoveOf(root, s, k, r));
    }
  }

  lemma LoneSample(r: seq<real>, a: real)
    requires |r| == 1
    ensures SumSq(r, a) == SumDev(r, a) * SumDev(r, a)
  {
  }
}
