/** Whole runs of the clipping loop: what every reached pass keeps, and what the final outputs mean. */
module ClippingRuns {
  import opened Powers
  import opened Samples
  import opened Clipping
  import opened ClippingPass

  /** A pass that was not quiet leaves a positive deviation. */
  lemma NotQuietSpread(root: real -> real, data: seq<real>, p: nat)
    requires !Quiet(root, data, p)
    ensures root(Variance(KeptAt(root, data, p))) > 0.0
  {
    var m, sd := Mean(KeptAt(root, data, p)), root(Variance(KeptAt(root, data, p)));
    assert m > 0.0 && sd / m > 0.0;
    assert sd == (sd / m) * m;
  }

  /** A pass is quiet when the mean is below a thousandth, or the deviation below a thousandth of the mean. */
  lemma QuietMeans(root: real -> real, data: seq<real>, p: nat)
    requires IsSqrt(root)
    ensures var k := KeptAt(root, data, p);
            Quiet(root, data, p) <==> Mean(k) < 0.001 || 1000000.0 * Variance(k) < Mean(k) * Mean(k)
  {
    hide Mean, Variance, KeptAt;
    var k := KeptAt(root, data, p);
    MeanTimesCount(k);
    if Mean(k) >= 0.001 { ThousandthOf(root(Variance(k)), Variance(k), Mean(k)); }
  }

  lemma QuotientBelow(x: real, n: real, b: real)
    requires n > 0.0
    ensures x / n < b <==> x < b * n
  {
    var q := x / n;
    assert q * n == x;
    if x >= b * n { CancelFactor(b, q, n); }
    if x < b * n && q >= b { CancelFactor(q, b, n); }
  }

  lemma SquaresCompare(x: real, y: real)
    requires x >= 0.0 && y >= 0.0
    ensures x * x < y * y <==> x < y
  {
    assert y * y - x * x == (y - x) * (y + x);
    if x < y {
      PositiveProduct(y - x, y + x, (y - x) * (y + x));
    } else {
      assert (x - y) * (x + y) >= 0.0;
    }
  }

  lemma ThousandthOf(sd: real, v: real, m: real)
    requires m > 0.0 && sd >= 0.0 && sd * sd == v
    ensures sd / m < 0.001 <==> 1000000.0 * v < m * m
  {
    var t := 1000.0 * sd;
    QuotientBelow(sd, m, 0.001);
    assert t * t == 1000000.0 * v;
    SquaresCompare(t, m);
  }

  /** Each reached pass filters what the pass before it kept, although the code rescans the whole array. */
  lemma {:induction false} RescanIsRefilter(root: real -> real, data: seq<real>, p: nat)
    requires IsSqrt(root) && data != [] && p > 0 && Reached(root, data, p)
    ensures KeptAt(root, data, p - 1) != []
    ensures KeptAt(root, data, p) == Kept(KeptAt(root, data, p - 1), GateAt(root, data, p))
    ensures Narrower(GateAt(root, data, p), GateAt(root, data, p - 1))
    decreases p
  {
    if p == 1 {
      KeptEverything(data, Everything);
    } else {
      RescanIsRefilter(root, data, p - 1);
      PassReached(root, data, p - 1);
    }
    KeptTwice(data, GateAt(root, data, p - 1), GateAt(root, data, p));
  }

  lemma PassReached(root: real -> real, data: seq<real>, p: nat)
    requires IsSqrt(root) && data != [] && p > 0 && Reached(root, data, p)
    requires KeptAt(root, data, p - 1) != []
    requires KeptAt(root, data, p) == Kept(KeptAt(root, data, p - 1), GateAt(root, data, p))
    ensures KeptAt(root, data, p) != []
    ensures Narrower(GateAt(root, data, p + 1), GateAt(root, data, p))
  {
    var s, g := KeptAt(root, data, p - 1), GateAt(root, data, p);
    assert !StopsAt(root, data, p - 1);
    NotQuietSpread(root, data, p - 1);
    PassByGate(root, s);
    DropsFew(root, s, Kept(s, g), Dropped(s, g));
    Narrows(root, s, Kept(s, g), Dropped(s, g));
  }

  // ----- nesting

  /** The acceptance interval of every reached pass lies inside that of every earlier one. */
  lemma {:induction false} IntervalsNest(root: real -> real, data: seq<real>, q: nat, p: nat)
    requires IsSqrt(root) && data != [] && q <= p && Reached(root, data, p)
    ensures Narrower(GateAt(root, data, p), GateAt(root, data, q))
    decreases p - q
  {
    if q == p {
    } else {
      RescanIsRefilter(root, data, p);
      IntervalsNest(root, data, q, p - 1);
    }
  }

  /** A value some pass rejects is rejected by every later pass. */
  lemma NeverReadmitted(root: real -> real, data: seq<real>, q: nat, p: nat, x: real)
    requires IsSqrt(root) && data != [] && q <= p && Reached(root, data, p)
    requires !Admits(GateAt(root, data, q), x)
    ensures !Admits(GateAt(root, data, p), x)
  {
    IntervalsNest(root, data, q, p);
  }

  // ----- how much a pass removes

  lemma KeptNonEmpty(root: real -> real, data: seq<real>, p: nat)
    requires IsSqrt(root) && data != [] && Reached(root, data, p)
    ensures KeptAt(root, data, p) != []
  {
    if p == 0 {
      KeptEverything(data, Everything);
    } else {
      RescanIsRefilter(root, data, p);
      PassReached(root, data, p);
    }
  }

  /** A pass keeps at least eight ninths of what the pass before it kept. */
  lemma KeepsEightNinths(root: real -> real, data: seq<real>, p: nat)
    requires IsSqrt(root) && data != [] && p > 0 && Reached(root, data, p)
    ensures 8 * |KeptAt(root, data, p - 1)| <= 9 * |KeptAt(root, data, p)|
    ensures |KeptAt(root, data, p)| <= |KeptAt(root, data, p - 1)|
  {
    RescanIsRefilter(root, data, p);
    var s, g := KeptAt(root, data, p - 1), GateAt(root, data, p);
    assert !StopsAt(root, data, p - 1);
    NotQuietSpread(root, data, p - 1);
    PassByGate(root, s);
    DropsFew(root, s, Kept(s, g), Dropped(s, g));
  }

  /** Over its at most five passes a run keeps more than 62 per cent of the array: `(8/9)^4` of it. */
  lemma RunKeepsMost(root: real -> real, data: seq<real>)
    requires IsSqrt(root) && data != []
    ensures 4096 * |data| <= 6561 * |FinalKept(root, data)|
  {
    var p := FinalPass(root, data);
    assert StopsAt(root, data, MAX_ITER - 1);
    KeepsMostSoFar(root, data, p);
    PowersOfEightAndNine(p, |data|, |KeptAt(root, data, p)|);
  }

  lemma {:induction false} KeepsMostSoFar(root: real -> real, data: seq<real>, p: nat)
    requires IsSqrt(root) && data != [] && Reached(root, data, p)
    ensures Pow(8, p) * |data| <= Pow(9, p) * |KeptAt(root, data, p)|
  {
    if p == 0 {
      KeptEverything(data, Everything);
    } else {
      KeepsMostSoFar(root, data, p - 1);
      KeepsEightNinths(root, data, p);
      PowPositive(9, p - 1);
      OnePassMore(Pow(8, p - 1), Pow(9, p - 1), |data|, |KeptAt(root, data, p - 1)|, |KeptAt(root, data, p)|);
    }
  }

  lemma OnePassMore(a: int, b: int, n: int, m: int, k: int)
    requires b > 0 && a * n <= b * m && 8 * m <= 9 * k
    ensures (8 * a) * n <= (9 * b) * k
  {
    assert (9 * k - 8 * m) * b >= 0;
    assert (8 * a) * n == 8 * (a * n);
  }

  lemma PowersOfEightAndNine(p: nat, n: nat, k: nat)
    requires p <= 4 && Pow(8, p) * n <= Pow(9, p) * k
    ensures 4096 * n <= 6561 * k
  {
    assert Pow(8, 1) == 8 && Pow(8, 2) == 64 && Pow(8, 3) == 512 && Pow(8, 4) == 4096;
    assert Pow(9, 1) == 9 && Pow(9, 2) == 81 && Pow(9, 3) == 729 && Pow(9, 4) == 6561;
  }

  /** Dropping `r` of `n` samples leaves `(n - r) * new <= (n - 9 r) * old` of the variance. */
  lemma VarianceContracts(root: real -> real, data: seq<real>, p: nat, s: seq<real>, k: seq<real>)
    requires IsSqrt(root) && data != [] && p > 0 && Reached(root, data, p)
    requires s == KeptAt(root, data, p - 1) && k == KeptAt(root, data, p)
    ensures |k| as real * Variance(k) <= (|s| as real - 9.0 * (|s| - |k|) as real) * Variance(s)
    ensures Variance(k) <= Variance(s)
  {
    RescanIsRefilter(root, data, p);
    var g := GateAt(root, data, p);
    assert !StopsAt(root, data, p - 1);
    NotQuietSpread(root, data, p - 1);
    PassByGate(root, s);
    VarianceFalls(root, s, k, Dropped(s, g));
  }

  lemma VarianceFalls(root: real -> real, s: seq<real>, k: seq<real>, r: seq<real>)
    requires Pass(root, s, k, r)
    ensures |k| as real * Variance(k) <= (|s| as real - 9.0 * (|s| - |k|) as real) * Variance(s)
    ensures Variance(k) <= Variance(s)
  {
    hide Sum, SumSq, SumDev, Mean, Variance;
    DropsFew(root, s, k, r);
    MeanTimesCount(s);
    FewerTimesLess(|k| as real, |s| as real, |r| as real, (|s| - |k|) as real, Variance(k), Variance(s));
  }

  lemma FewerTimesLess(m: real, n: real, r: real, d: real, v2: real, v: real)
    requires m > 0.0 && n == m + r && r == d && r >= 0.0 && v >= 0.0 && m * v2 <= (n - 9.0 * r) * v
    ensures m * v2 <= (n - 9.0 * d) * v
    ensures v2 <= v
  {
    assert (m - (n - 9.0 * r)) * v >= 0.0;
    CancelFactor(v2, v, m);
  }

  // ----- the three ways out of the loop

  /** Once a pass has dropped a sample, every later pass drops one, so the loop cannot end unchanged. */
  lemma {:induction false} DroppingPersists(root: real -> real, data: seq<real>, q: nat, p: nat)
    requires IsSqrt(root) && data != [] && q <= p && Reached(root, data, p)
    requires |KeptAt(root, data, q)| < |data|
    ensures |KeptAt(root, data, p)| < |data|
    decreases p - q
  {
    if q == p {
    } else {
      DroppingPersists(root, data, q, p - 1);
      KeepsEightNinths(root, data, p);
    }
  }

  /** A run that stops because nothing changed stops at its second pass, having kept the whole array. */
  lemma UnchangedStops(root: real -> real, data: seq<real>, p: nat)
    requires IsSqrt(root) && data != [] && Reached(root, data, p) && Unchanged(root, data, p)
    ensures p == 1 && KeptAt(root, data, p) == data
  {
    if p > 1 {
      KeptMembers(data, GateAt(root, data, 1));
      assert !StopsAt(root, data, 1);
      DroppingPersists(root, data, 1, p);
    }
    KeptAllIsWhole(data, GateAt(root, data, p));
  }

  /** With nine samples or fewer nothing is ever dropped, and the loop makes at most two passes. */
  lemma NineOrFewer(root: real -> real, data: seq<real>, p: nat)
    requires IsSqrt(root) && 0 < |data| <= 9 && Reached(root, data, p)
    ensures p <= 1 && KeptAt(root, data, p) == data
  {
    KeptEverything(data, Everything);
    if p >= 1 {
      NineOrFewerFirst(root, data);
      assert p > 1 ==> !StopsAt(root, data, 1);
    }
  }

  lemma NineOrFewerFirst(root: real -> real, data: seq<real>)
    requires IsSqrt(root) && 0 < |data| <= 9 && Reached(root, data, 1)
    ensures KeptAt(root, data, 1) == data
  {
    KeptEverything(data, Everything);
    assert !StopsAt(root, data, 0);
    NotQuietSpread(root, data, 0);
    var g := GateAt(root, data, 1);
    PassByGate(root, data);
    SparesFew(root, data, Kept(data, g), Dropped(data, g));
    KeptAllIsWhole(data, g);
  }

  // ----- how a run ends

  /**
   The loop ends unchanged exactly when its second pass keeps the whole array. Once that pass
   has dropped a sample, the run can only end quiet or at the last pass.
   */
  lemma ExitsExactly(root: real -> real, data: seq<real>)
    requires IsSqrt(root) && data != []
    ensures var f := FinalPass(root, data);
            && (Unchanged(root, data, f) <==> Reached(root, data, 1) && KeptAt(root, data, 1) == data)
            && (!Unchanged(root, data, f) ==> Quiet(root, data, f) || f == MAX_ITER - 1)
  {
    var f := FinalPass(root, data);
    if Unchanged(root, data, f) { UnchangedStops(root, data, f); }
    if Reached(root, data, 1) && KeptAt(root, data, 1) == data { FinalPassUnique(root, data, 1); }
    assert StopsAt(root, data, MAX_ITER - 1);
  }

  /** A pass that drops nothing further settles every later gate and kept set, reached or not. */
  lemma {:induction false} StallIsForever(root: real -> real, data: seq<real>, p: nat, q: nat)
    requires IsSqrt(root) && data != [] && 0 < p <= q && Reached(root, data, p)
    requires |KeptAt(root, data, p)| == |KeptAt(root, data, p - 1)|
    ensures GateAt(root, data, q) == GateAt(root, data, p) && KeptAt(root, data, q) == KeptAt(root, data, p)
    decreases q - p
  {
    if q == p {
    } else {
      StallIsForever(root, data, p, q - 1);
      RescanIsRefilter(root, data, p);
      KeptAllIsWhole(KeptAt(root, data, p - 1), GateAt(root, data, p));
    }
  }

  /** The final kept set is what its own mean and deviation would keep of the array. */
  predicate Settled(root: real -> real, data: seq<real>) {
    Kept(data, Spread(root, FinalKept(root, data))) == FinalKept(root, data)
  }

  lemma FinalRefilter(root: real -> real, data: seq<real>)
    requires IsSqrt(root) && data != []
    ensures var k := FinalKept(root, data);
            k != [] && Kept(data, Spread(root, k)) == Kept(k, Spread(root, k))
  {
    var f, k := FinalPass(root, data), FinalKept(root, data);
    KeptNonEmpty(root, data, f);
    if f > 0 {
      RescanIsRefilter(root, data, f);
      PassReached(root, data, f);
    }
    KeptTwice(data, GateAt(root, data, f), Spread(root, k));
  }

  /** Clipping has settled exactly when every kept sample lies within three deviations of the mean. */
  lemma SettledExactly(root: real -> real, data: seq<real>)
    requires IsSqrt(root) && data != []
    ensures var k := FinalKept(root, data);
            Settled(root, data) <==> forall x :: x in k ==> Abs(x - Mean(k)) < TOLERANCE * root(Variance(k))
  {
    hide Mean, Variance, Kept, FinalKept;
    var k := FinalKept(root, data);
    var g := Spread(root, k);
    FinalRefilter(root, data);
    KeptMembers(k, g);
    assert Kept(k, g) == k <==> forall x :: x in k ==> Admits(g, x) by {
      if forall x :: x in k ==> Admits(g, x) { KeptEverything(k, g); }
    }
  }

  /**
   A run that is not quiet at its end but has not settled was cut off by the pass limit: every
   pass dropped a sample, and ten or more are still kept.
   */
  lemma UnsettledWasCutOff(root: real -> real, data: seq<real>)
    requires IsSqrt(root) && data != []
    requires !Settled(root, data) && !Quiet(root, data, FinalPass(root, data))
    ensures FinalPass(root, data) == MAX_ITER - 1
    ensures 10 <= |FinalKept(root, data)| <= |data| - (MAX_ITER - 1)
    ensures forall p :: 0 < p < MAX_ITER ==> |KeptAt(root, data, p)| < |KeptAt(root, data, p - 1)|
  {
    var f, k := FinalPass(root, data), FinalKept(root, data);
    FinalRefilter(root, data);
    ManyLeft(root, data);
    ExitsExactly(root, data);
    KeptEverything(data, Everything);
    if Unchanged(root, data, f) { NotStalled(root, data, f); }
    StrictDrops(root, data, f);
    forall p: nat | 0 < p <= f ensures |KeptAt(root, data, p)| < |KeptAt(root, data, p - 1)| {
      NotStalled(root, data, p);
    }
  }

  /** Every pass of a run that has not settled dropped a sample. */
  lemma NotStalled(root: real -> real, data: seq<real>, p: nat)
    requires IsSqrt(root) && data != [] && 0 < p <= FinalPass(root, data) && !Settled(root, data)
    ensures |KeptAt(root, data, p)| < |KeptAt(root, data, p - 1)|
  {
    KeepsEightNinths(root, data, p);
    if |KeptAt(root, data, p)| == |KeptAt(root, data, p - 1)| {
      StallIsForever(root, data, p, FinalPass(root, data));
      StallIsForever(root, data, p, FinalPass(root, data) + 1);
    }
  }

  lemma ManyLeft(root: real -> real, data: seq<real>)
    requires IsSqrt(root) && data != []
    requires !Settled(root, data) && !Quiet(root, data, FinalPass(root, data))
    ensures |FinalKept(root, data)| >= 10
  {
    var k := FinalKept(root, data);
    var g := Spread(root, k);
    FinalRefilter(root, data);
    NotQuietSpread(root, data, FinalPass(root, data));
    PassByGate(root, k);
    if |k| <= 9 {
      SparesFew(root, k, Kept(k, g), Dropped(k, g));
      KeptAllIsWhole(k, g);
    }
  }

  lemma {:induction false} StrictDrops(root: real -> real, data: seq<real>, p: nat)
    requires IsSqrt(root) && data != [] && p <= FinalPass(root, data) && Reached(root, data, p)
    requires !Settled(root, data)
    ensures |KeptAt(root, data, p)| + p <= |data|
  {
    if p == 0 {
      KeptEverything(data, Everything);
    } else {
      StrictDrops(root, data, p - 1);
      NotStalled(root, data, p);
    }
  }

  // ----- settling, as a condition on the array

  /** All samples lie within three deviations of their mean. */
  predicate AllWithin(root: real -> real, data: seq<real>) {
    forall x :: x in data ==> Abs(x - Mean(data)) < TOLERANCE * root(Variance(data))
  }

  /** An array without a three-deviation outlier is kept whole and has settled. */
  lemma NoOutlierSettles(root: real -> real, data: seq<real>)
    requires IsSqrt(root) && data != [] && AllWithin(root, data)
    ensures FinalKept(root, data) == data && Settled(root, data)
  {
    hide Mean, Variance, Kept;
    var f := FinalPass(root, data);
    KeptEverything(data, Everything);
    KeptEverything(data, Spread(root, data));
    assert KeptAt(root, data, 0) == data && KeptAt(root, data, 1) == data;
    if f > 0 { FinalPassUnique(root, data, 1); }
  }

  /** A run that is quiet at once has settled exactly when there is no outlier. */
  lemma QuietSettlesExactly(root: real -> real, data: seq<real>)
    requires IsSqrt(root) && data != [] && Quiet(root, data, 0)
    ensures Settled(root, data) <==> AllWithin(root, data)
  {
    hide Mean, Variance, Kept;
    KeptEverything(data, Everything);
    FinalPassUnique(root, data, 0);
    SettledExactly(root, data);
  }

  /** Up to nine samples have settled exactly when they are not all equal. */
  lemma SmallSettlesExactly(root: real -> real, data: seq<real>)
    requires IsSqrt(root) && 0 < |data| <= 9
    ensures Settled(root, data) <==> exists x, y :: x in data && y in data && x != y
  {
    hide Mean, Variance, Kept, Dropped;
    SpreadOfDistinct(root, data);
    if root(Variance(data)) > 0.0 {
      var g := Spread(root, data);
      PassByGate(root, data);
      SparesFew(root, data, Kept(data, g), Dropped(data, g));
      KeptAllIsWhole(data, g);
      KeptMembers(data, g);
      NoOutlierSettles(root, data);
    } else {
      EqualNeverSettles(root, data);
    }
  }

  /** Equal samples leave an empty gate: whatever their number, the run is quiet and has not settled. */
  lemma EqualNeverSettles(root: real -> real, data: seq<real>)
    requires IsSqrt(root) && data != [] && !exists x, y :: x in data && y in data && x != y
    ensures Quiet(root, data, 0) && !Settled(root, data)
  {
    hide Mean, Variance, Kept;
    SpreadOfDistinct(root, data);
    KeptEverything(data, Everything);
    assert KeptAt(root, data, 0) == data && root(Variance(data)) == 0.0;
    QuietSettlesExactly(root, data);
    assert data[0] in data && !(Abs(data[0] - Mean(data)) < TOLERANCE * 0.0);
  }

  /** The deviation is positive exactly when two samples differ. */
  lemma SpreadOfDistinct(root: real -> real, data: seq<real>)
    requires IsSqrt(root) && data != []
    ensures root(Variance(data)) >= 0.0
    ensures root(Variance(data)) > 0.0 <==> exists x, y :: x in data && y in data && x != y
  {
    hide Sum, SumSq, Mean, Variance;
    MeanTimesCount(data);
    SquaredDeviation(root, Variance(data));
    assert data[0] in data;
    if forall x :: x in data ==> x == data[0] {
      EqualVariance(data, data[0]);
      RootOfZero(root);
    } else {
      if Variance(data) == 0.0 { NoSquares(data, Mean(data)); }
      assert Variance(data) > 0.0;
      RootOfPositive(root, Variance(data));
    }
  }

  lemma RootOfZero(root: real -> real)
    requires IsSqrt(root)
    ensures root(0.0) == 0.0
  {
    ZeroSquare(root(0.0));
  }

  lemma RootOfPositive(root: real -> real, v: real)
    requires IsSqrt(root) && v > 0.0
    ensures root(v) > 0.0
  {
    assert root(v) * root(v) == v;
  }

  lemma EqualVariance(s: seq<real>, c: real)
    requires s != [] && forall x :: x in s ==> x == c
    ensures Variance(s) == 0.0
  {
    hide Sum, SumSq, Mean;
    MeanWithin(s, c, c);
    EqualSums(s, c);
  }

  lemma {:induction false} EqualSums(s: seq<real>, c: real)
    requires forall x :: x in s ==> x == c
    ensures SumSq(s, c) == 0.0
  {
    if s == [] {
    } else {
      var rest := s[..|s| - 1];
      assert forall x :: x in rest ==> x in s;
      EqualSums(rest, c);
      assert s[|s| - 1] in s;
    }
  }

  lemma {:induction false} NoSquares(s: seq<real>, c: real)
    requires SumSq(s, c) == 0.0
    ensures forall x :: x in s ==> x == c
  {
    hide Sum, SumSq, SumDev;
    if s == [] {
    } else {
      var rest, x := s[..|s| - 1], s[|s| - 1];
      LastStep(s, rest, x, c);
      SumSqNonNegative(rest, c);
      SquareNonNegative(x - c);
      NoSquares(rest, c);
      ZeroSquare(x - c);
      assert s == rest + [x];
    }
  }

  lemma ZeroSquare(y: real)
    requires y * y == 0.0
    ensures y == 0.0
  {
    if y > 0.0 { PositiveProduct(y, y, 0.0); }
    if y < 0.0 { PositiveProduct(-y, -y, 0.0); }
  }

  // ----- the order of the samples does not matter

  function One(g: Gate, x: real): multiset<real> {
    if Admits(g, x) then multiset{x} else multiset{}
  }

  lemma KeptLast(t: seq<real>, rest: seq<real>, x: real, g: Gate)
    requires t != [] && rest == t[..|t| - 1] && x == t[|t| - 1]
    ensures multiset(Kept(t, g)) == multiset(Kept(rest, g)) + One(g, x)
  {
  }

  lemma {:induction false} KeptPullOut(t: seq<real>, i: nat, g: Gate)
    requires i < |t|
    ensures multiset(Kept(t, g)) == multiset(Kept(Without(t, i), g)) + One(g, t[i])
  {
    hide Kept, One;
    var n := |t| - 1;
    KeptLast(t, t[..n], t[n], g);
    if i == n {
      assert Without(t, i) == t[..n];
    } else {
      KeptPullOut(t[..n], i, g);
      assert Without(t, i)[..n - 1] == Without(t[..n], i);
      KeptLast(Without(t, i), Without(t[..n], i), t[n], g);
    }
  }

  lemma {:induction false} KeptOfPermutation(s: seq<real>, t: seq<real>, g: Gate)
    requires multiset(s) == multiset(t)
    ensures multiset(Kept(s, g)) == multiset(Kept(t, g))
  {
    SameLength(s, t);
    if s == [] {
    } else {
      var i := MatchLast(s, t);
      KeptOfPermutation(s[..|s| - 1], Without(t, i), g);
      KeptPullOut(t, i, g);
      KeptLast(s, s[..|s| - 1], t[i], g);
    }
  }

  /** Every pass of the run over a permuted array has the same gate and keeps the same samples. */
  lemma {:induction false} RunOfPermutation(root: real -> real, s: seq<real>, t: seq<real>, p: nat)
    requires multiset(s) == multiset(t)
    ensures GateAt(root, s, p) == GateAt(root, t, p)
    ensures multiset(KeptAt(root, s, p)) == multiset(KeptAt(root, t, p))
    ensures StopsAt(root, s, p) == StopsAt(root, t, p)
    decreases p
  {
    if p == 0 {
    } else {
      RunOfPermutation(root, s, t, p - 1);
      StatsOfPermutation(KeptAt(root, s, p - 1), KeptAt(root, t, p - 1));
    }
    KeptOfPermutation(s, t, GateAt(root, s, p));
    StopOfPermutation(root, s, t, p);
  }

  lemma StopOfPermutation(root: real -> real, s: seq<real>, t: seq<real>, p: nat)
    requires multiset(s) == multiset(t) && multiset(KeptAt(root, s, p)) == multiset(KeptAt(root, t, p))
    ensures StopsAt(root, s, p) == StopsAt(root, t, p)
  {
    SameLength(s, t);
    SameLength(KeptAt(root, s, p), KeptAt(root, t, p));
    StatsOfPermutation(KeptAt(root, s, p), KeptAt(root, t, p));
    assert Quiet(root, s, p) == Quiet(root, t, p);
  }

  lemma FinalOfPermutation(root: real -> real, s: seq<real>, t: seq<real>)
    requires multiset(s) == multiset(t)
    ensures FinalPass(root, s) == FinalPass(root, t)
    ensures multiset(FinalKept(root, s)) == multiset(FinalKept(root, t))
  {
    var f := FinalPass(root, s);
    forall p: nat ensures StopsAt(root, s, p) == StopsAt(root, t, p) { RunOfPermutation(root, s, t, p); }
    FinalPassUnique(root, t, f);
    RunOfPermutation(root, s, t, f);
  }
}
