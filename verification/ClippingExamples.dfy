/** Arrays that show which bounds of the clipping loop are tight and what it does not achieve. */
module ClippingExamples {
  import opened Samples
  import opened Clipping
  import opened ClippingPass
  import opened ClippingRuns
  import opened Doubles
  import opened Aggregation

  function Copies(x: real, n: nat): (s: seq<real>)
    ensures |s| == n && forall y :: y in s ==> y == x
  {
    if n == 0 then [] else Copies(x, n - 1) + [x]
  }

  lemma {:induction false} CopiesSums(x: real, n: nat, c: real, e: real)
    requires e == (x - c) * (x - c)
    ensures Sum(Copies(x, n)) == n as real * x && SumSq(Copies(x, n), c) == n as real * e
  {
    hide Sum, SumSq;
    if n == 0 {
      NoSamples(Copies(x, n), c);
    } else {
      CopiesSums(x, n - 1, c, e);
      SumsOfSnoc(Copies(x, n - 1), x, c);
      OneMore(n, x);
      OneMore(n, e);
    }
  }

  lemma OneMore(n: nat, y: real)
    requires n > 0
    ensures n as real * y == (n - 1) as real * y + y
  {
    assert n as real == (n - 1) as real + 1.0;
  }

  /** A gate tests the squared distance against nine variances. */
  lemma AdmitsSquared(root: real -> real, a: real, v: real, x: real)
    requires IsSqrt(root) && v >= 0.0
    ensures Admits(Within(a, root(v)), x) <==> (x - a) * (x - a) < 9.0 * v
  {
    var t, y := TOLERANCE * root(v), x - a;
    SquaredDeviation(root, v);
    assert Abs(y) * Abs(y) == y * y;
    if Abs(y) >= t {
      LongerSquare(y, t);
    } else {
      assert (t - Abs(y)) * t > 0.0 && (t - Abs(y)) * Abs(y) >= 0.0;
    }
  }

  // ----- ten samples

  /** Nine equal samples and one ten above them: the outlier lies exactly three deviations from the mean. */
  function NineAndOutlier(x: real): seq<real> { Copies(x, 9) + [x + 10.0] }

  lemma TenStats(root: real -> real, x: real)
    requires IsSqrt(root)
    ensures var s := NineAndOutlier(x);
            && |s| == 10 && s[9] == x + 10.0 && Mean(s) == x + 1.0 && Variance(s) == 9.0 && root(9.0) == 3.0
            && KeptAt(root, s, 0) == s && !Admits(Spread(root, s), x + 10.0)
  {
    hide Copies, Sum, SumSq;
    CopiesSums(x, 9, x + 1.0, 1.0);
    SumsOfSnoc(Copies(x, 9), x + 10.0, x + 1.0);
    KeptEverything(NineAndOutlier(x), Everything);
    ThreeIsRoot(root(9.0));
  }

  lemma ThreeIsRoot(x: real)
    requires x >= 0.0 && x * x == 9.0
    ensures x == 3.0
  {
    assert (x - 3.0) * (x + 3.0) == 0.0;
    assert x - 3.0 == 0.0 / (x + 3.0);
  }

  /** Ten samples are enough for one to go, so the bound of nine is tight. */
  lemma TenCanDrop(root: real -> real)
    requires IsSqrt(root)
    ensures var data := NineAndOutlier(1.0);
            |data| == 10 && Reached(root, data, 1) && 11.0 in data && 11.0 !in KeptAt(root, data, 1)
  {
    hide Mean, Variance, Kept, NineAndOutlier;
    var data := NineAndOutlier(1.0);
    TenStats(root, 1.0);
    assert data[9] == 11.0;
    KeptMembers(data, Spread(root, data));
  }

  /**
   Whenever the quiet test holds for ten such samples, by a small mean or by a small spread, the
   run ends before the outlier is looked at: it has not settled.
   */
  lemma QuietUnsettled(root: real -> real, x: real)
    requires IsSqrt(root) && (x + 1.0 < QUIET || 3.0 / (x + 1.0) < QUIET)
    ensures var data := NineAndOutlier(x);
            FinalPass(root, data) == 0 && Quiet(root, data, 0) && !Settled(root, data)
  {
    hide Mean, Variance, Kept, NineAndOutlier;
    var data := NineAndOutlier(x);
    TenStats(root, x);
    FinalPassUnique(root, data, 0);
    KeptMembers(data, Spread(root, data));
    assert data[9] in data;
  }

  /** Positive samples do: nine of 5000 and one of 5010. */
  lemma PositiveQuietUnsettled(root: real -> real)
    requires IsSqrt(root)
    ensures var data := NineAndOutlier(5000.0);
            Quiet(root, data, 0) && !Settled(root, data) && forall y :: y in data ==> y > 0.0
  {
    assert 3.0 / 5001.0 < QUIET;
    QuietUnsettled(root, 5000.0);
  }

  /**
   The outlier counts as noise exactly when the mean of the ten samples is between a thousandth
   and three thousand; outside that range it stays in the reported mean.
   */
  lemma OutlierClippedExactly(root: real -> real, x: real)
    requires IsSqrt(root)
    ensures SummaryOf(root, NineAndOutlier(x)).mean == Num(if 0.001 <= x + 1.0 <= 3000.0 then x else x + 1.0)
  {
    hide Mean, Variance, Kept, Quiet, NineAndOutlier;
    var data := NineAndOutlier(x);
    TenStats(root, x);
    QuietMeans(root, data, 0);
    if x + 1.0 >= 0.001 { SquaresCompare(3000.0, x + 1.0); }
    if Quiet(root, data, 0) {
      FinalPassUnique(root, data, 0);
    } else {
      NineKept(root, x);
      FinalPassUnique(root, data, 1);
    }
  }

  /** The second pass leaves the nine equal samples, which are quiet. */
  lemma NineKept(root: real -> real, x: real)
    requires IsSqrt(root) && !Quiet(root, NineAndOutlier(x), 0)
    ensures var data := NineAndOutlier(x);
            Reached(root, data, 1) && Quiet(root, data, 1) && Mean(KeptAt(root, data, 1)) == x
  {
    hide Mean, Variance, Kept, Copies, Sum, SumSq;
    var data, nine := NineAndOutlier(x), Copies(x, 9);
    TenStats(root, x);
    var g := Spread(root, data);
    KeptEverything(nine, g);
    KeptSnoc(nine, x + 10.0, g);
    assert KeptAt(root, data, 1) == nine;
    NineStats(x);
    QuietMeans(root, data, 1);
    if x >= 0.001 { assert x * x > 0.0; }
  }

  lemma KeptSnoc(s: seq<real>, x: real, g: Gate)
    requires !Admits(g, x)
    ensures Kept(s + [x], g) == Kept(s, g)
  {
    assert (s + [x])[..|s|] == s;
  }

  lemma NineStats(x: real)
    ensures Mean(Copies(x, 9)) == x && Variance(Copies(x, 9)) == 0.0
  {
    hide Copies, Sum, SumSq;
    CopiesSums(x, 9, x, 0.0);
  }

  // ----- fourteen samples

  /** Outliers that hide one another: each pass uncovers only the largest. */
  function Outlier(i: nat): real
    requires i < 5
  {
    if i == 0 then 11.0 else if i == 1 then 35.0 else if i == 2 then 89.0 else if i == 3 then 181.0 else 319.0
  }

  /** Nine ones and the first `m` outliers. */
  function Staircase(m: nat): (s: seq<real>)
    requires m <= 5
    ensures |s| == 9 + m
  {
    if m == 0 then Copies(1.0, 9) else Staircase(m - 1) + [Outlier(m - 1)]
  }

  function StairSum(m: nat): real
    requires m <= 5
  {
    if m == 0 then 9.0 else StairSum(m - 1) + Outlier(m - 1)
  }

  function StairSq(m: nat, c: real): real
    requires m <= 5
  {
    if m == 0 then 9.0 * ((1.0 - c) * (1.0 - c))
    else StairSq(m - 1, c) + (Outlier(m - 1) - c) * (Outlier(m - 1) - c)
  }

  lemma {:induction false} StairSums(m: nat, c: real)
    requires m <= 5
    ensures Sum(Staircase(m)) == StairSum(m) && SumSq(Staircase(m), c) == StairSq(m, c)
  {
    hide Sum, SumSq, Copies, Outlier;
    if m == 0 {
      CopiesSums(1.0, 9, c, (1.0 - c) * (1.0 - c));
    } else {
      StairSums(m - 1, c);
      SumsOfSnoc(Staircase(m - 1), Outlier(m - 1), c);
    }
  }

  function StairMean(m: nat): real
    requires 1 <= m <= 5
  {
    if m == 1 then 2.0 else if m == 2 then 5.0 else if m == 3 then 12.0 else if m == 4 then 25.0 else 46.0
  }

  function StairSpread(m: nat): real
    requires 1 <= m <= 5
  {
    if m == 1 then 90.0 else if m == 2 then 1080.0 else if m == 3 then 7548.0 else if m == 4 then 33912.0 else 114174.0
  }

  lemma StairNumbers(m: nat)
    requires 1 <= m <= 5
    ensures StairSum(m) == StairMean(m) * (9 + m) as real
    ensures StairSq(m, StairMean(m)) == StairSpread(m)
  {
    assert StairSum(1) == 20.0 && StairSum(2) == 55.0 && StairSum(3) == 144.0;
    assert StairSum(4) == 325.0 && StairSum(5) == 644.0;
    var c := StairMean(m);
    assert StairSq(1, c) == 9.0 * ((1.0 - c) * (1.0 - c)) + (11.0 - c) * (11.0 - c);
    assert StairSq(2, c) == StairSq(1, c) + (35.0 - c) * (35.0 - c);
    assert StairSq(3, c) == StairSq(2, c) + (89.0 - c) * (89.0 - c);
    assert StairSq(4, c) == StairSq(3, c) + (181.0 - c) * (181.0 - c);
    assert StairSq(5, c) == StairSq(4, c) + (319.0 - c) * (319.0 - c);
    if m == 1 {} else if m == 2 {} else if m == 3 {} else if m == 4 {} else {}
  }

  lemma StairStats(m: nat)
    requires 1 <= m <= 5
    ensures Mean(Staircase(m)) == StairMean(m)
    ensures Variance(Staircase(m)) == StairSpread(m) / (9 + m) as real
  {
    hide Sum, SumSq, Staircase, StairSum, StairSq, StairMean, StairSpread;
    StairNumbers(m);
    StairSums(m, StairMean(m));
    QuotientIs(StairSum(m), StairMean(m), (9 + m) as real);
  }

  lemma QuotientIs(x: real, q: real, n: real)
    requires n > 0.0 && x == q * n
    ensures x / n == q
  {
  }

  /** Of the ones and the outliers, the gate left by `m` outliers admits all but the `m`-th and later. */
  lemma StairAdmits(root: real -> real, m: nat)
    requires IsSqrt(root) && 1 <= m <= 5
    ensures var g := Spread(root, Staircase(m));
            && Admits(g, 1.0) && (forall i :: 0 <= i < 5 ==> (Admits(g, Outlier(i)) <==> i < m - 1))
            && g.sd > 1.0
  {
    hide Sum, SumSq, Mean, Variance, Staircase, Admits;
    StairStats(m);
    var a, v := StairMean(m), StairSpread(m) / (9 + m) as real;
    StairVariance(m);
    AdmitsSquared(root, a, v, 1.0);
    forall i | 0 <= i < 5 ensures Admits(Within(a, root(v)), Outlier(i)) <==> i < m - 1 {
      AdmitsSquared(root, a, v, Outlier(i));
    }
    AboveOne(root, v);
  }

  lemma StairVariance(m: nat)
    requires 1 <= m <= 5
    ensures var a, v := StairMean(m), StairSpread(m) / (9 + m) as real;
            && v >= 9.0 && (1.0 - a) * (1.0 - a) < 9.0 * v
            && forall i :: 0 <= i < 5 ==> ((Outlier(i) - a) * (Outlier(i) - a) < 9.0 * v <==> i < m - 1)
  {
    if m == 1 {} else if m == 2 {} else if m == 3 {} else if m == 4 {} else {}
  }

  lemma AboveOne(root: real -> real, v: real)
    requires IsSqrt(root) && v >= 9.0
    ensures root(v) > 1.0
  {
    assert root(v) * root(v) == v;
    SquareOrder(3.0, root(v));
  }

  lemma {:induction false} StairKept(g: Gate, m: nat, j: nat)
    requires 1 <= m <= 5 && j <= 5
    requires Admits(g, 1.0) && forall i :: 0 <= i < 5 ==> (Admits(g, Outlier(i)) <==> i < m - 1)
    ensures Kept(Staircase(j), g) == Staircase(if j < m then j else m - 1)
  {
    hide Admits, Copies, Outlier;
    if j == 0 {
      KeptEverything(Copies(1.0, 9), g);
    } else {
      StairKept(g, m, j - 1);
      assert Staircase(j)[..|Staircase(j)| - 1] == Staircase(j - 1);
    }
  }

  lemma {:induction false} StairRun(root: real -> real, p: nat)
    requires IsSqrt(root) && p <= 4
    ensures var data := Staircase(5);
            Reached(root, data, p) && KeptAt(root, data, p) == Staircase(5 - p) && !Quiet(root, data, p)
  {
    hide Mean, Variance, Kept, Staircase, Admits;
    var data := Staircase(5);
    if p == 0 {
      KeptEverything(data, Everything) by { AdmitsAll(data); }
    } else {
      StairRun(root, p - 1);
      StairAdmits(root, 6 - p);
      StairKept(Spread(root, Staircase(6 - p)), 6 - p, 5);
    }
    StairAdmits(root, 5 - p);
    StairStats(5 - p);
  }

  lemma AdmitsAll(data: seq<real>)
    ensures forall x :: x in data ==> Admits(Everything, x)
  {
  }

  /**
   A run can be cut off by the pass limit: these fourteen positive samples lose one in each of
   four passes, and the ten left at the fifth are neither quiet nor settled.
   */
  lemma CutOffUnsettled(root: real -> real)
    requires IsSqrt(root)
    ensures var data := Staircase(5);
            && |data| == 14 && FinalPass(root, data) == MAX_ITER - 1 && |FinalKept(root, data)| == 10
            && !Quiet(root, data, MAX_ITER - 1) && !Settled(root, data)
  {
    hide Mean, Variance, Kept, Staircase, Admits, Quiet;
    var data := Staircase(5);
    StairRun(root, 4);
    FinalPassUnique(root, data, 4);
    StairAdmits(root, 1);
    StairKept(Spread(root, Staircase(1)), 1, 5);
  }
}
