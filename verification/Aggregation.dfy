/**
 `aggregate`: the clipping loop over an array, proved to compute the statistics of the samples
 its final pass keeps, and what those four outputs say about the data.
 `sqrt` is a call into the C library and becomes the parameter `root`.
 */
module Aggregation {
  import opened Doubles
  import opened Samples
  import opened Clipping
  import opened ClippingRuns

  datatype Summary = Summary(mean: Double, stddev: Double, max: Double, min: Double)

  function SummaryOf(root: real -> real, data: seq<real>): Summary {
    if data == [] then Summary(NaN, NaN, NaN, NaN)
    else
      var k := FinalKept(root, data);
      Summary(Num(Mean(k)), Num(if |data| == 1 then 0.0 else root(Variance(k))),
              Num(MaxFrom(LLONG_MIN, k)), Num(MinFrom(LLONG_MAX, k)))
  }

  // ----- scanning

  /** What the first loop has accumulated after a prefix of the array. */
  ghost predicate Scanned(prefix: seq<real>, g: Gate, sum: real, hi: real, lo: real, removed: int) {
    var k := Kept(prefix, g);
    sum == Sum(k) && hi == MaxFrom(LLONG_MIN, k) && lo == MinFrom(LLONG_MAX, k) && removed == |prefix| - |k|
  }

  lemma ScanStep(prefix: seq<real>, x: real, g: Gate, sum: real, hi: real, lo: real, removed: int)
    requires Scanned(prefix, g, sum, hi, lo, removed)
    ensures Admits(g, x) ==>
              Scanned(prefix + [x], g, sum + x, if x > hi then x else hi, if x < lo then x else lo, removed)
    ensures !Admits(g, x) ==> Scanned(prefix + [x], g, sum, hi, lo, removed + 1)
  {
    assert (prefix + [x])[..|prefix|] == prefix;
    var k := Kept(prefix, g);
    assert (k + [x])[..|k|] == k;
  }

  /** What the second loop has accumulated: `dev` times the count is the sum of squares so far. */
  ghost predicate Deviated(prefix: seq<real>, g: Gate, avg: real, n: real, dev: real) {
    dev * n == SumSq(Kept(prefix, g), avg)
  }

  /** What one kept sample adds to the variance; dividing first keeps the sum small. */
  function Term(x: real, avg: real, n: real): real
    requires n > 0.0
  {
    ((x - avg) / n) * (x - avg)
  }

  lemma DeviationStep(prefix: seq<real>, x: real, g: Gate, avg: real, n: real, dev: real)
    requires n > 0.0 && Deviated(prefix, g, avg, n, dev) && Admits(g, x)
    ensures Deviated(prefix + [x], g, avg, n, dev + Term(x, avg, n))
  {
    hide Sum, SumSq;
    assert (prefix + [x])[..|prefix|] == prefix;
    SumsOfSnoc(Kept(prefix, g), x, avg);
    ScaleUp(x - avg, n, dev, Term(x, avg, n));
  }

  lemma DeviationSkip(prefix: seq<real>, x: real, g: Gate, avg: real, n: real, dev: real)
    requires Deviated(prefix, g, avg, n, dev) && !Admits(g, x)
    ensures Deviated(prefix + [x], g, avg, n, dev)
  {
    assert (prefix + [x])[..|prefix|] == prefix;
  }

  lemma ScaleUp(y: real, n: real, dev: real, term: real)
    requires n > 0.0 && term == (y / n) * y
    ensures (dev + term) * n == dev * n + y * y
  {
    var q := y / n;
    assert q * n == y;
    assert (q * y) * n == (q * n) * y;
  }

  lemma VarianceByDivision(k: seq<real>, n: real, dev: real)
    requires k != [] && n == |k| as real && dev * n == SumSq(k, Mean(k))
    ensures dev == Variance(k)
  {
    hide SumSq, Mean;
    CancelFactor(dev, Variance(k), n) by { Quotient(SumSq(k, Mean(k)), n); }
    CancelFactor(Variance(k), dev, n) by { Quotient(SumSq(k, Mean(k)), n); }
  }

  // ----- the loop

  /** The state after pass `p`: everything the loop carries over, for a non-empty array. */
  ghost predicate AfterPass(root: real -> real, s: seq<real>, p: nat,
                            avg: real, dev: real, sd: real, hi: real, lo: real, changed: bool) {
    var k := KeptAt(root, s, p);
    && Reached(root, s, p)
    && avg == Mean(k) && dev == Variance(k) && sd == root(dev)
    && hi == MaxFrom(LLONG_MIN, k) && lo == MinFrom(LLONG_MAX, k)
    && changed == !Unchanged(root, s, p)
  }

  lemma NextGate(root: real -> real, s: seq<real>, p: nat,
                 avg: real, dev: real, sd: real, hi: real, lo: real, changed: bool)
    requires AfterPass(root, s, p, avg, dev, sd, hi, lo, changed)
    ensures GateAt(root, s, p + 1) == Within(avg, sd)
    ensures (avg < QUIET || sd / avg < QUIET) <==> Quiet(root, s, p)
    ensures !Quiet(root, s, p) && changed && p + 1 < MAX_ITER ==> Reached(root, s, p + 1)
  {
  }

  /** In exact arithmetic the first scan of a reached pass always leaves something to average. */
  lemma ScanDone(root: real -> real, s: seq<real>, p: nat, sum: real, hi: real, lo: real, removed: int)
    requires IsSqrt(root) && s != [] && Reached(root, s, p)
    requires Scanned(s, GateAt(root, s, p), sum, hi, lo, removed)
    ensures removed < |s|
    ensures sum / (|s| - removed) as real == Mean(KeptAt(root, s, p))
  {
    KeptNonEmpty(root, s, p);
  }

  lemma PassDone(root: real -> real, s: seq<real>, p: nat, sum: real, avg: real, dev: real, sd: real,
                 hi: real, lo: real, removed: int, changed: bool)
    requires IsSqrt(root) && s != [] && Reached(root, s, p)
    requires Scanned(s, GateAt(root, s, p), sum, hi, lo, removed) && removed < |s|
    requires changed <==> p == 0 || removed > 0
    requires avg == Mean(KeptAt(root, s, p)) && sd == root(dev)
    requires Deviated(s, GateAt(root, s, p), avg, (|s| - removed) as real, dev)
    ensures AfterPass(root, s, p, avg, dev, sd, hi, lo, changed)
  {
    hide Sum, SumSq, Mean, Variance;
    var k := KeptAt(root, s, p);
    KeptMembers(s, GateAt(root, s, p));
    VarianceByDivision(k, (|s| - removed) as real, dev);
  }

  lemma LoopDone(root: real -> real, s: seq<real>, p: nat,
                 avg: real, dev: real, sd: real, hi: real, lo: real, changed: bool)
    requires s != [] && AfterPass(root, s, p, avg, dev, sd, hi, lo, changed)
    requires Quiet(root, s, p) || !changed || p + 1 >= MAX_ITER
    ensures SummaryOf(root, s) == Summary(Num(avg), Num(if |s| == 1 then 0.0 else root(dev)), Num(hi), Num(lo))
  {
    FinalPassUnique(root, s, p);
  }

  /**
   Mirrors the two nested scans, the three ways out of the loop, and the four outputs; `noisy`
   says whether the warning about too much noise was printed.
   */
  method Aggregate(root: real -> real, data: array<real>)
    returns (mean: Double, stddev: Double, max: Double, min: Double, noisy: bool)
    requires IsSqrt(root)
    ensures Summary(mean, stddev, max, min) == SummaryOf(root, data[..])
    ensures data.Length == 0 ==> mean == stddev == max == min == NaN
    ensures noisy <==> data.Length == 0
  {
    hide Sum, SumSq, Mean, Variance, MaxFrom, MinFrom, Kept, GateAt, KeptAt, Reached, Quiet;
    hide Scanned, Deviated, AfterPass, SummaryOf, Admits, Term, IsSqrt, Abs;
    ghost var s := data[..];
    var size := data.Length;
    var avg, dev := 0.0, 0.0;
    var prevAvg, prevSd := 0.0, 0.0;
    var hi, lo := LLONG_MIN, LLONG_MAX;
    noisy := false;
    var changed := true;
    var iter: nat := 0;
    ghost var last: nat := 0;
    FirstPassReached(root, s);
    while iter < MAX_ITER && changed
      invariant iter <= MAX_ITER
      invariant iter == 0 ==> changed
      invariant iter > 0 ==> size > 0 && last == iter - 1
      invariant iter > 0 ==> prevAvg == avg && AfterPass(root, s, last, avg, dev, prevSd, hi, lo, changed)
      invariant iter > 0 ==> !Quiet(root, s, last)
      invariant size > 0 && iter < MAX_ITER && changed ==> Reached(root, s, iter)
      invariant !noisy
      decreases MAX_ITER - iter
    {
      ghost var g := GateAt(root, s, iter);
      if iter > 0 { NextGate(root, s, last, avg, dev, prevSd, hi, lo, changed); }
      hi, lo := LLONG_MIN, LLONG_MAX;
      changed := iter == 0;
      var removed := 0;
      avg, dev := 0.0, 0.0;
      assert Scanned(s[..0], g, 0.0, hi, lo, 0) by { ScanNothing(g); }
      for idx := 0 to size
        invariant Scanned(s[..idx], g, avg, hi, lo, removed)
        invariant 0 <= removed <= idx && (changed <==> iter == 0 || removed > 0)
      {
        AdmitsTest(g, data[idx], prevAvg, prevSd);
        ScanStep(s[..idx], data[idx], g, avg, hi, lo, removed);
        assert s[..idx] + [data[idx]] == s[..idx + 1];
        if iter == 0 || Abs(data[idx] - prevAvg) < TOLERANCE * prevSd {
          avg := avg + data[idx];
          hi := if data[idx] > hi then data[idx] else hi;
          lo := if data[idx] < lo then data[idx] else lo;
        } else {
          changed := true;
          removed := removed + 1;
        }
      }
      assert s[..size] == s;
      ghost var sum := avg;
      if size > 0 { ScanDone(root, s, iter, sum, hi, lo, removed); }
      var validSize := size - removed;
      if validSize != 0 {
        avg := avg / validSize as real;
      } else {
        noisy := true;
        avg := prevAvg;
        dev := prevSd * prevSd;
        break;
      }
      assert Deviated(s[..0], g, avg, validSize as real, 0.0) by { NoDeviation(g, avg, validSize as real); }
      for idx := 0 to size
        invariant Deviated(s[..idx], g, avg, validSize as real, dev)
      {
        AdmitsTest(g, data[idx], prevAvg, prevSd);
        assert s[..idx] + [data[idx]] == s[..idx + 1];
        if iter == 0 || Abs(data[idx] - prevAvg) < TOLERANCE * prevSd {
          DeviationStep(s[..idx], data[idx], g, avg, validSize as real, dev);
          dev := dev + Term(data[idx], avg, validSize as real);
        } else {
          DeviationSkip(s[..idx], data[idx], g, avg, validSize as real, dev);
        }
      }
      prevAvg := avg;
      prevSd := root(dev);
      last := iter;
      PassDone(root, s, iter, sum, avg, dev, prevSd, hi, lo, removed, changed);
      NextGate(root, s, iter, avg, dev, prevSd, hi, lo, changed);
      if prevAvg < QUIET || prevSd / prevAvg < QUIET {
        break;
      }
      iter := iter + 1;
    }
    if size != 0 {
      LoopDone(root, s, last, avg, dev, prevSd, hi, lo, changed);
      mean := Num(avg);
      if size == 1 {
        stddev := Num(0.0);
      } else {
        stddev := Num(root(dev));
      }
      max, min := Num(hi), Num(lo);
    } else {
      mean, stddev, max, min := NaN, NaN, NaN, NaN;
    }
  }

  lemma FirstPassReached(root: real -> real, s: seq<real>)
    ensures Reached(root, s, 0) && GateAt(root, s, 0) == Everything
    ensures s == [] ==> SummaryOf(root, s) == Summary(NaN, NaN, NaN, NaN)
  {
  }

  lemma AdmitsTest(g: Gate, x: real, center: real, sd: real)
    ensures Admits(Everything, x)
    ensures Admits(Within(center, sd), x) <==> Abs(x - center) < TOLERANCE * sd
  {
  }

  lemma NoDeviation(g: Gate, avg: real, n: real)
    ensures Deviated([], g, avg, n, 0.0)
  {
  }

  lemma ScanNothing(g: Gate)
    ensures Scanned([], g, 0.0, LLONG_MIN, LLONG_MAX, 0)
  {
  }
}
