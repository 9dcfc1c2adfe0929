/**
 Sums, means and variances of finite sequences of samples, over exact reals.
 The functions recurse on the last sample, so that a loop over an array
 extends them by one step per iteration.
 */
module Samples {

  function Abs(x: real): real {
    if x < 0.0 then -x else x
  }

  function Sum(s: seq<real>): real {
    if s == [] then 0.0 else Sum(s[..|s| - 1]) + s[|s| - 1]
  }

  /** The sum of the squared distances of the samples from `c`. */
  function SumSq(s: seq<real>, c: real): real {
    if s == [] then 0.0
    else SumSq(s[..|s| - 1], c) + (s[|s| - 1] - c) * (s[|s| - 1] - c)
  }

  /** The sum of the signed distances of the samples from `c`. */
  function SumDev(s: seq<real>, c: real): real {
    if s == [] then 0.0 else SumDev(s[..|s| - 1], c) + (s[|s| - 1] - c)
  }

  function Mean(s: seq<real>): real {
    if s == [] then 0.0 else Sum(s) / |s| as real
  }

  /** Population variance. */
  function Variance(s: seq<real>): real {
    if s == [] then 0.0 else SumSq(s, Mean(s)) / |s| as real
  }

  /** The largest of `start` and the samples, by the comparison the program uses. */
  function MaxFrom(start: real, s: seq<real>): real {
    if s == [] then start
    else var m := MaxFrom(start, s[..|s| - 1]); if s[|s| - 1] > m then s[|s| - 1] else m
  }

  function MinFrom(start: real, s: seq<real>): real {
    if s == [] then start
    else var m := MinFrom(start, s[..|s| - 1]); if s[|s| - 1] < m then s[|s| - 1] else m
  }

  /** The contract of the C library's `sqrt`, on exact reals. */
  ghost predicate IsSqrt(root: real -> real) {
    forall v :: v >= 0.0 ==> root(v) >= 0.0 && root(v) * root(v) == v
  }

  /** One step of each sum. The arithmetic below hides the definitions and uses this instead. */
  lemma LastStep(s: seq<real>, t: seq<real>, x: real, c: real)
    requires s != [] && t == s[..|s| - 1] && x == s[|s| - 1]
    ensures Sum(s) == Sum(t) + x && |s| as real == |t| as real + 1.0
    ensures SumSq(s, c) == SumSq(t, c) + (x - c) * (x - c)
    ensures SumDev(s, c) == SumDev(t, c) + (x - c)
  {
    var e := (x - c) * (x - c);
    assert SumSq(s, c) == SumSq(t, c) + e;
  }

  lemma NoSamples(s: seq<real>, c: real)
    requires s == []
    ensures Sum(s) == 0.0 && SumSq(s, c) == 0.0 && SumDev(s, c) == 0.0
  {
  }

  lemma SumsOfSnoc(t: seq<real>, x: real, c: real)
    ensures Sum(t + [x]) == Sum(t) + x
    ensures SumSq(t + [x], c) == SumSq(t, c) + (x - c) * (x - c)
  {
    assert (t + [x])[..|t|] == t;
  }

  lemma {:induction false} SumOfDeviations(s: seq<real>, c: real)
    ensures SumDev(s, c) == Sum(s) - |s| as real * c
  {
    hide *;
    if s == [] {
      NoSamples(s, c);
    } else {
      var t, x := s[..|s| - 1], s[|s| - 1];
      SumOfDeviations(t, c);
      LastStep(s, t, x, c);
      assert |s| as real * c == |t| as real * c + c;
    }
  }

  lemma SquareNonNegative(x: real)
    ensures x * x >= 0.0
  {
  }

  lemma {:induction false} SumSqNonNegative(s: seq<real>, c: real)
    ensures SumSq(s, c) >= 0.0
  {
    if s == [] {
    } else {
      SumSqNonNegative(s[..|s| - 1], c);
      SquareNonNegative(s[|s| - 1] - c);
    }
  }

  lemma MeanTimesCount(s: seq<real>)
    ensures Mean(s) * |s| as real == Sum(s)
    ensures Variance(s) * |s| as real == SumSq(s, Mean(s))
    ensures Variance(s) >= 0.0
  {
    hide Sum, SumSq;
    if s == [] {
      NoSamples(s, 0.0);
    } else {
      SumSqNonNegative(s, Mean(s));
      Quotient(Sum(s), |s| as real);
      Quotient(SumSq(s, Mean(s)), |s| as real);
    }
  }

  lemma Quotient(x: real, n: real)
    requires n > 0.0
    ensures (x / n) * n == x
    ensures x >= 0.0 ==> x / n >= 0.0
  {
  }

  /** Moving the point that squares are taken around from `d` to `c`; `h` is their midpoint. */
  lemma {:induction false} Recenter(s: seq<real>, c: real, d: real, h: real)
    requires h + h == c + d
    ensures SumSq(s, c) == SumSq(s, d) + 2.0 * ((d - c) * SumDev(s, h))
  {
    hide *;
    if s == [] {
      NoSamples(s, c); NoSamples(s, d); NoSamples(s, h);
    } else {
      var t, x := s[..|s| - 1], s[|s| - 1];
      Recenter(t, c, d, h);
      LastStep(s, t, x, c); LastStep(s, t, x, d); LastStep(s, t, x, h);
      RecenterStep(SumSq(t, c), SumSq(t, d), SumDev(t, h), x, c, d, h, SumSq(s, c), SumSq(s, d), SumDev(s, h));
    }
  }

  lemma RecenterStep(p: real, q: real, u: real, x: real, c: real, d: real, h: real, p2: real, q2: real, u2: real)
    requires h + h == c + d
    requires p == q + 2.0 * ((d - c) * u)
    requires p2 == p + (x - c) * (x - c) && q2 == q + (x - d) * (x - d) && u2 == u + (x - h)
    ensures p2 == q2 + 2.0 * ((d - c) * u2)
  {
    assert (d - c) * u2 == (d - c) * u + (d - c) * (x - h);
    assert (x - c) * (x - c) - (x - d) * (x - d) == (d - c) * (2.0 * x - (c + d));
  }

  lemma DropZeroTerm(a: real, z: real)
    requires z == 0.0
    ensures a * z == 0.0
  {
  }

  lemma CancelFactor(a: real, b: real, n: real)
    requires n > 0.0 && a * n <= b * n
    ensures a <= b
  {
    assert a == (a * n) / n && b == (b * n) / n;
  }

  /** The mean minimises the sum of squares: the excess is the squared shift, once per sample. */
  lemma AroundMean(s: seq<real>, c: real, d: real, v: real)
    requires d * |s| as real == Sum(s) && v * |s| as real == SumSq(s, d)
    ensures SumSq(s, c) == v * |s| as real + |s| as real * ((d - c) * (d - c))
  {
    hide *;
    var h := (c + d) / 2.0;
    Recenter(s, c, d, h);
    SumOfDeviations(s, h);
    AroundMeanArith(SumSq(s, c), SumSq(s, d), Sum(s), |s| as real, d, c, h, v, SumDev(s, h));
  }

  lemma AroundMeanArith(p: real, q: real, u: real, n: real, d: real, c: real, h: real, v: real, dev: real)
    requires d * n == u && v * n == q && h + h == c + d
    requires p == q + 2.0 * ((d - c) * dev) && dev == u - n * h
    ensures p == v * n + n * ((d - c) * (d - c))
  {
    assert dev == n * (d - h);
    assert 2.0 * dev == n * (d - c);
    assert 2.0 * ((d - c) * dev) == (d - c) * (2.0 * dev);
    assert (d - c) * (n * (d - c)) == n * ((d - c) * (d - c));
  }

  lemma {:induction false} SumWithin(s: seq<real>, lo: real, hi: real)
    requires forall x :: x in s ==> lo <= x <= hi
    ensures |s| as real * lo <= Sum(s) <= |s| as real * hi
  {
    hide *;
    if s == [] {
      NoSamples(s, lo);
    } else {
      var t, x := s[..|s| - 1], s[|s| - 1];
      assert forall y :: y in t ==> y in s;
      SumWithin(t, lo, hi);
      LastStep(s, t, x, lo);
      assert x in s;
      assert |s| as real * lo == |t| as real * lo + lo && |s| as real * hi == |t| as real * hi + hi;
    }
  }

  lemma MeanWithin(s: seq<real>, lo: real, hi: real)
    requires s != []
    requires forall x :: x in s ==> lo <= x <= hi
    ensures lo <= Mean(s) <= hi
  {
    SumWithin(s, lo, hi);
    MeanTimesCount(s);
    CancelFactor(lo, Mean(s), |s| as real);
    CancelFactor(Mean(s), hi, |s| as real);
  }

  lemma {:induction false} SumSqWithin(s: seq<real>, c: real, lo: real, hi: real, b: real)
    requires forall x :: x in s ==> lo <= x <= hi
    requires b == (hi - c) * (c - lo)
    ensures SumSq(s, c) <= |s| as real * b + (hi + lo - 2.0 * c) * SumDev(s, c)
  {
    hide *;
    if s == [] {
      NoSamples(s, c);
    } else {
      var t, x := s[..|s| - 1], s[|s| - 1];
      assert forall y :: y in t ==> y in s;
      SumSqWithin(t, c, lo, hi, b);
      LastStep(s, t, x, c);
      assert x in s;
      SumSqWithinStep(SumSq(t, c), SumDev(t, c), |t| as real, x, c, lo, hi, b,
                      SumSq(s, c), SumDev(s, c), |s| as real);
    }
  }

  lemma SumSqWithinStep(p: real, u: real, n: real, x: real, c: real, lo: real, hi: real, b: real,
                        p2: real, u2: real, n2: real)
    requires lo <= x <= hi && b == (hi - c) * (c - lo)
    requires p <= n * b + (hi + lo - 2.0 * c) * u
    requires p2 == p + (x - c) * (x - c) && u2 == u + (x - c) && n2 == n + 1.0
    ensures p2 <= n2 * b + (hi + lo - 2.0 * c) * u2
  {
    assert (hi - x) * (x - lo) >= 0.0;
    assert (hi - x) * (x - lo) == (hi + lo - 2.0 * c) * (x - c) + b - (x - c) * (x - c);
    assert n2 * b == n * b + b;
    assert (hi + lo - 2.0 * c) * u2 == (hi + lo - 2.0 * c) * u + (hi + lo - 2.0 * c) * (x - c);
  }

  /** The variance is at most the product of the distances from the mean to the two bounds. */
  lemma VarianceWithin(s: seq<real>, lo: real, hi: real)
    requires s != []
    requires forall x :: x in s ==> lo <= x <= hi
    ensures Variance(s) <= (hi - Mean(s)) * (Mean(s) - lo)
  {
    MeanTimesCount(s);
    VarianceWithinAt(s, lo, hi, Mean(s), Variance(s));
  }

  lemma VarianceWithinAt(s: seq<real>, lo: real, hi: real, c: real, v: real)
    requires s != [] && c * |s| as real == Sum(s) && v * |s| as real == SumSq(s, c)
    requires forall x :: x in s ==> lo <= x <= hi
    ensures v <= (hi - c) * (c - lo)
  {
    hide *;
    var b := (hi - c) * (c - lo);
    SumSqWithin(s, c, lo, hi, b);
    SumOfDeviations(s, c);
    assert SumDev(s, c) == 0.0;
    DropZeroTerm(hi + lo - 2.0 * c, SumDev(s, c));
    assert v * |s| as real <= b * |s| as real;
    CancelFactor(v, b, |s| as real);
  }

  lemma {:induction false} MaxFromBounds(start: real, s: seq<real>)
    ensures MaxFrom(start, s) >= start
    ensures forall x :: x in s ==> x <= MaxFrom(start, s)
    ensures MaxFrom(start, s) == start || MaxFrom(start, s) in s
  {
    if s == [] {
    } else {
      MaxFromBounds(start, s[..|s| - 1]);
      assert s == s[..|s| - 1] + [s[|s| - 1]];
    }
  }

  lemma {:induction false} MinFromBounds(start: real, s: seq<real>)
    ensures MinFrom(start, s) <= start
    ensures forall x :: x in s ==> x >= MinFrom(start, s)
    ensures MinFrom(start, s) == start || MinFrom(start, s) in s
  {
    if s == [] {
    } else {
      MinFromBounds(start, s[..|s| - 1]);
      assert s == s[..|s| - 1] + [s[|s| - 1]];
    }
  }

  // ----- the order of the samples does not matter

  function Without<T>(s: seq<T>, i: nat): (r: seq<T>)
    requires i < |s|
    ensures |r| == |s| - 1
  {
    s[..i] + s[i + 1..]
  }

  lemma WithoutMultiset<T>(s: seq<T>, i: nat)
    requires i < |s|
    ensures multiset(s) == multiset(Without(s, i)) + multiset{s[i]}
  {
    assert s == s[..i] + [s[i]] + s[i + 1..];
  }

  /** Taking one sample out takes its term out of the sum, wherever it stood. */
  lemma {:induction false} PullOut(s: seq<real>, i: nat)
    requires i < |s|
    ensures Sum(s) == Sum(Without(s, i)) + s[i]
  {
    var n := |s| - 1;
    if i == n {
      assert Without(s, i) == s[..n];
    } else {
      PullOut(s[..n], i);
      var w := Without(s, i);
      assert w[..|w| - 1] == Without(s[..n], i);
      assert w[|w| - 1] == s[n];
    }
  }

  lemma {:induction false} PullOutSquare(s: seq<real>, i: nat, c: real, e: real)
    requires i < |s| && e == (s[i] - c) * (s[i] - c)
    ensures SumSq(s, c) == SumSq(Without(s, i), c) + e
  {
    var n := |s| - 1;
    if i == n {
      assert Without(s, i) == s[..n];
    } else {
      PullOutSquare(s[..n], i, c, e);
      var w := Without(s, i);
      assert w[..|w| - 1] == Without(s[..n], i);
      assert w[|w| - 1] == s[n];
    }
  }

  lemma SameLength<T>(s: seq<T>, t: seq<T>)
    requires multiset(s) == multiset(t)
    ensures |s| == |t|
  {
    assert |s| == |multiset(s)| && |t| == |multiset(t)|;
  }

  lemma MatchLast(s: seq<real>, t: seq<real>) returns (i: nat)
    requires s != [] && multiset(s) == multiset(t)
    ensures i < |t| && t[i] == s[|s| - 1]
    ensures multiset(s[..|s| - 1]) == multiset(Without(t, i))
  {
    var n := |s| - 1;
    assert s[n] in multiset(t);
    i :| 0 <= i < |t| && t[i] == s[n];
    assert s == s[..n] + [s[n]];
    WithoutMultiset(t, i);
    assert multiset(s[..n]) == multiset(s) - multiset{s[n]};
  }

  lemma {:induction false} SumOfPermutation(s: seq<real>, t: seq<real>)
    requires multiset(s) == multiset(t)
    ensures Sum(s) == Sum(t)
  {
    SameLength(s, t);
    if s == [] {
    } else {
      var i := MatchLast(s, t);
      SumOfPermutation(s[..|s| - 1], Without(t, i));
      PullOut(t, i);
    }
  }

  lemma {:induction false} SumSqOfPermutation(s: seq<real>, t: seq<real>, c: real)
    requires multiset(s) == multiset(t)
    ensures SumSq(s, c) == SumSq(t, c)
  {
    hide *;
    SameLength(s, t);
    if s == [] {
      NoSamples(s, c); NoSamples(t, c);
    } else {
      var i := MatchLast(s, t);
      var e := (t[i] - c) * (t[i] - c);
      SumSqOfPermutation(s[..|s| - 1], Without(t, i), c);
      PullOutSquare(t, i, c, e);
      LastStep(s, s[..|s| - 1], t[i], c);
    }
  }

  lemma StatsOfPermutation(s: seq<real>, t: seq<real>)
    requires multiset(s) == multiset(t)
    ensures Mean(s) == Mean(t) && Variance(s) == Variance(t)
    ensures forall b :: MaxFrom(b, s) == MaxFrom(b, t) && MinFrom(b, s) == MinFrom(b, t)
  {
    SameLength(s, t);
    SumOfPermutation(s, t);
    SumSqOfPermutation(s, t, Mean(s));
    assert forall x :: x in s <==> x in multiset(s);
    assert forall x :: x in t <==> x in multiset(t);
    forall b ensures MaxFrom(b, s) == MaxFrom(b, t) && MinFrom(b, s) == MinFrom(b, t) {
      MaxFromBounds(b, s); MaxFromBounds(b, t);
      MinFromBounds(b, s); MinFromBounds(b, t);
    }
  }
}
