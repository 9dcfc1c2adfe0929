/** What the four outputs of `aggregate` say about the samples. */
module SummaryLaws {
  import opened Doubles
  import opened Samples
  import opened Clipping
  import opened ClippingPass
  import opened ClippingRuns
  import opened Aggregation

  /**
   Mean and deviation are those of the kept samples. The mean lies between the extremes, and the
   deviation is bounded by its distances to them.
   */
  lemma OutputsAgree(root: real -> real, data: seq<real>)
    requires IsSqrt(root) && data != []
    ensures var o, k := SummaryOf(root, data), FinalKept(root, data);
            && o.mean.Num? && o.stddev.Num? && o.max.Num? && o.min.Num?
            && o.min.value <= o.mean.value <= o.max.value
            && o.stddev.value >= 0.0
            && o.mean.value * |k| as real == Sum(k)
            && o.stddev.value * o.stddev.value * |k| as real == SumSq(k, o.mean.value)
            && o.stddev.value * o.stddev.value <= (o.max.value - o.mean.value) * (o.mean.value - o.min.value)
  {
    hide Sum, SumSq, Mean, Variance, FinalKept, IsSqrt, MaxFrom, MinFrom;
    var k := FinalKept(root, data);
    FinalKeptNonEmpty(root, data);
    var hi, lo := MaxFrom(LLONG_MIN, k), MinFrom(LLONG_MAX, k);
    MaxFromBounds(LLONG_MIN, k);
    MinFromBounds(LLONG_MAX, k);
    MeanWithin(k, lo, hi);
    VarianceWithin(k, lo, hi);
    MeanTimesCount(k);
    SqrtOf(root, Variance(k));
    SpreadOrZero(root(Variance(k)), Variance(k), hi - Mean(k), Mean(k) - lo);
    if |data| == 1 { LoneKept(root, data); }
  }

  lemma LoneKept(root: real -> real, data: seq<real>)
    requires IsSqrt(root) && |data| == 1
    ensures root(Variance(FinalKept(root, data))) == 0.0
  {
    hide Mean, Variance, FinalPass;
    NineOrFewer(root, data, FinalPass(root, data));
    LoneVariance(root, data);
  }

  lemma SqrtOf(root: real -> real, v: real)
    requires IsSqrt(root) && v >= 0.0
    ensures root(v) >= 0.0 && root(v) * root(v) == v
  {
  }

  lemma SpreadOrZero(sd: real, v: real, up: real, down: real)
    requires sd >= 0.0 && sd * sd == v && up >= 0.0 && down >= 0.0 && v <= up * down
    ensures 0.0 * 0.0 <= up * down && sd * sd <= up * down
  {
  }

  lemma FinalKeptNonEmpty(root: real -> real, data: seq<real>)
    requires IsSqrt(root) && data != []
    ensures FinalKept(root, data) != []
    ensures forall x :: x in FinalKept(root, data) ==> x in data
  {
    KeptNonEmpty(root, data, FinalPass(root, data));
    KeptMembers(data, GateAt(root, data, FinalPass(root, data)));
  }

  /**
   The maximum is a kept sample exactly when some kept sample reaches the sentinel it started
   from, and likewise the minimum; each then bounds every kept sample.
   */
  lemma ExtremesAreSamples(root: real -> real, data: seq<real>)
    requires IsSqrt(root) && data != []
    ensures var o, k := SummaryOf(root, data), FinalKept(root, data);
            && (o.max.value in k <==> exists x :: x in k && x >= LLONG_MIN)
            && (o.min.value in k <==> exists x :: x in k && x <= LLONG_MAX)
            && forall x :: x in k ==> o.min.value <= x <= o.max.value
  {
    var k := FinalKept(root, data);
    MaxFromBounds(LLONG_MIN, k);
    MinFromBounds(LLONG_MAX, k);
  }

  /** For samples in the range of a `long long`, its maximum rounded to 2^63, both extremes are samples of the array. */
  lemma ExtremesInRange(root: real -> real, data: seq<real>)
    requires IsSqrt(root) && data != []
    requires forall x :: x in data ==> -9223372036854775808.0 <= x <= 9223372036854775808.0
    ensures SummaryOf(root, data).max.value in FinalKept(root, data)
    ensures SummaryOf(root, data).min.value in FinalKept(root, data)
    ensures SummaryOf(root, data).max.value in data && SummaryOf(root, data).min.value in data
  {
    FinalKeptNonEmpty(root, data);
    ExtremesAreSamples(root, data);
    var k := FinalKept(root, data);
    assert k[0] in k && LLONG_MIN <= k[0] <= LLONG_MAX;
  }

  /** For an array without an outlier the condition is on the array: some sample reaches the sentinel. */
  lemma ExtremesOfWhole(root: real -> real, data: seq<real>)
    requires IsSqrt(root) && data != [] && (|data| <= 9 || Quiet(root, data, 0) || AllWithin(root, data))
    ensures SummaryOf(root, data).max.value in data <==> exists x :: x in data && x >= LLONG_MIN
    ensures SummaryOf(root, data).min.value in data <==> exists x :: x in data && x <= LLONG_MAX
  {
    hide AllWithin;
    KeptEverything(data, Everything);
    if AllWithin(root, data) {
      NoOutlierSettles(root, data);
    } else if |data| <= 9 {
      NineOrFewer(root, data, FinalPass(root, data));
    } else {
      FinalPassUnique(root, data, 0);
    }
    assert FinalKept(root, data) == data;
    ExtremesAreSamples(root, data);
  }

  /** Below that range the reported maximum is the sentinel, which is no sample at all. */
  lemma SentinelMaximum(root: real -> real, x: real)
    requires IsSqrt(root) && x < -9223372036854775808.0
    ensures SummaryOf(root, [x]).max == Num(-9223372036854775808.0) && -9223372036854775808.0 !in [x]
  {
    FinalKeptNonEmpty(root, [x]);
    var k := FinalKept(root, [x]);
    assert forall y :: y in k ==> y == x;
    MaxFromBounds(LLONG_MIN, k);
  }

  /** And above it so is the reported minimum. */
  lemma SentinelMinimum(root: real -> real, x: real)
    requires IsSqrt(root) && x > 9223372036854775808.0
    ensures SummaryOf(root, [x]).min == Num(9223372036854775808.0) && 9223372036854775808.0 !in [x]
  {
    FinalKeptNonEmpty(root, [x]);
    var k := FinalKept(root, [x]);
    assert forall y :: y in k ==> y == x;
    MinFromBounds(LLONG_MAX, k);
  }

  function WholeSummary(root: real -> real, data: seq<real>): Summary {
    Summary(Num(Mean(data)), Num(root(Variance(data))), Num(MaxFrom(LLONG_MIN, data)), Num(MinFrom(LLONG_MAX, data)))
  }

  /** Nothing is clipped exactly when the loop ends at once or because a pass changed nothing. */
  lemma WholeArrayKept(root: real -> real, data: seq<real>)
    requires IsSqrt(root) && data != []
    ensures FinalKept(root, data) == data <==>
            FinalPass(root, data) == 0 || Unchanged(root, data, FinalPass(root, data))
    ensures FinalKept(root, data) == data ==> SummaryOf(root, data) == WholeSummary(root, data)
  {
    var p := FinalPass(root, data);
    KeptEverything(data, Everything);
    if Unchanged(root, data, p) { UnchangedStops(root, data, p); }
    if |data| == 1 { LoneVariance(root, data); }
  }

  /** One sample has no spread, so the special case for it changes nothing. */
  lemma LoneVariance(root: real -> real, data: seq<real>)
    requires IsSqrt(root) && |data| == 1
    ensures root(Variance(data)) == 0.0
  {
    assert Sum(data) == data[0] && Mean(data) == data[0];
    assert SumSq(data, data[0]) == 0.0 && Variance(data) == 0.0;
    if root(0.0) > 0.0 { PositiveProduct(root(0.0), root(0.0), 0.0); }
  }

  /** Nine samples or fewer are summarised whole: clipping needs a tenth. */
  lemma SmallSummary(root: real -> real, data: seq<real>)
    requires IsSqrt(root) && 0 < |data| <= 9
    ensures SummaryOf(root, data) == WholeSummary(root, data)
  {
    NineOrFewer(root, data, FinalPass(root, data));
    WholeArrayKept(root, data);
  }

  /** The outputs depend only on the multiset of samples. */
  lemma SummaryOfPermutation(root: real -> real, s: seq<real>, t: seq<real>)
    requires multiset(s) == multiset(t)
    ensures SummaryOf(root, s) == SummaryOf(root, t)
  {
    hide Mean, Variance, MaxFrom, MinFrom, FinalKept;
    SameLength(s, t);
    FinalOfPermutation(root, s, t);
    StatsOfPermutation(FinalKept(root, s), FinalKept(root, t));
  }
}
