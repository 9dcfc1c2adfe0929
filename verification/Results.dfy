/** `collect_results`: the statistics and the k-closest value of one benchmark, stored in its result. */
module Results {
  import opened Doubles
  import opened Samples
  import opened Sorting
  import opened Aggregation
  import opened SummaryLaws
  import opened ClosestRun

  const CLOSEST_K: nat := 5

  datatype InputSize = Test | Small | Medium | Large

  datatype BenchConfig = BenchConfig(iter: nat, size: InputSize)

  class BenchResult {
    var config: BenchConfig
    var mean: Double
    var stddev: Double
    var max: Double
    var min: Double
    var kClosest: Fetch
    var errored: bool
    var child: BenchResult?

    constructor (config: BenchConfig)
      ensures this.config == config && child == null
    {
      this.config := config;
      mean, stddev, max, min := NaN, NaN, NaN, NaN;
      kClosest := Read(NaN);
      errored, child := false, null;
    }
  }

  /** The array is summarised in the order it was measured and left sorted. */
  method CollectResults(root: real -> real, data: array<real>, config: BenchConfig, res: BenchResult)
    requires IsSqrt(root)
    modifies data, res
    ensures SortedPermutation(data[..], old(data[..]), DoubleCmp)
    ensures Summary(res.mean, res.stddev, res.max, res.min) == SummaryOf(root, old(data[..]))
    ensures res.kClosest == Reading(data[..], CLOSEST_K)
    ensures (exists i: nat :: CloseRun(data[..], i, 5)) ==> EarliestOfFive(data[..], res.kClosest)
    ensures res.config == config && res.child == null && !res.errored
  {
    hide SortedPermutation, SummaryOf, Reading, IsSqrt;
    res.config := config;
    res.child := null;
    res.errored := false;
    var mean, stddev, max, min, noisy := Aggregate(root, data);
    res.mean, res.stddev, res.max, res.min := mean, stddev, max, min;
    res.kClosest := ClosestK(data, CLOSEST_K);
    if exists i: nat :: CloseRun(data[..], i, 5) { StoredReading(data[..]); }
  }

  /** The value starts the first five consecutive close pairs. */
  ghost predicate EarliestOfFive(s: seq<real>, value: Fetch) {
    exists i: nat :: CloseRun(s, i, 5) && (forall h: nat :: CloseRun(s, h, 5) ==> i <= h) && value == Read(Num(s[i]))
  }

  /** Five close pairs in a row are what the stored reading looks for. */
  lemma StoredReading(s: seq<real>)
    requires exists i: nat :: CloseRun(s, i, 5)
    ensures EarliestOfFive(s, Reading(s, CLOSEST_K))
  {
    hide CloseRun, Reading, FirstHit;
    RunFits(s, 5);
    EarliestWindow(s, 5);
    assert CloseRun(s, FirstHit(s, 5, 1) - 5, 5);
  }

  lemma RunOf(s: seq<real>, i: nat)
    ensures CloseRun(s, i, 5) ==> i + 5 < |s| && Close(s[i], s[i + 1])
    ensures i + 5 < |s| && (forall j :: i < j <= i + 5 ==> Close(s[j - 1], s[j])) ==> CloseRun(s, i, 5)
  {
    assert CloseRun(s, i, 5) ==> Close(s[i + 1 - 1], s[i + 1]);
  }

  /** Six samples two per cent apart are no window, so the run of equal samples after them is reported. */
  lemma SpreadRunSkipped()
    ensures var s := [100.0, 102.0, 104.0, 106.0, 108.0, 110.0, 200.0, 200.0, 200.0, 200.0, 200.0, 200.0];
            Ascending(s) && Reading(s, CLOSEST_K) == Read(Num(200.0))
  {
    var s := [100.0, 102.0, 104.0, 106.0, 108.0, 110.0, 200.0, 200.0, 200.0, 200.0, 200.0, 200.0];
    hide CloseRun, Close, Reading;
    CloseSorted(100.0, 102.0);
    CloseSorted(102.0, 104.0);
    CloseSorted(104.0, 106.0);
    CloseSorted(106.0, 108.0);
    CloseSorted(108.0, 110.0);
    CloseSorted(110.0, 200.0);
    CloseSorted(200.0, 200.0);
    assert CloseRun(s, 6, 5) by { RunOf(s, 6); }
    StoredReading(s);
    forall i: nat | CloseRun(s, i, 5) ensures i == 6 { RunOf(s, i); }
  }

  /**
   Everything `collect_results` stores depends only on the multiset of samples: measurements
   `s` and `t` that are permutations of each other give equal summaries, whether taken before
   or after the sort, and the same sorted array with the same k-closest reading.
   */
  lemma OnlyMultisetMatters(root: real -> real, s: seq<real>, t: seq<real>, s2: seq<real>, t2: seq<real>)
    requires multiset(s) == multiset(t)
    requires SortedPermutation(s2, s, DoubleCmp) && SortedPermutation(t2, t, DoubleCmp)
    ensures SummaryOf(root, s) == SummaryOf(root, t) == SummaryOf(root, s2)
    ensures s2 == t2 && Reading(s2, CLOSEST_K) == Reading(t2, CLOSEST_K)
  {
    hide SummaryOf, Reading;
    SummaryOfPermutation(root, s, t);
    SummaryOfPermutation(root, s, s2);
    DoubleCmpConsistent();
    SortedUnique(s2, t2, DoubleCmp);
  }
}
