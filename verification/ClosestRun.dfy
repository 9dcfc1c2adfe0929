/**
 `closest_k`: sort in place, then find the first run of `k` adjacent pairs within one per cent.
 The read after the loop can fall one past the end of the array, so a result is a fetch that
 says whether it was in bounds.
 */
module ClosestRun {
  import opened Doubles
  import opened Samples
  import opened Powers
  import opened Sorting

  const IMPRECISION := 0.01

  datatype Fetch = Read(result: Double) | OutOfBounds(index: nat)

  /** With a zero denominator the quotient is NaN or infinite, and the test fails. */
  predicate Close(a: real, b: real) {
    b != 0.0 && Abs(b - a) / b < IMPRECISION
  }

  /** The `k` adjacent pairs from position `i` on are all close. */
  predicate CloseRun(s: seq<real>, i: nat, k: nat) {
    i + k < |s| && forall j {:trigger s[j]} | i < j <= i + k :: Close(s[j - 1], s[j])
  }

  /** The value of `cont_cnt` after position `i`. */
  function Trailing(s: seq<real>, i: nat): (c: nat)
    requires i < |s|
    ensures c <= i
  {
    if i > 0 && Close(s[i - 1], s[i]) then Trailing(s, i - 1) + 1 else 0
  }

  /** The first position from `i` on at which the loop returns, or the length if it never does. */
  function FirstHit(s: seq<real>, k: nat, i: nat): (e: nat)
    requires 1 <= i <= |s|
    ensures i <= e <= |s|
    ensures e < |s| ==> k > 0 && Trailing(s, e) == k
    decreases |s| - i
  {
    if i == |s| || (k > 0 && Trailing(s, i) == k) then i else FirstHit(s, k, i + 1)
  }

  lemma {:induction false} FirstHitIsFirst(s: seq<real>, k: nat, i: nat)
    requires 1 <= i <= |s|
    ensures forall j :: i <= j < FirstHit(s, k, i) && k > 0 ==> Trailing(s, j) != k
    decreases |s| - i
  {
    if i == |s| {
    } else {
      FirstHitIsFirst(s, k, i + 1);
    }
  }

  /** What `closest_k` returns once the samples are sorted. */
  function Reading(s: seq<real>, k: nat): Fetch {
    if |s| == 0 then Read(NaN)
    else if |s| == 1 then Read(Num(s[0]))
    else
      var e := FirstHit(s, k, 1);
      if e < |s| then Read(Num(s[e - k]))
      else
        var c := Trailing(s, |s| - 1);
        if c > 0 then Read(Num(s[|s| - c])) else OutOfBounds(|s|)
  }

  lemma CountStep(s: seq<real>, k: nat, idx: nat)
    requires 1 <= idx < |s|
    ensures Close(s[idx - 1], s[idx]) ==> Trailing(s, idx) == Trailing(s, idx - 1) + 1
    ensures !Close(s[idx - 1], s[idx]) ==> Trailing(s, idx) == 0
    ensures k > 0 && Trailing(s, idx) == k ==> FirstHit(s, k, idx) == idx
    ensures k == 0 || Trailing(s, idx) != k ==> FirstHit(s, k, idx) == FirstHit(s, k, idx + 1)
  {
  }

  method ClosestK(data: array<real>, k: nat) returns (r: Fetch)
    modifies data
    ensures SortedPermutation(data[..], old(data[..]), DoubleCmp)
    ensures r == Reading(data[..], k)
    ensures data.Length == 0 ==> r == Read(NaN)
  {
    hide Consistent, Separates, SortedPermutation, Close, Trailing, FirstHit, Reading, DoubleCmp;
    var size := data.Length;
    TooFewToSort(data[..], k);
    if size == 0 { return Read(NaN); }
    if size == 1 { return Read(Num(data[0])); }
    DoubleCmpConsistent();
    Qsort(data, DoubleCmp);
    ghost var s := data[..];
    var contCnt: nat := 0;
    var idx: nat := 1;
    NothingCounted(s);
    while idx < size
      invariant 1 <= idx <= size == |s|
      invariant data[..] == s
      invariant contCnt == Trailing(s, idx - 1)
      invariant FirstHit(s, k, 1) == FirstHit(s, k, idx)
    {
      CountStep(s, k, idx);
      assert data[idx - 1] == s[idx - 1] && data[idx] == s[idx];
      if Close(data[idx - 1], data[idx]) {
        contCnt := contCnt + 1;
        if contCnt == k {
          ReadingInLoop(s, k, idx);
          return Read(Num(data[idx - contCnt]));
        }
      } else {
        contCnt := 0;
      }
      idx := idx + 1;
    }
    ReadingAfterLoop(s, k);
    if contCnt > 0 {
      r := Read(Num(data[idx - contCnt]));
    } else {
      r := OutOfBounds(idx - contCnt);
    }
  }

  lemma TooFewToSort(s: seq<real>, k: nat)
    ensures |s| < 2 ==> SortedPermutation(s, s, DoubleCmp)
    ensures |s| == 0 ==> Reading(s, k) == Read(NaN)
    ensures |s| == 1 ==> Reading(s, k) == Read(Num(s[0]))
  {
  }

  lemma ReadingInLoop(s: seq<real>, k: nat, idx: nat)
    requires 2 <= |s| && 1 <= idx < |s| && FirstHit(s, k, 1) == idx
    ensures k <= idx && Reading(s, k) == Read(Num(s[idx - k]))
  {
  }

  lemma ReadingAfterLoop(s: seq<real>, k: nat)
    requires 2 <= |s| && FirstHit(s, k, 1) == FirstHit(s, k, |s|)
    ensures var c := Trailing(s, |s| - 1);
            c < |s| && Reading(s, k) == if c > 0 then Read(Num(s[|s| - c])) else OutOfBounds(|s|)
  {
  }

  lemma NothingCounted(s: seq<real>)
    ensures s != [] ==> Trailing(s, 0) == 0
  {
  }

  // ----- what the counter means

  /** The counter is the length of the longest close run ending at `i`. */
  lemma {:induction false} TrailingIsLongest(s: seq<real>, i: nat, k: nat)
    requires i < |s|
    ensures k <= i ==> (CloseRun(s, i - k, k) <==> k <= Trailing(s, i))
  {
    if k == 0 || i < k {
    } else {
      var j := i - k;
      TrailingIsLongest(s, i - 1, k - 1);
      RunSplits(s, j, k);
    }
  }

  lemma RunSplits(s: seq<real>, j: nat, k: nat)
    requires k > 0 && j + k < |s|
    ensures CloseRun(s, j, k) <==> CloseRun(s, j, k - 1) && Close(s[j + k - 1], s[j + k])
  {
    hide Close;
    var i := j + k;
    assert CloseRun(s, j, k) ==> Close(s[i - 1], s[i]);
  }

  /** Counters climb by one, so a count of `k` or more was exactly `k` no later. */
  lemma {:induction false} ClimbsThrough(s: seq<real>, i: nat, k: nat)
    requires i < |s| && 0 < k <= Trailing(s, i)
    ensures exists j :: 1 <= j <= i && Trailing(s, j) == k
  {
    if Trailing(s, i) == k {
    } else {
      ClimbsThrough(s, i - 1, k);
    }
  }

  // ----- inside the loop

  lemma RunFits(s: seq<real>, k: nat)
    ensures forall i: nat :: CloseRun(s, i, k) ==> i + k < |s|
  {
  }

  /** A window exists exactly when the loop returns; it then starts the earliest one. */
  lemma EarliestWindow(s: seq<real>, k: nat)
    requires |s| >= 2 && k > 0
    ensures (exists i: nat :: CloseRun(s, i, k)) <==> FirstHit(s, k, 1) < |s|
    ensures var e := FirstHit(s, k, 1);
            e < |s| ==> CloseRun(s, e - k, k) && Reading(s, k) == Read(Num(s[e - k]))
                        && forall i: nat :: CloseRun(s, i, k) ==> e - k <= i
  {
    hide CloseRun, Close, Trailing;
    var e := FirstHit(s, k, 1);
    FirstHitIsFirst(s, k, 1);
    if e < |s| { TrailingIsLongest(s, e, k); }
    assert forall i: nat :: CloseRun(s, i, k) ==> i + k < |s| by { RunFits(s, k); }
    forall i: nat | CloseRun(s, i, k) ensures e <= i + k {
      TrailingIsLongest(s, i + k, k);
      ClimbsThrough(s, i + k, k);
    }
  }

  // ----- past the loop

  /** The read is in bounds exactly when a full window exists or the last sorted pair is close. */
  lemma IndexSafety(s: seq<real>, k: nat)
    requires |s| >= 2
    ensures Reading(s, k).Read? <==>
            (k > 0 && exists i: nat :: CloseRun(s, i, k)) || Close(s[|s| - 2], s[|s| - 1])
    ensures Reading(s, k).OutOfBounds? ==> Reading(s, k).index == |s|
  {
    FirstHitIsFirst(s, k, 1);
    if k > 0 { EarliestWindow(s, k); }
  }

  /** Two samples a factor of two apart are read past the end, whatever `k` is. */
  lemma ReadsPastTheEnd(k: nat)
    ensures Ascending([1.0, 2.0]) && Reading([1.0, 2.0], k) == OutOfBounds(2)
  {
    var s := [1.0, 2.0];
    assert !Close(s[0], s[1]);
    forall i: nat | k > 0 && i + k < |s| ensures !CloseRun(s, i, k) { assert i == 0 && k == 1; }
    IndexSafety(s, k);
  }

  /** Without a window, the value is the second element of the longest close run at the end. */
  lemma FallThrough(s: seq<real>, k: nat)
    requires |s| >= 2 && (k == 0 || forall i: nat :: !CloseRun(s, i, k)) && Close(s[|s| - 2], s[|s| - 1])
    ensures var c := Trailing(s, |s| - 1);
            && 0 < c < |s| && CloseRun(s, |s| - 1 - c, c) && (k > 0 ==> c < k)
            && (c + 1 < |s| ==> !CloseRun(s, |s| - 2 - c, c + 1))
            && Reading(s, k) == Read(Num(s[|s| - c]))
  {
    FirstHitIsFirst(s, k, 1);
    var n := |s| - 1;
    var c := Trailing(s, n);
    if k > 0 {
      EarliestWindow(s, k);
      if k <= c { TrailingIsLongest(s, n, k); }
    }
    TrailingIsLongest(s, n, c);
    if c + 1 < |s| { TrailingIsLongest(s, n, c + 1); }
  }

  /** Any value returned is one of the samples. */
  lemma ReadsASample(s: seq<real>, k: nat)
    requires Reading(s, k).Read? && s != []
    ensures Reading(s, k).result.Num? && Reading(s, k).result.value in s
  {
    if |s| > 1 { FirstHitIsFirst(s, k, 1); }
  }

  // ----- how tight a window is

  /** What the closeness test means for sorted samples: a negative one is always close to its predecessor. */
  lemma CloseSorted(a: real, b: real)
    requires a <= b
    ensures Close(a, b) <==> b < 0.0 || (b > 0.0 && 100.0 * a > 99.0 * b)
  {
    if b > 0.0 {
      var q := (b - a) / b;
      assert q * b == b - a;
      if q < IMPRECISION { assert (IMPRECISION - q) * b > 0.0; } else { assert (q - IMPRECISION) * b >= 0.0; }
    } else if b < 0.0 {
      var q := (b - a) / b;
      assert q * b == b - a;
      CancelFactor(q, 0.0, -b);
    }
  }

  lemma {:induction false} PositiveWindow(s: seq<real>, i: nat, k: nat)
    requires Ascending(s) && CloseRun(s, i, k) && s[i + k] > 0.0
    ensures s[i] >= RealPow(0.99, k) * s[i + k]
    ensures k > 0 ==> s[i] > RealPow(0.99, k) * s[i + k]
    decreases k
  {
    hide CloseRun, Close, Ascending, RealPow;
    PowStep(0.99, k);
    if k == 0 {
    } else {
      LastPair(s, i, k);
      PositiveWindow(s, i, k - 1);
      Chain(RealPow(0.99, k - 1), RealPow(0.99, k), s[i], s[i + k - 1], s[i + k]);
    }
  }

  lemma PowStep(r: real, k: nat)
    requires 0.0 < r < 1.0
    ensures k == 0 ==> RealPow(r, k) == 1.0
    ensures k > 0 ==> RealPow(r, k - 1) > 0.0 && RealPow(r, k) == r * RealPow(r, k - 1)
  {
    if k > 0 { FractionPow(r, k - 1); }
  }

  lemma LastPair(s: seq<real>, i: nat, k: nat)
    requires Ascending(s) && CloseRun(s, i, k) && k > 0
    ensures i + k < |s| && CloseRun(s, i, k - 1) && s[i] <= s[i + k] && s[i + k] != 0.0
    ensures s[i + k] > 0.0 ==> s[i + k - 1] > 0.99 * s[i + k] && s[i + k - 1] > 0.0
  {
    hide RealPow;
    var a, b := s[i + k - 1], s[i + k];
    assert Close(a, b);
    CloseSorted(a, b);
    if b > 0.0 { assert 0.99 * b > 0.0; }
  }

  lemma Chain(p: real, p2: real, first: real, a: real, b: real)
    requires p > 0.0 && p2 == 0.99 * p
    requires first >= p * a && a > 0.99 * b
    ensures first > p2 * b
  {
    assert p * (a - 0.99 * b) > 0.0;
    assert p * (0.99 * b) == p2 * b;
  }

  /**
   The window is geometrically tight, each sample above 99 per cent of the next, exactly when its
   largest sample is positive. Negative samples count as close however far apart they are.
   */
  lemma WindowTight(s: seq<real>, i: nat, k: nat)
    requires Ascending(s) && CloseRun(s, i, k) && k > 0
    ensures s[i] > RealPow(0.99, k) * s[i + k] <==> s[i + k] > 0.0
    ensures s[i + k] > 0.0 ==> s[i] > (1.0 - k as real * 0.01) * s[i + k]
  {
    hide CloseRun, Close, Ascending, RealPow;
    LastPair(s, i, k);
    FractionPow(0.99, k);
    Bernoulli(0.01, k);
    if s[i + k] > 0.0 { PositiveWindow(s, i, k); }
    TightArith(RealPow(0.99, k), 1.0 - k as real * 0.01, s[i], s[i + k]);
  }

  lemma TightArith(p: real, q: real, a: real, b: real)
    requires q <= p <= 1.0 && a <= b && (b > 0.0 ==> a > p * b)
    ensures a > p * b <==> b > 0.0
    ensures b > 0.0 ==> a > q * b
  {
    if b > 0.0 {
      assert (p - q) * b >= 0.0;
    } else {
      assert (1.0 - p) * (-b) >= 0.0;
    }
  }

  /** More than `k` negative samples always make a window, at the very start. */
  lemma NegativeStart(s: seq<real>, k: nat)
    requires Ascending(s) && 0 < k < |s| && s[k] < 0.0
    ensures CloseRun(s, 0, k) && Reading(s, k) == Read(Num(s[0]))
  {
    forall j | 0 < j <= k ensures Close(s[j - 1], s[j]) { CloseSorted(s[j - 1], s[j]); }
    hide CloseRun, Close, Ascending, Reading;
    assert CloseRun(s, 0, k);
    EarliestWindow(s, k);
  }

  /**
   When the loop returns, the value is tight against its window's largest sample exactly if that
   is positive, and that is so exactly if at most `k` of the samples are negative. With more of
   them the minimum is returned, however far apart the samples are.
   */
  lemma ReadingTight(s: seq<real>, k: nat)
    requires SortedBy(s, DoubleCmp) && |s| >= 2 && k > 0 && exists i: nat :: CloseRun(s, i, k)
    ensures var e := FirstHit(s, k, 1);
            && k <= e < |s| && Reading(s, k) == Read(Num(s[e - k]))
            && (s[e - k] > RealPow(0.99, k) * s[e] <==> s[k] >= 0.0)
            && (s[e] > 0.0 <==> s[k] >= 0.0)
            && (s[k] >= 0.0 ==> s[e - k] > (1.0 - k as real * 0.01) * s[e])
            && (s[k] < 0.0 ==> Reading(s, k) == Read(Num(s[0])))
  {
    hide *;
    var e := FirstHit(s, k, 1);
    assert k <= e < |s| && CloseRun(s, e - k, k) && Reading(s, k) == Read(Num(s[e - k])) by { EarliestWindow(s, k); }
    assert Ascending(s) by { SortedIsAscending(s); }
    assert e - k + k == e;
    SignOfLargest(s, k, e);
    WindowTight(s, e - k, k);
    if s[k] < 0.0 { NegativeStart(s, k); }
  }

  lemma SignOfLargest(s: seq<real>, k: nat, e: nat)
    requires Ascending(s) && |s| >= 2 && 0 < k <= e < |s| && e == FirstHit(s, k, 1) && CloseRun(s, e - k, k)
    ensures s[e] > 0.0 <==> s[k] >= 0.0
  {
    hide FirstHit;
    LastPair(s, e - k, k);
    if s[k] < 0.0 {
      NegativeStart(s, k);
      EarliestWindow(s, k);
    } else {
      assert k < e ==> s[k] <= s[e];
    }
  }

  /** Two negative samples any factor apart form a window of one pair. */
  lemma NegativeAlwaysClose(a: real, b: real)
    requires a <= b < 0.0
    ensures CloseRun([a, b], 0, 1) && Reading([a, b], 1) == Read(Num(a))
  {
    CloseSorted(a, b);
  }
}
