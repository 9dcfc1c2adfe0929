/**
 `calc_k_closest` of os_eval.cpp: sort the times in place, then fill a slot buffer with
 consecutive sub-second samples at most five per cent above their predecessor, starting over
 whenever a pair is slow or too far apart. A returned pointer into the array is its index.
 */
module KClosest {
  import opened Powers
  import opened Sorting
  import opened Timespecs

  const K: nat := 5
  const INPRECISION := 0.05

  /** The three ways the loop body goes: some time reaches a second, the pair is too far apart, or it is kept. */
  datatype Link = Slow | Apart | Linked

  /** `ratioDiff > INPRECISION`: over a zero predecessor the ratio is infinite or NaN. */
  predicate TooFar(prev: int, curr: int) {
    if prev == 0 then curr - prev > 0 else (curr - prev) as real / prev as real > INPRECISION
  }

  function LinkOf(prev: Timespec, curr: Timespec): Link {
    if curr.sec != 0 || prev.sec != 0 then Slow
    else if TooFar(prev.nsec, curr.nsec) then Apart
    else Linked
  }

  function LinkAt(s: seq<Timespec>, i: nat): Link
    requires 0 < i < |s|
  {
    LinkOf(s[i - 1], s[i])
  }

  /** The value of `j` after position `i`. */
  function Streak(s: seq<Timespec>, i: nat): (j: nat)
    requires i < |s|
    ensures j <= i + 1
  {
    if i == 0 then 1
    else if LinkAt(s, i) == Linked then Streak(s, i - 1) + 1
    else 0
  }

  /** The content of slot 0 after position `i`: a slow pair leaves it stale, a far one clears it. */
  function Head(s: seq<Timespec>, i: nat): Option<nat>
    requires i < |s|
  {
    if i == 0 then Some(0)
    else match LinkAt(s, i)
      case Slow => Head(s, i - 1)
      case Apart => None
      case Linked => if Streak(s, i - 1) == 0 then Some(i) else Head(s, i - 1)
  }

  /** The first position from `i` on at which the buffer is full, or the length if it never is. */
  function FirstFull(s: seq<Timespec>, i: nat): (e: nat)
    requires i <= |s|
    ensures i <= e <= |s|
    ensures e < |s| ==> Streak(s, e) == K
    decreases |s| - i
  {
    if i == |s| || Streak(s, i) == K then i else FirstFull(s, i + 1)
  }

  /** What `calc_k_closest` returns once the times are sorted; index 0 even of an empty array. */
  function KClosestOf(s: seq<Timespec>): Option<nat> {
    if s == [] then Some(0)
    else
      var e := FirstFull(s, 0);
      if e < |s| then Head(s, e) else Head(s, |s| - 1)
  }

  /** The first `j` slots hold the consecutive positions up to `i`, and slot 0 is the head. */
  ghost predicate Buffered(slots: seq<Option<nat>>, s: seq<Timespec>, i: nat, j: nat) {
    i < |s| && |slots| == K && j == Streak(s, i) <= K && slots[0] == Head(s, i)
    && forall t :: 0 <= t < j ==> slots[t] == Some(i + 1 - j + t)
  }

  method CalcKClosest(times: array<Timespec>) returns (result: Option<nat>)
    modifies times
    ensures SortedPermutation(times[..], old(times[..]), Comp)
    ensures result == KClosestOf(times[..])
  {
    hide Consistent, SortedPermutation, LinkOf, Streak, Head, FirstFull, KClosestOf, Buffered;
    CompConsistent();
    Qsort(times, Comp);
    ghost var s := times[..];
    var size := times.Length;
    var slots := new Option<nat>[K](_ => None);
    slots[0] := Some(0);
    var j: nat := 1;
    if size == 0 {
      EmptyTimes(s);
      return slots[0];
    }
    FirstSample(s, slots[..]);
    var i: nat := 1;
    while i < size
      invariant 1 <= i <= size == |s|
      invariant times[..] == s
      invariant j < K && Buffered(slots[..], s, i - 1, j)
      invariant FirstFull(s, 0) == FirstFull(s, i)
    {
      ghost var before := slots[..];
      assert times[i - 1] == s[i - 1] && times[i] == s[i];
      var prev, curr := times[i - 1], times[i];
      if LinkOf(prev, curr) == Slow {
        SlowStep(before, s, i, j);
        j := 0;
      } else if LinkOf(prev, curr) == Apart {
        j := 0;
        for ii := 0 to K
          invariant times[..] == s
          invariant forall t :: 0 <= t < ii ==> slots[t] == None
        {
          slots[ii] := None;
        }
        ApartStep(slots[..], s, i);
      } else {
        slots[j] := Some(i);
        j := j + 1;
        LinkedStep(before, slots[..], s, i, j);
      }
      FullStep(slots[..], s, i, j);
      if j == K { break; }
      i := i + 1;
    }
    result := slots[0];
    Leaving(slots[..], s, if j == K then i else i - 1, j);
  }

  // ----- the steps of the loop

  lemma EmptyTimes(s: seq<Timespec>)
    ensures s == [] ==> KClosestOf(s) == Some(0)
  {
  }

  lemma FirstSample(s: seq<Timespec>, slots: seq<Option<nat>>)
    requires s != [] && |slots| == K && slots[0] == Some(0)
    ensures Buffered(slots, s, 0, 1) && FirstFull(s, 0) == FirstFull(s, 1)
  {
  }

  lemma SlowStep(slots: seq<Option<nat>>, s: seq<Timespec>, i: nat, j: nat)
    requires 0 < i < |s| && Buffered(slots, s, i - 1, j) && LinkAt(s, i) == Slow
    ensures Buffered(slots, s, i, 0)
  {
  }

  lemma ApartStep(slots: seq<Option<nat>>, s: seq<Timespec>, i: nat)
    requires 0 < i < |s| && LinkAt(s, i) == Apart
    requires |slots| == K && forall t :: 0 <= t < K ==> slots[t] == None
    ensures Buffered(slots, s, i, 0)
  {
  }

  lemma LinkedStep(before: seq<Option<nat>>, slots: seq<Option<nat>>, s: seq<Timespec>, i: nat, j: nat)
    requires 0 < i < |s| && 0 < j <= K && Buffered(before, s, i - 1, j - 1) && LinkAt(s, i) == Linked
    requires slots == before[j - 1 := Some(i)]
    ensures Buffered(slots, s, i, j)
  {
  }

  lemma FullStep(slots: seq<Option<nat>>, s: seq<Timespec>, i: nat, j: nat)
    requires Buffered(slots, s, i, j)
    ensures j == K ==> FirstFull(s, i) == i
    ensures j != K ==> FirstFull(s, i) == FirstFull(s, i + 1)
  {
  }

  lemma Leaving(slots: seq<Option<nat>>, s: seq<Timespec>, i: nat, j: nat)
    requires Buffered(slots, s, i, j)
    requires FirstFull(s, 0) == i || (i == |s| - 1 && FirstFull(s, 0) == |s|)
    ensures KClosestOf(s) == slots[0]
  {
  }

  // ----- what the buffer means

  /** All pairs strictly after position `w` up to `i` are linked. */
  predicate LinkedRun(s: seq<Timespec>, w: nat, i: nat) {
    i < |s| && forall t | w < t <= i :: LinkAt(s, t) == Linked
  }

  /**
   `K` consecutive linked samples from `w` on. Away from the start of the array the first of
   them must itself be linked to its predecessor: the sample after a gap is never stored.
   */
  predicate Window(s: seq<Timespec>, w: nat) {
    w + K <= |s| && LinkedRun(s, if w == 0 then 0 else w - 1, w + K - 1)
  }

  /** A streak of `c` at `i` means the head is the first of the last `c` positions, all linked. */
  lemma {:induction false} StreakIsRun(s: seq<Timespec>, i: nat)
    requires i < |s|
    ensures var c := Streak(s, i);
            && (c > 0 ==> Head(s, i) == Some(i + 1 - c))
            && LinkedRun(s, if c > i then 0 else i - c, i)
            && (c <= i ==> i - c > 0 && LinkAt(s, i - c) != Linked)
  {
    if i == 0 {
    } else {
      StreakIsRun(s, i - 1);
    }
  }

  lemma {:induction false} RunIsStreak(s: seq<Timespec>, w: nat, i: nat)
    requires w <= i && LinkedRun(s, w, i)
    ensures Streak(s, i) >= i - w + (if w == 0 then 1 else 0)
    decreases i
  {
    if w == i {
    } else {
      assert LinkedRun(s, w, i - 1) && LinkAt(s, i) == Linked;
      RunIsStreak(s, w, i - 1);
    }
  }

  /** Streaks climb by one from at most one, so a streak of `K` or more was exactly `K` no later. */
  lemma {:induction false} StreakClimbs(s: seq<Timespec>, i: nat)
    requires i < |s| && Streak(s, i) >= K
    ensures FirstFull(s, 0) <= i
  {
    if Streak(s, i) > K {
      StreakClimbs(s, i - 1);
    } else {
      FullNoLater(s, 0, i);
    }
  }

  lemma {:induction false} FullNoLater(s: seq<Timespec>, i: nat, e: nat)
    requires i <= e < |s| && Streak(s, e) == K
    ensures FirstFull(s, i) <= e
    decreases e - i
  {
    if i == e {
    } else {
      FullNoLater(s, i + 1, e);
    }
  }

  // ----- leaving with a full buffer

  /** The loop fills the buffer exactly when a window exists, and then returns the start of the earliest. */
  lemma EarliestFullWindow(s: seq<Timespec>)
    requires s != []
    ensures FirstFull(s, 0) < |s| <==> exists w: nat :: Window(s, w)
    ensures FirstFull(s, 0) < |s| ==>
              exists w: nat :: Window(s, w) && KClosestOf(s) == Some(w) && forall v: nat :: Window(s, v) ==> w <= v
  {
    var e := FirstFull(s, 0);
    forall v: nat | Window(s, v) ensures e <= v + K - 1 {
      RunIsStreak(s, if v == 0 then 0 else v - 1, v + K - 1);
      StreakClimbs(s, v + K - 1);
    }
    if e < |s| {
      StreakIsRun(s, e);
      assert Window(s, e + 1 - K);
    }
  }

  /** The test on the ratio in whole numbers; a negative predecessor turns it round. */
  lemma TooFarMeans(p: int, c: int)
    ensures TooFar(p, c) <==> if p >= 0 then 20 * c > 21 * p else 20 * c < 21 * p
  {
  }

  /** For non-negative nanoseconds a pair is linked exactly when it is sub-second and within five per cent. */
  lemma LinkedMeans(a: Timespec, b: Timespec)
    requires a.nsec >= 0 && b.nsec >= 0
    ensures LinkOf(a, b) == Linked <==> a.sec == 0 && b.sec == 0 && 20 * b.nsec <= 21 * a.nsec
  {
    TooFarMeans(a.nsec, b.nsec);
  }

  lemma {:induction false} RunBound(s: seq<Timespec>, w: nat, n: nat)
    requires LinkedRun(s, w, w + n) && AllNormalised(s)
    ensures s[w + n].nsec * Pow(20, n) <= s[w].nsec * Pow(21, n)
    decreases n
  {
    if n == 0 {
    } else {
      var i := w + n;
      assert LinkedRun(s, w, i - 1) && LinkAt(s, i) == Linked;
      RunBound(s, w, n - 1);
      LinkedMeans(s[i - 1], s[i]);
      PowPositive(20, n - 1);
      BoundStep(s[w].nsec, s[i - 1].nsec, s[i].nsec, Pow(20, n - 1), Pow(21, n - 1));
    }
  }

  lemma BoundStep(first: int, a: int, b: int, p: int, q: int)
    requires p > 0 && 20 * b <= 21 * a && a * p <= first * q
    ensures b * (20 * p) <= first * (21 * q)
  {
    assert (21 * a - 20 * b) * p >= 0;
  }

  /**
   A full buffer holds five consecutive sub-second samples in ascending order, of which the one
   returned is the smallest, and the largest is within `(21/20)^4` of it.
   */
  lemma WindowBound(s: seq<Timespec>, w: nat)
    requires SortedBy(s, Comp) && AllNormalised(s) && Window(s, w)
    ensures w + 5 <= |s| && forall t :: w <= t < w + 5 ==> s[t].sec == 0 && s[w].nsec <= s[t].nsec <= s[w + 4].nsec
    ensures s[w + 4].nsec * 160000 <= s[w].nsec * 194481
  {
    assert LinkedRun(s, w, w + K - 1);
    RunBound(s, w, 4);
    assert Pow(20, 4) == 160000 && Pow(21, 4) == 194481 by {
      assert Pow(20, 1) == 20 && Pow(20, 2) == 400 && Pow(20, 3) == 8000;
      assert Pow(21, 1) == 21 && Pow(21, 2) == 441 && Pow(21, 3) == 9261;
    }
    forall t | w <= t < w + K ensures s[t].sec == 0 && s[w].nsec <= s[t].nsec <= s[w + K - 1].nsec {
      assert t < w + K - 1 ==> LinkAt(s, t + 1) == Linked;
      assert t > w ==> LinkAt(s, t) == Linked;
      assert w < t ==> Comp(s[w], s[t]) <= 0;
      assert t < w + K - 1 ==> Comp(s[t], s[w + K - 1]) <= 0;
      assert LinkAt(s, w + 1) == Linked && LinkAt(s, w + K - 1) == Linked;
    }
  }

  /** Five samples, each linked to the one before, fill the buffer at the start whatever follows them. */
  lemma FirstFive(s: seq<Timespec>)
    requires |s| >= 5 && forall i :: 0 < i < 5 ==> LinkAt(s, i) == Linked
    ensures KClosestOf(s) == Some(0)
  {
    assert LinkAt(s, 1) == Linked && LinkAt(s, 2) == Linked && LinkAt(s, 3) == Linked && LinkAt(s, 4) == Linked;
    assert Streak(s, 0) == 1 && Streak(s, 1) == 2 && Streak(s, 2) == 3 && Streak(s, 3) == 4 && Streak(s, 4) == 5;
    assert FirstFull(s, 4) == 4 && FirstFull(s, 3) == 4 && FirstFull(s, 2) == 4 && FirstFull(s, 1) == 4;
    assert Head(s, 1) == Head(s, 2) == Head(s, 3) == Head(s, 4) == Some(0);
  }

  // ----- falling through

  predicate AllSlow(s: seq<Timespec>, m: nat, i: nat) {
    m <= i < |s| && forall t | m < t <= i :: LinkAt(s, t) == Slow
  }

  /** Slow pairs at the end leave the head as the last sub-second pair left it. */
  lemma {:induction false} HeadAfterSlow(s: seq<Timespec>, m: nat, i: nat)
    requires AllSlow(s, m, i)
    ensures Head(s, i) == Head(s, m)
    decreases i - m
  {
    if m == i {
    } else {
      assert LinkAt(s, i) == Slow;
      HeadAfterSlow(s, m, i - 1);
    }
  }

  /** In sorted order the sub-second samples are contiguous: once one sample reaches a second, all later ones do. */
  lemma SlowStaysSlow(s: seq<Timespec>, i: nat, t: nat)
    requires SortedBy(s, Comp) && 0 < i < t < |s| && s[i - 1].sec == 0 && s[i].sec != 0
    ensures s[t].sec > 0 && LinkAt(s, t) == Slow
  {
    assert Comp(s[i - 1], s[i]) <= 0 && Comp(s[i], s[t]) <= 0;
  }

  /** Position `i` ends the last pair of sub-second samples. */
  predicate LastSubSecondPair(s: seq<Timespec>, i: nat) {
    0 < i < |s| && s[i - 1].sec == 0 && s[i].sec == 0 && (i + 1 < |s| ==> s[i + 1].sec != 0)
  }

  lemma HeadAtEnd(s: seq<Timespec>, i: nat)
    requires SortedBy(s, Comp) && LastSubSecondPair(s, i)
    ensures Head(s, |s| - 1) == Head(s, i)
  {
    hide SortedBy, Head, TooFar;
    forall t | i < t < |s| ensures LinkAt(s, t) == Slow {
      if t > i + 1 { SlowStaysSlow(s, i + 1, t); }
    }
    HeadAfterSlow(s, i, |s| - 1);
  }

  /** Up to any position, either every link is slow or some pair of sub-second samples has only slow links after it. */
  lemma {:induction false} LastPairExists(s: seq<Timespec>, i: nat)
    requires i < |s|
    ensures AllSlow(s, 0, i) || exists m: nat :: PairThenSlow(s, m, i)
  {
    if i == 0 {
    } else {
      LastPairExists(s, i - 1);
      if LinkAt(s, i) != Slow {
        assert PairThenSlow(s, i, i);
      } else if !AllSlow(s, 0, i - 1) {
        var m: nat :| PairThenSlow(s, m, i - 1);
        assert PairThenSlow(s, m, i);
      }
    }
  }

  predicate PairThenSlow(s: seq<Timespec>, m: nat, i: nat) {
    0 < m && AllSlow(s, m, i) && s[m - 1].sec == 0 && s[m].sec == 0
  }

  /** The head is null exactly when the pair that last set it was too far apart. */
  lemma {:induction false} HeadNull(s: seq<Timespec>, i: nat)
    requires 0 < i < |s| && LinkAt(s, i) != Slow
    ensures Head(s, i) == None <==> LinkAt(s, i) == Apart
  {
    StreakIsRun(s, i);
  }

  /**
   A null pointer is returned exactly when no window exists and the last two sub-second samples
   are more than five per cent apart.
   */
  lemma NullExactly(s: seq<Timespec>)
    requires SortedBy(s, Comp)
    ensures KClosestOf(s) == None <==>
            (forall w: nat :: !Window(s, w))
            && exists i: nat :: LastSubSecondPair(s, i) && TooFar(s[i - 1].nsec, s[i].nsec)
  {
    hide SortedBy, Window, Head, FirstFull, LinkOf, TooFar;
    if s != [] {
      EarliestFullWindow(s);
      NullAtEnd(s);
    }
    WindowNonEmpty(s);
  }

  lemma WindowNonEmpty(s: seq<Timespec>)
    ensures s == [] ==> forall w: nat :: !Window(s, w)
  {
  }

  lemma NullAtEnd(s: seq<Timespec>)
    requires SortedBy(s, Comp) && s != []
    ensures Head(s, |s| - 1) == None <==> exists i: nat :: LastSubSecondPair(s, i) && TooFar(s[i - 1].nsec, s[i].nsec)
  {
    hide SortedBy;
    var n := |s| - 1;
    LastPairExists(s, n);
    if AllSlow(s, 0, n) {
      HeadAfterSlow(s, 0, n);
      forall i: nat ensures !LastSubSecondPair(s, i) {
        assert 0 < i <= n ==> LinkAt(s, i) == Slow;
      }
    } else {
      var m: nat :| PairThenSlow(s, m, n);
      assert m + 1 <= n ==> LinkAt(s, m + 1) == Slow;
      assert LastSubSecondPair(s, m);
      HeadAtEnd(s, m);
      HeadNull(s, m);
      forall i: nat | LastSubSecondPair(s, i) ensures i == m { OnlyLastPair(s, i, m); }
    }
  }

  lemma OnlyLastPair(s: seq<Timespec>, i: nat, m: nat)
    requires SortedBy(s, Comp) && LastSubSecondPair(s, i) && LastSubSecondPair(s, m)
    ensures i == m
  {
    if i < m && i + 1 < m { SlowStaysSlow(s, i + 1, m); }
    if m < i && m + 1 < i { SlowStaysSlow(s, m + 1, i); }
  }

  /** Without a pair of sub-second samples slot 0 is never touched, and the first sample is returned. */
  lemma NoSubSecondPair(s: seq<Timespec>)
    requires s != [] && SortedBy(s, Comp) && forall i: nat :: !LastSubSecondPair(s, i)
    ensures KClosestOf(s) == Some(0)
  {
    AllSlowOrPair(s);
    HeadAfterSlow(s, 0, |s| - 1);
    EarliestFullWindow(s);
    NoWindowWithoutPair(s);
  }

  lemma AllSlowOrPair(s: seq<Timespec>)
    requires s != []
    ensures AllSlow(s, 0, |s| - 1) || exists m: nat :: LastSubSecondPair(s, m)
  {
    var n := |s| - 1;
    LastPairExists(s, n);
    if !AllSlow(s, 0, n) {
      var m: nat :| PairThenSlow(s, m, n);
      assert m + 1 <= n ==> LinkAt(s, m + 1) == Slow;
      assert LastSubSecondPair(s, m);
    }
  }

  lemma NoWindowWithoutPair(s: seq<Timespec>)
    requires s != [] && AllSlow(s, 0, |s| - 1)
    ensures forall w: nat :: !Window(s, w)
  {
    forall w: nat | w + K <= |s| ensures !Window(s, w) {
      assert LinkAt(s, w + 1) == Slow;
    }
  }

  /**
   Without a window and with the last sub-second pair linked, the head is where the linked run
   at the end of the sub-second samples starts: the array's first sample, or the second sample
   after the last gap.
   */
  lemma FallThroughHead(s: seq<Timespec>, m: nat)
    requires SortedBy(s, Comp) && (forall w: nat :: !Window(s, w))
    requires LastSubSecondPair(s, m) && LinkAt(s, m) == Linked
    ensures exists h: nat :: h <= m && KClosestOf(s) == Some(h) && m + 1 - h < 5
                        && LinkedRun(s, if h == 0 then 0 else h - 1, m)
                        && (h == 0 || (h > 1 && LinkAt(s, h - 1) != Linked))
  {
    EarliestFullWindow(s);
    HeadAtEnd(s, m);
    StreakIsRun(s, m);
    var h := m + 1 - Streak(s, m);
    if Streak(s, m) >= K { StreakClimbs(s, m); }
    assert LinkedRun(s, if h == 0 then 0 else h - 1, m);
  }

  /**
   The callers dereference the result. That is safe exactly for a non-empty array in which a
   window exists or the last two sub-second samples, if there are two, are within five per cent.
   */
  lemma DereferenceSafe(s: seq<Timespec>)
    requires SortedBy(s, Comp)
    ensures (KClosestOf(s).Some? && KClosestOf(s).value < |s|) <==>
            s != [] && ((exists w: nat :: Window(s, w))
                        || forall i: nat :: LastSubSecondPair(s, i) ==> !TooFar(s[i - 1].nsec, s[i].nsec))
  {
    hide SortedBy, Window, Head, FirstFull, LinkOf, TooFar, LastSubSecondPair;
    ResultInRange(s);
    NullExactly(s);
  }

  lemma ResultInRange(s: seq<Timespec>)
    ensures s != [] && KClosestOf(s).Some? ==> KClosestOf(s).value < |s|
    ensures s == [] ==> KClosestOf(s) == Some(0)
  {
    if s != [] {
      HeadInRange(s, if FirstFull(s, 0) < |s| then FirstFull(s, 0) else |s| - 1);
    }
  }

  /** Two samples of one and two nanoseconds make the callers dereference a null pointer. */
  lemma NullResult()
    ensures var s := [Timespec(0, 1), Timespec(0, 2)];
            SortedBy(s, Comp) && KClosestOf(s) == None
  {
    var s := [Timespec(0, 1), Timespec(0, 2)];
    LinkedMeans(s[0], s[1]);
    assert LinkAt(s, 1) == Apart;
    assert Streak(s, 0) == 1 && Streak(s, 1) == 0;
    assert FirstFull(s, 2) == 2 && FirstFull(s, 1) == 2 && FirstFull(s, 0) == 2;
    assert Head(s, 1) == None;
  }

  lemma {:induction false} HeadInRange(s: seq<Timespec>, i: nat)
    requires i < |s|
    ensures Head(s, i).Some? ==> Head(s, i).value <= i
  {
    if i == 0 {
    } else {
      HeadInRange(s, i - 1);
    }
  }

  /**
   A run of five equal samples right after a gap is missed, because the first sample after the
   gap is never stored: only four of the five are, and the second of them is returned.
   */
  lemma RunAfterGapMissed(a: int, b: int)
    requires 0 < a && 20 * b > 21 * a
    ensures var x, y := Timespec(0, a), Timespec(0, b);
            var s := [x, y, y, y, y, y];
            && LinkedRun(s, 1, 5) && (forall w: nat :: !Window(s, w))
            && KClosestOf(s) == Some(2)
  {
    var x, y := Timespec(0, a), Timespec(0, b);
    var s := [x, y, y, y, y, y];
    LinkedMeans(x, y);
    LinkedMeans(y, y);
    assert LinkAt(s, 1) == Apart;
    assert Streak(s, 1) == 0 && Streak(s, 2) == 1 && Streak(s, 3) == 2 && Streak(s, 4) == 3 && Streak(s, 5) == 4;
    assert FirstFull(s, 6) == 6 && FirstFull(s, 5) == 6 && FirstFull(s, 4) == 6;
    assert FirstFull(s, 3) == 6 && FirstFull(s, 2) == 6;
    assert FirstFull(s, 0) == 6;
    EarliestFullWindow(s);
    StreakIsRun(s, 5);
  }
}
