/**
 The batch driver of os_eval.cpp: `one_line_test_v2` calls a test again and again until a shared
 index has covered every slot, then summarises the slots. The clock readings around the timed
 call of slot `t` are the parameters `starts[t]` and `ends[t]`; forks succeed.
 */
module BatchDriver {
  import opened Sorting
  import opened Timespecs
  import opened KClosest

  /** Where one call leaves the shared index. */
  function NextIndex(i: int, iter: int, limit: int): int {
    if i >= iter || limit <= 0 then i else if i + limit <= iter then i + limit else iter
  }

  /** A call below the end makes progress exactly when the batch limit is positive. */
  lemma ProgressExactly(i: int, iter: int, limit: int)
    requires i < iter
    ensures i < NextIndex(i, iter, limit) <= iter <==> limit > 0
    ensures limit <= 0 ==> NextIndex(i, iter, limit) == i
  {
  }

  /** The shared index after `n` calls, which the driver starts at zero. */
  function IndexAfter(runs: int, limit: int, n: nat): int {
    if n == 0 then 0 else NextIndex(IndexAfter(runs, limit, n - 1), runs, limit)
  }

  /** With a positive limit each call but the last covers a full batch. */
  lemma {:induction false} IndexClosedForm(runs: nat, limit: int, n: nat)
    requires limit > 0
    ensures IndexAfter(runs, limit, n) == if n * limit <= runs then n * limit else runs
  {
    if n == 0 {
    } else {
      IndexClosedForm(runs, limit, n - 1);
      assert n * limit == (n - 1) * limit + limit;
    }
  }

  /** Without one the index stays where it is, however often the test is called. */
  lemma {:induction false} IndexStalls(runs: int, limit: int, n: nat)
    requires limit <= 0
    ensures IndexAfter(runs, limit, n) == 0
  {
    if n == 0 {
    } else {
      IndexStalls(runs, limit, n - 1);
      if 0 < runs { ProgressExactly(0, runs, limit); }
    }
  }

  /** The driver loop ends exactly when there is nothing to run or the batch limit is positive. */
  lemma DriverEndsExactly(runs: int, limit: int)
    ensures (exists n: nat :: IndexAfter(runs, limit, n) >= runs) <==> runs <= 0 || limit > 0
  {
    if runs <= 0 {
      assert IndexAfter(runs, limit, 0) >= runs;
    } else if limit > 0 {
      IndexClosedForm(runs, limit, runs);
      assert runs * (limit - 1) >= 0;
      assert IndexAfter(runs, limit, runs) >= runs;
    } else {
      forall n: nat ensures IndexAfter(runs, limit, n) < runs { IndexStalls(runs, limit, n); }
    }
  }

  /** The parent's measuring loop of `send_test`, advancing the caller's index. */
  method SendTest(times: array<Timespec>, iter: int, i: int, limit: int, starts: seq<Timespec>, ends: seq<Timespec>)
    returns (next: int)
    requires 0 <= i && iter <= times.Length && iter <= |starts| && iter <= |ends|
    modifies times
    ensures next == NextIndex(i, iter, limit)
    ensures forall t :: 0 <= t < times.Length && !(i <= t < next) ==> times[t] == old(times[t])
    ensures forall t :: i <= t < next ==>
              times[t].Nanos() == old(times[t].Nanos()) + ends[t].Nanos() - starts[t].Nanos()
    ensures forall t :: i <= t < next ==>
              (old(times[t].Normalised()) && ends[t].Normalised() && starts[t].Normalised() ==> times[t].Normalised())
  {
    next := i;
    var j := 0;
    while next < iter && j < limit
      invariant 0 <= j && next == i + j && (next <= iter || next == i) && (j <= limit || j == 0)
      invariant forall t :: 0 <= t < times.Length && !(i <= t < next) ==> times[t] == old(times[t])
      invariant forall t :: i <= t < next ==>
                  times[t].Nanos() == old(times[t].Nanos()) + ends[t].Nanos() - starts[t].Nanos()
      invariant forall t :: i <= t < next ==>
                  (old(times[t].Normalised()) && ends[t].Normalised() && starts[t].Normalised() ==>
                     times[t].Normalised())
      decreases iter - next
    {
      ghost var before := times[..];
      AddDiffToSum(times, next, ends[next], starts[next]);
      assert forall t :: 0 <= t < times.Length && t != next ==> times[t] == times[..][t] == before[t];
      next := next + 1;
      j := j + 1;
    }
  }

  /** Every slot measured once: it holds exactly its own interval. */
  ghost predicate Measured(times: seq<Timespec>, starts: seq<Timespec>, ends: seq<Timespec>) {
    |times| <= |starts| && |times| <= |ends|
    && forall t :: 0 <= t < |times| ==> times[t].Nanos() == ends[t].Nanos() - starts[t].Nanos()
  }

  /**
   For any number of runs and any positive limit the driver ends after `ceil(runs / limit)` calls,
   having measured every slot exactly once.
   */
  method RunBatches(runs: nat, limit: int, starts: seq<Timespec>, ends: seq<Timespec>)
    returns (times: array<Timespec>, calls: nat)
    requires (runs > 0 ==> limit > 0) && runs <= |starts| && runs <= |ends|
    ensures fresh(times) && times.Length == runs
    ensures Measured(times[..], starts, ends)
    ensures AllNormalised(starts) && AllNormalised(ends) ==>
              AllNormalised(times[..]) && forall t :: 0 <= t < runs ==> times[t] == CalcDiff(starts[t], ends[t])
    ensures (calls - 1) * limit < runs <= calls * limit || (runs == 0 && calls == 0)
    ensures IndexAfter(runs, limit, calls) >= runs && (calls > 0 ==> IndexAfter(runs, limit, calls - 1) < runs)
  {
    times := new Timespec[runs];
    var z := 0;
    while z < runs
      invariant 0 <= z <= runs
      invariant forall t :: 0 <= t < z ==> times[t] == ZERO
    {
      times[z] := ZERO;
      z := z + 1;
    }
    var i: int := 0;
    calls := 0;
    while i < runs
      invariant 0 <= i <= runs
      invariant i == if calls * limit <= runs then calls * limit else runs
      invariant i == IndexAfter(runs, limit, calls) && (calls > 0 ==> IndexAfter(runs, limit, calls - 1) < runs)
      invariant (calls - 1) * limit < i || calls == 0
      invariant forall t :: i <= t < runs ==> times[t] == ZERO
      invariant forall t :: 0 <= t < i ==> times[t].Nanos() == ends[t].Nanos() - starts[t].Nanos()
      invariant AllNormalised(starts) && AllNormalised(ends) ==> AllNormalised(times[..])
      decreases runs - i
    {
      ghost var before := times[..];
      i := SendTest(times, runs, i, limit, starts, ends);
      assert (calls + 1) * limit == calls * limit + limit;
      calls := calls + 1;
      StillNormalised(before, times[..], starts, ends);
    }
    ghost var normalised := AllNormalised(starts) && AllNormalised(ends);
    if normalised {
      forall t | 0 <= t < runs ensures times[t] == CalcDiff(starts[t], ends[t]) {
        assert times[..][t].Normalised();
        NormalisedUnique(times[t], CalcDiff(starts[t], ends[t]));
      }
    }
  }

  lemma StillNormalised(before: seq<Timespec>, after: seq<Timespec>, starts: seq<Timespec>, ends: seq<Timespec>)
    requires |before| == |after| <= |starts| && |before| <= |ends|
    requires forall t :: 0 <= t < |after| ==>
               after[t] == before[t]
               || (before[t].Normalised() && ends[t].Normalised() && starts[t].Normalised() ==> after[t].Normalised())
    ensures AllNormalised(before) && AllNormalised(starts) && AllNormalised(ends) ==> AllNormalised(after)
  {
  }

  function Elapsed(starts: seq<Timespec>, ends: seq<Timespec>, n: nat): int
    requires n <= |starts| && n <= |ends|
  {
    if n == 0 then 0 else Elapsed(starts, ends, n - 1) + ends[n - 1].Nanos() - starts[n - 1].Nanos()
  }

  lemma {:induction false} TotalIsElapsed(times: seq<Timespec>, starts: seq<Timespec>, ends: seq<Timespec>, n: nat)
    requires Measured(times, starts, ends) && n <= |times|
    ensures TotalNanos(times[..n]) == Elapsed(starts, ends, n)
  {
    if n == 0 {
    } else {
      TotalIsElapsed(times, starts, ends, n - 1);
      assert times[..n][..n - 1] == times[..n - 1];
    }
  }

  lemma {:induction false} ElapsedNonNegative(starts: seq<Timespec>, ends: seq<Timespec>, n: nat)
    requires n <= |starts| && n <= |ends|
    requires forall t :: 0 <= t < n ==> starts[t].Nanos() <= ends[t].Nanos()
    ensures Elapsed(starts, ends, n) >= 0
  {
    if n == 0 {
    } else {
      ElapsedNonNegative(starts, ends, n - 1);
    }
  }

  /**
   The whole pipeline conserves time: the sum of the slots is the sum of all measured intervals,
   and for a clock that does not run backwards the average loses less than two nanoseconds a run.
   */
  method OneLineTestV2(runs: nat, limit: int, starts: seq<Timespec>, ends: seq<Timespec>)
    returns (sum: Timespec, average: Timespec, kbest: Option<nat>, times: array<Timespec>)
    requires (runs > 0 ==> limit > 0) && runs <= |starts| && runs <= |ends|
    ensures times.Length == runs
    ensures sum.Nanos() == Elapsed(starts, ends, runs)
    ensures average == CalcAverage(sum, runs)
    ensures AllNormalised(starts) && AllNormalised(ends) ==> sum.Normalised()
    ensures runs > 0 && AllNormalised(starts) && AllNormalised(ends)
            && (forall t :: 0 <= t < runs ==> starts[t].Nanos() <= ends[t].Nanos()) ==>
              average.Normalised() && 0 <= Elapsed(starts, ends, runs) - runs * average.Nanos() <= 2 * (runs - 1)
    ensures SortedBy(times[..], Comp) && kbest == KClosestOf(times[..])
    ensures exists measured :: Measured(measured, starts, ends) && multiset(times[..]) == multiset(measured)
  {
    var calls;
    times, calls := RunBatches(runs, limit, starts, ends);
    ghost var measured := times[..];
    sum := CalcSum2(times, runs);
    assert times[..runs] == measured && measured[..runs] == measured;
    TotalIsElapsed(measured, starts, ends, runs);
    average := CalcAverage(sum, runs);
    ghost var forwards := AllNormalised(starts) && AllNormalised(ends)
                          && forall t :: 0 <= t < runs ==> starts[t].Nanos() <= ends[t].Nanos();
    if runs > 0 && forwards {
      ElapsedNonNegative(starts, ends, runs);
      AverageBound(sum, runs);
    }
    kbest := CalcKClosest(times);
  }
}
