# LEBench-Sim: statistics, time arithmetic and two-process protocols

This project models the parts of LEBench-Sim that compute or coordinate something, and proves
properties of the model with Dafny 4.11. `dafny verify dfyconfig.toml` checks everything.

| file | what it models |
|---|---|
| `Samples.dfy` | sums, means and variances of sample sequences; independence of their order |
| `Clipping.dfy` | the clipping loop of `aggregate` as functions of the samples: gate, kept samples, stop conditions |
| `ClippingPass.dfy` | the laws of one clipping pass |
| `ClippingRuns.dfy` | whole runs: nesting, retention, variance, ways out, settling, order independence |
| `ClippingExamples.dfy` | arrays that show which bounds of the clipping loop are tight and what it does not achieve |
| `Aggregation.dfy` | `aggregate` over an array, with its nested scans and breaks |
| `SummaryLaws.dfy` | what the four outputs of `aggregate` mean |
| `Sorting.dfy` | the contract of `qsort`, a sort that meets it, `double_cmp` |
| `ClosestRun.dfy` | `closest_k` |
| `Results.dfy` | `collect_results` on a `BenchResult` object |
| `Timespecs.dfy` | `add_diff_to_sum`, `calc_diff`, `calc_sum2`, `calc_average`, `comp` |
| `KClosest.dfy` | `calc_k_closest` |
| `BatchDriver.dfy` | `one_line_test_v2` driving the measuring loop of `send_test` |
| `ContextSwitch.dfy` | `context_switch_test` as a transition system |
| `RecvHandshake.dfy` | `recv_test` as a transition system |
| `Doubles.dfy`, `Powers.dfy` | shared definitions |

## How the source is modelled

- `double` is `real`; NaN occurs only as the result for no samples. `sqrt` is a parameter `root`
  constrained by the contract of the C function on exact numbers. `(double)LLONG_MAX` rounds to
  2^63 and is modelled as that.
- A comparison whose left side divides by zero is written out: in `closest_k` it is false, in
  `calc_k_closest` it depends on the sign of the numerator.
- A read past the end of an array and a null pointer are results (`OutOfBounds`, `None`), not
  preconditions. A pointer into an array is its index.
- `struct timespec` in an array is a slot of the array, updated in place.
- `qsort` is any sort that meets its contract; the array is sorted in place.
- Clock readings are parameters (batch driver) or logical: a count of events
  (context switch) or of steps (receive handshake).
- The protocols allow every interleaving of single steps. System calls succeed; a pipe holds a
  bounded number of bytes and its reads and writes block. A socket send queues a message that
  fits; of one that does not it queues nothing, or, on a socket that splits messages, the part
  there is room for.

## What is proved

For **`aggregate`**, over every array of reals: the acceptance intervals of the passes nest, so a
rejected sample is never re-admitted although every pass rescans the whole array; a pass keeps at
least eight ninths of what the one before kept, so the "too much noise" branch runs only for an
empty array; the variance contracts; `min <= mean <= max` and
`stddev^2 <= (max - mean) * (mean - min)`; when a pass is quiet, in numbers; a loop that stops
because nothing changed stops at its second pass with the whole array, and any other run ends
quiet or at the fifth pass; a pass that drops nothing further settles all later ones; nine samples
or fewer are never clipped, and ten can be; the outputs depend only on the multiset of samples.

For **`closest_k`**: inside the loop it returns the start of the earliest window; past the loop the
read is in bounds exactly when a window exists or the last pair is close. `collect_results`
stores the start of the earliest five consecutive close pairs.

For **`calc_k_closest`**: the earliest full buffer, its geometric bound, and the exact condition for
a null result.

For **time**: exact nanoseconds through difference, sum and average, with a tight rounding bound, and
conservation from the clock readings to the sum.

For the **protocols**: inductive invariants, one possible order of events, absence of deadlock, and the
exact number of steps of every complete run; in the receive handshake, that the timer brackets the
receive and nothing else.

Properties that do not hold of the code, with the condition under which they do:

- The extremes of `aggregate` are samples exactly when some kept sample reaches the sentinel the
  scan starts from (`ExtremesAreSamples`, counterexamples `SentinelMaximum` and `SentinelMinimum`).
  For an array kept whole because it is small, quiet at once or without outlier, that is a condition
  on its own samples (`ExtremesOfWhole`).
- The reading the loop of `closest_k` returns is tight exactly when the sorted sample at index k is
  not negative, that is, when at most k samples are negative (`ReadingTight`). With more of them the
  minimum is returned, however far apart the samples are, because negative samples count as close at
  any distance (`NegativeStart`, input `NegativeAlwaysClose`).
- `closest_k` reads one past the end exactly when no window exists and the last pair is not close
  (`IndexSafety`, input `ReadsPastTheEnd`).
- `calc_k_closest` does not find every run of five close samples: the first sample after a gap is
  never stored, so away from the start a run needs a sixth (`EarliestFullWindow`, `RunAfterGapMissed`).
- The callers of `calc_k_closest` dereference its result safely exactly for a non-empty array with
  a window or with its last two sub-second samples close (`DereferenceSafe`, input `NullResult`).
- Clipping has settled when the kept set is what its own mean and deviation would keep. An array
  in which every sample lies within three deviations of the mean settles, whole
  (`NoOutlierSettles`). Of at most nine samples it settles exactly when two of them differ
  (`SmallSettlesExactly`); equal samples of any number leave an empty gate and do not
  (`EqualNeverSettles`). If the first pass is quiet it settles exactly when no sample lies three
  deviations out (`QuietSettlesExactly`, inputs `QuietUnsettled` and `PositiveQuietUnsettled`). Any
  run that does not end quiet settles unless the fifth pass cuts it off, which takes fourteen samples
  and four passes that each drop one (`UnsettledWasCutOff`, input `CutOffUnsettled`).
- The average is the rounded-down quotient exactly when the two remainders together stay below the
  count (`AverageBound`).
- The receive handshake can finish exactly when the message fits in the socket or no round is run
  (`FinishesExactly`). A larger message is retried for ever if the socket does not split it, holds
  nothing, or errno was EAGAIN already (`OversizedSpins`); otherwise every run ends after 14 steps
  in the server's error path (`OversizedFails`).
- The batch driver ends exactly when there is nothing to run or the limit is positive
  (`DriverEndsExactly`).

## Model

| member | source | states |
|---|---|---|
| Aggregation.Aggregate | disk-image/experiments/LEBench-Sim/src/lib/utils.c:88-158 | The nested scans, three exits and four outputs compute the statistics of the samples the final pass keeps, NaN in all four for no samples, and the noise warning is printed only for an empty array |
| Aggregation.ScanDone | disk-image/experiments/LEBench-Sim/src/lib/utils.c:116-126 | After the first scan of a reached pass some sample is left, so the noise branch is not taken, and the division gives the mean |
| Aggregation.DeviationStep | disk-image/experiments/LEBench-Sim/src/lib/utils.c:128-132 | Dividing each squared distance before adding it accumulates the sum of squares over the count |
| ClippingPass.PassBalances | disk-image/experiments/LEBench-Sim/src/lib/utils.c:104-136 | Variance decomposition of one pass: counts, signed and squared deviations of kept and dropped samples balance around the old mean |
| ClippingPass.DropsFew | disk-image/experiments/LEBench-Sim/src/lib/utils.c:104-136 | Chebyshev at three deviations: at most a ninth is dropped and the variance contracts accordingly |
| ClippingPass.Narrows | disk-image/experiments/LEBench-Sim/src/lib/utils.c:104-136 | The interval a pass leaves behind lies inside the one it applied |
| ClippingPass.SparesFew | disk-image/experiments/LEBench-Sim/src/lib/utils.c:104-136 | A pass over nine samples or fewer drops none |
| ClippingRuns.QuietMeans | disk-image/experiments/LEBench-Sim/src/lib/utils.c:138-140 | A pass ends the run as quiet exactly when its mean is below 0.001 or a million times its variance is below the squared mean |
| ClippingRuns.RescanIsRefilter | disk-image/experiments/LEBench-Sim/src/lib/utils.c:95-143 | Rescanning the whole array keeps exactly what filtering the previously kept samples would |
| ClippingRuns.IntervalsNest | disk-image/experiments/LEBench-Sim/src/lib/utils.c:95-143 | The acceptance interval of every reached pass lies inside that of every earlier one |
| ClippingRuns.NeverReadmitted | disk-image/experiments/LEBench-Sim/src/lib/utils.c:105-112 | A value rejected by one pass is rejected by every later one |
| ClippingRuns.KeptNonEmpty | disk-image/experiments/LEBench-Sim/src/lib/utils.c:116-126 | Every reached pass over a non-empty array keeps a sample |
| ClippingRuns.KeepsEightNinths | disk-image/experiments/LEBench-Sim/src/lib/utils.c:104-126 | A pass keeps at least eight ninths of what the previous pass kept |
| ClippingRuns.RunKeepsMost | disk-image/experiments/LEBench-Sim/src/lib/utils.c:81-83 | With at most five passes the outputs describe at least (8/9)^4 of the array |
| ClippingRuns.VarianceContracts | disk-image/experiments/LEBench-Sim/src/lib/utils.c:128-136 | Removing r of n samples gives (n-r) new <= (n-9r) old, and the variance never increases |
| ClippingRuns.DroppingPersists | disk-image/experiments/LEBench-Sim/src/lib/utils.c:93-113 | Once a pass drops a sample, every later pass drops one too |
| ClippingRuns.UnchangedStops | disk-image/experiments/LEBench-Sim/src/lib/utils.c:95-98 | A run that stops because nothing changed stops at its second pass with the whole array kept |
| ClippingRuns.ExitsExactly | disk-image/experiments/LEBench-Sim/src/lib/utils.c:95-143 | The loop ends unchanged exactly when its second pass keeps the whole array; any other run ends quiet or at the last pass |
| ClippingRuns.StallIsForever | disk-image/experiments/LEBench-Sim/src/lib/utils.c:95-143 | A pass that drops nothing further leaves every later gate and kept set as they are |
| ClippingRuns.NoOutlierSettles | disk-image/experiments/LEBench-Sim/src/lib/utils.c:104-136 | An array without a three-deviation outlier is kept whole and is a fixed point of its own gate |
| ClippingRuns.QuietSettlesExactly | disk-image/experiments/LEBench-Sim/src/lib/utils.c:138-140 | A run that is quiet at its first pass has settled exactly when no sample of the array lies three deviations or more from the mean |
| ClippingRuns.SmallSettlesExactly | disk-image/experiments/LEBench-Sim/src/lib/utils.c:104-136 | Up to nine samples have settled exactly when two of them differ |
| ClippingRuns.EqualNeverSettles | disk-image/experiments/LEBench-Sim/src/lib/utils.c:104-113 | Equal samples, however many, leave a gate that admits none of them: the run ends quiet at its first pass, not settled |
| ClippingRuns.UnsettledWasCutOff | disk-image/experiments/LEBench-Sim/src/lib/utils.c:81-95 | A run that is neither quiet nor settled was cut off at the fifth pass, each of the four clipping passes dropped a sample, and ten or more are left |
| ClippingExamples.QuietUnsettled | disk-image/experiments/LEBench-Sim/src/lib/utils.c:138-140 | Nine equal samples and one ten above: whenever the quiet test holds, by a small mean or by a small spread, the run ends before the outlier is looked at |
| ClippingExamples.PositiveQuietUnsettled | disk-image/experiments/LEBench-Sim/src/lib/utils.c:138-140 | Nine samples of 5000 and one of 5010: an unsettled run over positive samples |
| ClippingExamples.CutOffUnsettled | disk-image/experiments/LEBench-Sim/src/lib/utils.c:81-95 | Fourteen positive samples that lose one in each of four passes and are cut off with ten left, neither quiet nor settled, so the bounds of UnsettledWasCutOff are attained |
| ClippingExamples.OutlierClippedExactly | disk-image/experiments/LEBench-Sim/src/lib/utils.c:104-140 | Nine equal samples and one ten above: the reported mean is without the outlier exactly when the mean of all ten is between 0.001 and 3000 |
| ClippingRuns.NineOrFewer | disk-image/experiments/LEBench-Sim/src/lib/utils.c:105-112 | For nine samples or fewer every reached pass keeps the whole array and there are at most two passes |
| ClippingExamples.TenCanDrop | disk-image/experiments/LEBench-Sim/src/lib/utils.c:105-112 | A ten-sample array whose outlier the second pass drops, so nine is the tight bound |
| ClippingRuns.RunOfPermutation | disk-image/experiments/LEBench-Sim/src/lib/utils.c:95-143 | Permuting the array changes neither the gate nor the kept multiset nor the stop decision of any pass |
| SummaryLaws.OutputsAgree | disk-image/experiments/LEBench-Sim/src/lib/utils.c:145-151 | For every non-empty array mean and stddev are the mean and population deviation of the kept samples, min <= mean <= max, and stddev^2 <= (max-mean)(mean-min) |
| SummaryLaws.ExtremesAreSamples | disk-image/experiments/LEBench-Sim/src/lib/utils.c:96-108 | Maximum and minimum bound the kept samples, and are kept samples exactly when one reaches the starting sentinel |
| SummaryLaws.ExtremesOfWhole | disk-image/experiments/LEBench-Sim/src/lib/utils.c:96-108 | For an array of at most nine samples, quiet at once, or without outlier, each extreme is a sample exactly when some sample of the array reaches its sentinel |
| SummaryLaws.ExtremesInRange | disk-image/experiments/LEBench-Sim/src/lib/utils.c:96-108 | For samples from -2^63 to 2^63, the range of a long long as doubles, both extremes are samples of the array |
| SummaryLaws.SentinelMaximum | disk-image/experiments/LEBench-Sim/src/lib/utils.c:96-107 | A sample below -2^63 is reported with -2^63 as its maximum |
| SummaryLaws.SentinelMinimum | disk-image/experiments/LEBench-Sim/src/lib/utils.c:96-108 | A sample above 2^63 is reported with 2^63 as its minimum |
| SummaryLaws.WholeArrayKept | disk-image/experiments/LEBench-Sim/src/lib/utils.c:95-151 | Nothing is clipped exactly when the loop ends at its first pass or unchanged, and the outputs are then those of the whole array |
| SummaryLaws.LoneVariance | disk-image/experiments/LEBench-Sim/src/lib/utils.c:147-151 | The special case for one sample agrees with the general formula |
| SummaryLaws.SmallSummary | disk-image/experiments/LEBench-Sim/src/lib/utils.c:88-158 | Up to nine samples are summarised whole |
| SummaryLaws.SummaryOfPermutation | disk-image/experiments/LEBench-Sim/src/lib/utils.c:88-158 | The four outputs depend only on the multiset of samples |
| Sorting.Qsort | disk-image/experiments/LEBench-Sim/src/lib/utils.c:173 | The array ends as a sorted permutation of itself for any consistent comparison function |
| Sorting.SortedUnique | disk-image/experiments/LEBench-Sim/src/lib/utils.c:173 | A sorted permutation is unique when only equal elements compare equal |
| Sorting.DoubleCmpConsistent | disk-image/experiments/LEBench-Sim/src/lib/utils.c:160-164 | double_cmp gives the total order section 7.22.5 of ISO C11 requires and separates distinct numbers |
| ClosestRun.ClosestK | disk-image/experiments/LEBench-Sim/src/lib/utils.c:169-190 | Sorts in place and returns the reading of the sorted samples, NaN for none, out of bounds where the code reads past the end |
| ClosestRun.TrailingIsLongest | disk-image/experiments/LEBench-Sim/src/lib/utils.c:174-184 | The counter is the length of the longest run of close pairs ending at the current sample |
| ClosestRun.EarliestWindow | disk-image/experiments/LEBench-Sim/src/lib/utils.c:175-184 | The loop returns exactly when k consecutive pairs are close somewhere, and then the start of the earliest such window |
| ClosestRun.IndexSafety | disk-image/experiments/LEBench-Sim/src/lib/utils.c:186-189 | The index is in range exactly when a full window exists or the last sorted pair is close, for every k including zero |
| ClosestRun.ReadsPastTheEnd | disk-image/experiments/LEBench-Sim/src/lib/utils.c:186-189 | Two samples a factor of two apart are read past the end for every k |
| ClosestRun.FallThrough | disk-image/experiments/LEBench-Sim/src/lib/utils.c:189 | Past the loop with a positive counter the value is the second element of the maximal trailing run |
| ClosestRun.ReadsASample | disk-image/experiments/LEBench-Sim/src/lib/utils.c:171-189 | Any value returned is an input sample |
| ClosestRun.CloseSorted | disk-image/experiments/LEBench-Sim/src/lib/utils.c:166-176 | On sorted samples the test means a negative larger one, or a positive larger one with 100 times the smaller above 99 times it |
| ClosestRun.WindowTight | disk-image/experiments/LEBench-Sim/src/lib/utils.c:175-179 | The first sample exceeds 0.99^k times the last exactly when the last is positive, and then exceeds (1-0.01k) times it |
| ClosestRun.ReadingTight | disk-image/experiments/LEBench-Sim/src/lib/utils.c:173-180 | The value the loop returns is tight against its window's largest sample exactly when the sorted sample at index k is not negative; otherwise it is the minimum |
| ClosestRun.NegativeStart | disk-image/experiments/LEBench-Sim/src/lib/utils.c:173-180 | With more than k negative samples the first window starts at index zero and the minimum is returned |
| ClosestRun.NegativeAlwaysClose | disk-image/experiments/LEBench-Sim/src/lib/utils.c:176 | Negative samples count as close at any distance |
| Results.CollectResults | disk-image/experiments/LEBench-Sim/src/lib/utils.c:192-210 | Stores the summary of the data as measured, resets the other fields, and leaves the array sorted; where the sorted data hold five consecutive close pairs, the k-closest value starts the earliest such run |
| Results.StoredReading | disk-image/experiments/LEBench-Sim/src/lib/utils.c:192-208 | If five consecutive pairs are close somewhere, the reading of closest_k as collect_results calls it is the first sample of the earliest such run |
| Results.SpreadRunSkipped | disk-image/experiments/LEBench-Sim/src/lib/utils.c:166-208 | Six samples about two per cent apart followed by six equal ones: the value stored is that of the equal ones |
| Results.OnlyMultisetMatters | disk-image/experiments/LEBench-Sim/src/lib/utils.c:203-209 | Everything stored depends only on the multiset of samples, and sorting before or after the summary makes no difference |
| Timespecs.AddDiffToSum | disk-image/experiments/LEBench-Sim/src/lib/os_eval.cpp:64-81 | One slot gains exactly a - b nanoseconds, others are untouched, and normalisation is kept |
| Timespecs.CalcDiff | disk-image/experiments/LEBench-Sim/src/lib/os_eval.cpp:83-97 | The exact difference, normalised for normalised inputs |
| Timespecs.NormalisedUnique | disk-image/experiments/LEBench-Sim/src/lib/os_eval.cpp:64-97 | Normalised times with equal nanoseconds are equal |
| Timespecs.DiffsAgree | disk-image/experiments/LEBench-Sim/src/lib/utils.c:71-78 | get_timespec_diff_nsec and calc_diff measure the same interval, and calc_diff is antisymmetric; a missing end gives zero |
| Timespecs.CalcSum2 | disk-image/experiments/LEBench-Sim/src/lib/os_eval.cpp:137-157 | The carrying sum is exact on any input and normalised for normalised inputs |
| Timespecs.Truncates | disk-image/experiments/LEBench-Sim/src/lib/os_eval.cpp:110-111 | Division and remainder are C's: together they give back the dividend, and the remainder is shorter than the divisor and has the sign of the dividend |
| Timespecs.AverageBound | disk-image/experiments/LEBench-Sim/src/lib/os_eval.cpp:103-113 | The average is normalised, loses at most 2(size-1) nanoseconds in all, and is the rounded-down quotient exactly when the remainders together stay below the count |
| Timespecs.AverageIsOdd | disk-image/experiments/LEBench-Sim/src/lib/os_eval.cpp:103-113 | For sizes and sums of any sign, negating both parts of the sum negates both parts of the average; the average over zero times is zero |
| Timespecs.AverageBoundTight | disk-image/experiments/LEBench-Sim/src/lib/os_eval.cpp:110-111 | A sum that loses the full 2(size-1) nanoseconds |
| Timespecs.AverageProductFits | disk-image/experiments/LEBench-Sim/src/lib/os_eval.cpp:110 | The carried remainder times 10^9 fits in 64 bits for every positive 32-bit size |
| Timespecs.CompConsistent | disk-image/experiments/LEBench-Sim/src/lib/os_eval.cpp:160-175 | comp is a total order that separates distinct times |
| Timespecs.CompOrdersTime | disk-image/experiments/LEBench-Sim/src/lib/os_eval.cpp:160-175 | On normalised times comp orders by duration, with results between -1 and 1 |
| KClosest.CalcKClosest | disk-image/experiments/LEBench-Sim/src/lib/os_eval.cpp:184-230 | Sorts in place, runs the resettable slot buffer, and returns slot 0 as the specification says |
| KClosest.StreakIsRun | disk-image/experiments/LEBench-Sim/src/lib/os_eval.cpp:195-223 | The counter j and slot 0 describe the longest linked run ending at the current sample |
| KClosest.EarliestFullWindow | disk-image/experiments/LEBench-Sim/src/lib/os_eval.cpp:214-225 | The buffer fills exactly when a window exists, and slot 0 is then the start of the earliest |
| KClosest.FirstFive | disk-image/experiments/LEBench-Sim/src/lib/os_eval.cpp:182-223 | When the first five samples are each linked to the one before, the first is returned whatever follows |
| KClosest.TooFarMeans | disk-image/experiments/LEBench-Sim/src/lib/os_eval.cpp:205-208 | The ratio test in whole numbers, for predecessors of any sign and zero: 20 curr > 21 prev, turned round for a negative one |
| KClosest.LinkedMeans | disk-image/experiments/LEBench-Sim/src/lib/os_eval.cpp:199-219 | A pair is kept exactly when both samples are sub-second and the later is at most 21/20 of the earlier, zero included |
| KClosest.WindowBound | disk-image/experiments/LEBench-Sim/src/lib/os_eval.cpp:205-221 | A full buffer holds five ascending sub-second samples with 160000 largest <= 194481 smallest, the smallest at its start |
| KClosest.SlowStaysSlow | disk-image/experiments/LEBench-Sim/src/lib/os_eval.cpp:199-203 | In sorted order, once one sample reaches a second all later ones do |
| KClosest.NullExactly | disk-image/experiments/LEBench-Sim/src/lib/os_eval.cpp:195-228 | NULL is returned exactly when no window exists and the last two sub-second samples are more than five per cent apart |
| KClosest.FallThroughHead | disk-image/experiments/LEBench-Sim/src/lib/os_eval.cpp:214-225 | Without a window and with the last pair linked, slot 0 is the start of the trailing run as stored |
| KClosest.DereferenceSafe | disk-image/experiments/LEBench-Sim/src/lib/os_eval.cpp:249-264 | The callers' dereference is safe exactly for a non-empty array in which a window exists or no last pair of sub-second samples is more than five per cent apart |
| KClosest.NullResult | disk-image/experiments/LEBench-Sim/src/lib/os_eval.cpp:208-228 | Two samples of one and two nanoseconds give a null result |
| KClosest.NoSubSecondPair | disk-image/experiments/LEBench-Sim/src/lib/os_eval.cpp:191-203 | Without a pair of sub-second samples the first sample is returned |
| KClosest.RunAfterGapMissed | disk-image/experiments/LEBench-Sim/src/lib/os_eval.cpp:208-219 | Five equal samples after a gap do not fill the buffer |
| BatchDriver.SendTest | disk-image/experiments/LEBench-Sim/src/lib/os_eval.cpp:965-975 | One call measures the next batch of slots once each, touches no other, and advances the shared index to the end of the batch |
| BatchDriver.DriverEndsExactly | disk-image/experiments/LEBench-Sim/src/lib/os_eval.cpp:312-314 | Some number of calls brings the shared index to runs exactly when there is nothing to run or the limit is positive |
| BatchDriver.IndexClosedForm | disk-image/experiments/LEBench-Sim/src/lib/os_eval.cpp:312-314 | For a positive limit the index after n calls is n times the limit, cut off at runs |
| BatchDriver.RunBatches | disk-image/experiments/LEBench-Sim/src/lib/os_eval.cpp:304-314 | The nested loops end after ceil(runs/limit) calls with every slot holding exactly its own interval |
| BatchDriver.OneLineTestV2 | disk-image/experiments/LEBench-Sim/src/lib/os_eval.cpp:301-318 | The sum equals the sum of all measured intervals, and for a clock that does not run backwards runs times the average falls short of it by at most 2(runs-1) nanoseconds |
| ContextSwitch.TokenAndOrder | disk-image/experiments/LEBench-Sim/src/bench/ctx_switch_test.c:78-102 | Every reachable state has one token across pipes and writers, and its events are a prefix of one fixed order |
| ContextSwitch.LogCountsBytes | disk-image/experiments/LEBench-Sim/src/bench/ctx_switch_test.c:78-102 | In every run each pipe holds what the logged writes put in and the logged reads have not taken out |
| ContextSwitch.NothingOverflows | disk-image/experiments/LEBench-Sim/src/bench/ctx_switch_test.c:82-100 | Pipes of any capacity, zero included, never hold more than that |
| ContextSwitch.IntervalsHoldOneRound | disk-image/experiments/LEBench-Sim/src/bench/ctx_switch_test.c:80-86 | Each timed interval contains exactly one read and one write of each process |
| ContextSwitch.StepCounts | disk-image/experiments/LEBench-Sim/src/bench/ctx_switch_test.c:78-102 | Each step of either process takes exactly one off the termination measure |
| ContextSwitch.StuckIsFinished | disk-image/experiments/LEBench-Sim/src/bench/ctx_switch_test.c:78-104 | A reachable state is stuck exactly when both processes are done with all rounds timed and both pipes empty |
| ContextSwitch.ZeroCapacityDeadlocks | disk-image/experiments/LEBench-Sim/src/bench/ctx_switch_test.c:98 | A pipe that holds nothing deadlocks at the first write |
| ContextSwitch.EveryRunFinishes | disk-image/experiments/LEBench-Sim/src/bench/ctx_switch_test.c:78-104 | Every run is complete after exactly 9 iter_cnt + 5 steps and always ends in the same state |
| ContextSwitch.RunBoth | disk-image/experiments/LEBench-Sim/src/bench/ctx_switch_test.c:72-108 | Under any scheduler the array of intervals is filled in place, one per round |
| RecvHandshake.ConnectFollowsListen | disk-image/experiments/LEBench-Sim/src/bench/recv_test.c:70-117 | In every run whose messages fit the connect finds a listening socket and no error path is taken |
| RecvHandshake.ReceiveFindsOneMessage | disk-image/experiments/LEBench-Sim/src/bench/recv_test.c:85-124 | When messages fit, every receive finds exactly msg_size bytes queued and every send finds the socket empty |
| RecvHandshake.TimedReceiveUndisturbed | disk-image/experiments/LEBench-Sim/src/bench/recv_test.c:86-88 | While the timer runs the client is blocked |
| RecvHandshake.EveryReceiveTimedAlone | disk-image/experiments/LEBench-Sim/src/bench/recv_test.c:86-93 | Under every interleaving each recorded interval is two steps long |
| RecvHandshake.TimerBracketsReceive | disk-image/experiments/LEBench-Sim/src/bench/recv_test.c:86-92 | Whenever an interval is recorded, the step between its two clock readings takes the whole message off the socket; the message was queued before the first reading, and the client does not move in between |
| RecvHandshake.ReceiveTakes | disk-image/experiments/LEBench-Sim/src/bench/recv_test.c:87 | Whatever is queued, a receive fails exactly on an empty socket, loses no byte, and leaves something only if it filled the buffer |
| RecvHandshake.ConnectNeedsListener | disk-image/experiments/LEBench-Sim/src/bench/recv_test.c:113-117 | A connect fails exactly when nobody listens |
| RecvHandshake.NothingOverflows | disk-image/experiments/LEBench-Sim/src/bench/recv_test.c:75-126 | In every run, for pipes, socket and messages of any size, nothing ever holds more than it has room for |
| RecvHandshake.StepCounts | disk-image/experiments/LEBench-Sim/src/bench/recv_test.c:75-128 | Each step of either process takes exactly one off the termination measure |
| RecvHandshake.StuckIsFinished | disk-image/experiments/LEBench-Sim/src/bench/recv_test.c:75-130 | A reachable state is stuck exactly when both sides have finished with pipes and socket empty |
| RecvHandshake.EveryRunFinishes | disk-image/experiments/LEBench-Sim/src/bench/recv_test.c:75-130 | Every run is complete after exactly 11 iter_cnt + 8 steps, with everything drained |
| RecvHandshake.OversizedNeverFinishes | disk-image/experiments/LEBench-Sim/src/bench/recv_test.c:120-124 | No run with a message larger than the socket finishes or records an interval, whether sends are all or nothing or partial |
| RecvHandshake.OversizedSpins | disk-image/experiments/LEBench-Sim/src/bench/recv_test.c:121-124 | If sends are all or nothing, or errno is EAGAIN already, the client retries for ever and the server never reaches its receive |
| RecvHandshake.OversizedFails | disk-image/experiments/LEBench-Sim/src/bench/recv_test.c:87-103 | If a partial send is taken for a whole one, every run ends after 14 steps in the failed size check, with the client killed |
| RecvHandshake.FinishesExactly | disk-image/experiments/LEBench-Sim/src/bench/recv_test.c:106-130 | A finishing run exists exactly when the message fits in the socket or there is no round, with or without partial sends |
| RecvHandshake.RunBoth | disk-image/experiments/LEBench-Sim/src/bench/recv_test.c:56-130 | Under any scheduler both sides finish, in the same number of steps, with the array of intervals filled in place |

## Left out

- Floating-point rounding, overflow and NaN inputs: the statistics are over exact reals, and 0.001, 0.01 and 0.05 are the decimal numbers.
- Overflow of 64-bit seconds and nanoseconds in sums and differences: integers are unbounded.
- The implementation of `qsort`: a selection sort stands in for it, and uniqueness of the sorted permutation makes the choice irrelevant.
- `calc_sum`: the same loop as `calc_sum2` over pointers, and called from nowhere.
- `get_timespec_diff_sec`, the rdtscp and m5 timers, ROI markers, raw-data printing and warnings other than the noise warning.
- Error paths of fork, socket, bind, pipe, affinity and memory allocation: the protocols assume these succeed, and the liveness results depend on it.
- A partial send of a message that would fit in the socket.
- The child side and the unmeasured first send of the legacy `send_test`, its twin `recv_test`, `one_line_test`, `two_line_test` and CSV output of os_eval.cpp.
- A failed fork in the legacy driver, which makes no progress and would be retried without end.
- send, fork, thread, poll, epoll, select, read, write, mmap and page-fault benchmarks: straight measurement loops around system calls.
- The kernel modules, the side-channel experiments, shell scripts, Makefiles and m5 headers.
