/**
 `context_switch_test`: a parent and a child play ping-pong over two pipes while the parent times
 each round. The two processes are a transition system with arbitrary interleaving; system calls
 succeed, reads block on an empty pipe and writes on a full one. The clock is logical: a
 reading is the number of events so far.
 */
module ContextSwitch {

  datatype Event = Start(idx: nat) | Stop(idx: nat) | ParentRead | ParentWrite | ChildRead | ChildWrite

  datatype ParentPc = PFirstRead | PTest | PStart | PWrite | PRead | PStop | PRecord | PWait | PDone

  datatype ChildPc = CFirstWrite | CTest | CRead | CWrite | CExited

  /** How many rounds to run, and how many bytes a pipe holds. */
  datatype Config = Config(iters: nat, capacity: nat)

  /** A timed round: the clock at its start and at its end. */
  datatype Interval = Interval(start: nat, stop: nat)

  /** `pipe1` carries bytes from parent to child, `pipe2` from child to parent. */
  datatype State = State(parent: ParentPc, child: ChildPc, pIdx: nat, cIdx: nat,
                         pipe1: nat, pipe2: nat, tstart: nat, tend: nat, diffs: seq<Interval>, log: seq<Event>)

  predicate Initial(s: State) {
    s.parent == PFirstRead && s.child == CFirstWrite && s.pIdx == 0 && s.cIdx == 0
    && s.pipe1 == 0 && s.pipe2 == 0 && s.diffs == [] && s.log == []
  }

  // ----- the two programs

  predicate ParentEnabled(c: Config, s: State) {
    match s.parent
    case PFirstRead | PRead => s.pipe2 > 0
    case PWrite => s.pipe1 < c.capacity
    case PWait => s.child == CExited
    case PDone => false
    case PTest | PStart | PStop | PRecord => true
  }

  function ParentStep(c: Config, s: State): State
    requires ParentEnabled(c, s)
  {
    match s.parent
    case PFirstRead => s.(parent := PTest, pipe2 := s.pipe2 - 1, log := s.log + [ParentRead])
    case PTest => s.(parent := if s.pIdx < c.iters then PStart else PWait)
    case PStart => s.(parent := PWrite, tstart := |s.log|, log := s.log + [Start(s.pIdx)])
    case PWrite => s.(parent := PRead, pipe1 := s.pipe1 + 1, log := s.log + [ParentWrite])
    case PRead => s.(parent := PStop, pipe2 := s.pipe2 - 1, log := s.log + [ParentRead])
    case PStop => s.(parent := PRecord, tend := |s.log|, log := s.log + [Stop(s.pIdx)])
    case PRecord => s.(parent := PTest, pIdx := s.pIdx + 1, diffs := s.diffs + [Interval(s.tstart, s.tend)])
    case PWait => s.(parent := PDone)
  }

  predicate ChildEnabled(c: Config, s: State) {
    match s.child
    case CFirstWrite | CWrite => s.pipe2 < c.capacity
    case CRead => s.pipe1 > 0
    case CTest => true
    case CExited => false
  }

  function ChildStep(c: Config, s: State): State
    requires ChildEnabled(c, s)
  {
    match s.child
    case CFirstWrite => s.(child := CTest, pipe2 := s.pipe2 + 1, log := s.log + [ChildWrite])
    case CTest => s.(child := if s.cIdx < c.iters then CRead else CExited)
    case CRead => s.(child := CWrite, pipe1 := s.pipe1 - 1, log := s.log + [ChildRead])
    case CWrite => s.(child := CTest, cIdx := s.cIdx + 1, pipe2 := s.pipe2 + 1, log := s.log + [ChildWrite])
  }

  /** One process takes one step; which one is up to the scheduler. */
  predicate Next(c: Config, s: State, t: State) {
    (ParentEnabled(c, s) && t == ParentStep(c, s)) || (ChildEnabled(c, s) && t == ChildStep(c, s))
  }

  ghost predicate IsRun(c: Config, run: seq<State>) {
    run != [] && Initial(run[0]) && forall i :: 0 <= i < |run| - 1 ==> Next(c, run[i], run[i + 1])
  }

  predicate Stuck(c: Config, s: State) {
    !ParentEnabled(c, s) && !ChildEnabled(c, s)
  }

  // ----- the invariant

  predicate ParentHolds(s: State) { !s.parent.PFirstRead? && !s.parent.PRead? }

  predicate ChildHolds(s: State) { s.child.CFirstWrite? || s.child.CWrite? }

  function Bit(b: bool): nat { if b then 1 else 0 }

  /** One token passes between the two writers and the two pipes. */
  predicate OneToken(s: State) {
    s.pipe1 + s.pipe2 + Bit(ParentHolds(s)) + Bit(ChildHolds(s)) == 1
  }

  /** The one order in which timer and pipe events can happen. */
  function EventAt(t: nat): Event {
    if t == 0 then ChildWrite
    else if t == 1 then ParentRead
    else
      var round, phase := (t - 2) / 6, (t - 2) % 6;
      if phase == 0 then Start(round)
      else if phase == 1 then ParentWrite
      else if phase == 2 then ChildRead
      else if phase == 3 then ChildWrite
      else if phase == 4 then ParentRead
      else Stop(round)
  }

  function IntervalAt(i: nat): Interval { Interval(2 + 6 * i, 2 + 6 * i + 5) }

  /** How many events have happened, read off the program counters and the token. */
  function Clock(s: State): nat {
    match s.parent
    case PFirstRead => s.pipe2
    case PTest | PStart | PWait | PDone => 2 + 6 * s.pIdx
    case PWrite => 2 + 6 * s.pIdx + 1
    case PRead => 2 + 6 * s.pIdx + (if s.pipe1 > 0 then 2 else if s.child.CWrite? then 3 else 4)
    case PStop => 2 + 6 * s.pIdx + 5
    case PRecord => 2 + 6 * s.pIdx + 6
  }

  /** The child has finished as many rounds as the parent, or one more while the answer is on its way. */
  predicate InStep(s: State) {
    s.cIdx == s.pIdx + Bit(s.parent.PStop? || s.parent.PRecord? || (s.parent.PRead? && s.pipe2 > 0))
  }

  predicate CountersFit(c: Config, s: State) {
    && (s.parent.PFirstRead? ==> s.pIdx == 0)
    && (s.child.CFirstWrite? ==> s.cIdx == 0 && s.parent.PFirstRead?)
    && (s.child.CRead? || s.child.CWrite? ==> s.cIdx < c.iters)
    && (s.child.CWrite? ==> s.parent.PRead?)
    && (s.child.CExited? ==> s.cIdx == c.iters)
    && s.pIdx <= c.iters && s.cIdx <= c.iters
    && (s.parent in {PStart, PWrite, PRead, PStop, PRecord} ==> s.pIdx < c.iters)
    && (s.parent.PWait? || s.parent.PDone? ==> s.pIdx == c.iters)
    && (s.parent.PDone? ==> s.child.CExited?)
    && (s.pipe1 > 0 ==> s.parent.PRead?)
    && (s.parent.PFirstRead? ==> s.child.CFirstWrite? || s.pipe2 > 0)
  }

  predicate Recorded(s: State) {
    && |s.diffs| == s.pIdx
    && (forall i :: 0 <= i < |s.diffs| ==> s.diffs[i] == IntervalAt(i))
    && (s.parent in {PWrite, PRead, PStop, PRecord} ==> s.tstart == IntervalAt(s.pIdx).start)
    && (s.parent.PRecord? ==> s.tend == IntervalAt(s.pIdx).stop)
  }

  predicate Logged(s: State) {
    |s.log| == Clock(s) && forall t :: 0 <= t < |s.log| ==> s.log[t] == EventAt(t)
  }

  predicate Inv(c: Config, s: State) {
    OneToken(s) && InStep(s) && CountersFit(c, s) && Recorded(s) && Logged(s)
  }

  lemma InvInitial(c: Config, s: State)
    requires Initial(s)
    ensures Inv(c, s)
  {
  }

  lemma PhaseEvents(i: nat)
    ensures EventAt(0) == ChildWrite && EventAt(1) == ParentRead
    ensures EventAt(2 + 6 * i) == Start(i) && EventAt(2 + 6 * i + 1) == ParentWrite
    ensures EventAt(2 + 6 * i + 2) == ChildRead && EventAt(2 + 6 * i + 3) == ChildWrite
    ensures EventAt(2 + 6 * i + 4) == ParentRead && EventAt(2 + 6 * i + 5) == Stop(i)
  {
    DivSix(i, 0); DivSix(i, 1); DivSix(i, 2); DivSix(i, 3); DivSix(i, 4); DivSix(i, 5);
  }

  lemma DivSix(i: int, k: int)
    requires 0 <= k < 6
    ensures (6 * i + k) / 6 == i && (6 * i + k) % 6 == k
  {
  }

  lemma ParentKeeps(c: Config, s: State)
    requires Inv(c, s) && ParentEnabled(c, s)
    ensures Inv(c, ParentStep(c, s))
  {
    hide EventAt;
    PhaseEvents(s.pIdx);
  }

  lemma ChildKeeps(c: Config, s: State)
    requires Inv(c, s) && ChildEnabled(c, s)
    ensures Inv(c, ChildStep(c, s))
  {
    hide EventAt;
    PhaseEvents(s.pIdx);
  }

  // ----- safety over every run

  /** The log is honest about the pipes: what they hold is what was written to them and not read. */
  lemma {:induction false} LogCountsBytes(c: Config, run: seq<State>, i: nat)
    requires IsRun(c, run) && i < |run|
    ensures BytesCounted(run[i])
  {
    if i == 0 {
    } else {
      hide Next;
      LogCountsBytes(c, run, i - 1);
      assert Next(c, run[i - 1], run[i - 1 + 1]);
      StepCountsBytes(c, run[i - 1], run[i]);
    }
  }

  /** A pipe of any capacity never holds more than that. */
  lemma {:induction false} NothingOverflows(c: Config, run: seq<State>, i: nat)
    requires IsRun(c, run) && i < |run|
    ensures run[i].pipe1 <= c.capacity && run[i].pipe2 <= c.capacity
  {
    if i == 0 {
    } else {
      NothingOverflows(c, run, i - 1);
      assert Next(c, run[i - 1], run[i - 1 + 1]);
    }
  }

  predicate BytesCounted(s: State) {
    && s.pipe1 + multiset(s.log)[ChildRead] == multiset(s.log)[ParentWrite]
    && s.pipe2 + multiset(s.log)[ParentRead] == multiset(s.log)[ChildWrite]
  }

  lemma StepCountsBytes(c: Config, s: State, t: State)
    requires BytesCounted(s) && Next(c, s, t)
    ensures BytesCounted(t)
  {
    if ParentEnabled(c, s) && t == ParentStep(c, s) {
      assert t.log != s.log ==> multiset(t.log) == multiset(s.log) + multiset{t.log[|s.log|]};
    } else {
      assert t.log != s.log ==> multiset(t.log) == multiset(s.log) + multiset{t.log[|s.log|]};
    }
  }

  lemma {:induction false} RunInv(c: Config, run: seq<State>, i: nat)
    requires IsRun(c, run) && i < |run|
    ensures Inv(c, run[i])
  {
    if i == 0 {
      InvInitial(c, run[0]);
    } else {
      RunInv(c, run, i - 1);
      var s := run[i - 1];
      assert Next(c, s, run[i - 1 + 1]);
      if ParentEnabled(c, s) { ParentKeeps(c, s); }
      if ChildEnabled(c, s) { ChildKeeps(c, s); }
    }
  }

  /**
   In every reachable state one token exists and pipes hold at most that; the events so far are
   a prefix of the one possible order.
   */
  lemma TokenAndOrder(c: Config, run: seq<State>, i: nat)
    requires IsRun(c, run) && i < |run|
    ensures OneToken(run[i]) && run[i].pipe1 + run[i].pipe2 <= 1
    ensures forall t :: 0 <= t < |run[i].log| ==> run[i].log[t] == EventAt(t)
  {
    RunInv(c, run, i);
  }

  /** Each interval recorded in a reachable state brackets exactly one child read and one child write. */
  lemma IntervalsHoldOneRound(c: Config, run: seq<State>, n: nat, i: nat)
    requires IsRun(c, run) && n < |run| && i < |run[n].diffs|
    ensures var log, d := run[n].log, run[n].diffs[i];
            && d.start < d.stop < |log| && log[d.start] == Start(i) && log[d.stop] == Stop(i)
            && multiset(log[d.start..d.stop])[ChildRead] == 1
            && multiset(log[d.start..d.stop])[ChildWrite] == 1
            && multiset(log[d.start..d.stop])[ParentRead] == 1
            && multiset(log[d.start..d.stop])[ParentWrite] == 1
  {
    RunInv(c, run, n);
    var s := run[n];
    var log, d := s.log, s.diffs[i];
    assert d == IntervalAt(i);
    assert d.stop < Clock(s);
    RoundEvents(log, i);
    RoundOccurrences(i);
  }

  function Round(i: nat): seq<Event> { [Start(i), ParentWrite, ChildRead, ChildWrite, ParentRead] }

  lemma RoundEvents(log: seq<Event>, i: nat)
    requires 2 + 6 * i + 5 < |log| && forall t :: 0 <= t < |log| ==> log[t] == EventAt(t)
    ensures log[2 + 6 * i..2 + 6 * i + 5] == Round(i) && log[2 + 6 * i] == Start(i) && log[2 + 6 * i + 5] == Stop(i)
  {
    hide EventAt;
    PhaseEvents(i);
    var b := 2 + 6 * i;
    assert log[b] == EventAt(b) && log[b + 1] == EventAt(b + 1) && log[b + 2] == EventAt(b + 2);
    assert log[b + 3] == EventAt(b + 3) && log[b + 4] == EventAt(b + 4) && log[b + 5] == EventAt(b + 5);
  }

  lemma RoundOccurrences(i: nat)
    ensures multiset(Round(i))[ChildRead] == 1 && multiset(Round(i))[ChildWrite] == 1
    ensures multiset(Round(i))[ParentRead] == 1 && multiset(Round(i))[ParentWrite] == 1
  {
  }

  // ----- liveness: no deadlock, and every run is finite

  /** Steps left: each step of either process takes exactly one off. */
  function StepsLeft(c: Config, s: State): int {
    6 * (c.iters - s.pIdx) + ParentRank(s.parent) + 3 * (c.iters - s.cIdx) + ChildRank(s.child)
  }

  function ParentRank(p: ParentPc): int {
    match p
    case PFirstRead => 3
    case PTest => 2
    case PStart | PWait => 1
    case PWrite | PDone => 0
    case PRead => -1
    case PStop => -2
    case PRecord => -3
  }

  function ChildRank(p: ChildPc): int {
    match p
    case CFirstWrite => 2
    case CTest => 1
    case CRead | CExited => 0
    case CWrite => -1
  }

  predicate Finished(c: Config, s: State) {
    && s.parent.PDone? && s.child.CExited? && s.pIdx == c.iters && s.cIdx == c.iters
    && s.pipe1 == 0 && s.pipe2 == 0
    && s.diffs == seq(c.iters, i requires 0 <= i => IntervalAt(i))
    && s.log == seq(2 + 6 * c.iters, t requires 0 <= t => EventAt(t))
  }

  lemma StepCounts(c: Config, s: State, t: State)
    requires Inv(c, s) && Next(c, s, t)
    ensures StepsLeft(c, t) == StepsLeft(c, s) - 1 >= 0
  {
  }

  /** No deadlock for any pipe that holds a byte: a reachable state is stuck exactly when all is done. */
  lemma StuckIsFinished(c: Config, s: State)
    requires Inv(c, s) && c.capacity > 0
    ensures Stuck(c, s) <==> s.parent.PDone?
    ensures Stuck(c, s) <==> StepsLeft(c, s) == 0
    ensures Stuck(c, s) <==> Finished(c, s)
  {
    hide EventAt;
    if s.parent.PDone? {
      assert s.diffs == seq(c.iters, i requires 0 <= i => IntervalAt(i));
      assert s.log == seq(2 + 6 * c.iters, t requires 0 <= t => EventAt(t));
    }
  }

  /** A pipe that holds nothing deadlocks at once. */
  lemma ZeroCapacityDeadlocks(c: Config, s: State)
    requires Initial(s) && c.capacity == 0
    ensures Stuck(c, s) && !Finished(c, s)
  {
  }

  /**
   Whatever the scheduler does, a run is over after exactly `9 * iters + 5` steps and not before,
   and it always ends in the same place: every slot timed, every event in order, both pipes empty.
   */
  lemma EveryRunFinishes(c: Config, run: seq<State>)
    requires IsRun(c, run) && c.capacity > 0
    ensures |run| - 1 <= 9 * c.iters + 5
    ensures Stuck(c, run[|run| - 1]) <==> |run| - 1 == 9 * c.iters + 5
    ensures Stuck(c, run[|run| - 1]) <==> Finished(c, run[|run| - 1])
  {
    var n := |run| - 1;
    RunCounts(c, run, n);
    RunInv(c, run, n);
    StuckIsFinished(c, run[n]);
  }

  lemma {:induction false} RunCounts(c: Config, run: seq<State>, i: nat)
    requires IsRun(c, run) && i < |run|
    ensures StepsLeft(c, run[i]) == 9 * c.iters + 5 - i >= 0
  {
    if i == 0 {
    } else {
      RunCounts(c, run, i - 1);
      RunInv(c, run, i - 1);
      assert Next(c, run[i - 1], run[i - 1 + 1]);
      StepCounts(c, run[i - 1], run[i]);
    }
  }

  // ----- the two processes run

  lemma WhoRecords(c: Config, s: State)
    requires Inv(c, s)
    ensures |s.diffs| == s.pIdx <= c.iters
    ensures ParentEnabled(c, s) ==> |ParentStep(c, s).diffs| <= c.iters
    ensures s.parent == PRecord ==> ParentEnabled(c, s) && s.pIdx < c.iters
    ensures ParentEnabled(c, s) && s.parent == PRecord ==>
              ParentStep(c, s).diffs == s.diffs + [Interval(s.tstart, s.tend)]
    ensures ParentEnabled(c, s) && s.parent != PRecord ==> ParentStep(c, s).diffs == s.diffs
    ensures ChildEnabled(c, s) ==> ChildStep(c, s).diffs == s.diffs
  {
  }

  lemma FinishedDiffs(c: Config, s: State)
    requires Finished(c, s)
    ensures s.diffs == seq(c.iters, i requires 0 <= i => IntervalAt(i))
  {
  }

  /** Runs both processes under an arbitrary scheduler, filling the array of intervals in place. */
  method RunBoth(c: Config, prefersParent: nat -> bool) returns (diffs: array<Interval>, final: State)
    requires c.capacity > 0
    ensures Finished(c, final)
    ensures diffs[..] == seq(c.iters, i requires 0 <= i => IntervalAt(i))
  {
    hide Inv, Finished, Stuck, StepsLeft, ParentStep, ChildStep, ParentEnabled, ChildEnabled;
    diffs := new Interval[c.iters](_ => Interval(0, 0));
    final := State(PFirstRead, CFirstWrite, 0, 0, 0, 0, 0, 0, [], []);
    InvInitial(c, final);
    var step: nat := 0;
    while !Stuck(c, final)
      invariant Inv(c, final)
      invariant diffs.Length == c.iters && |final.diffs| <= c.iters && diffs[..|final.diffs|] == final.diffs
      decreases StepsLeft(c, final)
    {
      WhoRecords(c, final);
      SomeoneMoves(c, final);
      if ParentEnabled(c, final) && (prefersParent(step) || !ChildEnabled(c, final)) {
        ParentMoves(c, final);
        if final.parent == PRecord {
          diffs[final.pIdx] := Interval(final.tstart, final.tend);
        }
        final := ParentStep(c, final);
      } else {
        ChildMoves(c, final);
        final := ChildStep(c, final);
      }
      step := step + 1;
    }
    StuckIsFinished(c, final);
    FinishedDiffs(c, final);
    assert diffs[..] == diffs[..|final.diffs|];
  }

  lemma SomeoneMoves(c: Config, s: State)
    ensures Stuck(c, s) || ParentEnabled(c, s) || ChildEnabled(c, s)
  {
  }

  lemma ParentMoves(c: Config, s: State)
    requires Inv(c, s) && ParentEnabled(c, s)
    ensures Inv(c, ParentStep(c, s)) && StepsLeft(c, s) > StepsLeft(c, ParentStep(c, s)) >= 0
  {
    hide Inv, StepsLeft, ParentStep;
    ParentKeeps(c, s);
    StepCounts(c, s, ParentStep(c, s));
  }

  lemma ChildMoves(c: Config, s: State)
    requires Inv(c, s) && ChildEnabled(c, s)
    ensures Inv(c, ChildStep(c, s)) && StepsLeft(c, s) > StepsLeft(c, ChildStep(c, s)) >= 0
  {
    hide Inv, StepsLeft, ChildStep;
    ChildKeeps(c, s);
    StepCounts(c, s, ChildStep(c, s));
  }
}
