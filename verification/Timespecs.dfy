/**
 Arithmetic on (second, nanosecond) pairs: carry and borrow, a carrying sum, a two-part
 truncating average, and the comparator. Integers are unbounded; where the code relies on
 64-bit arithmetic not overflowing, a lemma says so.
 */
module Timespecs {
  import opened Sorting

  const BILLION := 1000000000

  datatype Option<+T> = None | Some(value: T)

  datatype Timespec = Timespec(sec: int, nsec: int) {
    function Nanos(): int { sec * BILLION + nsec }

    predicate Normalised() { 0 <= nsec < BILLION }
  }

  const ZERO := Timespec(0, 0)

  function TotalNanos(s: seq<Timespec>): int {
    if s == [] then 0 else TotalNanos(s[..|s| - 1]) + s[|s| - 1].Nanos()
  }

  predicate AllNormalised(s: seq<Timespec>) {
    forall i :: 0 <= i < |s| ==> s[i].Normalised()
  }

  /** A time has one normalised form, so a contract that fixes both fixes the result. */
  lemma NormalisedUnique(a: Timespec, b: Timespec)
    requires a.Normalised() && b.Normalised() && a.Nanos() == b.Nanos()
    ensures a == b
  {
  }

  /** Adds `a - b` to slot `i` in place, borrowing or carrying one second. */
  method AddDiffToSum(times: array<Timespec>, i: nat, a: Timespec, b: Timespec)
    requires i < times.Length
    modifies times
    ensures times[..] == old(times[..])[i := times[i]]
    ensures times[i].Nanos() == old(times[i].Nanos()) + a.Nanos() - b.Nanos()
    ensures old(times[i].Normalised()) && a.Normalised() && b.Normalised() ==> times[i].Normalised()
  {
    var result := times[i];
    if result.nsec + a.nsec < b.nsec {
      times[i] := Timespec(result.sec + a.sec - b.sec - 1, BILLION + result.nsec + a.nsec - b.nsec);
    } else if result.nsec + a.nsec - b.nsec >= BILLION {
      times[i] := Timespec(result.sec + a.sec - b.sec + 1, result.nsec + a.nsec - b.nsec - BILLION);
    } else {
      times[i] := Timespec(result.sec + a.sec - b.sec, result.nsec + a.nsec - b.nsec);
    }
  }

  function CalcDiff(smaller: Timespec, bigger: Timespec): (diff: Timespec)
    ensures diff.Nanos() == bigger.Nanos() - smaller.Nanos()
    ensures smaller.Normalised() && bigger.Normalised() ==> diff.Normalised()
  {
    if smaller.nsec > bigger.nsec then
      Timespec(bigger.sec - 1 - smaller.sec, BILLION + bigger.nsec - smaller.nsec)
    else
      Timespec(bigger.sec - smaller.sec, bigger.nsec - smaller.nsec)
  }

  /** `get_timespec_diff_nsec`, whose arguments may be null. */
  function GetTimespecDiffNsec(start: Option<Timespec>, end: Option<Timespec>): real {
    if start.Some? && end.Some? then
      (end.value.sec - start.value.sec) as real * 1000000000.0 + (end.value.nsec - start.value.nsec) as real
    else 0.0
  }

  /** The two ways the repository measures an interval agree, and are antisymmetric; no interval has a missing end. */
  lemma DiffsAgree(start: Timespec, end: Timespec)
    ensures GetTimespecDiffNsec(Some(start), Some(end)) == CalcDiff(start, end).Nanos() as real
    ensures CalcDiff(start, end).Nanos() == -CalcDiff(end, start).Nanos()
    ensures forall t :: GetTimespecDiffNsec(None, t) == 0.0 == GetTimespecDiffNsec(t, None)
  {
    assert ((end.sec - start.sec) * BILLION) as real == (end.sec - start.sec) as real * 1000000000.0;
  }

  /** The carrying sum: exact on any input, and normalised when its inputs are. */
  method CalcSum2(times: array<Timespec>, size: int) returns (sum: Timespec)
    requires size <= times.Length
    ensures sum.Nanos() == TotalNanos(times[..if size < 0 then 0 else size])
    ensures AllNormalised(times[..]) ==> sum.Normalised()
  {
    sum := ZERO;
    var i := 0;
    while i < size
      invariant 0 <= i <= if size < 0 then 0 else size
      invariant sum.Nanos() == TotalNanos(times[..i])
      invariant AllNormalised(times[..]) ==> sum.Normalised()
    {
      assert times[..i + 1][..i] == times[..i];
      assert AllNormalised(times[..]) ==> times[..][i].Normalised();
      if times[i].nsec >= BILLION - sum.nsec {
        sum := sum.(sec := sum.sec + 1);
        sum := sum.(nsec := times[i].nsec - (BILLION - sum.nsec));
        sum := sum.(sec := sum.sec + times[i].sec);
      } else {
        sum := sum.(nsec := sum.nsec + times[i].nsec);
        sum := sum.(sec := sum.sec + times[i].sec);
      }
      i := i + 1;
    }
  }

  // ----- the average

  /** C's division and remainder, which truncate towards zero. */
  function CDiv(a: int, b: int): int
    requires b != 0
  {
    if a >= 0 then a / b else -((-a) / b)
  }

  function CMod(a: int, b: int): int
    requires b != 0
  {
    a - b * CDiv(a, b)
  }

  /** They are what section 6.5.5 of ISO C11 asks for: the remainder is short and has the sign of the dividend. */
  lemma Truncates(a: int, b: int)
    requires b != 0
    ensures a == b * CDiv(a, b) + CMod(a, b)
    ensures if b > 0 then -b < CMod(a, b) < b else b < CMod(a, b) < -b
    ensures if a >= 0 then CMod(a, b) >= 0 else CMod(a, b) <= 0
  {
  }

  /** Seconds and nanoseconds are divided apart, the remainder of the seconds carried down. */
  function CalcAverage(sum: Timespec, size: int): Timespec {
    if size == 0 then ZERO
    else Timespec(CDiv(sum.sec, size), CDiv(sum.nsec, size) + CDiv(CMod(sum.sec, size) * BILLION, size))
  }

  /** What the two truncations of the average lose between them. */
  function Lost(sum: Timespec, size: int): int
    requires size > 0
  {
    sum.nsec % size + sum.sec % size * BILLION % size
  }

  /**
   The average of a non-negative normalised sum is normalised, falls short of the exact quotient
   by less than two nanoseconds, and is the rounded-down quotient exactly when the two
   remainders together stay below the count.
   */
  lemma AverageBound(sum: Timespec, size: int)
    requires sum.Normalised() && sum.sec >= 0 && size > 0
    ensures var avg := CalcAverage(sum, size);
            && avg.Normalised()
            && 0 <= sum.Nanos() - size * avg.Nanos() <= 2 * (size - 1)
            && sum.Nanos() / size - 1 <= avg.Nanos() <= sum.Nanos() / size
            && (avg.Nanos() == sum.Nanos() / size <==> Lost(sum, size) < size)
  {
    hide Timespec.Nanos, CalcAverage;
    var sec, nsec, p := sum.sec, sum.nsec, sum.sec % size * BILLION;
    var q1, q2, q3 := sec / size, nsec / size, p / size;
    AverageParts(sum, size);
    DivMod(sec, size); DivMod(nsec, size); DivMod(p, size);
    AverageArith(sec, nsec, size, q1, sec % size, q2, nsec % size, q3, p % size);
    QuotientOf(sum.Nanos(), size, CalcAverage(sum, size).Nanos(), Lost(sum, size));
  }

  lemma AverageParts(sum: Timespec, size: int)
    requires sum.Normalised() && sum.sec >= 0 && size > 0
    ensures CalcAverage(sum, size) == Timespec(sum.sec / size, sum.nsec / size + sum.sec % size * BILLION / size)
    ensures sum.Nanos() == sum.sec * BILLION + sum.nsec
    ensures CalcAverage(sum, size).Nanos() ==
            sum.sec / size * BILLION + (sum.nsec / size + sum.sec % size * BILLION / size)
  {
    DivMod(sum.sec, size);
    assert sum.sec - size * (sum.sec / size) == sum.sec % size;
  }

  lemma DivMod(a: int, b: int)
    requires b > 0
    ensures a == b * (a / b) + a % b && 0 <= a % b < b
  {
  }

  /** Each part is quotient times size plus remainder; the carried part is `r1` seconds. */
  lemma AverageArith(sec: int, nsec: int, size: int, q1: int, r1: int, q2: int, r2: int, q3: int, r3: int)
    requires size > 0 && 0 <= nsec < BILLION && 0 <= r1 < size && 0 <= r2 < size && 0 <= r3 < size
    requires sec == size * q1 + r1 && nsec == size * q2 + r2 && r1 * BILLION == size * q3 + r3
    ensures sec * BILLION + nsec == size * (q1 * BILLION + (q2 + q3)) + (r2 + r3)
    ensures 0 <= q2 + q3 < BILLION
  {
    Distribute(size, q1, BILLION, q2 + q3);
    assert size * (q2 + q3) == size * q2 + size * q3;
    assert sec * BILLION == size * q1 * BILLION + r1 * BILLION;
    assert r1 * BILLION <= (size - 1) * BILLION;
    MultipleBelow(size, q2 + q3, BILLION);
    MultipleSize(size, q2);
    MultipleSize(size, q3);
  }

  lemma Distribute(n: int, a: int, b: int, c: int)
    ensures n * (a * b + c) == n * a * b + n * c
  {
    assert n * (a * b) == n * a * b;
  }

  lemma MultipleBelow(n: int, a: int, b: int)
    requires n > 0 && n * a < n * b
    ensures a < b
  {
    MultipleSize(n, a - b);
    assert n * (a - b) == n * a - n * b;
  }

  lemma QuotientOf(total: int, size: int, a: int, rem: int)
    requires size > 0 && total == size * a + rem && 0 <= rem <= 2 * (size - 1)
    ensures rem < size ==> total / size == a
    ensures rem >= size ==> total / size == a + 1
  {
    if rem < size {
      UniqueQuotient(total, size, a, rem);
    } else {
      assert size * (a + 1) == size * a + size;
      UniqueQuotient(total, size, a + 1, rem - size);
    }
  }

  lemma UniqueQuotient(total: int, size: int, a: int, rem: int)
    requires size > 0 && total == size * a + rem && 0 <= rem < size
    ensures total / size == a
  {
    DivMod(total, size);
    var d := total / size - a;
    assert size * d == rem - total % size;
    MultipleSize(size, d);
  }

  lemma MultipleSize(n: int, a: int)
    requires n > 0
    ensures a >= 1 ==> n * a >= n
    ensures a <= -1 ==> n * a <= -n
  {
    if a >= 1 {
      assert n * (a - 1) >= 0;
    } else if a <= -1 {
      assert n * (a + 1) <= 0;
    }
  }

  /** Of a sum with both parts negated the average is negated too, and of no times it is zero. */
  lemma AverageIsOdd(sum: Timespec, size: int)
    ensures CalcAverage(Timespec(-sum.sec, -sum.nsec), size) ==
            Timespec(-CalcAverage(sum, size).sec, -CalcAverage(sum, size).nsec)
    ensures size == 0 ==> CalcAverage(sum, size).Nanos() == 0
  {
    if size != 0 {
      hide CDiv, CMod;
      DivisionIsOdd(sum.sec, size);
      DivisionIsOdd(sum.nsec, size);
      DivisionIsOdd(CMod(sum.sec, size) * BILLION, size);
    }
  }

  lemma DivisionIsOdd(a: int, b: int)
    requires b != 0
    ensures CDiv(-a, b) == -CDiv(a, b) && CMod(-a, b) == -CMod(a, b)
  {
    assert b * -CDiv(a, b) == -(b * CDiv(a, b));
  }

  /** The bound is reached: two seconds and two nanoseconds over three lose four nanoseconds. */
  lemma AverageBoundTight()
    ensures var sum := Timespec(2, 2);
            sum.Nanos() - 3 * CalcAverage(sum, 3).Nanos() == 2 * (3 - 1)
  {
  }

  /** The one product `calc_average` forms fits in 64 bits for every positive 32-bit size. */
  lemma AverageProductFits(sec: int, size: int)
    requires 0 < size <= 0x7fff_ffff
    ensures -0x7fff_ffff_ffff_ffff <= CMod(sec, size) * BILLION <= 0x7fff_ffff_ffff_ffff
  {
  }

  // ----- the comparator

  function Comp(t1: Timespec, t2: Timespec): int {
    if t1.sec > t2.sec then 1
    else if t1.sec == t2.sec then
      if t1.nsec > t2.nsec then 1 else if t1.nsec == t2.nsec then 0 else -1
    else -1
  }

  lemma CompConsistent()
    ensures Consistent(Comp) && Separates(Comp)
  {
  }

  /** On normalised times the comparator orders by duration, with results any `int` holds. */
  lemma CompOrdersTime(a: Timespec, b: Timespec)
    requires a.Normalised() && b.Normalised()
    ensures Comp(a, b) < 0 <==> a.Nanos() < b.Nanos()
    ensures Comp(a, b) == 0 <==> a.Nanos() == b.Nanos()
    ensures -1 <= Comp(a, b) <= 1
  {
  }
}
