/**
 Iterated sigma clipping as a function of the samples: the gate each pass applies,
 the samples it keeps, when the loop stops, and what is proved about whole runs.
 Every pass rescans the whole array, so nothing below is built into the definitions.
 */
module Clipping {
  import opened Samples

  const MAX_ITER: nat := 5
  const TOLERANCE := 3.0
  const QUIET := 0.001

  /** `(double)LLONG_MIN` and `(double)LLONG_MAX`; the latter rounds up to 2^63. */
  const LLONG_MIN := -9223372036854775808.0
  const LLONG_MAX := 9223372036854775808.0

  /** The acceptance test of a pass: the first takes everything, later ones an open interval. */
  datatype Gate = Everything | Within(center: real, sd: real)

  predicate Admits(g: Gate, x: real) {
    g.Everything? || Abs(x - g.center) < TOLERANCE * g.sd
  }

  function Kept(data: seq<real>, g: Gate): seq<real> {
    if data == [] then []
    else
      var rest, x := Kept(data[..|data| - 1], g), data[|data| - 1];
      if Admits(g, x) then rest + [x] else rest
  }

  function Dropped(data: seq<real>, g: Gate): seq<real> {
    if data == [] then []
    else
      var rest, x := Dropped(data[..|data| - 1], g), data[|data| - 1];
      if Admits(g, x) then rest else rest + [x]
  }

  /** The gate a pass leaves behind: its mean and standard deviation. */
  function Spread(root: real -> real, s: seq<real>): Gate {
    Within(Mean(s), root(Variance(s)))
  }

  /** The gate pass `p` applies. */
  function GateAt(root: real -> real, data: seq<real>, p: nat): Gate
    decreases p, 0
  {
    if p == 0 then Everything
    else Spread(root, KeptAt(root, data, p - 1))
  }

  /** The samples pass `p` keeps, out of the whole array. */
  function KeptAt(root: real -> real, data: seq<real>, p: nat): seq<real>
    decreases p, 1
  {
    Kept(data, GateAt(root, data, p))
  }

  /** The spread is negligible, or the mean too small to compare it with. */
  predicate Quiet(root: real -> real, data: seq<real>, p: nat) {
    var m := Mean(KeptAt(root, data, p));
    m < QUIET || root(Variance(KeptAt(root, data, p))) / m < QUIET
  }

  /** Pass `p` dropped nothing; the first pass always counts as a change. */
  predicate Unchanged(root: real -> real, data: seq<real>, p: nat) {
    p > 0 && |KeptAt(root, data, p)| == |data|
  }

  predicate StopsAt(root: real -> real, data: seq<real>, p: nat) {
    Quiet(root, data, p) || Unchanged(root, data, p) || p + 1 >= MAX_ITER
  }

  predicate Reached(root: real -> real, data: seq<real>, p: nat) {
    forall q | 0 <= q < p :: !StopsAt(root, data, q)
  }

  function FinalPass(root: real -> real, data: seq<real>, p: nat := 0): (f: nat)
    requires Reached(root, data, p)
    ensures Reached(root, data, f) && StopsAt(root, data, f)
    decreases MAX_ITER - p
  {
    if StopsAt(root, data, p) then p else FinalPass(root, data, p + 1)
  }

  /** The final pass is the only reached pass at which the loop stops. */
  lemma FinalPassUnique(root: real -> real, data: seq<real>, p: nat)
    requires Reached(root, data, p) && StopsAt(root, data, p)
    ensures FinalPass(root, data) == p
  {
    var f := FinalPass(root, data);
    assert !(f < p) && !(p < f);
  }

  function FinalKept(root: real -> real, data: seq<real>): seq<real> {
    KeptAt(root, data, FinalPass(root, data))
  }

  // ----- filtering

  lemma {:induction false} KeptMembers(data: seq<real>, g: Gate)
    ensures forall x :: x in Kept(data, g) <==> x in data && Admits(g, x)
    ensures |Kept(data, g)| <= |data|
  {
    if data == [] {
    } else {
      var rest, x := data[..|data| - 1], data[|data| - 1];
      KeptMembers(rest, g);
      assert data == rest + [x];
    }
  }

  lemma {:induction false} DroppedMembers(data: seq<real>, g: Gate)
    ensures forall x :: x in Dropped(data, g) ==> x in data && !Admits(g, x)
  {
    if data == [] {
    } else {
      var rest, x := data[..|data| - 1], data[|data| - 1];
      DroppedMembers(rest, g);
      assert data == rest + [x];
    }
  }

  lemma {:induction false} KeptEverything(data: seq<real>, g: Gate)
    requires forall x :: x in data ==> Admits(g, x)
    ensures Kept(data, g) == data
  {
    if data == [] {
    } else {
      var rest, x := data[..|data| - 1], data[|data| - 1];
      assert data == rest + [x];
      KeptEverything(rest, g);
    }
  }

  lemma {:induction false} KeptAllIsWhole(data: seq<real>, g: Gate)
    requires |Kept(data, g)| == |data|
    ensures Kept(data, g) == data
  {
    if data == [] {
    } else {
      var rest, x := data[..|data| - 1], data[|data| - 1];
      KeptMembers(rest, g);
      KeptAllIsWhole(rest, g);
      assert data == rest + [x];
    }
  }

  /** Kept and dropped samples share out the count and both sums. */
  lemma {:induction false} Partition(s: seq<real>, g: Gate, c: real)
    ensures |s| == |Kept(s, g)| + |Dropped(s, g)|
    ensures Sum(s) == Sum(Kept(s, g)) + Sum(Dropped(s, g))
    ensures SumSq(s, c) == SumSq(Kept(s, g), c) + SumSq(Dropped(s, g), c)
  {
    if s == [] {
    } else {
      var rest, x := s[..|s| - 1], s[|s| - 1];
      Partition(rest, g, c);
      SumsOfSnoc(rest, x, c);
      assert rest + [x] == s;
      if Admits(g, x) { SumsOfSnoc(Kept(rest, g), x, c); } else { SumsOfSnoc(Dropped(rest, g), x, c); }
    }
  }

  /** The interval of `h` lies inside that of `g`. */
  predicate Narrower(h: Gate, g: Gate) {
    g.Everything?
    || (h.Within? && g.center - TOLERANCE * g.sd <= h.center - TOLERANCE * h.sd
                  && h.center + TOLERANCE * h.sd <= g.center + TOLERANCE * g.sd)
  }

  lemma {:induction false} KeptTwice(data: seq<real>, g: Gate, h: Gate)
    requires Narrower(h, g)
    ensures Kept(data, h) == Kept(Kept(data, g), h)
  {
    if data == [] {
    } else {
      var rest, x := data[..|data| - 1], data[|data| - 1];
      KeptTwice(rest, g, h);
      var k := Kept(rest, g);
      assert (k + [x])[..|k|] == k;
    }
  }
}
