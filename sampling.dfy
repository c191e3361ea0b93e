/** Weighted sampling over weight units.

    The total weight of a set is an index space `[0, Weight())`, cut into
    consecutive ranges, one per member in index order, each as long as that
    member's weight. A sample of size `k` is `k` DISTINCT indices of that
    space (drawn by the source's random generator, here supplied as input),
    each mapped to the member whose range contains it. A member may thus be
    drawn several times, but never more often than its weight. */
module Sampling {
  import opened Ids
  import opened Validators

  /** The number of weight units owned by the first `i` members: member `i`
      owns the units `[Cumulative(vs, i), Cumulative(vs, i + 1))`. */
  function Cumulative(vs: seq<Validator>, i: nat): nat
    requires i <= |vs|
  {
    SumWeights(vs[..i])
  }

  lemma CumulativeStep(vs: seq<Validator>, i: nat)
    requires i < |vs|
    ensures Cumulative(vs, i + 1) == Cumulative(vs, i) + vs[i].weight
  {
    assert vs[..i + 1][..i] == vs[..i];
  }

  lemma CumulativeAll(vs: seq<Validator>)
    ensures Cumulative(vs, |vs|) == SumWeights(vs)
  {
    assert vs[..|vs|] == vs;
  }

  lemma {:induction false} CumulativeMonotone(vs: seq<Validator>, i: nat, j: nat)
    requires i <= j <= |vs|
    ensures Cumulative(vs, i) <= Cumulative(vs, j)
    decreases j - i
  {
    if i < j {
      CumulativeStep(vs, i);
      CumulativeMonotone(vs, i + 1, j);
    }
  }

  /** The index of the member whose weight range contains unit `u`. */
  function OwnerIndex(vs: seq<Validator>, u: nat): (i: nat)
    requires u < SumWeights(vs)
    ensures i < |vs| && Cumulative(vs, i) <= u < Cumulative(vs, i + 1)
    decreases |vs|
  {
    var n := |vs| - 1;
    assert vs[..n + 1] == vs;
    if u >= SumWeights(vs[..n]) then n
    else
      var i := OwnerIndex(vs[..n], u);
      assert vs[..n][..i] == vs[..i] && vs[..n][..i + 1] == vs[..i + 1];
      i
  }

  /** The weight ranges are disjoint: a unit lies in the range of exactly one
      member, the one `OwnerIndex` finds. */
  lemma OwnerUnique(vs: seq<Validator>, u: nat, i: nat)
    requires i < |vs| && Cumulative(vs, i) <= u < Cumulative(vs, i + 1)
    ensures u < SumWeights(vs) && OwnerIndex(vs, u) == i
  {
    CumulativeMonotone(vs, i + 1, |vs|);
    CumulativeAll(vs);
    var o := OwnerIndex(vs, u);
    if o < i {
      CumulativeMonotone(vs, o + 1, i);
    } else if i < o {
      CumulativeMonotone(vs, i + 1, o);
    }
  }

  /** Every draw is a unit of the index space. */
  predicate InRange(draws: seq<nat>, total: nat)
  {
    forall j :: 0 <= j < |draws| ==> draws[j] < total
  }

  /** No unit is drawn twice. */
  predicate DistinctDraws(draws: seq<nat>)
  {
    forall i, j :: 0 <= i < j < |draws| ==> draws[i] != draws[j]
  }

  /** What the random source supplies to `Sample(k)`: `k` distinct units of
      `[0, total)`. */
  predicate ValidDraws(draws: seq<nat>, k: nat, total: nat)
  {
    |draws| == k && DistinctDraws(draws) && InRange(draws, total)
  }

  /** The validators a sample yields for the given draws, in draw order. */
  function Picked(vs: seq<Validator>, draws: seq<nat>): (r: seq<Validator>)
    requires InRange(draws, SumWeights(vs))
    ensures |r| == |draws|
    ensures forall j :: 0 <= j < |r| ==> r[j] in vs
  {
    seq(|draws|, j requires 0 <= j < |draws| => vs[OwnerIndex(vs, draws[j])])
  }

  /** Picked element `j` is member `i` exactly when draw `j` lies in member
      `i`'s weight range. */
  lemma PickedInRange(vs: seq<Validator>, draws: seq<nat>, j: nat, i: nat)
    requires DistinctIds(vs) && InRange(draws, SumWeights(vs))
    requires j < |draws| && i < |vs|
    ensures Picked(vs, draws)[j] == vs[i]
            <==> Cumulative(vs, i) <= draws[j] < Cumulative(vs, i + 1)
  {
    var o := OwnerIndex(vs, draws[j]);
    assert Picked(vs, draws)[j] == vs[o];
    if Cumulative(vs, i) <= draws[j] < Cumulative(vs, i + 1) {
      OwnerUnique(vs, draws[j], i);
    } else {
      assert o != i;
      assert vs[o].id != vs[i].id;
    }
  }

  /** Every sampled validator is a current member with positive weight. */
  lemma PickedAreMembers(vs: seq<Validator>, draws: seq<nat>)
    requires WellFormed(vs) && InRange(draws, SumWeights(vs))
    ensures forall j :: 0 <= j < |draws| ==>
              Picked(vs, draws)[j].id in IdsOf(vs) && Picked(vs, draws)[j].weight > 0
  {
    var r := Picked(vs, draws);
    forall j | 0 <= j < |draws| ensures r[j].id in IdsOf(vs) && r[j].weight > 0 {
      var i := OwnerIndex(vs, draws[j]);
      assert r[j] == vs[i];
    }
  }

  /** With a single member, every sample consists of that member only. */
  lemma PickedSingle(vs: seq<Validator>, draws: seq<nat>)
    requires |vs| == 1 && InRange(draws, SumWeights(vs))
    ensures Picked(vs, draws) == seq(|draws|, _ => vs[0])
  {
  }

  /** A sample of any size up to the total weight can be drawn, even one
      larger than the number of members: units `0, 1, ..., k - 1` will do. */
  lemma DrawsExist(k: nat, total: nat)
    requires k <= total
    ensures ValidDraws(seq(k, j => j), k, total)
  {
  }

  // ---------------------------------------------------------------------
  // A member is picked at most as often as its weight
  // ---------------------------------------------------------------------

  /** The number of occurrences of `v` in `s`. */
  function Count(s: seq<Validator>, v: Validator): nat
  {
    if s == [] then 0
    else Count(s[..|s| - 1], v) + (if s[|s| - 1] == v then 1 else 0)
  }

  /** The number of draws in `[lo, hi)`. */
  function CountInRange(draws: seq<nat>, lo: nat, hi: nat): nat
  {
    if draws == [] then 0
    else CountInRange(draws[..|draws| - 1], lo, hi) + (if lo <= draws[|draws| - 1] < hi then 1 else 0)
  }

  /** The set of drawn units that lie in `[lo, hi)`. */
  function DrawnIn(draws: seq<nat>, lo: nat, hi: nat): (s: set<nat>)
    ensures forall x :: x in s ==> lo <= x < hi && x in draws
  {
    if draws == [] then {}
    else
      var n := |draws| - 1;
      DrawnIn(draws[..n], lo, hi) + (if lo <= draws[n] < hi then {draws[n]} else {})
  }

  /** The units `[lo, hi)`. */
  function Interval(lo: nat, hi: nat): (s: set<nat>)
    ensures forall x :: x in s <==> lo <= x < hi
    decreases hi
  {
    if hi <= lo then {} else Interval(lo, hi - 1) + {hi - 1}
  }

  lemma {:induction false} IntervalSize(lo: nat, hi: nat)
    requires lo <= hi
    ensures |Interval(lo, hi)| == hi - lo
    decreases hi
  {
    if lo < hi {
      IntervalSize(lo, hi - 1);
    }
  }

  lemma SubsetSize(a: set<nat>, b: set<nat>)
    requires a <= b
    ensures |a| <= |b|
  {
    assert b == a + (b - a);
  }

  /** Dropping the last draw keeps the draws distinct, and the last draw
      is not among the others. */
  lemma DistinctDrawsInit(draws: seq<nat>)
    requires DistinctDraws(draws) && draws != []
    ensures DistinctDraws(draws[..|draws| - 1]) && draws[|draws| - 1] !in draws[..|draws| - 1]
  {
    var init := draws[..|draws| - 1];
    forall i, j | 0 <= i < j < |init| ensures init[i] != init[j] {
      assert init[i] == draws[i] && init[j] == draws[j];
    }
    forall j | 0 <= j < |init| ensures init[j] != draws[|draws| - 1] {
      assert init[j] == draws[j];
    }
  }

  lemma {:induction false} DrawnInCount(draws: seq<nat>, lo: nat, hi: nat)
    requires DistinctDraws(draws)
    ensures |DrawnIn(draws, lo, hi)| == CountInRange(draws, lo, hi)
  {
    if draws != [] {
      var n := |draws| - 1;
      DistinctDrawsInit(draws);
      DrawnInCount(draws[..n], lo, hi);
      assert draws[n] !in DrawnIn(draws[..n], lo, hi);
    }
  }

  /** Distinct draws put at most `hi - lo` of themselves into `[lo, hi)`. */
  lemma DistinctDrawsBound(draws: seq<nat>, lo: nat, hi: nat)
    requires DistinctDraws(draws) && lo <= hi
    ensures CountInRange(draws, lo, hi) <= hi - lo
  {
    DrawnInCount(draws, lo, hi);
    IntervalSize(lo, hi);
    SubsetSize(DrawnIn(draws, lo, hi), Interval(lo, hi));
  }

  lemma {:induction false} CountMatches(r: seq<Validator>, v: Validator, draws: seq<nat>, lo: nat, hi: nat)
    requires |r| == |draws|
    requires forall j :: 0 <= j < |r| ==> (r[j] == v <==> lo <= draws[j] < hi)
    ensures Count(r, v) == CountInRange(draws, lo, hi)
  {
    if r != [] {
      var n := |r| - 1;
      CountMatches(r[..n], v, draws[..n], lo, hi);
    }
  }

  /** Sampling is without replacement over weight units: with distinct draws,
      each member appears in the sample at most as many times as its weight. */
  lemma PickedAtMostWeight(vs: seq<Validator>, draws: seq<nat>, i: nat)
    requires DistinctIds(vs) && i < |vs|
    requires InRange(draws, SumWeights(vs)) && DistinctDraws(draws)
    ensures Count(Picked(vs, draws), vs[i]) <= vs[i].weight
  {
    var r := Picked(vs, draws);
    var lo, hi := Cumulative(vs, i), Cumulative(vs, i + 1);
    forall j | 0 <= j < |r| ensures r[j] == vs[i] <==> lo <= draws[j] < hi {
      PickedInRange(vs, draws, j, i);
    }
    CountMatches(r, vs[i], draws, lo, hi);
    CumulativeStep(vs, i);
    DistinctDrawsBound(draws, lo, hi);
  }

  /** After `Add` of a member's ID with weight 0 (which always succeeds),
      that ID is never sampled again. */
  lemma ZeroWeightNeverPicked(vs: seq<Validator>, id: ShortID, draws: seq<nat>)
    requires WellFormed(vs) && SumWeights(vs) <= MaxUint64
    ensures AddResult(vs, Validator(id, 0)).Success?
    ensures var next := AddResult(vs, Validator(id, 0)).value;
            InRange(draws, SumWeights(next)) ==>
              forall j :: 0 <= j < |draws| ==> Picked(next, draws)[j].id != id
  {
    AddZeroWeight(vs, id);
    var next := AddResult(vs, Validator(id, 0)).value;
    UpsertWellFormed(vs, Validator(id, 0));
    if InRange(draws, SumWeights(next)) {
      PickedAreMembers(next, draws);
    }
  }
}
