/** The validator set object: a membership table updated in place by `Set`,
    `Add` and `Remove`, and queried by `Contains`, `Len`, `Weight`, `Sample`
    and `String`. Its contents are the member sequence `vdrSlice`; beside it
    the object keeps an ID-to-weight table for constant-time lookups and the
    running total weight. Every method is proved against the functions of
    modules `Validators`, `Sampling` and `Rendering`. */
module ValidatorSets {
  import opened Ids
  import opened Results
  import opened Validators
  import opened Sampling
  import opened Rendering

  class ValidatorSet {
    /** The members, in index order. */
    var vdrSlice: seq<Validator>
    /** The weight of each member, by ID. */
    var vdrWeights: map<ShortID, uint64>
    /** The sum of the members' weights. */
    var totalWeight: uint64

    /** The object invariant: IDs distinct, weights positive, the table and
        the total agree with the member sequence. */
    ghost predicate Valid()
      reads this
    {
      && WellFormed(vdrSlice)
      && vdrWeights == WeightMap(vdrSlice)
      && totalWeight == SumWeights(vdrSlice)
    }

    /** `NewSet()`: an empty set. */
    constructor NewSet()
      ensures Valid() && vdrSlice == []
    {
      vdrSlice := [];
      vdrWeights := map[];
      totalWeight := 0;
    }

    /** `Add(v)`: insert `v`, or replace the member with `v`'s ID; a weight-0
        `v` only removes that ID. Fails with `Overflow`, changing nothing,
        when the total weight would leave the uint64 range. */
    method Add(v: Validator) returns (err: Option<SetError>)
      requires Valid()
      modifies this
      ensures Valid()
      ensures AddResult(old(vdrSlice), v).Success? ==>
                err == None && vdrSlice == AddResult(old(vdrSlice), v).value
      ensures AddResult(old(vdrSlice), v).Failure? ==>
                err == Some(AddResult(old(vdrSlice), v).error) && vdrSlice == old(vdrSlice)
    {
      var prior := if v.id in vdrWeights then vdrWeights[v.id] else 0;
      if v.id !in vdrWeights {
        WeightOfAbsent(vdrSlice, v.id);
      }
      SumWithoutID(vdrSlice, v.id);
      UpsertWeight(vdrSlice, v);
      var newTotal := totalWeight - prior + v.weight;
      if newTotal > MaxUint64 {
        return Some(Overflow);
      }
      UpsertWellFormed(vdrSlice, v);
      WeightMapUpsert(vdrSlice, v);
      ghost var next := Upsert(vdrSlice, v);
      vdrSlice := WithoutID(vdrSlice, v.id);
      if v.weight > 0 {
        assert next == vdrSlice + [v];
        vdrSlice := vdrSlice + [v];
        vdrWeights := vdrWeights[v.id := v.weight];
      } else {
        assert next == vdrSlice;
        vdrWeights := vdrWeights - {v.id};
      }
      totalWeight := newTotal;
      assert vdrSlice == next && vdrWeights == WeightMap(next) && totalWeight == SumWeights(next);
      err := None;
    }

    /** `Remove(id)`: take the member with ID `id` out. Fails with
        `UnknownID`, changing nothing, when there is none. */
    method Remove(id: ShortID) returns (err: Option<SetError>)
      requires Valid()
      modifies this
      ensures Valid()
      ensures RemoveResult(old(vdrSlice), id).Success? ==>
                err == None && vdrSlice == RemoveResult(old(vdrSlice), id).value
      ensures RemoveResult(old(vdrSlice), id).Failure? ==>
                err == Some(UnknownID) && vdrSlice == old(vdrSlice)
    {
      if id !in vdrWeights {
        return Some(UnknownID);
      }
      var w := vdrWeights[id];
      RemoveSpec(vdrSlice, id);
      SumWithoutID(vdrSlice, id);
      WeightMapWithoutID(vdrSlice, id);
      vdrSlice := WithoutID(vdrSlice, id);
      vdrWeights := vdrWeights - {id};
      totalWeight := totalWeight - w;
      err := None;
    }

    /** `Set(list)`: replace the whole membership. The weight-0 entries of
        `list` are discarded and the others are added one by one to an empty
        set. On an error the previous membership is restored, so the replace
        is never partially applied. */
    method Set(list: seq<Validator>) returns (err: Option<SetError>)
      requires Valid()
      modifies this
      ensures Valid()
      ensures SetResult(list).Success? ==> err == None && vdrSlice == SetResult(list).value
      ensures SetResult(list).Failure? ==>
                err == Some(SetResult(list).error) && vdrSlice == old(vdrSlice)
    {
      var savedSlice, savedWeights, savedTotal := vdrSlice, vdrWeights, totalWeight;
      vdrSlice, vdrWeights, totalWeight := [], map[], 0;
      var i := 0;
      assert list[0..] == list;
      while i < |list|
        invariant 0 <= i <= |list|
        invariant Valid()
        invariant SetResult(list) == Replay(vdrSlice, PositiveOnly(list[i..]))
      {
        var rest := PositiveOnly(list[i + 1..]);
        assert list[i..][0] == list[i] && list[i..][1..] == list[i + 1..];
        ListFront(list[i..]);
        if list[i].weight > 0 {
          assert ([list[i]] + rest)[0] == list[i] && ([list[i]] + rest)[1..] == rest;
          var e := Add(list[i]);
          if e.Some? {
            vdrSlice, vdrWeights, totalWeight := savedSlice, savedWeights, savedTotal;
            return e;
          }
        } else {
          assert [] + rest == rest;
        }
        i := i + 1;
      }
      err := None;
    }

    /** `Contains(id)`: whether `id` is a member. */
    method Contains(id: ShortID) returns (b: bool)
      requires Valid()
      ensures b <==> id in IdsOf(vdrSlice)
    {
      b := id in vdrWeights;
    }

    /** `Len()`: the number of members, which is also the number of distinct
        member IDs. */
    method Len() returns (n: nat)
      requires Valid()
      ensures n == |vdrSlice| && n == |IdsOf(vdrSlice)|
    {
      DistinctIdsCount(vdrSlice);
      assert vdrWeights.Keys == IdsOf(vdrSlice);
      n := |vdrWeights|;
    }

    /** `Weight()`: the total weight of the members. */
    method Weight() returns (w: uint64)
      requires Valid()
      ensures w == SumWeights(vdrSlice)
    {
      w := totalWeight;
    }

    /** The index of the member whose weight range contains unit `u`, by a
        scan over the cumulative weights. */
    method Locate(u: nat) returns (i: nat)
      requires Valid() && u < SumWeights(vdrSlice)
      ensures i == OwnerIndex(vdrSlice, u)
    {
      CumulativeAll(vdrSlice);
      i := 0;
      var below := 0;
      CumulativeStep(vdrSlice, 0);
      while below + vdrSlice[i].weight <= u
        invariant i < |vdrSlice|
        invariant below == Cumulative(vdrSlice, i) && below <= u
        decreases |vdrSlice| - i
      {
        CumulativeStep(vdrSlice, i);
        below := below + vdrSlice[i].weight;
        i := i + 1;
        assert i < |vdrSlice| by {
          CumulativeMonotone(vdrSlice, i, |vdrSlice|);
          assert below == Cumulative(vdrSlice, i) && below <= u < Cumulative(vdrSlice, |vdrSlice|);
        }
      }
      CumulativeStep(vdrSlice, i);
      OwnerUnique(vdrSlice, u, i);
    }

    /** `Sample(k)`: fails with `InsufficientWeight` when `k` exceeds the total
        weight; otherwise maps each of the `k` distinct drawn units to the
        member owning it. */
    method Sample(k: nat, draws: seq<nat>) returns (r: Result<seq<Validator>, SetError>)
      requires Valid()
      requires k <= SumWeights(vdrSlice) ==> ValidDraws(draws, k, SumWeights(vdrSlice))
      ensures k > SumWeights(vdrSlice) ==> r == Failure(InsufficientWeight)
      ensures k <= SumWeights(vdrSlice) ==> r == Success(Picked(vdrSlice, draws))
    {
      if k > totalWeight {
        return Failure(InsufficientWeight);
      }
      var sampled: seq<Validator> := [];
      var j := 0;
      while j < k
        invariant 0 <= j <= k && |sampled| == j
        invariant forall t :: 0 <= t < j ==> sampled[t] == vdrSlice[OwnerIndex(vdrSlice, draws[t])]
      {
        var i := Locate(draws[j]);
        sampled := sampled + [vdrSlice[i]];
        j := j + 1;
      }
      assert sampled == Picked(vdrSlice, draws);
      return Success(sampled);
    }

    /** `String()`: the debug text, built line by line. */
    method String(encode: ShortID -> string) returns (s: string)
      ensures s == Render(vdrSlice, encode)
    {
      var lines := "";
      var i := 0;
      while i < |vdrSlice|
        invariant 0 <= i <= |vdrSlice|
        invariant lines == Lines(vdrSlice[..i], encode)
      {
        LinesPrefix(vdrSlice, i, encode);
        lines := lines + Line(i, vdrSlice[i], encode);
        i := i + 1;
      }
      assert vdrSlice[..i] == vdrSlice;
      s := Header(|vdrSlice|) + lines;
    }
  }
}
