/** The stake-weighted membership table of `snow/validators`, as values.

    A set's contents are a sequence of validators in index order (the order
    in which `String` lists them and in which weight ranges are laid out for
    sampling). The functions here say what `Add`, `Remove` and `Set` do to
    that sequence; the class `ValidatorSets.ValidatorSet` is proved against
    them. */
module Validators {
  import opened Ids
  import opened Results

  /** A validator: an ID and a stake weight. */
  datatype Validator = Validator(id: ShortID, weight: uint64)

  /** The errors a set operation can report. */
  datatype SetError =
    | Overflow            // the total weight would not fit in a uint64
    | UnknownID           // Remove of an ID that is not a member
    | InsufficientWeight  // Sample(k) with k greater than the total weight

  /** The IDs of the members of `vs`. */
  function IdsOf(vs: seq<Validator>): set<ShortID>
  {
    set i | 0 <= i < |vs| :: vs[i].id
  }

  /** No two members share an ID. */
  predicate DistinctIds(vs: seq<Validator>)
  {
    forall i, j :: 0 <= i < j < |vs| ==> vs[i].id != vs[j].id
  }

  /** No member has weight zero. */
  predicate PositiveWeights(vs: seq<Validator>)
  {
    forall i :: 0 <= i < |vs| ==> vs[i].weight > 0
  }

  /** The invariant of a validator set's contents. */
  predicate WellFormed(vs: seq<Validator>)
  {
    DistinctIds(vs) && PositiveWeights(vs)
  }

  /** The sum of the members' weights (unbounded). */
  function SumWeights(vs: seq<Validator>): nat
  {
    if vs == [] then 0 else SumWeights(vs[..|vs| - 1]) + vs[|vs| - 1].weight
  }

  /** The weight recorded for `id`, or 0 when `id` is not a member. */
  function WeightOf(vs: seq<Validator>, id: ShortID): uint64
  {
    if vs == [] then 0
    else if vs[|vs| - 1].id == id then vs[|vs| - 1].weight
    else WeightOf(vs[..|vs| - 1], id)
  }

  /** The ID-to-weight table that a set keeps beside its member sequence. */
  function WeightMap(vs: seq<Validator>): map<ShortID, uint64>
  {
    map id | id in IdsOf(vs) :: WeightOf(vs, id)
  }

  /** `vs` with the member whose ID is `id` taken out; the others keep their order. */
  function WithoutID(vs: seq<Validator>, id: ShortID): (r: seq<Validator>)
    ensures IdsOf(r) == IdsOf(vs) - {id}
    ensures |r| <= |vs|
    ensures forall i :: 0 <= i < |r| ==> r[i] in vs && r[i].id != id
  {
    if vs == [] then []
    else
      var init, last := vs[..|vs| - 1], vs[|vs| - 1];
      var rest := WithoutID(init, id);
      assert vs == init + [last];
      IdsOfSnoc(init, last);
      if last.id == id then rest
      else
        IdsOfSnoc(rest, last);
        rest + [last]
  }

  /** `Add(v)`: replace any member with `v`'s ID by `v`, which goes last;
      a weight-0 `v` is not admitted, so adding it only removes the ID. */
  function Upsert(vs: seq<Validator>, v: Validator): (r: seq<Validator>)
    ensures IdsOf(r) == (IdsOf(vs) - {v.id}) + (if v.weight > 0 then {v.id} else {})
    ensures v.weight > 0 ==> r[|r| - 1] == v
  {
    var rest := WithoutID(vs, v.id);
    if v.weight > 0 then
      IdsOfSnoc(rest, v);
      rest + [v]
    else
      rest
  }

  /** The outcome of `Add(v)`: the new contents, or `Overflow` when their
      total weight would not fit in a uint64. */
  function AddResult(vs: seq<Validator>, v: Validator): (r: Result<seq<Validator>, SetError>)
    ensures r.Failure? ==> r.error == Overflow
    ensures DistinctIds(vs) ==>
              (r.Success? <==> SumWeights(vs) - WeightOf(vs, v.id) + v.weight <= MaxUint64)
    ensures r.Success? ==>
              IdsOf(r.value) == (IdsOf(vs) - {v.id}) + (if v.weight > 0 then {v.id} else {})
  {
    var next := Upsert(vs, v);
    assert DistinctIds(vs) ==> SumWeights(next) == SumWeights(vs) - WeightOf(vs, v.id) + v.weight by {
      if DistinctIds(vs) {
        UpsertWeight(vs, v);
      }
    }
    if SumWeights(next) > MaxUint64 then Failure(Overflow) else Success(next)
  }

  /** The outcome of `Remove(id)`. */
  function RemoveResult(vs: seq<Validator>, id: ShortID): (r: Result<seq<Validator>, SetError>)
    ensures r.Success? <==> id in IdsOf(vs)
    ensures r.Failure? ==> r.error == UnknownID
    ensures r.Success? ==> IdsOf(r.value) == IdsOf(vs) - {id}
    ensures r.Success? && DistinctIds(vs) ==>
              SumWeights(r.value) + WeightOf(vs, id) == SumWeights(vs)
  {
    if id in IdsOf(vs) then
      assert DistinctIds(vs) ==> SumWeights(WithoutID(vs, id)) + WeightOf(vs, id) == SumWeights(vs) by {
        if DistinctIds(vs) {
          SumWithoutID(vs, id);
        }
      }
      Success(WithoutID(vs, id))
    else Failure(UnknownID)
  }

  /** Adding the validators of `list` one after another, starting from `vs`,
      stopping at the first error. */
  function Replay(vs: seq<Validator>, list: seq<Validator>): Result<seq<Validator>, SetError>
    decreases |list|
  {
    if list == [] then Success(vs)
    else
      match AddResult(vs, list[0])
      case Failure(e) => Failure(e)
      case Success(next) => Replay(next, list[1..])
  }

  /** The outcome of the bulk replace `Set(list)`: the weight-0 entries of
      `list` are discarded, and the others are added one after another to an
      empty set. */
  function SetResult(list: seq<Validator>): (r: Result<seq<Validator>, SetError>)
    ensures r.Failure? ==> r.error == Overflow
    ensures r.Success? ==> WellFormed(r.value) && SumWeights(r.value) <= MaxUint64
    ensures r.Success? ==> IdsOf(r.value) <= IdsOf(list)
  {
    var admitted := PositiveOnly(list);
    ReplayWellFormed([], admitted);
    ReplayOutcome([], admitted);
    PositiveOnlyIds(list);
    Replay([], admitted)
  }

  /** The entries of `list` with positive weight, in order. */
  function PositiveOnly(list: seq<Validator>): (r: seq<Validator>)
    ensures PositiveWeights(r)
    ensures forall i :: 0 <= i < |r| ==> r[i] in list
  {
    if list == [] then []
    else
      var rest := PositiveOnly(list[..|list| - 1]);
      var last := list[|list| - 1];
      if last.weight > 0 then rest + [last] else rest
  }

  // ---------------------------------------------------------------------
  // Facts about the contents
  // ---------------------------------------------------------------------

  lemma IdsOfSnoc(vs: seq<Validator>, v: Validator)
    ensures IdsOf(vs + [v]) == IdsOf(vs) + {v.id}
  {
    var w := vs + [v];
    assert w[..|vs|] == vs;
    assert w[|vs|] == v;
    forall id | id in IdsOf(vs) ensures id in IdsOf(w) {
      var i :| 0 <= i < |vs| && vs[i].id == id;
      assert w[i].id == id;
    }
  }

  lemma {:induction false} DistinctSnoc(vs: seq<Validator>, v: Validator)
    ensures DistinctIds(vs + [v]) <==> DistinctIds(vs) && v.id !in IdsOf(vs)
  {
    var w := vs + [v];
    if DistinctIds(w) {
      forall i, j | 0 <= i < j < |vs| ensures vs[i].id != vs[j].id {
        assert w[i] == vs[i] && w[j] == vs[j];
      }
      forall i | 0 <= i < |vs| ensures vs[i].id != v.id {
        assert w[i] == vs[i] && w[|vs|] == v;
      }
    }
  }

  /** Taking an ID out keeps the remaining IDs distinct. */
  lemma {:induction false} WithoutIDDistinct(vs: seq<Validator>, id: ShortID)
    requires DistinctIds(vs)
    ensures DistinctIds(WithoutID(vs, id))
  {
    if vs != [] {
      var init, last := vs[..|vs| - 1], vs[|vs| - 1];
      assert vs == init + [last];
      DistinctSnoc(init, last);
      WithoutIDDistinct(init, id);
      if last.id != id {
        DistinctSnoc(WithoutID(init, id), last);
      }
    }
  }

  lemma {:induction false} WithoutIDPositive(vs: seq<Validator>, id: ShortID)
    requires PositiveWeights(vs)
    ensures PositiveWeights(WithoutID(vs, id))
  {
    var r := WithoutID(vs, id);
    forall i | 0 <= i < |r| ensures r[i].weight > 0 {
      var j :| 0 <= j < |vs| && vs[j] == r[i];
    }
  }

  /** `Add` keeps the set well formed: IDs stay distinct, weights positive. */
  lemma UpsertWellFormed(vs: seq<Validator>, v: Validator)
    requires WellFormed(vs)
    ensures WellFormed(Upsert(vs, v))
  {
    WithoutIDDistinct(vs, v.id);
    WithoutIDPositive(vs, v.id);
    if v.weight > 0 {
      DistinctSnoc(WithoutID(vs, v.id), v);
    } else {
      assert Upsert(vs, v) == WithoutID(vs, v.id);
    }
  }

  lemma {:induction false} SumSnoc(vs: seq<Validator>, v: Validator)
    ensures SumWeights(vs + [v]) == SumWeights(vs) + v.weight
  {
    assert (vs + [v])[..|vs|] == vs;
  }

  lemma {:induction false} WeightOfAbsent(vs: seq<Validator>, id: ShortID)
    requires id !in IdsOf(vs)
    ensures WeightOf(vs, id) == 0
  {
    if vs != [] {
      var init := vs[..|vs| - 1];
      assert IdsOf(init) <= IdsOf(vs);
      WeightOfAbsent(init, id);
    }
  }

  /** Removing the member with ID `id` lowers the total weight by exactly
      that member's weight (by nothing when `id` is absent). */
  lemma {:induction false} SumWithoutID(vs: seq<Validator>, id: ShortID)
    requires DistinctIds(vs)
    ensures SumWeights(WithoutID(vs, id)) + WeightOf(vs, id) == SumWeights(vs)
  {
    if vs != [] {
      var init, last := vs[..|vs| - 1], vs[|vs| - 1];
      assert vs == init + [last];
      DistinctSnoc(init, last);
      SumWithoutID(init, id);
      if last.id == id {
        WeightOfAbsent(init, id);
      } else {
        SumSnoc(WithoutID(init, id), last);
      }
    }
  }

  /** The total weight after `Add(v)`: the old total, less the weight the ID
      had (0 if it was absent), plus `v`'s weight. */
  lemma UpsertWeight(vs: seq<Validator>, v: Validator)
    requires DistinctIds(vs)
    ensures SumWeights(Upsert(vs, v)) == SumWeights(vs) - WeightOf(vs, v.id) + v.weight
  {
    SumWithoutID(vs, v.id);
    if v.weight > 0 {
      SumSnoc(WithoutID(vs, v.id), v);
    } else {
      assert Upsert(vs, v) == WithoutID(vs, v.id);
    }
  }

  lemma {:induction false} WeightOfMember(vs: seq<Validator>, i: nat)
    requires DistinctIds(vs) && i < |vs|
    ensures WeightOf(vs, vs[i].id) == vs[i].weight
  {
    var init, last := vs[..|vs| - 1], vs[|vs| - 1];
    if i < |vs| - 1 {
      assert init[i] == vs[i];
      WeightOfMember(init, i);
    }
  }

  lemma {:induction false} WeightOfWithoutID(vs: seq<Validator>, id: ShortID, other: ShortID)
    requires other != id
    ensures WeightOf(WithoutID(vs, id), other) == WeightOf(vs, other)
  {
    if vs != [] {
      var init, last := vs[..|vs| - 1], vs[|vs| - 1];
      WeightOfWithoutID(init, id, other);
      if last.id != id {
        var rest := WithoutID(init, id);
        assert (rest + [last])[..|rest|] == rest;
      }
    }
  }

  /** The ID-to-weight table follows `Add`: the ID is dropped, then set to
      the new weight when that is positive. */
  lemma WeightMapUpsert(vs: seq<Validator>, v: Validator)
    ensures WeightMap(Upsert(vs, v))
         == if v.weight > 0 then WeightMap(vs)[v.id := v.weight] else WeightMap(vs) - {v.id}
  {
    var rest := WithoutID(vs, v.id);
    var next := Upsert(vs, v);
    forall id | id in IdsOf(next) && id != v.id
      ensures WeightOf(next, id) == WeightOf(vs, id)
    {
      WeightOfWithoutID(vs, v.id, id);
      if v.weight > 0 {
        assert (rest + [v])[..|rest|] == rest;
      } else {
        assert next == rest;
      }
    }
    if v.weight > 0 {
      assert next[|next| - 1] == v;
    }
  }

  /** The ID-to-weight table follows `Remove`. */
  lemma WeightMapWithoutID(vs: seq<Validator>, id: ShortID)
    ensures WeightMap(WithoutID(vs, id)) == WeightMap(vs) - {id}
  {
    forall other | other in IdsOf(WithoutID(vs, id))
      ensures WeightOf(WithoutID(vs, id), other) == WeightOf(vs, other)
    {
      WeightOfWithoutID(vs, id, other);
    }
  }

  /** With distinct IDs, the number of members is the number of IDs. */
  lemma {:induction false} DistinctIdsCount(vs: seq<Validator>)
    requires DistinctIds(vs)
    ensures |IdsOf(vs)| == |vs|
  {
    if vs != [] {
      var init, last := vs[..|vs| - 1], vs[|vs| - 1];
      assert vs == init + [last];
      DistinctSnoc(init, last);
      IdsOfSnoc(init, last);
      DistinctIdsCount(init);
    }
  }

  /** Adding a weight-0 validator never raises the member count or the total
      weight, and never fails. */
  lemma AddZeroWeight(vs: seq<Validator>, id: ShortID)
    requires WellFormed(vs) && SumWeights(vs) <= MaxUint64
    ensures AddResult(vs, Validator(id, 0)).Success?
    ensures var next := AddResult(vs, Validator(id, 0)).value;
            id !in IdsOf(next) && |next| <= |vs| && SumWeights(next) <= SumWeights(vs)
  {
    UpsertWeight(vs, Validator(id, 0));
  }

  /** `Remove(id)` succeeds exactly when `id` is a member; afterwards `id` is
      no longer a member and the total weight has dropped by its weight. */
  lemma RemoveSpec(vs: seq<Validator>, id: ShortID)
    requires WellFormed(vs)
    ensures RemoveResult(vs, id).Success? <==> id in IdsOf(vs)
    ensures RemoveResult(vs, id).Success? ==>
              var next := RemoveResult(vs, id).value;
              WellFormed(next) && id !in IdsOf(next) &&
              SumWeights(next) + WeightOf(vs, id) == SumWeights(vs) &&
              |next| + 1 == |vs|
  {
    if id in IdsOf(vs) {
      var next := WithoutID(vs, id);
      WithoutIDDistinct(vs, id);
      WithoutIDPositive(vs, id);
      SumWithoutID(vs, id);
      DistinctIdsCount(vs);
      DistinctIdsCount(next);
      assert IdsOf(next) + {id} == IdsOf(vs);
    }
  }

  /** Replaying `Add` over a well-formed start keeps it well formed. */
  lemma {:induction false} ReplayWellFormed(vs: seq<Validator>, list: seq<Validator>)
    requires WellFormed(vs)
    ensures Replay(vs, list).Success? ==> WellFormed(Replay(vs, list).value)
    decreases |list|
  {
    if list != [] {
      UpsertWellFormed(vs, list[0]);
      if AddResult(vs, list[0]).Success? {
        ReplayWellFormed(AddResult(vs, list[0]).value, list[1..]);
      }
    }
  }

  /** The IDs of a non-empty list: its first entry's and those of the rest. */
  lemma IdsOfFront(list: seq<Validator>)
    requires list != []
    ensures IdsOf(list) == {list[0].id} + IdsOf(list[1..])
  {
    var tail := list[1..];
    forall id | id in IdsOf(list) ensures id in {list[0].id} + IdsOf(tail) {
      var i :| 0 <= i < |list| && list[i].id == id;
      if i > 0 {
        assert tail[i - 1] == list[i];
      }
    }
    forall id | id in IdsOf(tail) ensures id in IdsOf(list) {
      var i :| 0 <= i < |tail| && tail[i].id == id;
      assert list[i + 1] == tail[i];
    }
  }

  /** Replaying `Add` from contents within the uint64 range fails only with
      `Overflow`, ends within that range, and admits only IDs it started
      with or was given. */
  lemma {:induction false} ReplayOutcome(vs: seq<Validator>, list: seq<Validator>)
    requires SumWeights(vs) <= MaxUint64
    ensures Replay(vs, list).Failure? ==> Replay(vs, list).error == Overflow
    ensures Replay(vs, list).Success? ==>
              SumWeights(Replay(vs, list).value) <= MaxUint64 &&
              IdsOf(Replay(vs, list).value) <= IdsOf(vs) + IdsOf(list)
    decreases |list|
  {
    if list != [] {
      var v, tail := list[0], list[1..];
      if AddResult(vs, v).Success? {
        var next := AddResult(vs, v).value;
        ReplayOutcome(next, tail);
        IdsOfFront(list);
      }
    }
  }

  /** Dropping weight-0 entries does not change the total weight. */
  lemma {:induction false} PositiveOnlySum(list: seq<Validator>)
    ensures SumWeights(PositiveOnly(list)) == SumWeights(list)
  {
    if list != [] {
      var init, last := list[..|list| - 1], list[|list| - 1];
      PositiveOnlySum(init);
      if last.weight > 0 {
        SumSnoc(PositiveOnly(init), last);
      }
    }
  }

  lemma {:induction false} SumPrepend(v: Validator, list: seq<Validator>)
    ensures SumWeights([v] + list) == v.weight + SumWeights(list)
    decreases |list|
  {
    if list != [] {
      var init, last := list[..|list| - 1], list[|list| - 1];
      assert [v] + list == ([v] + init) + [last];
      SumPrepend(v, init);
    }
  }

  lemma {:induction false} PositiveOnlyPrepend(v: Validator, list: seq<Validator>)
    ensures PositiveOnly([v] + list) == (if v.weight > 0 then [v] else []) + PositiveOnly(list)
    decreases |list|
  {
    if list != [] {
      var init, last := list[..|list| - 1], list[|list| - 1];
      assert [v] + list == ([v] + init) + [last];
      assert ([v] + list)[..|list|] == [v] + init;
      PositiveOnlyPrepend(v, init);
    } else {
      assert ([v] + list)[..0] == [];
    }
  }

  /** What the tail of a list of distinct IDs inherits from it. */
  lemma TailDistinct(list: seq<Validator>)
    requires list != [] && DistinctIds(list)
    ensures DistinctIds(list[1..])
    ensures list[0].id !in IdsOf(list[1..])
    ensures IdsOf(list[1..]) <= IdsOf(list)
  {
    var tail := list[1..];
    forall i, j | 0 <= i < j < |tail| ensures tail[i].id != tail[j].id {
      assert tail[i] == list[i + 1] && tail[j] == list[j + 1];
    }
    forall i | 0 <= i < |tail| ensures tail[i].id != list[0].id && tail[i].id in IdsOf(list) {
      assert tail[i] == list[i + 1];
    }
  }


  /** Adding a validator whose ID is not yet a member appends it (when its
      weight is positive) and adds its weight to the total. */
  lemma UpsertFresh(vs: seq<Validator>, v: Validator)
    requires v.id !in IdsOf(vs)
    ensures Upsert(vs, v) == vs + (if v.weight > 0 then [v] else [])
    ensures SumWeights(Upsert(vs, v)) == SumWeights(vs) + v.weight
  {
    WithoutIDFresh(vs, v.id);
    if v.weight > 0 {
      SumSnoc(vs, v);
    } else {
      assert Upsert(vs, v) == vs;
    }
  }

  /** Adding a fresh validator and then appending `rest` is appending the
      validator's admitted part followed by `rest`. */
  lemma UpsertFreshThen(vs: seq<Validator>, v: Validator, rest: seq<Validator>)
    requires v.id !in IdsOf(vs)
    ensures Upsert(vs, v) + rest == vs + ((if v.weight > 0 then [v] else []) + rest)
  {
    WithoutIDFresh(vs, v.id);
    var head := if v.weight > 0 then [v] else [];
    assert (vs + head) + rest == vs + (head + rest);
  }

  lemma ListFront(list: seq<Validator>)
    requires list != []
    ensures SumWeights(list) == list[0].weight + SumWeights(list[1..])
    ensures PositiveOnly(list)
         == (if list[0].weight > 0 then [list[0]] else []) + PositiveOnly(list[1..])
  {
    assert list == [list[0]] + list[1..];
    SumPrepend(list[0], list[1..]);
    PositiveOnlyPrepend(list[0], list[1..]);
  }

  /** Replaying a list of fresh, pairwise-distinct IDs appends exactly its
      positive-weight entries, and fails with `Overflow` exactly when the
      total weight exceeds the uint64 range. */
  lemma {:induction false} ReplayFresh(vs: seq<Validator>, list: seq<Validator>)
    requires WellFormed(vs) && DistinctIds(list) && IdsOf(vs) !! IdsOf(list)
    requires SumWeights(vs) <= MaxUint64
    ensures Replay(vs, list)
         == if SumWeights(vs) + SumWeights(list) <= MaxUint64
            then Success(vs + PositiveOnly(list))
            else Failure(Overflow)
    decreases |list|
  {
    if list == [] {
      assert vs + [] == vs;
    } else {
      var v, tail := list[0], list[1..];
      assert v.id in IdsOf(list);
      UpsertFresh(vs, v);
      UpsertFreshThen(vs, v, PositiveOnly(tail));
      ListFront(list);
      var next := Upsert(vs, v);
      if SumWeights(next) <= MaxUint64 {
        UpsertWellFormed(vs, v);
        TailDistinct(list);
        ReplayFresh(next, tail);
      }
    }
  }

  /** Taking out an ID that is not a member changes nothing. */
  lemma {:induction false} WithoutIDFresh(vs: seq<Validator>, id: ShortID)
    requires id !in IdsOf(vs)
    ensures WithoutID(vs, id) == vs
  {
    if vs != [] {
      var init, last := vs[..|vs| - 1], vs[|vs| - 1];
      assert IdsOf(init) <= IdsOf(vs);
      WithoutIDFresh(init, id);
      assert vs == init + [last];
    }
  }

  /** `Set(list)` keeps exactly the positive-weight entries of `list`, in
      order, with their total weight, and fails only on overflow, whenever
      those entries have distinct IDs (weight-0 entries may repeat any ID). */
  lemma SetKeepsPositive(list: seq<Validator>)
    requires DistinctIds(PositiveOnly(list))
    ensures SetResult(list)
         == if SumWeights(list) <= MaxUint64 then Success(PositiveOnly(list)) else Failure(Overflow)
    ensures SetResult(list).Success? ==>
              WellFormed(SetResult(list).value) &&
              SumWeights(SetResult(list).value) == SumWeights(list)
  {
    var admitted := PositiveOnly(list);
    assert [] + admitted == admitted;
    PositiveOnlyOfPositive(admitted);
    PositiveOnlySum(list);
    ReplayFresh([], admitted);
  }

  /** Filtering distributes over concatenation. */
  lemma {:induction false} PositiveOnlyAppend(a: seq<Validator>, b: seq<Validator>)
    ensures PositiveOnly(a + b) == PositiveOnly(a) + PositiveOnly(b)
    decreases |b|
  {
    if b == [] {
      assert a + b == a;
    } else {
      var init, last := b[..|b| - 1], b[|b| - 1];
      assert (a + b)[..|a + b| - 1] == a + init && (a + b)[|a + b| - 1] == last;
      PositiveOnlyAppend(a, init);
    }
  }

  /** A list without weight-0 entries is its own filtering. */
  lemma {:induction false} PositiveOnlyOfPositive(list: seq<Validator>)
    requires PositiveWeights(list)
    ensures PositiveOnly(list) == list
  {
    if list != [] {
      var init, last := list[..|list| - 1], list[|list| - 1];
      assert PositiveWeights(init) by {
        forall i | 0 <= i < |init| ensures init[i].weight > 0 {
          assert init[i] == list[i];
        }
      }
      PositiveOnlyOfPositive(init);
      assert last.weight > 0;
      assert list == init + [last];
    }
  }

  /** Filtering keeps only IDs of the list. */
  lemma PositiveOnlyIds(list: seq<Validator>)
    ensures IdsOf(PositiveOnly(list)) <= IdsOf(list)
  {
    var r := PositiveOnly(list);
    forall id | id in IdsOf(r) ensures id in IdsOf(list) {
      var i :| 0 <= i < |r| && r[i].id == id;
      var j :| 0 <= j < |list| && list[j] == r[i];
    }
  }

  /** A weight-0 entry, wherever it stands in the list and whatever ID it
      names, does not change the outcome of `Set`. */
  lemma SetIgnoresZero(front: seq<Validator>, z: Validator, back: seq<Validator>)
    requires z.weight == 0
    ensures SetResult(front + [z] + back) == SetResult(front + back)
  {
    PositiveOnlyAppend(front + [z], back);
    PositiveOnlyAppend(front, [z]);
    PositiveOnlyAppend(front, back);
    assert PositiveOnly([z]) == [] by { assert [z][..0] == []; }
    assert PositiveOnly(front) + [] == PositiveOnly(front);
  }
}
