/** The behaviour the validator-set test suite pins down, stated for every
    outcome of the random source. Each scenario builds a fresh set with the
    class's own methods and promises, in its postcondition, what the
    corresponding test asserts. Where a test asserts an outcome that holds
    only with overwhelming probability (a weight-1 member is not drawn
    against one of weight 2^63 - 2), the scenario takes the drawn units as
    parameters and states exactly which draws give that outcome. */
module SetScenarios {
  import opened Ids
  import opened Results
  import opened Validators
  import opened Sampling
  import opened Rendering
  import opened ValidatorSets

  /** A validator `GenerateRandomValidator(1)` may return. */
  function Light(id: ShortID): Validator { Validator(id, 1) }

  /** A validator `GenerateRandomValidator(MaxInt64 - 1)` may return. */
  function Heavy(id: ShortID): Validator { Validator(id, MaxInt64 - 1) }

  /** Adding a fresh ID with positive weight appends it, unless the total
      would leave the uint64 range. */
  lemma AddFresh(vs: seq<Validator>, v: Validator)
    requires WellFormed(vs) && v.id !in IdsOf(vs) && v.weight > 0
    requires SumWeights(vs) + v.weight <= MaxUint64
    ensures AddResult(vs, v) == Success(vs + [v])
    ensures WellFormed(vs + [v]) && IdsOf(vs + [v]) == IdsOf(vs) + {v.id}
  {
    UpsertFresh(vs, v);
    UpsertWellFormed(vs, v);
    IdsOfSnoc(vs, v);
  }

  /** Facts about a one- and a two-member sequence. */
  lemma PairFacts(a: Validator, b: Validator)
    requires a.id != b.id
    ensures [] + [a] == [a] && [a] + [b] == [a, b]
    ensures IdsOf([]) == {} && b.id !in IdsOf([a])
    ensures SumWeights([a]) == a.weight && SumWeights([a, b]) == a.weight + b.weight
  {
    assert [a, b][..1] == [a] && [a][..0] == [];
  }

  /** `Add` of a validator whose ID is fresh, with positive weight and a
      total that stays in range: it succeeds and appends. */
  method Join(s: ValidatorSet, v: Validator) returns (err: Option<SetError>)
    requires s.Valid() && v.id !in IdsOf(s.vdrSlice) && v.weight > 0
    requires SumWeights(s.vdrSlice) + v.weight <= MaxUint64
    modifies s
    ensures s.Valid() && err == None && s.vdrSlice == old(s.vdrSlice) + [v]
  {
    AddFresh(s.vdrSlice, v);
    err := s.Add(v);
  }

  /** A sample of one from a single weight-1 member. */
  lemma SampleOfOne(a: Validator)
    requires a.weight == 1
    ensures SumWeights([a]) == 1 && ValidDraws([0], 1, 1) && Picked([a], [0]) == [a]
  {
    assert [a][..0] == [];
    PickedSingle([a], [0]);
    assert seq(1, _ => a) == [a];
  }

  /** Two members, a weight-1 one first: unit 0 belongs to the first and
      every other unit to the second. */
  lemma TwoOwners(a: Validator, b: Validator, u: nat)
    requires a.weight == 1 && u < 1 + b.weight
    ensures SumWeights([a, b]) == 1 + b.weight
    ensures OwnerIndex([a, b], u) == if u == 0 then 0 else 1
  {
    var vs := [a, b];
    assert vs[..0] == [] && vs[..1] == [a] && vs[..2] == vs;
    assert [a][..0] == [];
    if u == 0 {
      OwnerUnique(vs, u, 0);
    } else {
      OwnerUnique(vs, u, 1);
    }
  }

  /** A sample from a weight-1 member followed by another member: each draw
      of unit 0 yields the first member and every other draw the second, so
      distinct draws yield the first member at most once. */
  lemma SampleOfTwo(a: Validator, b: Validator, draws: seq<nat>)
    requires a.weight == 1 && a.id != b.id
    requires InRange(draws, 1 + b.weight) && DistinctDraws(draws)
    ensures SumWeights([a, b]) == 1 + b.weight
    ensures forall j :: 0 <= j < |draws| ==>
              Picked([a, b], draws)[j] == if draws[j] == 0 then a else b
    ensures Count(Picked([a, b], draws), a) <= 1
  {
    TwoOwners(a, b, 0);
    forall j | 0 <= j < |draws|
      ensures Picked([a, b], draws)[j] == if draws[j] == 0 then a else b
    {
      TwoOwners(a, b, draws[j]);
    }
    PickedAtMostWeight([a, b], draws, 0);
  }

  /** A sample of one unit from the same two members. */
  lemma SampleOfTwoSingle(a: Validator, b: Validator, u: nat)
    requires a.weight == 1 && a.id != b.id && u < 1 + b.weight
    ensures SumWeights([a, b]) == 1 + b.weight && ValidDraws([u], 1, 1 + b.weight)
    ensures Picked([a, b], [u]) == [if u == 0 then a else b]
  {
    SampleOfTwo(a, b, [u]);
  }

  /** TestSamplerContains: a member added with `Add` is contained until it is
      removed with `Remove`, which succeeds. */
  method ContainsScenario(id: ShortID) returns (before: bool, err: Option<SetError>, after: bool)
    ensures before && err == None && !after
  {
    var s := new ValidatorSet.NewSet();
    var e := Join(s, Light(id));
    assert s.vdrSlice[0].id == id;
    before := s.Contains(id);
    err := s.Remove(id);
    after := s.Contains(id);
  }

  /** TestSetWeight: the weight of a set is the sum of its members' weights. */
  method WeightScenario() returns (w: uint64)
    ensures w == 93 + 123
  {
    var s := new ValidatorSet.NewSet();
    var v0 := Validator(ShortIDWithFirstByte(1), 93);
    var v1 := Validator(ShortIDWithFirstByte(2), 123);
    assert v0.id[0] != v1.id[0];
    PairFacts(v0, v1);
    var e0 := Join(s, v0);
    var e1 := Join(s, v1);
    w := s.Weight();
  }

  /** The total weight and the positive-weight entries of a three-entry
      list whose last entry has weight 0. */
  lemma TripleSums(a: Validator, b: Validator, c: Validator)
    requires a.weight > 0 && b.weight > 0 && c.weight == 0
    ensures SumWeights([a, b, c]) == a.weight + b.weight
    ensures PositiveOnly([a, b, c]) == [a, b]
  {
    assert [a, b, c][..2] == [a, b] && [a, b][..1] == [a] && [a][..0] == [];
    assert SumWeights([a]) == a.weight && PositiveOnly([a]) == [a];
    assert SumWeights([a, b]) == a.weight + b.weight && PositiveOnly([a, b]) == [a, b];
  }

  /** The list of TestSetSet replaces the membership by its two
      positive-weight entries. */
  lemma SetDropsZero()
    ensures var v0, v1 := Light(ShortEmpty), Heavy(ShortIDWithFirstByte(0xFF));
            SetResult([v0, v1, Validator(ShortIDWithFirstByte(0xAA), 0)]) == Success([v0, v1])
  {
    var v0, v1 := Light(ShortEmpty), Heavy(ShortIDWithFirstByte(0xFF));
    var v2 := Validator(ShortIDWithFirstByte(0xAA), 0);
    assert v0.id[0] != v1.id[0];
    TripleSums(v0, v1, v2);
    assert DistinctIds([v0, v1]);
    SetKeepsPositive([v0, v1, v2]);
  }

  /** TestSetSet: replacing the membership with a list in which one entry has
      weight 0 keeps the other two; a sample of one unit yields the heavy
      member for every draw except unit 0. */
  method SetScenario(draw: nat) returns (err: Option<SetError>, length: nat, has0: bool,
                                         has1: bool, sampled: Result<seq<Validator>, SetError>)
    requires draw < MaxInt64
    ensures err == None && length == 2 && has0 && has1
    ensures sampled == Success(if draw == 0 then [Light(ShortEmpty)] else [Heavy(ShortIDWithFirstByte(0xFF))])
  {
    var v0, v1 := Light(ShortEmpty), Heavy(ShortIDWithFirstByte(0xFF));
    var list := [v0, v1, Validator(ShortIDWithFirstByte(0xAA), 0)];
    SetDropsZero();
    var s := new ValidatorSet.NewSet();
    err := s.Set(list);
    length := s.Len();
    assert s.vdrSlice[0].id == v0.id && s.vdrSlice[1].id == v1.id;
    has0 := s.Contains(v0.id);
    has1 := s.Contains(v1.id);
    assert s.vdrSlice == [v0, v1];
    SampleOfTwoSingle(v0, v1, draw);
    sampled := s.Sample(1, [draw]);
  }

  /** TestSamplerSample: with one weight-1 member a sample of one yields it and
      a sample of two fails; after a heavy member joins, a sample of one yields
      the heavy member unless unit 0 is drawn, and in samples of two and of
      three distinct units the light member appears at most once; every
      position not drawn at unit 0 holds the heavy member. */
  method SampleScenario(id0: ShortID, id1: ShortID, one: nat, two: seq<nat>, three: seq<nat>)
    returns (r1: Result<seq<Validator>, SetError>, r2: Result<seq<Validator>, SetError>,
             s1: Result<seq<Validator>, SetError>, s2: Result<seq<Validator>, SetError>,
             s3: Result<seq<Validator>, SetError>)
    requires id0 != id1
    requires one < MaxInt64 && ValidDraws(two, 2, MaxInt64) && ValidDraws(three, 3, MaxInt64)
    ensures r1 == Success([Light(id0)])
    ensures r2 == Failure(InsufficientWeight)
    ensures s1 == Success(if one == 0 then [Light(id0)] else [Heavy(id1)])
    ensures s2.Success? && |s2.value| == 2 && Count(s2.value, Light(id0)) <= 1
    ensures forall j :: 0 <= j < 2 ==> (s2.value[j] == Heavy(id1) <==> two[j] != 0)
    ensures s3.Success? && |s3.value| == 3 && Count(s3.value, Light(id0)) <= 1
    ensures forall j :: 0 <= j < 3 ==> (s3.value[j] == Heavy(id1) <==> three[j] != 0)
  {
    var v0, v1 := Light(id0), Heavy(id1);
    var s := new ValidatorSet.NewSet();
    PairFacts(v0, v1);
    var e0 := Join(s, v0);
    SampleOfOne(v0);
    r1 := s.Sample(1, [0]);
    r2 := s.Sample(2, []);
    var e1 := Join(s, v1);
    SampleOfTwoSingle(v0, v1, one);
    s1 := s.Sample(1, [one]);
    SampleOfTwo(v0, v1, two);
    s2 := s.Sample(2, two);
    SampleOfTwo(v0, v1, three);
    s3 := s.Sample(3, three);
  }

  /** Re-adding the second of two members with weight 0 leaves the first. */
  lemma ZeroWeightDropsLast(a: Validator, b: Validator)
    requires a.weight == 1 && a.id != b.id
    ensures AddResult([a, b], Validator(b.id, 0)) == Success([a])
    ensures SumWeights([a]) == 1
  {
    assert [a, b][..1] == [a] && [a][..0] == [];
    assert b.id !in IdsOf([a]);
    WithoutIDFresh([a], b.id);
    assert WithoutID([a, b], b.id) == [a];
    var z := Validator(b.id, 0);
    assert z.weight == 0;
    assert Upsert([a, b], z) == WithoutID([a, b], z.id);
    assert Upsert([a, b], z) == [a];
    assert SumWeights([a]) == 1;
    assert AddResult([a, b], z) == Success(Upsert([a, b], z));
  }

  /** TestSamplerDuplicate: re-adding a member's ID with weight 0 removes it,
      so afterwards every sample of one yields the remaining member. */
  method DuplicateScenario(id0: ShortID, id1: ShortID, one: nat)
    returns (before: Result<seq<Validator>, SetError>, err: Option<SetError>,
             after: Result<seq<Validator>, SetError>)
    requires id0 != id1 && one < MaxInt64
    ensures before == Success(if one == 0 then [Light(id0)] else [Heavy(id1)])
    ensures err == None && after == Success([Light(id0)])
  {
    var v0, v1 := Light(id0), Heavy(id1);
    var s := new ValidatorSet.NewSet();
    PairFacts(v0, v1);
    var e0 := Join(s, v0);
    var e1 := Join(s, v1);
    SampleOfTwoSingle(v0, v1, one);
    before := s.Sample(1, [one]);
    ZeroWeightDropsLast(v0, v1);
    err := s.Add(Validator(id1, 0));
    SampleOfOne(v0);
    after := s.Sample(1, [0]);
  }

  /** The 20-byte ID whose bytes are all 0xFF. */
  const FullID: ShortID := seq(20, _ => 0xFF)

  /** `%d` of the heavy weight, digit by digit. */
  lemma HeavyWeightText()
    ensures NatToString(MaxInt64 - 1) == "9223372036854775806"
  {
    HeavyWeightPrefix();
    assert NatToString(92233720368547) == "92233720368547";
    assert NatToString(922337203685477) == "922337203685477";
    assert NatToString(9223372036854775) == "9223372036854775";
    assert NatToString(92233720368547758) == "92233720368547758";
    assert NatToString(922337203685477580) == "922337203685477580";
    assert NatToString(9223372036854775806) == "9223372036854775806";
  }

  lemma HeavyWeightPrefix()
    ensures NatToString(9223372036854) == "9223372036854"
  {
    HeavyWeightLead();
    assert NatToString(92233720) == "92233720";
    assert NatToString(922337203) == "922337203";
    assert NatToString(9223372036) == "9223372036";
    assert NatToString(92233720368) == "92233720368";
    assert NatToString(922337203685) == "922337203685";
    assert NatToString(9223372036854) == "9223372036854";
  }

  lemma HeavyWeightLead()
    ensures NatToString(9223372) == "9223372"
  {
    assert NatToString(92) == "92";
    assert NatToString(922) == "922";
    assert NatToString(9223) == "9223";
    assert NatToString(92233) == "92233";
    assert NatToString(922337) == "922337";
    assert NatToString(9223372) == "9223372";
  }

  /** The text TestSamplerString expects, line by line. */
  const ExpectedHeader: string := "Validator Set: (Size = " + "2" + ")"
  const ExpectedLine0: string :=
    "\n" + ("    Validator[" + "0" + "]: " + ("       " + "111111111111111111116DBWJs") + ", " + "1")
  const ExpectedLine1: string :=
    "\n" + ("    Validator[" + "1" + "]: " + "QLbz7JHiBTspS962RLKV8GndWFwdYhk6V" + ", " + "9223372036854775806")

  lemma HeaderTwo()
    ensures Header(2) == ExpectedHeader
  {
  }

  /** A member line assembled from the texts of its index, padded ID and
      weight. */
  lemma LineShape(i: nat, v: Validator, encode: ShortID -> string, index: string, id: string, weight: string)
    requires NatToString(i) == index && PadLeft(encode(v.id), IDColumnWidth) == id
    requires NatToString(v.weight) == weight
    ensures Line(i, v, encode) == "\n" + ("    Validator[" + index + "]: " + id + ", " + weight)
  {
  }

  lemma LineZero(encode: ShortID -> string)
    requires encode(ShortEmpty) == "111111111111111111116DBWJs"
    ensures Line(0, Light(ShortEmpty), encode) == ExpectedLine0
  {
    assert seq(7, _ => ' ') == "       ";
    LineShape(0, Light(ShortEmpty), encode, "0", "       " + "111111111111111111116DBWJs", "1");
  }

  lemma LineOne(encode: ShortID -> string)
    requires encode(FullID) == "QLbz7JHiBTspS962RLKV8GndWFwdYhk6V"
    ensures Line(1, Heavy(FullID), encode) == ExpectedLine1
  {
    HeavyWeightText();
    LineShape(1, Heavy(FullID), encode, "1", "QLbz7JHiBTspS962RLKV8GndWFwdYhk6V", "9223372036854775806");
  }

  /** The text of a two-member set: the header and the two member lines. */
  lemma RenderTwo(a: Validator, b: Validator, encode: ShortID -> string)
    ensures Render([a, b], encode) == Header(2) + (Line(0, a, encode) + Line(1, b, encode))
  {
    assert [a, b][..1] == [a];
    assert [a][..0] == [];
    assert Lines([a], encode) == "" + Line(0, a, encode);
    assert "" + Line(0, a, encode) == Line(0, a, encode);
  }

  /** TestSamplerString: the text of a set with the all-zero ID at weight 1
      and the all-0xFF ID at weight 2^63 - 2, given the CB58 texts of those
      two IDs. */
  method StringScenario(encode: ShortID -> string) returns (text: string)
    requires encode(ShortEmpty) == "111111111111111111116DBWJs"
    requires encode(FullID) == "QLbz7JHiBTspS962RLKV8GndWFwdYhk6V"
    ensures text == ExpectedHeader + (ExpectedLine0 + ExpectedLine1)
  {
    var v0, v1 := Light(ShortEmpty), Heavy(FullID);
    var s := new ValidatorSet.NewSet();
    assert v0.id[0] != v1.id[0];
    PairFacts(v0, v1);
    var e0 := Join(s, v0);
    var e1 := Join(s, v1);
    text := s.String(encode);
    RenderTwo(v0, v1, encode);
    HeaderTwo();
    LineZero(encode);
    LineOne(encode);
  }
}
