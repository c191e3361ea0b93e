# Validator set and request timeouts of a stake-weighted consensus node

This project models two reliability primitives of the node in Dafny.

**The weighted validator set** (`snow/validators`) holds the current
validators and their stake weights. `Add` inserts a validator or replaces
the one with the same ID; adding a weight of 0 takes the ID out. `Remove`
deletes a member, and `Set` replaces the whole membership at once. The
queries are `Contains`, `Len` and `Weight` (the total stake). `Sample(k)`
draws `k` distinct weight units out of `[0, Weight())` and maps each unit
to the member whose weight range contains it. `String` renders the debug
text.

- The value-level meaning of the operations is in module `Validators`.
- The weight ranges and the sampling map are in `Sampling`.
- The debug text is in `Rendering`.
- Module `ValidatorSets` has the object: class `ValidatorSet`, with the
  member sequence, an ID-to-weight table and a running total. Each method
  is proved against those functions.
- Module `SetScenarios` replays the test suite of the set. Each test is one
  method whose postcondition is what the test asserts, for every outcome of
  the random source.

**The request timeout manager** (`snow/networking/timeout`) keys each
outstanding request by `createRequestID`:

- The preimage is the 20-byte validator ID, then the 32-byte chain ID, then
  the request ID packed as 4 big-endian bytes.
- SHA-256 of that preimage is the key.
- `Register` files a callback and a deadline under the key. `Cancel`
  removes whatever is filed there.
- `Initialize` configures the wrapped adaptive manager: a starting timeout
  of 1s, a floor of 500ms, a backoff factor of 2 and a granularity of 1ms.

Module `Timeout` proves the preimage layout, the round trip of the integer
packing, and that the preimage is injective. It follows that two different
requests share a key only through a SHA-256 collision. The module also
proves how registrations and cancellations act on the pending map.

Durations are nanoseconds, as Go's `time.Duration`. Integers are unbounded
in Dafny; the model bounds them with the subset types `byte`, `uint32` and
`uint64`. The total weight must stay within `uint64`. Going over is the
`Overflow` error, not wrap-around.

## Model

| member | source | states |
|---|---|---|
| ValidatorSets.ValidatorSet.NewSet | snow/validators/set_test.go:21 | a new set is empty and satisfies the set invariant (distinct IDs, positive weights, table and total in agreement) |
| ValidatorSets.ValidatorSet.Add | snow/validators/set_test.go:44-46 | keeps the invariant; on success the members are `AddResult` of the old members (the ID replaced, or removed for weight 0); on overflow it reports `Overflow` and changes nothing |
| ValidatorSets.ValidatorSet.Remove | snow/validators/set_test.go:114-118 | keeps the invariant; removes the member with that ID when there is one, else reports `UnknownID` and changes nothing |
| ValidatorSets.ValidatorSet.Set | snow/validators/set_test.go:21-23 | keeps the invariant; weight-0 entries are skipped and the new members are `SetResult(list)` (the positive-weight entries added one by one to an empty set); on error the old membership is restored, so no partial replace is ever visible |
| ValidatorSets.ValidatorSet.Contains | snow/validators/set_test.go:28-32 | true exactly when the ID is a member |
| ValidatorSets.ValidatorSet.Len | snow/validators/set_test.go:25-26 | the number of members, which equals the number of distinct member IDs |
| ValidatorSets.ValidatorSet.Weight | snow/validators/set_test.go:158-160 | the exact sum of the members' weights |
| ValidatorSets.ValidatorSet.Locate | snow/validators/set_test.go:34-37 | a scan over cumulative weights finds the member owning a unit, the one `OwnerIndex` defines |
| ValidatorSets.ValidatorSet.Sample | snow/validators/set_test.go:48-54 | fails with `InsufficientWeight` exactly when `k` exceeds the total weight; otherwise returns one validator per drawn unit, the owner of that unit |
| ValidatorSets.ValidatorSet.String | snow/validators/set_test.go:138-142 | the text is the header followed by one line per member in index order (`Render`) |
| Validators.Upsert | snow/validators/set_test.go:95-101 | after `Add(v)` the member IDs are the old ones without `v`'s, plus `v`'s when its weight is positive, and then `v` is the last member; every other ID keeps its membership |
| Validators.AddResult | snow/validators/set_test.go:44-46 | `Add` fails only with `Overflow`, exactly when the old total minus the replaced weight plus `v`'s weight leaves the uint64 range; on success the IDs change as `Upsert` says |
| Validators.RemoveResult | snow/validators/set_test.go:114-118 | `Remove` succeeds exactly when the ID is a member, else fails with `UnknownID`; on success the IDs are the old ones without it and the total drops by its weight |
| Validators.SetResult | snow/validators/set_test.go:21-23 | `Set` discards the weight-0 entries and adds the rest one by one; it fails only with `Overflow`; on success the members have distinct IDs and positive weights, a total within the uint64 range, and IDs all taken from the list |
| Validators.ReplayOutcome | snow/validators/set_test.go:21-23 | adding a list one by one from a start within range fails only with `Overflow`, ends within range and admits only IDs of the start or the list |
| Validators.WithoutID | snow/validators/set_test.go:114-118 | removing an ID leaves exactly the other IDs, drops no other member and adds none |
| Validators.PositiveOnly | snow/validators/set_test.go:18-19 | keeps only positive-weight entries, each taken from the list |
| Validators.UpsertWellFormed | snow/validators/set_test.go:87-96 | `Add` keeps IDs distinct and weights positive |
| Validators.UpsertWeight | snow/validators/set_test.go:145-160 | `Add(v)` changes the total weight by `v`'s weight minus the weight it replaces |
| Validators.SumWithoutID | snow/validators/set_test.go:114 | removing an ID lowers the total by exactly that ID's weight |
| Validators.WeightMapUpsert | snow/validators/set_test.go:95 | the ID-to-weight table after `Add(v)` is the old one with `v`'s entry set, or deleted for weight 0 |
| Validators.WeightMapWithoutID | snow/validators/set_test.go:114 | the table after `Remove(id)` is the old one without `id` |
| Validators.DistinctIdsCount | snow/validators/set_test.go:25-26 | with distinct IDs, the number of members equals the number of IDs |
| Validators.AddZeroWeight | snow/validators/set_test.go:95-96 | adding an ID with weight 0 always succeeds, leaves the ID absent and grows neither the size nor the total |
| Validators.RemoveSpec | snow/validators/set_test.go:114-118 | `Remove` succeeds exactly when the ID is a member; it then leaves the ID absent, one member fewer and the total lowered by its weight |
| Validators.ReplayWellFormed | snow/validators/set_test.go:22 | a successful bulk replace yields distinct IDs and positive weights |
| Validators.ReplayFresh | snow/validators/set_test.go:22-23 | adding fresh distinct IDs appends exactly their positive-weight entries, and fails with `Overflow` exactly when the total exceeds the uint64 range |
| Validators.SetKeepsPositive | snow/validators/set_test.go:15-32 | whenever the positive-weight entries have distinct IDs, `Set` keeps exactly those entries in order, with their total weight; it fails only on overflow |
| Validators.SetIgnoresZero | snow/validators/set_test.go:16-23 | a weight-0 entry anywhere in the list, with any ID, never changes the outcome of `Set` |
| Validators.PositiveOnlyAppend | snow/validators/set_test.go:18-19 | filtering out weight-0 entries distributes over concatenation |
| Validators.PositiveOnlyOfPositive | snow/validators/set_test.go:18-19 | a list whose weights are all positive is left unchanged by the filter |
| Validators.PositiveOnlyIds | snow/validators/set_test.go:18-19 | the filter keeps only IDs that the list names |
| Validators.WithoutIDFresh | snow/validators/set_test.go:114 | removing an ID that is not a member changes nothing |
| Validators.PositiveOnlySum | snow/validators/set_test.go:18-19 | dropping weight-0 entries does not change the total weight |
| Sampling.OwnerIndex | snow/validators/set_test.go:59-75 | every unit below the total weight lies in exactly the range of the member found |
| Sampling.OwnerUnique | snow/validators/set_test.go:59-75 | the weight ranges are disjoint: a unit has exactly one owner |
| Sampling.CumulativeMonotone | snow/validators/set_test.go:59-75 | the range boundaries never decrease |
| Sampling.Picked | snow/validators/set_test.go:48-50 | a sample has one validator per draw, each a member |
| Sampling.PickedInRange | snow/validators/set_test.go:59-75 | sample position `j` is member `i` exactly when draw `j` lies in `i`'s weight range |
| Sampling.PickedAreMembers | snow/validators/set_test.go:98-101 | every sampled validator is a current member with positive weight |
| Sampling.PickedSingle | snow/validators/set_test.go:48-51 | with one member, every sample consists of that member only |
| Sampling.DrawsExist | snow/validators/set_test.go:70-72 | a sample of any size up to the total weight can be drawn, even beyond the number of members |
| Sampling.DistinctDrawsBound | snow/validators/set_test.go:64-75 | distinct draws put at most `hi - lo` units into a range `[lo, hi)` |
| Sampling.PickedAtMostWeight | snow/validators/set_test.go:64-75 | sampling is without replacement over weight units: a member appears at most as often as its weight |
| Sampling.ZeroWeightNeverPicked | snow/validators/set_test.go:95-101 | after an ID is re-added with weight 0, it is never sampled |
| Rendering.NatToString | snow/validators/set_test.go:139-140 | Go's `%d`: a non-empty digit string with no leading zero |
| Rendering.ParseNatToString | snow/validators/set_test.go:140 | the printed weight reads back as the weight |
| Rendering.NatToStringParse | snow/validators/set_test.go:140 | a canonical digit string is the printing of its value |
| Rendering.PadLeft | snow/validators/set_test.go:139 | Go's `%33s`: the ID right-aligned after spaces in a field of at least 33 characters, never truncated |
| Rendering.Header | snow/validators/set_test.go:138 | the header is one line, `Validator Set: (Size = ` then digits then `)`, and the digits read back as the size |
| Rendering.Line | snow/validators/set_test.go:139-140 | a member line starts with its newline, holds no other when the ID text holds none, and ends with the weight in decimal |
| Rendering.LineTextEnd | snow/validators/set_test.go:140 | the text of a member line ends with its weight |
| Rendering.LinesEnd | snow/validators/set_test.go:140 | the member lines are empty exactly when there are no members, and otherwise end with a digit |
| Rendering.Render | snow/validators/set_test.go:138-140 | the text never ends with a newline, and it holds exactly as many newlines as the set has members when no ID text holds one |
| Rendering.LinesPrefix | snow/validators/set_test.go:138-140 | one more member adds its line at the end |
| Rendering.NewlinesOfLine | snow/validators/set_test.go:139-140 | each member line holds exactly one newline, at its start |
| Rendering.RenderSnoc | snow/validators/set_test.go:131-140 | a new last member adds its line at the end and raises the size in the header |
| SetScenarios.AddFresh | snow/validators/set_test.go:44-46 | `Add` of a fresh positive-weight ID within range succeeds and appends it |
| SetScenarios.TripleSums | snow/validators/set_test.go:16-19 | a list of two positive weights and a 0 weighs the sum of the two and keeps its first two entries |
| SetScenarios.SetDropsZero | snow/validators/set_test.go:16-23 | the list of weights 1, MaxInt64-1 and 0 replaces the membership by its first two entries |
| SetScenarios.SetScenario | snow/validators/set_test.go:15-38 | `Set` succeeds; `Len` is 2 and both positive-weight IDs are contained; a sample of one is the heavy validator for every draw except unit 0 |
| SetScenarios.TwoOwners | snow/validators/set_test.go:59-62 | with a weight-1 member first, unit 0 belongs to it and every other unit to the second |
| SetScenarios.SampleOfTwo | snow/validators/set_test.go:64-75 | from a weight-1 and a heavy member, draw 0 yields the light one and all others the heavy one; distinct draws yield the light one at most once |
| SetScenarios.SampleScenario | snow/validators/set_test.go:40-76 | with one weight-1 member, `Sample(1)` returns it and `Sample(2)` fails; after the heavy member joins, `Sample(1)` returns it unless unit 0 is drawn, `Sample(2)` and `Sample(3)` succeed with 2 and 3 validators, the light one at most once, and every position not drawn at unit 0 holds the heavy one |
| SetScenarios.ZeroWeightDropsLast | snow/validators/set_test.go:95-96 | re-adding the second member's ID with weight 0 leaves the first member only |
| SetScenarios.DuplicateScenario | snow/validators/set_test.go:78-102 | after re-adding the heavy ID with weight 0, which succeeds, every sample of one returns the light validator |
| SetScenarios.ContainsScenario | snow/validators/set_test.go:104-119 | an added validator is contained; `Remove` succeeds; it is no longer contained |
| SetScenarios.WeightScenario | snow/validators/set_test.go:145-161 | weights 93 and 123 give a set weight of 216 |
| SetScenarios.HeavyWeightText | snow/validators/set_test.go:140 | `%d` of MaxInt64-1 is `9223372036854775806` |
| SetScenarios.LineZero | snow/validators/set_test.go:139 | the line of the all-zero ID pads its 26-character CB58 text with 7 spaces |
| SetScenarios.LineOne | snow/validators/set_test.go:140 | the line of the all-0xFF ID has its 33-character CB58 text unpadded |
| SetScenarios.StringScenario | snow/validators/set_test.go:121-143 | the text of the two-member set is exactly the expected three lines |
| Timeout.CreateRequestID | snow/networking/timeout/manager.go:48-53 | the key determines the request: any triple with the same key is the same triple, or its preimage collides with this one's under the hash |
| Timeout.PreimageDeterminesRequest | snow/networking/timeout/manager.go:48-52 | only the triple itself has its preimage |
| Timeout.PackInt | snow/networking/timeout/manager.go:49-50 | the request ID packs into exactly `IntLen` (4) bytes |
| Timeout.UnpackPack | snow/networking/timeout/manager.go:49-50 | the packing is big-endian: reading the 4 bytes most significant first gives the request ID back |
| Timeout.PackUnpack | snow/networking/timeout/manager.go:49-50 | every 4-byte string is the packing of its big-endian value |
| Timeout.PackIntInjective | snow/networking/timeout/manager.go:49-50 | different request IDs pack to different bytes |
| Timeout.Preimage | snow/networking/timeout/manager.go:52 | the preimage is 20 + 32 + 4 = 56 bytes |
| Timeout.PreimageLayout | snow/networking/timeout/manager.go:48-52 | the preimage is validator ID, then chain ID, then packed request ID, at offsets 0, 20 and 52 |
| Timeout.ParsePreimageRoundTrip | snow/networking/timeout/manager.go:48-52 | the triple can be read back from its preimage |
| Timeout.PreimageOfParse | snow/networking/timeout/manager.go:48-52 | every 56-byte string is the preimage of the triple it parses to |
| Timeout.PreimageInjective | snow/networking/timeout/manager.go:48-52 | two triples have the same preimage exactly when they are equal |
| Timeout.SharedKeyIsCollision | snow/networking/timeout/manager.go:48-52 | different triples share a key only through a hash collision of their preimages |
| Timeout.KeyInjective | snow/networking/timeout/manager.go:48-53 | unless the two preimages collide under the hash, two triples have the same key exactly when they are equal |
| Timeout.RegisterFiles | snow/networking/timeout/manager.go:37-41 | `Register` files exactly its entry under the request's key and leaves every other key as it was |
| Timeout.RegisterThenCancel | snow/networking/timeout/manager.go:37-46 | `Register` then `Cancel` with the same triple leaves nothing under the key and the other keys as they were |
| Timeout.CancelIdempotent | snow/networking/timeout/manager.go:43-46 | a second `Cancel` changes nothing |
| Timeout.CancelAbsent | snow/networking/timeout/manager.go:43-46 | `Cancel` of a request that is not pending changes nothing and is no error |
| Timeout.ReRegisterReplaces | snow/networking/timeout/manager.go:39-41 | registering the same triple again replaces the earlier entry |
| Timeout.CancelOtherKeeps | snow/networking/timeout/manager.go:37-46 | a registration stays pending through a `Cancel` of another triple unless the two preimages collide |
| Timeout.Manager.constructor | snow/networking/timeout/manager.go:17 | a manager before `Initialize` is the zero value, with nothing pending |
| Timeout.Manager.Initialize | snow/networking/timeout/manager.go:20-32 | the configuration is 1s initial, 500ms minimum, factor 2, granularity 1ms; so the floor is positive and not above the current timeout, which starts at the initial one, the factor grows a timeout and the granularity is positive and no coarser than the floor; nothing is pending |
| Timeout.Manager.Register | snow/networking/timeout/manager.go:39-41 | files the callback under `createRequestID` of the triple, with deadline `now` plus the current timeout, which it returns; the configuration is unchanged |
| Timeout.Manager.Cancel | snow/networking/timeout/manager.go:43-46 | removes whatever is filed under `createRequestID` of the same triple; it has no error result |
| Timeout.RegisterCancelScenario | snow/networking/timeout/manager.go:37-46 | on an initialized manager, a registered request is pending, with deadline one second after `now`, until the matching `Cancel` |

## Left out

- `set.go` (the set implementation) is not part of this model. The set is
  modelled from its test suite, `snow/validators/set_test.go`:
  - `TestSamplerDuplicate` (lines 95-101) re-adds an existing ID with
    weight 0 without error, and the ID is then never sampled. The model's
    `Add` therefore replaces the entry under an existing ID, weight 0
    removes it, and there is no `DuplicateID` error.
  - The model keeps insertion order; a replaced ID moves to the end. The
    only test that observes the order, `TestSamplerString`, adds its
    members in the order it expects them listed.
- `ValidatorSets.ValidatorSet.Set`: a list that names an ID with positive
  weight more than once is resolved by replaying `Add`, so the later entry
  wins. No test in the suite fixes this case.
- `Sample`'s random source (a partial Fisher–Yates shuffle) is not modelled.
  The `k` distinct drawn units are an input, `draws`, and any `k` distinct
  units below the total weight are admitted. The model does not capture
  uniformity, so the convergence of sampling frequencies to
  `weight / totalWeight` is not stated.
- `ValidatorSets.ValidatorSet.Locate`: finds the owning member by a linear
  scan over cumulative weights, not a binary search. The result is the same.
- `SetScenarios.SetScenario`, `SetScenarios.SampleScenario` and
  `SetScenarios.DuplicateScenario`: these tests assert that the heavy
  validator is sampled, which holds only with overwhelming probability. The
  contracts are weaker than those assertions: they say that this holds for
  every draw except unit 0, which belongs to the weight-1 validator.
  `Sample(3)` can therefore return the light validator once, but never
  twice.
- `GenerateRandomValidator` is not modelled: the scenarios take any two
  distinct IDs.
- The CB58 text encoding of IDs in `String` is foreign code. It is a
  function parameter `encode`, and the string scenario assumes the two
  encodings the test expects.
- `Rendering.Line`: the index is printed in plain decimal, which matches
  every line of `TestSamplerString`. Whether wider indices are padded is
  not shown.
- Locking is not modelled. All set and timer state is accessed as if by a
  single thread.
- SHA-256 (`hashing.ByteArraysToHash256Array`) is foreign code. It is a
  function parameter `hash`, fixed when a `Timeout.Manager` is created.
- `timer.AdaptiveTimeoutManager` is not part of this model. Its pending
  requests are a map from key to callback and deadline, and its clock is
  the `now` parameter of `Register`.
  - `Dispatch` (`manager.go:35`) and the firing of expired callbacks are
    left out: they are the wrapped manager's time-driven loop.
  - The adaptive estimate is left out. The current timeout is not decayed
    on `Cancel` or grown on a fired request, so it stays at the initial 1s
    after `Initialize`.
- `Timeout.Manager.Initialize`: the error result from registering metrics
  with Prometheus is not modelled, nor is the namespace. Metrics are an
  observation side channel.
- `vms/rpcchainvm/ghttp/gresponsewriter/writer_server.go` is plumbing that
  forwards an HTTP response writer between processes. It has no logic of
  the core and is not modelled.
