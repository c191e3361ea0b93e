/** The request timeout manager of the networking layer.

    Each outstanding request is keyed by a 32-byte ID derived from the
    triple (validator ID, chain ID, request ID): the three are laid out as
    one 56-byte preimage (20 + 32 + 4 bytes, the request ID as a big-endian
    32-bit integer) and hashed with SHA-256. `Register` files a callback and
    a deadline under that key; `Cancel` removes whatever is filed under it.
    The hash is a parameter of the model (`hash`): it is foreign code, and
    the only thing the keying relies on is that two different preimages
    rarely hash alike. The wrapped adaptive timeout manager is modelled by
    its configuration, its current timeout and its map of pending requests. */
module Timeout {
  import opened Ids

  /** Bytes in a packed 32-bit integer. */
  const IntLen: nat := 4

  /** Bytes in a request-key preimage. */
  const PreimageLen: nat := ShortIDLen + IDLen + IntLen

  /** The packer's `PackInt`: a 32-bit integer as 4 bytes, most significant
      byte first. */
  function PackInt(x: uint32): (b: seq<byte>)
    ensures |b| == IntLen
  {
    [x / 0x100_0000, (x / 0x1_0000) % 0x100, (x / 0x100) % 0x100, x % 0x100]
  }

  /** The unpacker's `UnpackInt`: 4 bytes, most significant first. */
  function UnpackInt(b: seq<byte>): uint32
    requires |b| == IntLen
  {
    b[0] as int * 0x100_0000 + b[1] as int * 0x1_0000 + b[2] as int * 0x100 + b[3] as int
  }

  /** Unpacking a packed integer gives the integer back. */
  lemma UnpackPack(x: uint32)
    ensures UnpackInt(PackInt(x)) == x
  {
    var hi, lo := x / 0x1_0000, x % 0x1_0000;
    assert x == hi * 0x1_0000 + lo;
    assert hi == (hi / 0x100) * 0x100 + hi % 0x100;
    assert lo == (lo / 0x100) * 0x100 + lo % 0x100;
    assert x / 0x100_0000 == hi / 0x100;
    assert (x / 0x100) % 0x100 == lo / 0x100;
    assert x % 0x100 == lo % 0x100;
  }

  /** Packing the value of 4 bytes gives the bytes back. */
  lemma PackUnpack(b: seq<byte>)
    requires |b| == IntLen
    ensures PackInt(UnpackInt(b)) == b
  {
    var x := UnpackInt(b);
    var b0: int, b1: int, b2: int, b3: int := b[0], b[1], b[2], b[3];
    var hi, lo := b0 * 0x100 + b1, b2 * 0x100 + b3;
    assert x == hi * 0x1_0000 + lo;
    assert x / 0x1_0000 == hi && x % 0x1_0000 == lo;
    assert x / 0x100_0000 == b0;
    assert (x / 0x1_0000) % 0x100 == b1;
    assert x / 0x100 == hi * 0x100 + b2;
    assert (x / 0x100) % 0x100 == b2;
    assert x % 0x100 == b3;
  }

  /** Different request IDs pack to different bytes. */
  lemma PackIntInjective(x: uint32, y: uint32)
    ensures PackInt(x) == PackInt(y) <==> x == y
  {
    UnpackPack(x);
    UnpackPack(y);
  }

  /** The request triple a key is derived from. */
  datatype Request = Request(validatorID: ShortID, chainID: ID, requestID: uint32)

  /** The bytes hashed by `createRequestID`: validator ID, then chain ID, then
      the packed request ID. */
  function Preimage(validatorID: ShortID, chainID: ID, requestID: uint32): (p: seq<byte>)
    ensures |p| == PreimageLen
  {
    validatorID + chainID + PackInt(requestID)
  }

  /** Splitting a preimage back into its three fields. */
  function ParsePreimage(p: seq<byte>): Request
    requires |p| == PreimageLen
  {
    Request(p[..ShortIDLen], p[ShortIDLen..ShortIDLen + IDLen],
            UnpackInt(p[ShortIDLen + IDLen..]))
  }

  /** The preimage layout: the fields sit at fixed offsets 0, 20 and 52. */
  lemma PreimageLayout(validatorID: ShortID, chainID: ID, requestID: uint32)
    ensures var p := Preimage(validatorID, chainID, requestID);
            && p[..ShortIDLen] == validatorID
            && p[ShortIDLen..ShortIDLen + IDLen] == chainID
            && p[ShortIDLen + IDLen..] == PackInt(requestID)
  {
  }

  /** Every field can be read back from the preimage, because all three have
      fixed lengths. */
  lemma ParsePreimageRoundTrip(validatorID: ShortID, chainID: ID, requestID: uint32)
    ensures ParsePreimage(Preimage(validatorID, chainID, requestID))
         == Request(validatorID, chainID, requestID)
  {
    PreimageLayout(validatorID, chainID, requestID);
    UnpackPack(requestID);
  }

  /** Every 56-byte string is the preimage of exactly the triple it parses
      to. */
  lemma PreimageOfParse(p: seq<byte>)
    requires |p| == PreimageLen
    ensures var q := ParsePreimage(p);
            Preimage(q.validatorID, q.chainID, q.requestID) == p
  {
    var tail := p[ShortIDLen + IDLen..];
    PackUnpack(tail);
    assert p == p[..ShortIDLen] + p[ShortIDLen..ShortIDLen + IDLen] + tail;
  }

  /** The preimage is injective in the triple. */
  lemma PreimageInjective(a: Request, b: Request)
    ensures Preimage(a.validatorID, a.chainID, a.requestID)
            == Preimage(b.validatorID, b.chainID, b.requestID)
        <==> a == b
  {
    ParsePreimageRoundTrip(a.validatorID, a.chainID, a.requestID);
    ParsePreimageRoundTrip(b.validatorID, b.chainID, b.requestID);
  }

  /** `createRequestID`: the key of a request. The key determines the
      request: any triple with the same key is this one, or its preimage
      collides with this one's under the hash. */
  function CreateRequestID(hash: seq<byte> -> ID, validatorID: ShortID, chainID: ID, requestID: uint32)
    : (key: ID)
    ensures forall q: Request ::
              hash(Preimage(q.validatorID, q.chainID, q.requestID)) == key ==>
                q == Request(validatorID, chainID, requestID)
                || Collision(hash, Preimage(q.validatorID, q.chainID, q.requestID),
                                   Preimage(validatorID, chainID, requestID))
  {
    PreimageDeterminesRequest(validatorID, chainID, requestID);
    hash(Preimage(validatorID, chainID, requestID))
  }

  /** Only the triple itself has its preimage. */
  lemma PreimageDeterminesRequest(validatorID: ShortID, chainID: ID, requestID: uint32)
    ensures forall q: Request ::
              (Preimage(q.validatorID, q.chainID, q.requestID) == Preimage(validatorID, chainID, requestID)
               ==> q == Request(validatorID, chainID, requestID))
  {
    forall q: Request | Preimage(q.validatorID, q.chainID, q.requestID)
                        == Preimage(validatorID, chainID, requestID)
      ensures q == Request(validatorID, chainID, requestID)
    {
      PreimageInjective(q, Request(validatorID, chainID, requestID));
    }
  }

  /** The key of a request triple. */
  function KeyOf(hash: seq<byte> -> ID, q: Request): ID
  {
    CreateRequestID(hash, q.validatorID, q.chainID, q.requestID)
  }

  /** Two different byte strings with the same hash. */
  predicate Collision(hash: seq<byte> -> ID, x: seq<byte>, y: seq<byte>)
  {
    x != y && hash(x) == hash(y)
  }

  /** Two different requests share a key only through a hash collision of
      their preimages. */
  lemma SharedKeyIsCollision(hash: seq<byte> -> ID, a: Request, b: Request)
    requires a != b && KeyOf(hash, a) == KeyOf(hash, b)
    ensures Collision(hash, Preimage(a.validatorID, a.chainID, a.requestID),
                            Preimage(b.validatorID, b.chainID, b.requestID))
  {
    PreimageInjective(a, b);
  }

  /** Unless their preimages collide under the hash, two requests have the
      same key exactly when they are the same request. */
  lemma KeyInjective(hash: seq<byte> -> ID, a: Request, b: Request)
    requires !Collision(hash, Preimage(a.validatorID, a.chainID, a.requestID),
                              Preimage(b.validatorID, b.chainID, b.requestID))
    ensures KeyOf(hash, a) == KeyOf(hash, b) <==> a == b
  {
    PreimageInjective(a, b);
  }

  // ---------------------------------------------------------------------
  // The pending-request map
  // ---------------------------------------------------------------------

  /** What the wrapped manager files under a key: the callback to fire and
      its deadline (nanoseconds on the caller's clock). */
  datatype Pending<C> = Pending(onTimeout: C, deadline: nat)

  /** The pending map after `Register(q, ...)` files `entry`. */
  function Registered<C>(pending: map<ID, Pending<C>>, hash: seq<byte> -> ID, q: Request,
                         entry: Pending<C>): map<ID, Pending<C>>
  {
    pending[KeyOf(hash, q) := entry]
  }

  /** The pending map after `Cancel(q)`; cancelling is total: an absent key
      is no error. */
  function Cancelled<C>(pending: map<ID, Pending<C>>, hash: seq<byte> -> ID, q: Request)
    : map<ID, Pending<C>>
  {
    pending - {KeyOf(hash, q)}
  }

  /** A registered request stays pending until a `Cancel` with the same
      triple: `Register` files exactly one entry under the request's key and
      leaves every other key as it was. */
  lemma RegisterFiles<C>(pending: map<ID, Pending<C>>, hash: seq<byte> -> ID, q: Request,
                         entry: Pending<C>)
    ensures var after := Registered(pending, hash, q, entry);
            && KeyOf(hash, q) in after && after[KeyOf(hash, q)] == entry
            && after.Keys == pending.Keys + {KeyOf(hash, q)}
            && forall k :: k in pending && k != KeyOf(hash, q) ==> after[k] == pending[k]
  {
  }

  /** `Register` then `Cancel` with the same triple leaves nothing under the
      key, and the other keys as they were before the `Register`. */
  lemma RegisterThenCancel<C>(pending: map<ID, Pending<C>>, hash: seq<byte> -> ID, q: Request,
                              entry: Pending<C>)
    ensures var after := Cancelled(Registered(pending, hash, q, entry), hash, q);
            && KeyOf(hash, q) !in after
            && after == pending - {KeyOf(hash, q)}
  {
  }

  /** `Cancel` is idempotent: a second `Cancel` changes nothing. */
  lemma CancelIdempotent<C>(pending: map<ID, Pending<C>>, hash: seq<byte> -> ID, q: Request)
    ensures Cancelled(Cancelled(pending, hash, q), hash, q) == Cancelled(pending, hash, q)
  {
  }

  /** `Cancel` of a request that is not pending changes nothing. */
  lemma CancelAbsent<C>(pending: map<ID, Pending<C>>, hash: seq<byte> -> ID, q: Request)
    requires KeyOf(hash, q) !in pending
    ensures Cancelled(pending, hash, q) == pending
  {
  }

  /** Registering the same triple again replaces the earlier entry. */
  lemma ReRegisterReplaces<C>(pending: map<ID, Pending<C>>, hash: seq<byte> -> ID, q: Request,
                              first: Pending<C>, second: Pending<C>)
    ensures Registered(Registered(pending, hash, q, first), hash, q, second)
         == Registered(pending, hash, q, second)
  {
  }

  /** A `Cancel` for another triple leaves a registration pending unless the
      two preimages collide under the hash. */
  lemma CancelOtherKeeps<C>(pending: map<ID, Pending<C>>, hash: seq<byte> -> ID, q: Request,
                            entry: Pending<C>, other: Request)
    requires q != other
    requires !Collision(hash, Preimage(q.validatorID, q.chainID, q.requestID),
                              Preimage(other.validatorID, other.chainID, other.requestID))
    ensures var after := Cancelled(Registered(pending, hash, q, entry), hash, other);
            KeyOf(hash, q) in after && after[KeyOf(hash, q)] == entry
  {
    if KeyOf(hash, q) == KeyOf(hash, other) {
      SharedKeyIsCollision(hash, q, other);
    }
  }

  // ---------------------------------------------------------------------
  // The manager object
  // ---------------------------------------------------------------------

  /** Durations are Go `time.Duration` values: nanoseconds. */
  const Millisecond: nat := 1_000_000
  const Second: nat := 1_000 * Millisecond

  /** The configuration `Initialize` passes to the wrapped manager. */
  const InitialTimeout: nat := Second
  const MinimumTimeout: nat := 500 * Millisecond
  const BackoffFactor: nat := 2
  const Granularity: nat := Millisecond

  class Manager<C> {
    /** SHA-256, as a parameter of the model. */
    const hash: seq<byte> -> ID
    var initialTimeout: nat
    var minimumTimeout: nat
    var backoffFactor: nat
    var granularity: nat
    /** The timeout given to new registrations. */
    var currentTimeout: nat
    /** The outstanding requests, by key. */
    var pending: map<ID, Pending<C>>

    /** A `Manager` before `Initialize`: Go's zero value. */
    constructor (hash: seq<byte> -> ID)
      ensures this.hash == hash && pending == map[]
      ensures initialTimeout == 0 && minimumTimeout == 0 && currentTimeout == 0
      ensures backoffFactor == 0 && granularity == 0
    {
      this.hash := hash;
      initialTimeout, minimumTimeout, backoffFactor, granularity := 0, 0, 0, 0;
      currentTimeout := 0;
      pending := map[];
    }

    /** `Initialize`: a starting timeout of 1s, a floor of 500ms, a backoff
        factor of 2 and a granularity of 1ms; nothing is pending. So the
        floor is positive and not above the current timeout, which starts at
        the initial one; the backoff grows a timeout; and the granularity is
        positive and no coarser than the floor. */
    method Initialize()
      modifies this
      ensures 0 < minimumTimeout <= currentTimeout == initialTimeout
      ensures 1 < backoffFactor && 0 < granularity <= minimumTimeout
      ensures initialTimeout == InitialTimeout && minimumTimeout == MinimumTimeout
      ensures backoffFactor == BackoffFactor && granularity == Granularity
      ensures currentTimeout == initialTimeout && pending == map[]
    {
      initialTimeout, minimumTimeout := InitialTimeout, MinimumTimeout;
      backoffFactor, granularity := BackoffFactor, Granularity;
      currentTimeout := initialTimeout;
      pending := map[];
    }

    /** `Register(validatorID, chainID, requestID, timeout)`: file `timeout`
        under the request's key with the deadline `now + currentTimeout`,
        replacing any entry under that key, and return the deadline. */
    method Register(validatorID: ShortID, chainID: ID, requestID: uint32, timeout: C, now: nat)
      returns (deadline: nat)
      modifies this
      ensures deadline == now + currentTimeout
      ensures pending == Registered(old(pending), hash, Request(validatorID, chainID, requestID),
                                    Pending(timeout, deadline))
      ensures currentTimeout == old(currentTimeout) && initialTimeout == old(initialTimeout)
      ensures minimumTimeout == old(minimumTimeout) && backoffFactor == old(backoffFactor)
      ensures granularity == old(granularity)
    {
      var key := CreateRequestID(hash, validatorID, chainID, requestID);
      deadline := now + currentTimeout;
      pending := pending[key := Pending(timeout, deadline)];
    }

    /** `Cancel(validatorID, chainID, requestID)`: remove whatever is filed
        under the request's key; there is no error, whether or not anything
        was. */
    method Cancel(validatorID: ShortID, chainID: ID, requestID: uint32)
      modifies this
      ensures pending == Cancelled(old(pending), hash, Request(validatorID, chainID, requestID))
      ensures currentTimeout == old(currentTimeout) && initialTimeout == old(initialTimeout)
      ensures minimumTimeout == old(minimumTimeout) && backoffFactor == old(backoffFactor)
      ensures granularity == old(granularity)
    {
      var key := CreateRequestID(hash, validatorID, chainID, requestID);
      pending := pending - {key};
    }
  }

  /** A registration followed by the matching cancellation on a manager:
      the request is pending in between and gone afterwards; the deadline is
      one current timeout after `now`. */
  method RegisterCancelScenario<C>(hash: seq<byte> -> ID, q: Request, timeout: C, now: nat)
    returns (deadline: nat, between: bool, after: bool)
    ensures deadline == now + InitialTimeout && between && !after
  {
    var m := new Manager<C>(hash);
    m.Initialize();
    deadline := m.Register(q.validatorID, q.chainID, q.requestID, timeout, now);
    between := KeyOf(hash, q) in m.pending;
    m.Cancel(q.validatorID, q.chainID, q.requestID);
    after := KeyOf(hash, q) in m.pending;
  }
}
