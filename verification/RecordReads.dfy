/** Each record read field by field: value, position and fault agree with its codec. */
module RecordReads {
  import opened Prelude
  import opened Types
  import opened Codec
  import opened Records
  import opened Wire
  import opened Accounts
  import opened Purses
  import opened PurseBooks

  /** A reading method and the codec agree: on the value and on the rest, or on the fault. */
  ghost predicate Tells<T(!new)>(p: Parse<T>, r: Result<T, CodecError>, rest: Bytes) {
    match p
    case Success((value, after)) => r == Success(value) && rest == after
    case Failure(e) => r == Failure(e)
  }

  // ----- Counted lists, one item at a time

  ghost function After<T(!new)>(xs: seq<T>, p: Parse<seq<T>>): Parse<seq<T>> {
    match p
    case Failure(e) => Failure(e)
    case Success((more, rest)) => Success((xs + more, rest))
  }

  /** `xs` is behind, `here` is ahead, and the next item must rank `least` or more. */
  ghost predicate Underway<T(!new)>(c: Codec<T>, rank: T -> nat, depth: nat, n: nat, start: Bytes,
                                    xs: seq<T>, least: nat, here: Bytes)
  {
    && |xs| <= n
    && DecItems(c, rank, depth, n, 0, start) == After(xs, DecItems(c, rank, depth, n - |xs|, least, here))
    && forall x :: x in xs ==> rank(x) < least
  }

  lemma Started<T(!new)>(c: Codec<T>, rank: T -> nat, depth: nat, n: nat, start: Bytes)
    ensures Underway(c, rank, depth, n, start, [], 0, start)
  {
    var p := DecItems(c, rank, depth, n, 0, start);
    if p.Success? {
      assert [] + p.value.0 == p.value.0;
    }
  }

  lemma NextItem<T(!new)>(c: Codec<T>, rank: T -> nat, depth: nat, n: nat, start: Bytes,
                          xs: seq<T>, least: nat, here: Bytes)
    requires Underway(c, rank, depth, n, start, xs, least, here) && |xs| < n
    ensures
      if c.dec(depth, here).Failure? then DecItems(c, rank, depth, n, 0, start) == Failure(c.dec(depth, here).error)
      else if rank(c.dec(depth, here).value.0) < least then
          DecItems(c, rank, depth, n, 0, start) == Failure(UnorderedSet)
      else
        var (x, rest) := c.dec(depth, here).value;
        Underway(c, rank, depth, n, start, xs + [x], rank(x) + 1, rest)
  {
    if c.dec(depth, here).Success? && rank(c.dec(depth, here).value.0) >= least {
      var (x, rest) := c.dec(depth, here).value;
      var p := DecItems(c, rank, depth, n - |xs| - 1, rank(x) + 1, rest);
      if p.Success? {
        assert xs + ([x] + p.value.0) == xs + [x] + p.value.0;
      }
    }
  }

  lemma Finished<T(!new)>(c: Codec<T>, rank: T -> nat, depth: nat, n: nat, start: Bytes,
                          xs: seq<T>, least: nat, here: Bytes)
    requires Underway(c, rank, depth, n, start, xs, least, here) && |xs| == n
    ensures DecItems(c, rank, depth, n, 0, start) == Success((xs, here))
  {
    assert xs + [] == xs;
  }

  // ----- Counted entries, one key and one value at a time

  ghost predicate EntriesUnderway<K(!new), V(!new)>(c: Codec<K>, d: Codec<V>, rank: K -> nat, depth: nat, n: nat,
                                                    start: Bytes, xs: seq<(K, V)>, least: nat, here: Bytes)
  {
    && |xs| <= n
    && DecEntries(c, d, rank, depth, n, 0, start) == After(xs, DecEntries(c, d, rank, depth, n - |xs|, least, here))
    && forall x :: x in xs ==> rank(x.0) < least
  }

  lemma EntriesStarted<K(!new), V(!new)>(c: Codec<K>, d: Codec<V>, rank: K -> nat, depth: nat, n: nat, start: Bytes)
    ensures EntriesUnderway(c, d, rank, depth, n, start, [], 0, start)
  {
    var p := DecEntries(c, d, rank, depth, n, 0, start);
    if p.Success? {
      assert [] + p.value.0 == p.value.0;
    }
  }

  lemma NextKey<K(!new), V(!new)>(c: Codec<K>, d: Codec<V>, rank: K -> nat, depth: nat, n: nat, start: Bytes,
                                  xs: seq<(K, V)>, least: nat, here: Bytes)
    requires EntriesUnderway(c, d, rank, depth, n, start, xs, least, here) && |xs| < n
    ensures c.dec(depth, here).Failure? ==>
      DecEntries(c, d, rank, depth, n, 0, start) == Failure(c.dec(depth, here).error)
    ensures c.dec(depth, here).Success? && rank(c.dec(depth, here).value.0) < least ==>
      DecEntries(c, d, rank, depth, n, 0, start) == Failure(UnorderedSet)
  {
  }

  lemma NextValue<K(!new), V(!new)>(c: Codec<K>, d: Codec<V>, rank: K -> nat, depth: nat, n: nat, start: Bytes,
                                    xs: seq<(K, V)>, least: nat, here: Bytes)
    requires EntriesUnderway(c, d, rank, depth, n, start, xs, least, here) && |xs| < n
    requires c.dec(depth, here).Success? && rank(c.dec(depth, here).value.0) >= least
    ensures var (k, afterKey) := c.dec(depth, here).value;
      if d.dec(depth, afterKey).Failure? then
          DecEntries(c, d, rank, depth, n, 0, start) == Failure(d.dec(depth, afterKey).error)
      else
        var (v, rest) := d.dec(depth, afterKey).value;
        && EntriesUnderway(c, d, rank, depth, n, start, xs + [(k, v)], rank(k) + 1, rest)
        && MapFrom(xs + [(k, v)]) == MapFrom(xs)[k := v]
  {
    var (k, afterKey) := c.dec(depth, here).value;
    if d.dec(depth, afterKey).Success? {
      var (v, rest) := d.dec(depth, afterKey).value;
      var p := DecEntries(c, d, rank, depth, n - |xs| - 1, rank(k) + 1, rest);
      if p.Success? {
        assert xs + ([(k, v)] + p.value.0) == xs + [(k, v)] + p.value.0;
      }
      hide DecEntries;
      MapFromAppend(xs, k, v);
    }
  }

  lemma EntriesFinished<K(!new), V(!new)>(c: Codec<K>, d: Codec<V>, rank: K -> nat, depth: nat, n: nat, start: Bytes,
                                          xs: seq<(K, V)>, least: nat, here: Bytes)
    requires EntriesUnderway(c, d, rank, depth, n, start, xs, least, here) && |xs| == n
    ensures DecEntries(c, d, rank, depth, n, 0, start) == Success((xs, here))
  {
    assert xs + [] == xs;
  }

  /** A map is read as its count, then that many entries. */
  ghost function MapRead<K(!new), V(!new)>(c: Codec<K>, d: Codec<V>, rank: K -> nat, depth: nat, n: nat, b: Bytes)
    : Parse<map<K, V>>
  {
    var p := DecEntries(c, d, rank, depth, n, 0, b);
    if p.Failure? then Failure(p.error) else Success((MapFrom(p.value.0), p.value.1))
  }

  lemma MapDecodes<K(!new), V(!new)>(c: Codec<K>, d: Codec<V>, rank: K -> nat, limit: nat, depth: nat, b: Bytes)
    requires Injective(rank) && depth <= MAX_NESTING
    ensures var count := DecCount(limit, b);
      MapOf(c, d, rank, limit).dec(depth, b) ==
        if count.Failure? then Failure(count.error) else MapRead(c, d, rank, depth, count.value.0, count.value.1)
  {
    hide DecEntries, MapFrom, EntriesIn;
  }

  /** A set is read as its count, then that many items, each one level deeper. */
  ghost function SetRead<K(!new)>(c: Codec<K>, rank: K -> nat, depth: nat, n: nat, b: Bytes): Parse<set<K>> {
    if n > 0 && depth >= MAX_NESTING then Failure(TooDeep)
    else
      var p := DecItems(c, rank, depth + 1, n, 0, b);
      if p.Failure? then Failure(p.error) else Success((Members(p.value.0), p.value.1))
  }

  lemma SetDecodes<K(!new)>(c: Codec<K>, rank: K -> nat, limit: nat, depth: nat, b: Bytes)
    requires Injective(rank) && depth <= MAX_NESTING
    ensures var count := DecCount(limit, b);
      SetOf(c, rank, limit).dec(depth, b) ==
        if count.Failure? then Failure(count.error) else SetRead(c, rank, depth, count.value.0, count.value.1)
  {
    hide DecItems, Members, Items;
  }

  /** Inserting a key above all before it. */
  lemma {:induction false} MapFromAppend<K(!new), V(!new)>(xs: seq<(K, V)>, k: K, v: V)
    requires forall x :: x in xs ==> x.0 != k
    ensures MapFrom(xs + [(k, v)]) == MapFrom(xs)[k := v]
    decreases |xs|
  {
    if xs == [] {
      assert (xs + [(k, v)])[1..] == [];
    } else {
      assert xs[0] in xs;
      MapFromAppend(xs[1..], k, v);
      assert (xs + [(k, v)])[1..] == xs[1..] + [(k, v)];
    }
  }

  lemma NothingRead<K(!new), V(!new)>()
    ensures MapFrom<K, V>([]) == map[] && Members<K>([]) == {}
  {
  }

  lemma MembersAppend<K(!new)>(xs: seq<K>, k: K)
    ensures Members(xs + [k]) == Members(xs) + {k}
  {
  }

  // ----- Fields

  method ReadU64(d: Decoder) returns (r: Result<u64, CodecError>)
    requires d.Valid()
    modifies d`position
    ensures d.Valid() && Tells(U64().dec(d.depth, old(d.Rest())), r, d.Rest())
  {
    hide DecVarint;
    r := d.ReadVarint();
    VarintInRange(old(d.Rest()));
  }

  lemma VarintInRange(b: Bytes)
    ensures DecVarint(b, 0).Success? ==> DecVarint(b, 0).value.0 < U64_LIMIT
  {
    RoomIsU64();
    if DecVarint(b, 0).Success? {
      VarintOnly(b, 0);
    }
  }

  method ReadU32(d: Decoder) returns (r: Result<u32, CodecError>)
    requires d.Valid()
    modifies d`position
    ensures d.Valid() && Tells(U32().dec(d.depth, old(d.Rest())), r, d.Rest())
  {
    hide DecVarint;
    var value :- d.ReadVarintBelow(U32_LIMIT);
    r := Success(value);
  }

  method ReadHash(d: Decoder) returns (r: Result<Hash, CodecError>)
    requires d.Valid()
    modifies d`position
    ensures d.Valid() && Tells(HashCodec().dec(d.depth, old(d.Rest())), r, d.Rest())
  {
    var bytes :- d.Take(32);
    r := Success(Bytes32(bytes));
  }

  method ReadAccountId(d: Decoder) returns (r: Result<AccountId, CodecError>)
    requires d.Valid()
    modifies d`position
    ensures d.Valid() && Tells(AccountIdCodec().dec(d.depth, old(d.Rest())), r, d.Rest())
  {
    hide HashCodec;
    var raw :- ReadHash(d);
    r := Success(AccountId(raw));
  }

  method ReadDeviceId(d: Decoder) returns (r: Result<DeviceId, CodecError>)
    requires d.Valid()
    modifies d`position
    ensures d.Valid() && Tells(DeviceIdCodec().dec(d.depth, old(d.Rest())), r, d.Rest())
  {
    hide HashCodec;
    var raw :- ReadHash(d);
    r := Success(DeviceId(raw));
  }

  /** An optional value costs one level of nesting, and only when it is there. */
  method ReadAsset(d: Decoder) returns (r: Result<Asset, CodecError>)
    requires d.Valid()
    modifies d
    ensures d.Valid() && d.depth == old(d.depth)
    ensures Tells(AssetCodec().dec(d.depth, old(d.Rest())), r, d.Rest())
  {
    hide HashCodec;
    var tag :- d.ReadU8();
    if tag == 0 {
      return Success(None);
    }
    if tag != 1 {
      return Failure(BadOptionTag(tag));
    }
    if d.depth >= MAX_NESTING {
      return Failure(TooDeep);
    }
    d.depth := d.depth + 1;
    var raw := ReadHash(d);
    d.depth := d.depth - 1;
    if raw.Failure? {
      return Failure(raw.error);
    }
    r := Success(Some(AssetId(raw.value)));
  }

  method ReadKey(d: Decoder) returns (r: Result<VerifyingKey, CodecError>)
    requires d.Valid()
    modifies d`position
    ensures d.Valid() && Tells(KeyCodec().dec(d.depth, old(d.Rest())), r, d.Rest())
  {
    ghost var b := d.Rest();
    var byte :- d.ReadU8();
    var algorithm := AlgorithmOf(byte);
    if algorithm.None? || !algorithm.value.IsSignature() {
      return Failure(Invalid);
    }
    var n := algorithm.value.PublicKeyLen();
    var bytes :- d.ReadRaw(n);
    assert bytes == b[1..1 + n] && d.Rest() == b[1 + n..];
    r := Success(Key(algorithm.value, bytes));
  }

  method ReadDevice(d: Decoder) returns (r: Result<Device, CodecError>)
    requires d.Valid()
    modifies d`position
    ensures d.Valid() && Tells(DeviceCodec().dec(d.depth, old(d.Rest())), r, d.Rest())
  {
    hide KeyCodec, U32, U64;
    var key :- ReadKey(d);
    var lane :- ReadU32(d);
    var share :- ReadU64(d);
    var spent :- ReadU64(d);
    r := Success(Device(key, lane, share, spent));
  }

  method ReadName(d: Decoder) returns (r: Result<Option<Name>, CodecError>)
    requires d.Valid()
    modifies d
    ensures d.Valid() && d.depth == old(d.depth)
    ensures Tells(Optional(NameCodec()).dec(d.depth, old(d.Rest())), r, d.Rest())
  {
    hide DecStr, IsName;
    var tag :- d.ReadU8();
    if tag == 0 {
      return Success(None);
    }
    if tag != 1 {
      return Failure(BadOptionTag(tag));
    }
    if d.depth >= MAX_NESTING {
      return Failure(TooDeep);
    }
    d.depth := d.depth + 1;
    var bytes := d.ReadStr();
    d.depth := d.depth - 1;
    if bytes.Failure? {
      return Failure(bytes.error);
    }
    var name := NameFrom(bytes.value);
    if name.None? {
      return Failure(Invalid);
    }
    r := Success(name);
  }

  // ----- Collections, keys strictly ascending

  method ReadBalances(d: Decoder) returns (r: Result<map<Asset, Amount>, CodecError>)
    requires d.Valid()
    modifies d
    ensures d.Valid() && d.depth == old(d.depth)
    ensures Tells(BalancesCodec(MAX_SEQ_LEN).dec(d.depth, old(d.Rest())), r, d.Rest())
  {
    hide AssetCodec, U64, RankAsset, MapFrom, DecEntries, DecCount, EntriesUnderway, Injective, MapOf;
    RanksInjective();
    NothingRead<Asset, Amount>();
    ghost var c, e := AssetCodec(), U64();
    MapDecodes(AssetCodec(), U64(), RankAsset, MAX_SEQ_LEN, d.depth, d.Rest());
    var count :- d.ReadSeqLen();
    ghost var start, xs, least := d.Rest(), [], 0;
    EntriesStarted(c, e, RankAsset, d.depth, count, start);
    var balances: map<Asset, Amount> := map[];
    var previous: Option<Asset> := None;
    for i := 0 to count
      invariant d.Valid() && d.depth == old(d.depth)
      invariant least == if previous.None? then 0 else RankAsset(previous.value) + 1
      invariant |xs| == i && balances == MapFrom(xs)
      invariant EntriesUnderway(c, e, RankAsset, d.depth, count, start, xs, least, d.Rest())
    {
      ghost var here := d.Rest();
      NextKey(c, e, RankAsset, d.depth, count, start, xs, least, here);
      var asset :- ReadAsset(d);
      if previous.Some? && RankAsset(asset) <= RankAsset(previous.value) {
        return Failure(UnorderedSet);
      }
      previous := Some(asset);
      NextValue(c, e, RankAsset, d.depth, count, start, xs, least, here);
      var amount :- ReadU64(d);
      xs, least := xs + [(asset, amount)], RankAsset(asset) + 1;
      balances := balances[asset := amount];
    }
    EntriesFinished(c, e, RankAsset, d.depth, count, start, xs, least, d.Rest());
    r := Success(balances);
  }

  method ReadDevices(d: Decoder) returns (r: Result<map<DeviceId, Device>, CodecError>)
    requires d.Valid()
    modifies d
    ensures d.Valid() && d.depth == old(d.depth)
    ensures Tells(DevicesCodec(MAX_SEQ_LEN).dec(d.depth, old(d.Rest())), r, d.Rest())
  {
    hide DeviceIdCodec, DeviceCodec, RankDevice, MapFrom, DecEntries, DecCount, EntriesUnderway, Injective, MapOf;
    RanksInjective();
    NothingRead<DeviceId, Device>();
    ghost var c, e := DeviceIdCodec(), DeviceCodec();
    MapDecodes(DeviceIdCodec(), DeviceCodec(), RankDevice, MAX_SEQ_LEN, d.depth, d.Rest());
    var count :- d.ReadSeqLen();
    ghost var start, xs, least := d.Rest(), [], 0;
    EntriesStarted(c, e, RankDevice, d.depth, count, start);
    var devices: map<DeviceId, Device> := map[];
    var previous: Option<DeviceId> := None;
    for i := 0 to count
      invariant d.Valid() && d.depth == old(d.depth)
      invariant least == if previous.None? then 0 else RankDevice(previous.value) + 1
      invariant |xs| == i && devices == MapFrom(xs)
      invariant EntriesUnderway(c, e, RankDevice, d.depth, count, start, xs, least, d.Rest())
    {
      ghost var here := d.Rest();
      NextKey(c, e, RankDevice, d.depth, count, start, xs, least, here);
      var id :- ReadDeviceId(d);
      if previous.Some? && RankDevice(id) <= RankDevice(previous.value) {
        return Failure(UnorderedSet);
      }
      previous := Some(id);
      NextValue(c, e, RankDevice, d.depth, count, start, xs, least, here);
      var device :- ReadDevice(d);
      xs, least := xs + [(id, device)], RankDevice(id) + 1;
      devices := devices[id := device];
    }
    EntriesFinished(c, e, RankDevice, d.depth, count, start, xs, least, d.Rest());
    r := Success(devices);
  }

  method ReadLanes(d: Decoder) returns (r: Result<map<Lane, u64>, CodecError>)
    requires d.Valid()
    modifies d
    ensures d.Valid() && d.depth == old(d.depth)
    ensures Tells(LanesCodec(MAX_SEQ_LEN).dec(d.depth, old(d.Rest())), r, d.Rest())
  {
    hide U32, U64, RankLane, MapFrom, DecEntries, DecCount, EntriesUnderway, Injective, MapOf;
    RanksInjective();
    NothingRead<Lane, u64>();
    ghost var c, e := U32(), U64();
    MapDecodes(U32(), U64(), RankLane, MAX_SEQ_LEN, d.depth, d.Rest());
    var count :- d.ReadSeqLen();
    ghost var start, xs, least := d.Rest(), [], 0;
    EntriesStarted(c, e, RankLane, d.depth, count, start);
    var lanes: map<Lane, u64> := map[];
    var previous: Option<Lane> := None;
    for i := 0 to count
      invariant d.Valid() && d.depth == old(d.depth)
      invariant least == if previous.None? then 0 else RankLane(previous.value) + 1
      invariant |xs| == i && lanes == MapFrom(xs)
      invariant EntriesUnderway(c, e, RankLane, d.depth, count, start, xs, least, d.Rest())
    {
      ghost var here := d.Rest();
      NextKey(c, e, RankLane, d.depth, count, start, xs, least, here);
      var lane :- ReadU32(d);
      if previous.Some? && RankLane(lane) <= RankLane(previous.value) {
        return Failure(UnorderedSet);
      }
      previous := Some(lane);
      NextValue(c, e, RankLane, d.depth, count, start, xs, least, here);
      var sequence :- ReadU64(d);
      xs, least := xs + [(lane, sequence)], RankLane(lane) + 1;
      lanes := lanes[lane := sequence];
    }
    EntriesFinished(c, e, RankLane, d.depth, count, start, xs, least, d.Rest());
    r := Success(lanes);
  }

  method ReadRevoked(d: Decoder) returns (r: Result<set<DeviceId>, CodecError>)
    requires d.Valid()
    modifies d
    ensures d.Valid() && d.depth == old(d.depth)
    ensures Tells(RevokedCodec(MAX_SEQ_LEN).dec(d.depth, old(d.Rest())), r, d.Rest())
  {
    hide DeviceIdCodec, RankDevice, DecItems, DecCount, Underway, Injective, SetOf, Members;
    RanksInjective();
    NothingRead<DeviceId, DeviceId>();
    ghost var c := DeviceIdCodec();
    SetDecodes(c, RankDevice, MAX_SEQ_LEN, d.depth, d.Rest());
    var count :- d.ReadSeqLen();
    ghost var depth, start, xs, least := d.depth + 1, d.Rest(), [], 0;
    Started(c, RankDevice, depth, count, start);
    var revoked: set<DeviceId> := {};
    var previous: Option<DeviceId> := None;
    for i := 0 to count
      invariant d.Valid() && d.depth == old(d.depth)
      invariant least == if previous.None? then 0 else RankDevice(previous.value) + 1
      invariant |xs| == i && revoked == Members(xs) && (i > 0 ==> d.depth < MAX_NESTING)
      invariant Underway(c, RankDevice, depth, count, start, xs, least, d.Rest())
    {
      NextItem(c, RankDevice, depth, count, start, xs, least, d.Rest());
      if d.depth >= MAX_NESTING {
        return Failure(TooDeep);
      }
      d.depth := d.depth + 1;
      var item := ReadDeviceId(d);
      d.depth := d.depth - 1;
      if item.Failure? {
        return Failure(item.error);
      }
      if previous.Some? && RankDevice(item.value) <= RankDevice(previous.value) {
        return Failure(UnorderedSet);
      }
      previous := Some(item.value);
      MembersAppend(xs, item.value);
      xs, least := xs + [item.value], RankDevice(item.value) + 1;
      revoked := revoked + {item.value};
    }
    Finished(c, RankDevice, depth, count, start, xs, least, d.Rest());
    r := Success(revoked);
  }

  method ReadGuardians(d: Decoder) returns (r: Result<set<AccountId>, CodecError>)
    requires d.Valid()
    modifies d
    ensures d.Valid() && d.depth == old(d.depth)
    ensures Tells(GuardiansCodec(MAX_SEQ_LEN).dec(d.depth, old(d.Rest())), r, d.Rest())
  {
    hide AccountIdCodec, RankAccount, DecItems, DecCount, Underway, Injective, SetOf, Members;
    RanksInjective();
    NothingRead<AccountId, AccountId>();
    ghost var c := AccountIdCodec();
    SetDecodes(c, RankAccount, MAX_SEQ_LEN, d.depth, d.Rest());
    var count :- d.ReadSeqLen();
    ghost var depth, start, xs, least := d.depth + 1, d.Rest(), [], 0;
    Started(c, RankAccount, depth, count, start);
    var guardians: set<AccountId> := {};
    var previous: Option<AccountId> := None;
    for i := 0 to count
      invariant d.Valid() && d.depth == old(d.depth)
      invariant least == if previous.None? then 0 else RankAccount(previous.value) + 1
      invariant |xs| == i && guardians == Members(xs) && (i > 0 ==> d.depth < MAX_NESTING)
      invariant Underway(c, RankAccount, depth, count, start, xs, least, d.Rest())
    {
      NextItem(c, RankAccount, depth, count, start, xs, least, d.Rest());
      if d.depth >= MAX_NESTING {
        return Failure(TooDeep);
      }
      d.depth := d.depth + 1;
      var item := ReadAccountId(d);
      d.depth := d.depth - 1;
      if item.Failure? {
        return Failure(item.error);
      }
      if previous.Some? && RankAccount(item.value) <= RankAccount(previous.value) {
        return Failure(UnorderedSet);
      }
      previous := Some(item.value);
      MembersAppend(xs, item.value);
      xs, least := xs + [item.value], RankAccount(item.value) + 1;
      guardians := guardians + {item.value};
    }
    Finished(c, RankAccount, depth, count, start, xs, least, d.Rest());
    r := Success(guardians);
  }

  // ----- Whole records

  method ReadClosure(d: Decoder) returns (r: Result<PendingClosure, CodecError>)
    requires d.Valid()
    modifies d`position
    ensures d.Valid() && Tells(ClosureCodec().dec(d.depth, old(d.Rest())), r, d.Rest())
  {
    hide AccountIdCodec, U32, U64, DecFlag;
    var claimant :- ReadAccountId(d);
    var claimed :- ReadU32(d);
    var openedAt :- ReadU64(d);
    var duration :- ReadU64(d);
    var disputed :- d.ReadBool();
    r := Success(PendingClosure(claimant, claimed, Window(openedAt, duration), disputed));
  }

  method ReadClosing(d: Decoder) returns (r: Result<Option<PendingClosure>, CodecError>)
    requires d.Valid()
    modifies d
    ensures d.Valid() && d.depth == old(d.depth)
    ensures Tells(Optional(ClosureCodec()).dec(d.depth, old(d.Rest())), r, d.Rest())
  {
    hide ClosureCodec;
    var tag :- d.ReadU8();
    if tag == 0 {
      return Success(None);
    }
    if tag != 1 {
      return Failure(BadOptionTag(tag));
    }
    if d.depth >= MAX_NESTING {
      return Failure(TooDeep);
    }
    d.depth := d.depth + 1;
    var closing := ReadClosure(d);
    d.depth := d.depth - 1;
    if closing.Failure? {
      return Failure(closing.error);
    }
    r := Success(Some(closing.value));
  }

  method ReadPurseTail(d: Decoder) returns (r: Result<PurseTail, CodecError>)
    requires d.Valid()
    modifies d
    ensures d.Valid() && d.depth == old(d.depth)
    ensures Tells(PurseTailCodec().dec(d.depth, old(d.Rest())), r, d.Rest())
  {
    hide HashCodec, U32, U64, ClosureCodec, Optional;
    var root :- ReadHash(d);
    var trancheValue :- ReadU64(d);
    var capacity :- ReadU32(d);
    var expiry :- ReadU64(d);
    var closing :- ReadClosing(d);
    r := Success((root, (trancheValue, (capacity, (expiry, closing)))));
  }

  method ReadPurse(d: Decoder) returns (r: Result<LedgerPurse, CodecError>)
    requires d.Valid()
    modifies d
    ensures d.Valid() && d.depth == old(d.depth)
    ensures Tells(PurseCodec().dec(d.depth, old(d.Rest())), r, d.Rest())
  {
    hide AccountIdCodec, AssetCodec, U64, PurseTailCodec;
    var payer :- ReadAccountId(d);
    var payee :- ReadAccountId(d);
    var asset :- ReadAsset(d);
    var deposit :- ReadU64(d);
    var tail :- ReadPurseTail(d);
    var purse := PurseFrom((payer, (payee, (asset, (deposit, tail)))));
    r := Success(purse.value);
  }

  method ReadAccountTail(d: Decoder) returns (r: Result<AccountTail, CodecError>)
    requires d.Valid()
    modifies d
    ensures d.Valid() && d.depth == old(d.depth)
    ensures Tells(AccountTailCodec(MAX_SEQ_LEN).dec(d.depth, old(d.Rest())), r, d.Rest())
  {
    hide U32, U64, LanesCodec, GuardiansCodec, NameCodec, Optional;
    var nextLane :- ReadU32(d);
    var lanes :- ReadLanes(d);
    var guardians :- ReadGuardians(d);
    var threshold :- ReadU32(d);
    var bonded :- ReadU64(d);
    var name :- ReadName(d);
    r := Success((nextLane, (lanes, (guardians, (threshold, (bonded, name))))));
  }

  method ReadAccount(d: Decoder) returns (r: Result<Account, CodecError>)
    requires d.Valid()
    modifies d
    ensures d.Valid() && d.depth == old(d.depth)
    ensures Tells(AccountCodec(MAX_SEQ_LEN).dec(d.depth, old(d.Rest())), r, d.Rest())
  {
    hide U64, BalancesCodec, DevicesCodec, RevokedCodec, AccountTailCodec;
    var balances :- ReadBalances(d);
    var credit :- ReadU64(d);
    var margin :- ReadU64(d);
    var devices :- ReadDevices(d);
    var revoked :- ReadRevoked(d);
    var tail :- ReadAccountTail(d);
    var account := AccountFrom((balances, (credit, (margin, (devices, (revoked, tail))))));
    r := Success(account.value);
  }

  /** A whole input decodes to the account it encodes, or fails with the fault met first. */
  method DecodeAccount(input: Bytes) returns (r: Result<Account, CodecError>)
    ensures r == FromCanonicalBytes(AccountCodec(MAX_SEQ_LEN), input)
    ensures forall a: Account :: r == Success(a) <==>
      |input| <= MAX_OBJECT_SIZE && AccountWithin(a, MAX_SEQ_LEN) && input == AccountCodec(MAX_SEQ_LEN).enc(a)
  {
    hide AccountCodec, AccountWithin;
    forall a: Account
      ensures FromCanonicalBytes(AccountCodec(MAX_SEQ_LEN), input) == Success(a) <==>
              |input| <= MAX_OBJECT_SIZE && AccountWithin(a, MAX_SEQ_LEN) && input == AccountCodec(MAX_SEQ_LEN).enc(a)
    {
      AccountBijective(input, a);
    }
    var d :- Decoder.Over(input);
    var account :- ReadAccount(d);
    var end := d.Finish();
    if end.Fail? {
      return Failure(end.error);
    }
    r := Success(account);
  }

  /** A whole input decodes to the channel it encodes, or fails with the fault met first. */
  method DecodePurse(input: Bytes) returns (r: Result<LedgerPurse, CodecError>)
    ensures r == FromCanonicalBytes(PurseCodec(), input)
    ensures forall p: LedgerPurse :: r == Success(p) <==> |input| <= MAX_OBJECT_SIZE && input == PurseCodec().enc(p)
  {
    hide PurseCodec;
    forall p: LedgerPurse
      ensures FromCanonicalBytes(PurseCodec(), input) == Success(p) <==>
        |input| <= MAX_OBJECT_SIZE && input == PurseCodec().enc(p)
    {
      PurseBijective(input, p);
    }
    var d :- Decoder.Over(input);
    var purse :- ReadPurse(d);
    var end := d.Finish();
    if end.Fail? {
      return Failure(end.error);
    }
    r := Success(purse);
  }
}
