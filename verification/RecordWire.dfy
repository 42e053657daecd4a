/** Each record written field by field, exactly as its codec says. */
module RecordWire {
  import opened Prelude
  import opened Types
  import opened Orders
  import opened Codec
  import opened Records
  import opened Wire
  import opened Accounts
  import opened Purses
  import opened PurseBooks
  import opened AssetRegistries
  import opened NameBooks
  import opened RecoveryBooks
  import opened SlashingBooks

  lemma Shift(a: Bytes, b: Bytes, c: Bytes)
    ensures a + (b + c) == (a + b) + c
  {
  }

  lemma {:induction false} EncItemsAppend<T(!new)>(c: Codec<T>, xs: seq<T>, x: T)
    ensures EncItems(c, xs + [x]) == EncItems(c, xs) + c.enc(x)
    decreases |xs|
  {
    if xs == [] {
      assert xs + [x] == [x];
      assert [x][1..] == [];
    } else {
      EncItemsAppend(c, xs[1..], x);
      assert (xs + [x])[1..] == xs[1..] + [x];
      Shift(c.enc(xs[0]), EncItems(c, xs[1..]), c.enc(x));
    }
  }

  lemma EncItemsStep<T(!new)>(c: Codec<T>, xs: seq<T>, i: nat, before: Bytes)
    requires i < |xs|
    ensures before + EncItems(c, xs[..i + 1]) == before + EncItems(c, xs[..i]) + c.enc(xs[i])
  {
    assert xs[..i + 1] == xs[..i] + [xs[i]];
    EncItemsAppend(c, xs[..i], xs[i]);
    Shift(before, EncItems(c, xs[..i]), c.enc(xs[i]));
  }

  // ----- Optional identifiers

  method WriteAsset(e: Encoder, asset: Asset)
    modifies e
    ensures e.buf == old(e.buf) + AssetCodec().enc(asset)
  {
    match asset
    case None => e.WriteU8(0);
    case Some(id) =>
      e.WriteU8(1);
      e.WriteRaw(id.raw.bytes);
      Shift(old(e.buf), [1], id.raw.bytes);
  }

  method WriteName(e: Encoder, name: Name)
    modifies e
    ensures e.buf == old(e.buf) + NameCodec().enc(name)
  {
    NameCharacters(name);
    hide IsName;
    e.WriteBytes(NameBytes(name));
  }

  method WriteKey(e: Encoder, key: VerifyingKey)
    modifies e
    ensures e.buf == old(e.buf) + KeyCodec().enc(key)
  {
    e.WriteU8(AlgorithmByte(key.algorithm));
    e.WriteRaw(key.bytes);
    Shift(old(e.buf), [AlgorithmByte(key.algorithm)], key.bytes);
  }

  // ----- Channels

  method WriteClosure(e: Encoder, c: PendingClosure)
    modifies e
    ensures e.buf == old(e.buf) + ClosureCodec().enc(c)
  {
    ghost var b0 := e.buf;
    ghost var p1 := EncVarint(c.claimedTranches);
    ghost var p2 := EncVarint(c.window.openedAtFinalized);
    ghost var p3 := EncVarint(c.window.duration);
    ghost var p4 := Flag().enc(c.disputed);
    assert ClosureCodec().enc(c) == c.claimant.raw.bytes + (p1 + (p2 + (p3 + p4)));
    hide EncVarint, ClosureCodec, Flag;
    e.WriteRaw(c.claimant.raw.bytes);
    Shift(b0, c.claimant.raw.bytes, p1 + (p2 + (p3 + p4)));
    ghost var b1 := e.buf;
    e.WriteVarint(c.claimedTranches);
    Shift(b1, p1, p2 + (p3 + p4));
    ghost var b2 := e.buf;
    e.WriteVarint(c.window.openedAtFinalized);
    Shift(b2, p2, p3 + p4);
    ghost var b3 := e.buf;
    e.WriteVarint(c.window.duration);
    Shift(b3, p3, p4);
    e.WriteBool(c.disputed);
  }

  method EncodePurse(p: LedgerPurse) returns (b: Bytes)
    ensures b == PurseCodec().enc(p)
  {
    var e := new Encoder();
    ghost var p2 := AssetCodec().enc(p.asset);
    ghost var p8 := Optional(ClosureCodec()).enc(p.closing);
    ghost var r7 := EncVarint(p.expiryFinalizedHeight) + p8;
    ghost var r6 := EncVarint(p.capacity) + r7;
    ghost var r5 := EncVarint(p.trancheValue) + r6;
    ghost var r4 := p.paywordRoot.bytes + r5;
    ghost var r3 := EncVarint(p.deposit) + r4;
    ghost var r2 := p2 + r3;
    assert PurseTailCodec().enc((p.paywordRoot,
        (p.trancheValue, (p.capacity, (p.expiryFinalizedHeight, p.closing))))) == r4;
    assert PurseFieldsCodec().enc(FieldsOfPurse(p)) == p.payer.raw.bytes + (p.payee.raw.bytes + r2);
    assert PurseCodec().enc(p) == p.payer.raw.bytes + (p.payee.raw.bytes + r2);
    assert p8 == if p.closing.Some? then [1] + ClosureCodec().enc(p.closing.value) else [0];
    hide EncVarint, PurseCodec, ClosureCodec, AssetCodec;
    e.WriteRaw(p.payer.raw.bytes);
    Shift([], p.payer.raw.bytes, p.payee.raw.bytes + r2);
    Shift(e.buf, p.payee.raw.bytes, r2);
    e.WriteRaw(p.payee.raw.bytes);
    Shift(e.buf, p2, r3);
    WriteAsset(e, p.asset);
    Shift(e.buf, EncVarint(p.deposit), r4);
    e.WriteVarint(p.deposit);
    Shift(e.buf, p.paywordRoot.bytes, r5);
    e.WriteRaw(p.paywordRoot.bytes);
    Shift(e.buf, EncVarint(p.trancheValue), r6);
    e.WriteVarint(p.trancheValue);
    Shift(e.buf, EncVarint(p.capacity), r7);
    e.WriteVarint(p.capacity);
    Shift(e.buf, EncVarint(p.expiryFinalizedHeight), p8);
    e.WriteVarint(p.expiryFinalizedHeight);
    match p.closing {
      case None => e.WriteU8(0);
      case Some(closing) =>
        Shift(e.buf, [1], ClosureCodec().enc(closing));
        e.WriteU8(1);
        WriteClosure(e, closing);
    }
    b := e.buf;
  }

  // ----- Maps and sets

  /** The bytes of the first `n` entries of a map, after `before`. */
  ghost function MapPrefix<K(!new), V(!new)>(c: Codec<K>, d: Codec<V>, rank: K -> nat, m: map<K, V>, n: nat,
                                              before: Bytes): Bytes
    requires Injective(rank) && n <= |m|
  {
    EntriesAscend(rank, m);
    before + EncItems(Pair(c, d), EntriesIn(rank, m)[..n])
  }

  lemma MapStarts<K(!new), V(!new)>(c: Codec<K>, d: Codec<V>, rank: K -> nat, limit: nat, m: map<K, V>, before: Bytes)
    requires Injective(rank)
    ensures MapPrefix(c, d, rank, m, 0, before) == before
    ensures |Items(rank, m.Keys)| == |m|
    ensures MapPrefix(c, d, rank, m, |m|, before + EncLen(|m|)) == before + MapOf(c, d, rank, limit).enc(m)
  {
    hide EncLen;
    EntriesAscend(rank, m);
    var entries := EntriesIn(rank, m);
    assert entries[..0] == [] && entries[..|m|] == entries;
    Shift(before, EncLen(|m|), EncItems(Pair(c, d), entries));
  }

  lemma MapStep<K(!new), V(!new)>(c: Codec<K>, d: Codec<V>, rank: K -> nat, m: map<K, V>, i: nat, before: Bytes)
    requires Injective(rank) && i < |m|
    ensures |Items(rank, m.Keys)| == |m| && Items(rank, m.Keys)[i] in m
    ensures var k := Items(rank, m.Keys)[i];
      MapPrefix(c, d, rank, m, i + 1, before) == MapPrefix(c, d, rank, m, i, before) + c.enc(k) + d.enc(m[k])
  {
    hide EncItems;
    EntriesAscend(rank, m);
    var k := Items(rank, m.Keys)[i];
    assert k in Items(rank, m.Keys);
    assert EntriesIn(rank, m)[i] == (k, m[k]);
    EncItemsStep(Pair(c, d), EntriesIn(rank, m), i, before);
    Shift(MapPrefix(c, d, rank, m, i, before), c.enc(k), d.enc(m[k]));
  }

  ghost function SetPrefix<K(!new)>(c: Codec<K>, rank: K -> nat, s: set<K>, n: nat, before: Bytes): Bytes
    requires Injective(rank) && n <= |s|
  {
    before + EncItems(c, Items(rank, s)[..n])
  }

  lemma SetStarts<K(!new)>(c: Codec<K>, rank: K -> nat, limit: nat, s: set<K>, before: Bytes)
    requires Injective(rank)
    ensures SetPrefix(c, rank, s, 0, before) == before
    ensures |Items(rank, s)| == |s|
    ensures SetPrefix(c, rank, s, |s|, before + EncLen(|s|)) == before + SetOf(c, rank, limit).enc(s)
  {
    hide EncLen;
    var items := Items(rank, s);
    assert items[..0] == [] && items[..|s|] == items;
    Shift(before, EncLen(|s|), EncItems(c, items));
  }

  lemma SetStep<K(!new)>(c: Codec<K>, rank: K -> nat, s: set<K>, i: nat, before: Bytes)
    requires Injective(rank) && i < |s|
    ensures |Items(rank, s)| == |s|
    ensures SetPrefix(c, rank, s, i + 1, before) == SetPrefix(c, rank, s, i, before) + c.enc(Items(rank, s)[i])
  {
    hide EncItems;
    EncItemsStep(c, Items(rank, s), i, before);
  }

  /** A compiled enumeration, in the order the codec writes. */
  method InOrder<K(==,!new)>(rank: K -> nat, s: set<K>) returns (xs: seq<K>)
    requires Injective(rank)
    ensures xs == Items(rank, s) && |xs| == |s|
  {
    xs := Ascend(rank, s);
  }

  // ----- Accounts

  lemma IdBytes()
    ensures forall id: DeviceId :: DeviceIdCodec().enc(id) == id.raw.bytes
    ensures forall id: AccountId :: AccountIdCodec().enc(id) == id.raw.bytes
    ensures forall n: u64 :: U64().enc(n) == EncVarint(n)
    ensures forall n: u32 :: U32().enc(n) == EncVarint(n)
  {
    hide EncVarint;
  }

  method WriteBalances(e: Encoder, m: map<Asset, Amount>, ghost limit: nat)
    modifies e
    ensures e.buf == old(e.buf) + BalancesCodec(limit).enc(m)
  {
    hide RankAsset, EncVarint, EncLen, AssetCodec, U64, U32, DeviceIdCodec, AccountIdCodec, MapPrefix, MapOf,
        Injective, Items;
    RanksInjective();
    IdBytes();
    MapStarts(AssetCodec(), U64(), RankAsset, limit, m, old(e.buf));
    var keys := InOrder(RankAsset, m.Keys);
    e.WriteLen(|keys|);
    ghost var before := e.buf;
    MapStarts(AssetCodec(), U64(), RankAsset, limit, m, before);
    var i := 0;
    while i < |keys|
      invariant 0 <= i <= |keys|
      invariant e.buf == MapPrefix(AssetCodec(), U64(), RankAsset, m, i, before)
    {
      MapStep(AssetCodec(), U64(), RankAsset, m, i, before);
      WriteAsset(e, keys[i]);
      e.WriteVarint(m[keys[i]]);
      i := i + 1;
    }
  }

  method WriteDevice(e: Encoder, id: DeviceId, d: Device)
    modifies e
    ensures e.buf == old(e.buf) + DeviceIdCodec().enc(id) + DeviceCodec().enc(d)
  {
    IdBytes();
    ghost var r2 := EncVarint(d.nomadShare) + EncVarint(d.nomadSpent);
    ghost var r1 := EncVarint(d.lane) + r2;
    assert DeviceCodec().enc(d) == KeyCodec().enc(d.key) + r1;
    hide EncVarint, DeviceCodec, KeyCodec, DeviceIdCodec;
    e.WriteRaw(id.raw.bytes);
    Shift(e.buf, KeyCodec().enc(d.key), r1);
    WriteKey(e, d.key);
    Shift(e.buf, EncVarint(d.lane), r2);
    e.WriteVarint(d.lane);
    Shift(e.buf, EncVarint(d.nomadShare), EncVarint(d.nomadSpent));
    e.WriteVarint(d.nomadShare);
    e.WriteVarint(d.nomadSpent);
  }

  method WriteDevices(e: Encoder, m: map<DeviceId, Device>, ghost limit: nat)
    modifies e
    ensures e.buf == old(e.buf) + DevicesCodec(limit).enc(m)
  {
    hide RankDevice, EncVarint, EncLen, DeviceIdCodec, DeviceCodec, MapPrefix, MapOf, Injective, Items;
    RanksInjective();
    MapStarts(DeviceIdCodec(), DeviceCodec(), RankDevice, limit, m, old(e.buf));
    var keys := InOrder(RankDevice, m.Keys);
    e.WriteLen(|keys|);
    ghost var before := e.buf;
    MapStarts(DeviceIdCodec(), DeviceCodec(), RankDevice, limit, m, before);
    var i := 0;
    while i < |keys|
      invariant 0 <= i <= |keys|
      invariant e.buf == MapPrefix(DeviceIdCodec(), DeviceCodec(), RankDevice, m, i, before)
    {
      MapStep(DeviceIdCodec(), DeviceCodec(), RankDevice, m, i, before);
      WriteDevice(e, keys[i], m[keys[i]]);
      i := i + 1;
    }
  }

  method WriteLanes(e: Encoder, m: map<Lane, u64>, ghost limit: nat)
    modifies e
    ensures e.buf == old(e.buf) + LanesCodec(limit).enc(m)
  {
    hide RankLane, EncVarint, EncLen, U64, U32, DeviceIdCodec, AccountIdCodec, MapPrefix, MapOf, Injective, Items;
    RanksInjective();
    IdBytes();
    MapStarts(U32(), U64(), RankLane, limit, m, old(e.buf));
    var keys := InOrder(RankLane, m.Keys);
    e.WriteLen(|keys|);
    ghost var before := e.buf;
    MapStarts(U32(), U64(), RankLane, limit, m, before);
    var i := 0;
    while i < |keys|
      invariant 0 <= i <= |keys|
      invariant e.buf == MapPrefix(U32(), U64(), RankLane, m, i, before)
    {
      MapStep(U32(), U64(), RankLane, m, i, before);
      e.WriteVarint(keys[i]);
      e.WriteVarint(m[keys[i]]);
      i := i + 1;
    }
  }

  method WriteRevoked(e: Encoder, s: set<DeviceId>, ghost limit: nat)
    modifies e
    ensures e.buf == old(e.buf) + RevokedCodec(limit).enc(s)
  {
    hide RankDevice, EncVarint, EncLen, U64, U32, DeviceIdCodec, AccountIdCodec, SetPrefix, SetOf, Injective, Items;
    RanksInjective();
    IdBytes();
    SetStarts(DeviceIdCodec(), RankDevice, limit, s, old(e.buf));
    var items := InOrder(RankDevice, s);
    e.WriteLen(|items|);
    ghost var before := e.buf;
    SetStarts(DeviceIdCodec(), RankDevice, limit, s, before);
    var i := 0;
    while i < |items|
      invariant 0 <= i <= |items|
      invariant e.buf == SetPrefix(DeviceIdCodec(), RankDevice, s, i, before)
    {
      SetStep(DeviceIdCodec(), RankDevice, s, i, before);
      e.WriteRaw(items[i].raw.bytes);
      i := i + 1;
    }
  }

  method WriteGuardians(e: Encoder, s: set<AccountId>, ghost limit: nat)
    modifies e
    ensures e.buf == old(e.buf) + GuardiansCodec(limit).enc(s)
  {
    hide RankAccount, EncVarint, EncLen, U64, U32, DeviceIdCodec, AccountIdCodec, SetPrefix, SetOf, Injective, Items;
    RanksInjective();
    IdBytes();
    SetStarts(AccountIdCodec(), RankAccount, limit, s, old(e.buf));
    var items := InOrder(RankAccount, s);
    e.WriteLen(|items|);
    ghost var before := e.buf;
    SetStarts(AccountIdCodec(), RankAccount, limit, s, before);
    var i := 0;
    while i < |items|
      invariant 0 <= i <= |items|
      invariant e.buf == SetPrefix(AccountIdCodec(), RankAccount, s, i, before)
    {
      SetStep(AccountIdCodec(), RankAccount, s, i, before);
      e.WriteRaw(items[i].raw.bytes);
      i := i + 1;
    }
  }

  ghost function TailOf(a: Account): AccountTail {
    (a.nextLane, (a.lanes, (a.guardians, (a.guardianThreshold, (a.bonded, a.name)))))
  }

  ghost function NameOption(name: Option<Name>): Bytes {
    if name.Some? then [1] + NameCodec().enc(name.value) else [0]
  }

  lemma TailParts(a: Account, limit: nat)
    ensures AccountTailCodec(limit).enc(TailOf(a)) ==
      EncVarint(a.nextLane) + (LanesCodec(limit).enc(a.lanes) + (GuardiansCodec(limit).enc(a.guardians)
        + (EncVarint(a.guardianThreshold) + (EncVarint(a.bonded) + NameOption(a.name)))))
  {
    IdBytes();
    assert Optional(NameCodec()).enc(a.name) == NameOption(a.name);
    hide EncVarint, LanesCodec, GuardiansCodec, NameCodec, U64, U32;
  }

  lemma AccountParts(a: Account, limit: nat)
    ensures AccountCodec(limit).enc(a) ==
      BalancesCodec(limit).enc(a.balances) + (EncVarint(a.nomadCredit) + (EncVarint(a.nomadMargin)
        + (DevicesCodec(limit).enc(a.devices) + (RevokedCodec(limit).enc(a.revokedDevices)
        + AccountTailCodec(limit).enc(TailOf(a))))))
  {
    IdBytes();
    hide EncVarint, BalancesCodec, DevicesCodec, RevokedCodec, AccountTailCodec, U64, U32;
    assert AccountFieldsCodec(limit).enc(FieldsOfAccount(a)) == AccountCodec(limit).enc(a);
  }

  method WriteTail(e: Encoder, a: Account, ghost limit: nat)
    modifies e
    ensures e.buf == old(e.buf) + AccountTailCodec(limit).enc(TailOf(a))
  {
    hide EncVarint, LanesCodec, GuardiansCodec, NameCodec, AccountTailCodec;
    TailParts(a, limit);
    ghost var p6 := LanesCodec(limit).enc(a.lanes);
    ghost var p7 := GuardiansCodec(limit).enc(a.guardians);
    ghost var p10 := NameOption(a.name);
    ghost var r9 := EncVarint(a.bonded) + p10;
    ghost var r8 := EncVarint(a.guardianThreshold) + r9;
    Shift(e.buf, EncVarint(a.nextLane), p6 + (p7 + r8));
    e.WriteVarint(a.nextLane);
    Shift(e.buf, p6, p7 + r8);
    WriteLanes(e, a.lanes, limit);
    Shift(e.buf, p7, r8);
    WriteGuardians(e, a.guardians, limit);
    Shift(e.buf, EncVarint(a.guardianThreshold), r9);
    e.WriteVarint(a.guardianThreshold);
    Shift(e.buf, EncVarint(a.bonded), p10);
    e.WriteVarint(a.bonded);
    match a.name {
      case None => e.WriteU8(0);
      case Some(name) =>
        Shift(e.buf, [1], NameCodec().enc(name));
        e.WriteU8(1);
        WriteName(e, name);
    }
  }

  /** The whole account, field by field; the encoder itself has no limit. */
  method EncodeAccount(a: Account, ghost limit: nat) returns (b: Bytes)
    ensures b == AccountCodec(limit).enc(a)
  {
    hide EncVarint, BalancesCodec, DevicesCodec, RevokedCodec, AccountTailCodec, AccountCodec, TailOf;
    AccountParts(a, limit);
    var e := new Encoder();
    ghost var p0 := BalancesCodec(limit).enc(a.balances);
    ghost var p3 := DevicesCodec(limit).enc(a.devices);
    ghost var p4 := RevokedCodec(limit).enc(a.revokedDevices);
    ghost var p5 := AccountTailCodec(limit).enc(TailOf(a));
    ghost var r3 := p3 + (p4 + p5);
    ghost var r2 := EncVarint(a.nomadMargin) + r3;
    Shift(e.buf, p0, EncVarint(a.nomadCredit) + r2);
    WriteBalances(e, a.balances, limit);
    Shift(e.buf, EncVarint(a.nomadCredit), r2);
    e.WriteVarint(a.nomadCredit);
    Shift(e.buf, EncVarint(a.nomadMargin), r3);
    e.WriteVarint(a.nomadMargin);
    Shift(e.buf, p3, p4 + p5);
    WriteDevices(e, a.devices, limit);
    Shift(e.buf, p4, p5);
    WriteRevoked(e, a.revokedDevices, limit);
    WriteTail(e, a, limit);
    b := e.buf;
  }

  // ----- The other records

  method EncodeAssetRecord(r: AssetRecord) returns (b: Bytes)
    ensures b == AssetRecordCodec().enc(r)
  {
    ghost var p1 := NameCodec().enc(r.ticker);
    ghost var r3 := Flag().enc(r.reissuable) + EncVarint(r.supply);
    ghost var r2 := EncVarint(r.decimals) + r3;
    assert AssetRecordCodec().enc(r) == r.issuer.raw.bytes + (p1 + r2);
    hide EncVarint, AssetRecordCodec, NameCodec, Flag;
    var e := new Encoder();
    Shift(e.buf, r.issuer.raw.bytes, p1 + r2);
    e.WriteRaw(r.issuer.raw.bytes);
    Shift(e.buf, p1, r2);
    WriteName(e, r.ticker);
    Shift(e.buf, EncVarint(r.decimals), r3);
    e.WriteVarint(r.decimals);
    Shift(e.buf, Flag().enc(r.reissuable), EncVarint(r.supply));
    e.WriteBool(r.reissuable);
    e.WriteVarint(r.supply);
    b := e.buf;
  }

  method EncodeCommitment(r: CommitmentRecord) returns (b: Bytes)
    ensures b == CommitmentCodec().enc(r)
  {
    var e := new Encoder();
    e.WriteRaw(r.account.raw.bytes);
    e.WriteVarint(r.committedAtFinalized);
    b := e.buf;
  }

  method EncodeRecovery(r: PendingRecovery, ghost limit: nat) returns (b: Bytes)
    ensures b == RecoveryCodec(limit).enc(r)
  {
    ghost var p0 := KeyCodec().enc(r.newRootKey);
    ghost var p1 := GuardiansCodec(limit).enc(r.approvals);
    ghost var r2 := EncVarint(r.window.openedAtFinalized) + EncVarint(r.window.duration);
    assert RecoveryCodec(limit).enc(r) == p0 + (p1 + r2);
    hide EncVarint, RecoveryCodec, KeyCodec, GuardiansCodec;
    var e := new Encoder();
    Shift(e.buf, p0, p1 + r2);
    WriteKey(e, r.newRootKey);
    Shift(e.buf, p1, r2);
    WriteGuardians(e, r.approvals, limit);
    Shift(e.buf, EncVarint(r.window.openedAtFinalized), EncVarint(r.window.duration));
    e.WriteVarint(r.window.openedAtFinalized);
    e.WriteVarint(r.window.duration);
    b := e.buf;
  }

  method EncodeAccountOffence(x: AccountOffence) returns (b: Bytes)
    ensures b == AccountOffenceCodec().enc(x)
  {
    ghost var r2 := EncVarint(x.lane) + EncVarint(x.sequence);
    assert AccountOffenceCodec().enc(x) == x.account.raw.bytes + (x.device.raw.bytes + r2);
    hide EncVarint, AccountOffenceCodec;
    var e := new Encoder();
    Shift(e.buf, x.account.raw.bytes, x.device.raw.bytes + r2);
    e.WriteRaw(x.account.raw.bytes);
    Shift(e.buf, x.device.raw.bytes, r2);
    e.WriteRaw(x.device.raw.bytes);
    Shift(e.buf, EncVarint(x.lane), EncVarint(x.sequence));
    e.WriteVarint(x.lane);
    e.WriteVarint(x.sequence);
    b := e.buf;
  }

  method EncodeValidatorOffence(x: ValidatorOffence) returns (b: Bytes)
    ensures b == ValidatorOffenceCodec().enc(x)
  {
    var e := new Encoder();
    e.WriteRaw(x.validator.raw.bytes);
    e.WriteVarint(x.height);
    b := e.buf;
  }

  method EncodeCounters(burned: Amount, pot: Amount, fees: Amount) returns (b: Bytes)
    ensures b == CountersCodec().enc((burned, (pot, fees)))
  {
    assert CountersCodec().enc((burned, (pot, fees))) == EncVarint(burned) + (EncVarint(pot) + EncVarint(fees));
    hide EncVarint, CountersCodec;
    var e := new Encoder();
    Shift(e.buf, EncVarint(burned), EncVarint(pot) + EncVarint(fees));
    e.WriteVarint(burned);
    Shift(e.buf, EncVarint(pot), EncVarint(fees));
    e.WriteVarint(pot);
    e.WriteVarint(fees);
    b := e.buf;
  }
}
