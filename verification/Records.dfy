/** The canonical form of every record the state holds, field by field in order. */
module Records {
  import opened Prelude
  import opened Types
  import opened Accounts
  import opened Purses
  import opened PurseBooks
  import opened AssetRegistries
  import opened NameBooks
  import opened RecoveryBooks
  import opened SlashingBooks
  import opened Codec

  // ----- Numbers and identifiers

  ghost function U64(): Codec<u64> {
    Refine(Varint(U64_LIMIT), (x: int) => if 0 <= x < U64_LIMIT then Some(x as u64) else None, (y: u64) => y as int)
  }

  ghost function U32(): Codec<u32> {
    Refine(Varint(U32_LIMIT), (x: int) => if 0 <= x < U32_LIMIT then Some(x as u32) else None, (y: u32) => y as int)
  }

  ghost function U8(): Codec<u8> {
    Refine(Varint(U8_LIMIT), (x: int) => if 0 <= x < U8_LIMIT then Some(x as u8) else None, (y: u8) => y as int)
  }

  lemma NumbersLawful()
    ensures Lawful(U64()) && Lawful(U32()) && Lawful(U8())
    ensures (forall x: u64 :: U64().valid(x)) && (forall x: u32 :: U32().valid(x)) && (forall x: u8 :: U8().valid(x))
    ensures U64().height == 0 && U32().height == 0 && U8().height == 0
  {
    VarintLawful(U64_LIMIT);
    VarintLawful(U32_LIMIT);
    VarintLawful(U8_LIMIT);
    RefineLawful(Varint(U64_LIMIT), (x: int) => if 0 <= x < U64_LIMIT then Some(x as u64) else None,
        (y: u64) => y as int);
    RefineLawful(Varint(U32_LIMIT), (x: int) => if 0 <= x < U32_LIMIT then Some(x as u32) else None,
        (y: u32) => y as int);
    RefineLawful(Varint(U8_LIMIT), (x: int) => if 0 <= x < U8_LIMIT then Some(x as u8) else None, (y: u8) => y as int);
  }

  function HashFrom(b: Bytes): Option<Hash> {
    if |b| == 32 then Some(Bytes32(b)) else None
  }

  ghost function HashCodec(): Codec<Hash> {
    Refine(FixedBytes(32), HashFrom, (h: Hash) => h.bytes)
  }

  lemma HashLawful()
    ensures Lawful(HashCodec()) && forall h: Hash :: HashCodec().valid(h)
  {
    FixedBytesLawful(32);
    RefineLawful(FixedBytes(32), HashFrom, (h: Hash) => h.bytes);
  }

  ghost function AccountIdCodec(): Codec<AccountId> {
    Refine(HashCodec(), (h: Hash) => Some(AccountId(h)), (id: AccountId) => id.raw)
  }

  ghost function DeviceIdCodec(): Codec<DeviceId> {
    Refine(HashCodec(), (h: Hash) => Some(DeviceId(h)), (id: DeviceId) => id.raw)
  }

  ghost function AssetIdCodec(): Codec<AssetId> {
    Refine(HashCodec(), (h: Hash) => Some(AssetId(h)), (id: AssetId) => id.raw)
  }

  ghost function AssetCodec(): Codec<Asset> {
    Optional(AssetIdCodec())
  }

  lemma IdsLawful()
    ensures Lawful(HashCodec()) && Lawful(AccountIdCodec()) && Lawful(DeviceIdCodec())
    ensures Lawful(AssetIdCodec()) && Lawful(AssetCodec())
    ensures (forall h: Hash :: HashCodec().valid(h)) && (forall id: AccountId :: AccountIdCodec().valid(id))
    ensures (forall id: DeviceId :: DeviceIdCodec().valid(id)) && (forall a: Asset :: AssetCodec().valid(a))
    ensures HashCodec().height == 0 && AccountIdCodec().height == 0 && DeviceIdCodec().height == 0
      && AssetCodec().height == 1
  {
    HashLawful();
    assert HashCodec().height == 0;
    hide Lawful, HashCodec;
    RefineLawful(HashCodec(), (h: Hash) => Some(AccountId(h)), (id: AccountId) => id.raw);
    RefineLawful(HashCodec(), (h: Hash) => Some(DeviceId(h)), (id: DeviceId) => id.raw);
    RefineLawful(HashCodec(), (h: Hash) => Some(AssetId(h)), (id: AssetId) => id.raw);
    OptionalLawful(AssetIdCodec());
  }

  function RankDevice(id: DeviceId): nat { RankHash(id.raw) }

  /** VAN first, then assets by identifier. */
  function RankAsset(a: Asset): nat {
    if a.None? then 0 else 1 + RankHash(a.value.raw)
  }

  function RankLane(l: Lane): nat { l as nat }

  lemma RanksInjective()
    ensures Injective(RankAccount) && Injective(RankDevice) && Injective(RankAsset) && Injective(RankLane)
  {
    hide RankHash;
    forall a, b | RankAccount(a) == RankAccount(b) ensures a == b {
      RankHashInjective(a.raw, b.raw);
    }
    forall a, b | RankDevice(a) == RankDevice(b) ensures a == b {
      RankHashInjective(a.raw, b.raw);
    }
    forall a: Asset, b: Asset | RankAsset(a) == RankAsset(b) ensures a == b {
      if a.Some? && b.Some? {
        RankHashInjective(a.value.raw, b.value.raw);
      }
    }
  }

  // ----- Keys and names

  function AlgorithmByte(a: Algorithm): u8 {
    match a
    case MlDsa44 => 0x01
    case MlKem768 => 0x02
    case MlDsa65 => 0x03
    case InsecureTest => 0x10
  }

  function AlgorithmOf(byte: u8): Option<Algorithm> {
    if byte == 0x01 then Some(MlDsa44)
    else if byte == 0x02 then Some(MlKem768)
    else if byte == 0x03 then Some(MlDsa65)
    else if byte == 0x10 then Some(InsecureTest)
    else None
  }

  /** An algorithm byte, then as many raw bytes as that algorithm's keys have. */
  function DecKey(b: Bytes): Parse<VerifyingKey> {
    if b == [] then Failure(UnexpectedEnd)
    else
      match AlgorithmOf(b[0])
      case None => Failure(Invalid)
      case Some(algorithm) =>
        if !algorithm.IsSignature() then Failure(Invalid)
        else if algorithm.PublicKeyLen() > |b| - 1 then Failure(LengthBeyondInput(algorithm.PublicKeyLen(), |b| - 1))
        else Success((Key(algorithm, b[1..1 + algorithm.PublicKeyLen()]), b[1 + algorithm.PublicKeyLen()..]))
  }

  ghost function KeyCodec(): Codec<VerifyingKey> {
    Codec(
      (k: VerifyingKey) => true,
      (k: VerifyingKey) => [AlgorithmByte(k.algorithm)] + k.bytes,
      (depth: nat, b: Bytes) => DecKey(b),
      0)
  }

  lemma KeyLawful()
    ensures Lawful(KeyCodec())
  {
    var c := KeyCodec();
    forall k: VerifyingKey, rest, depth: nat ensures c.dec(depth, c.enc(k) + rest) == Success((k, rest)) {
      var n := k.algorithm.PublicKeyLen();
      var b := c.enc(k) + rest;
      assert b[1..1 + n] == k.bytes && b[1 + n..] == rest;
    }
    forall b, depth: nat | c.dec(depth, b).Success? ensures b == c.enc(c.dec(depth, b).value.0)
        + c.dec(depth, b).value.1 {
      var n := AlgorithmOf(b[0]).value.PublicKeyLen();
      assert b == [b[0]] + b[1..1 + n] + b[1 + n..];
    }
  }

  function NameBytes(name: Name): (b: Bytes)
    ensures |b| == |name| && forall i :: 0 <= i < |b| ==> b[i] == name[i] as int
  {
    seq(|name|, i requires 0 <= i < |name| => name[i] as int)
  }

  function NameFrom(b: Bytes): Option<Name> {
    var text := seq(|b|, i requires 0 <= i < |b| => if b[i] < 128 then b[i] as char else ' ');
    if IsName(text) then Some(text) else None
  }

  ghost function NameCodec(): Codec<Name> {
    Refine(Text(), NameFrom, NameBytes)
  }

  lemma NameLawful()
    ensures Lawful(NameCodec())
    ensures NameCodec().height == 0 && forall name: Name :: NameCodec().valid(name)
  {
    hide Lawful, IsName;
    TextLawful();
    forall b: Bytes | NameFrom(b).Some? ensures NameBytes(NameFrom(b).value) == b {
      NameCharacters(NameFrom(b).value);
    }
    RefineLawful(Text(), NameFrom, NameBytes);
    forall name: Name ensures NameCodec().valid(name) {
      NameCharacters(name);
      AsciiIsUtf8(NameBytes(name));
      assert NameFrom(NameBytes(name)).value == name by {
        var b := NameBytes(name);
        assert seq(|b|, i requires 0 <= i < |b| => if b[i] < 128 then b[i] as char else ' ') == name;
      }
    }
  }

  lemma NameCharacters(name: Name)
    ensures |name| <= 32
    ensures forall i :: 0 <= i < |name| ==> name[i] != ' ' && name[i] as int < 128
  {
  }

  // ----- Records

  ghost function DeviceCodec(): Codec<Device> {
    Refine(Pair(KeyCodec(), Pair(U32(), Pair(U64(), U64()))),
           (p: (VerifyingKey, (u32, (u64, u64)))) => Some(Device(p.0, p.1.0, p.1.1.0, p.1.1.1)),
           (d: Device) => (d.key, (d.lane, (d.nomadShare, d.nomadSpent))))
  }

  lemma DeviceLawful()
    ensures Lawful(DeviceCodec())
    ensures forall d: Device :: DeviceCodec().valid(d)
  {
    hide Lawful, U32, U64;
    KeyLawful();
    NumbersLawful();
    PairLawful(U64(), U64());
    PairLawful(U32(), Pair(U64(), U64()));
    PairLawful(KeyCodec(), Pair(U32(), Pair(U64(), U64())));
    RefineLawful(Pair(KeyCodec(), Pair(U32(), Pair(U64(), U64()))),
                 (p: (VerifyingKey, (u32, (u64, u64)))) => Some(Device(p.0, p.1.0, p.1.1.0, p.1.1.1)),
                 (d: Device) => (d.key, (d.lane, (d.nomadShare, d.nomadSpent))));
  }

  type AccountTail = (u32, (map<Lane, u64>, (set<AccountId>, (u32, (u64, Option<Name>)))))
  type AccountFields = (map<Asset, Amount>, (u64, (u64, (map<DeviceId, Device>, (set<DeviceId>, AccountTail)))))

  ghost function BalancesCodec(limit: nat): Codec<map<Asset, Amount>> {
    RanksInjective();
    MapOf(AssetCodec(), U64(), RankAsset, limit)
  }

  ghost function DevicesCodec(limit: nat): Codec<map<DeviceId, Device>> {
    RanksInjective();
    MapOf(DeviceIdCodec(), DeviceCodec(), RankDevice, limit)
  }

  ghost function RevokedCodec(limit: nat): Codec<set<DeviceId>> {
    RanksInjective();
    SetOf(DeviceIdCodec(), RankDevice, limit)
  }

  ghost function LanesCodec(limit: nat): Codec<map<Lane, u64>> {
    RanksInjective();
    MapOf(U32(), U64(), RankLane, limit)
  }

  ghost function GuardiansCodec(limit: nat): Codec<set<AccountId>> {
    RanksInjective();
    SetOf(AccountIdCodec(), RankAccount, limit)
  }

  ghost function AccountTailCodec(limit: nat): Codec<AccountTail> {
    Pair(U32(), Pair(LanesCodec(limit), Pair(GuardiansCodec(limit), Pair(U32(), Pair(U64(), Optional(NameCodec()))))))
  }

  ghost function AccountFieldsCodec(limit: nat): Codec<AccountFields> {
    Pair(BalancesCodec(limit),
        Pair(U64(), Pair(U64(), Pair(DevicesCodec(limit), Pair(RevokedCodec(limit), AccountTailCodec(limit))))))
  }

  function AccountFrom(p: AccountFields): Option<Account> {
    var tail := p.1.1.1.1.1;
    Some(Account(p.0, p.1.0, p.1.1.0, p.1.1.1.0, p.1.1.1.1.0,
                 tail.0, tail.1.0, tail.1.1.0, tail.1.1.1.0, tail.1.1.1.1.0, tail.1.1.1.1.1))
  }

  function FieldsOfAccount(a: Account): AccountFields {
    (a.balances, (a.nomadCredit, (a.nomadMargin, (a.devices, (a.revokedDevices,
      (a.nextLane, (a.lanes, (a.guardians, (a.guardianThreshold, (a.bonded, a.name))))))))))
  }

  /** The whole account; `limit` bounds each of its collections. */
  ghost function AccountCodec(limit: nat): Codec<Account> {
    Refine(AccountFieldsCodec(limit), AccountFrom, FieldsOfAccount)
  }

  lemma CollectionsLawful(limit: nat)
    ensures Lawful(BalancesCodec(limit)) && Lawful(DevicesCodec(limit)) && Lawful(RevokedCodec(limit))
    ensures Lawful(LanesCodec(limit)) && Lawful(GuardiansCodec(limit)) && GuardiansCodec(limit).height == 1
  {
    hide Lawful;
    IdsLawful();
    NumbersLawful();
    DeviceLawful();
    RanksInjective();
    MapOfLawful(AssetCodec(), U64(), RankAsset, limit);
    MapOfLawful(DeviceIdCodec(), DeviceCodec(), RankDevice, limit);
    SetOfLawful(DeviceIdCodec(), RankDevice, limit);
    MapOfLawful(U32(), U64(), RankLane, limit);
    SetOfLawful(AccountIdCodec(), RankAccount, limit);
  }

  lemma AccountLawful(limit: nat)
    ensures Lawful(AccountCodec(limit))
    ensures AccountCodec(limit).height == 1
  {
    hide Lawful;
    CollectionsLawful(limit);
    NumbersLawful();
    NameLawful();
    OptionalLawful(NameCodec());
    PairLawful(U64(), Optional(NameCodec()));
    PairLawful(U32(), Pair(U64(), Optional(NameCodec())));
    PairLawful(GuardiansCodec(limit), Pair(U32(), Pair(U64(), Optional(NameCodec()))));
    PairLawful(LanesCodec(limit), Pair(GuardiansCodec(limit), Pair(U32(), Pair(U64(), Optional(NameCodec())))));
    PairLawful(U32(), Pair(LanesCodec(limit),
        Pair(GuardiansCodec(limit), Pair(U32(), Pair(U64(), Optional(NameCodec()))))));
    var tail := AccountTailCodec(limit);
    PairLawful(RevokedCodec(limit), tail);
    PairLawful(DevicesCodec(limit), Pair(RevokedCodec(limit), tail));
    PairLawful(U64(), Pair(DevicesCodec(limit), Pair(RevokedCodec(limit), tail)));
    PairLawful(U64(), Pair(U64(), Pair(DevicesCodec(limit), Pair(RevokedCodec(limit), tail))));
    PairLawful(BalancesCodec(limit),
        Pair(U64(), Pair(U64(), Pair(DevicesCodec(limit), Pair(RevokedCodec(limit), tail)))));
    RefineLawful(AccountFieldsCodec(limit), AccountFrom, FieldsOfAccount);
  }

  /** What the decoder's limit asks of an account. */
  ghost predicate AccountWithin(a: Account, limit: nat) {
    && |a.balances| <= limit && |a.devices| <= limit && |a.revokedDevices| <= limit
    && |a.lanes| <= limit && |a.guardians| <= limit
  }

  lemma AccountTailValid(limit: nat, t: AccountTail)
    requires limit < U64_LIMIT
    ensures AccountTailCodec(limit).valid(t) <==> |t.1.0| <= limit && |t.1.1.0| <= limit
  {
    hide Lawful, U32, U64, NameCodec, AccountIdCodec, MapOf, SetOf;
    RanksInjective();
    IdsLawful();
    NumbersLawful();
    NameLawful();
    MapOfValid(U32(), U64(), RankLane, limit, t.1.0);
    SetOfValid(AccountIdCodec(), RankAccount, limit, t.1.1.0);
    assert Optional(NameCodec()).valid(t.1.1.1.1.1);
  }

  lemma AccountValidExactly(limit: nat, a: Account)
    requires limit < U64_LIMIT
    ensures AccountCodec(limit).valid(a) <==> AccountWithin(a, limit)
  {
    hide Lawful, U64, DeviceCodec, AssetCodec, DeviceIdCodec, MapOf, SetOf, AccountTailCodec;
    RanksInjective();
    IdsLawful();
    NumbersLawful();
    DeviceLawful();
    MapOfValid(AssetCodec(), U64(), RankAsset, limit, a.balances);
    MapOfValid(DeviceIdCodec(), DeviceCodec(), RankDevice, limit, a.devices);
    SetOfValid(DeviceIdCodec(), RankDevice, limit, a.revokedDevices);
    AccountTailValid(limit, FieldsOfAccount(a).1.1.1.1.1);
    assert AccountFieldsCodec(limit).valid(FieldsOfAccount(a)) <==> AccountWithin(a, limit);
    assert AccountFrom(FieldsOfAccount(a)) == Some(a);
  }

  /** The account record is bijective: bytes decode to an account exactly when they are its
      encoding and every collection is within the limit. */
  lemma AccountBijective(b: Bytes, a: Account)
    ensures FromCanonicalBytes(AccountCodec(MAX_SEQ_LEN), b) == Success(a) <==>
              |b| <= 1_048_576 && AccountWithin(a, 65_536) && b == AccountCodec(65_536).enc(a)
  {
    hide Lawful, AccountCodec;
    AccountLawful(MAX_SEQ_LEN);
    AccountValidExactly(MAX_SEQ_LEN, a);
    Bijective(AccountCodec(MAX_SEQ_LEN), b, a);
  }

  // ----- Channels

  ghost function ClosureCodec(): Codec<PendingClosure> {
    Refine(Pair(AccountIdCodec(), Pair(U32(), Pair(U64(), Pair(U64(), Flag())))),
           (p: (AccountId, (u32, (u64, (u64, bool))))) =>
             Some(PendingClosure(p.0, p.1.0, Window(p.1.1.0, p.1.1.1.0), p.1.1.1.1)),
           (c: PendingClosure) =>
             (c.claimant, (c.claimedTranches, (c.window.openedAtFinalized, (c.window.duration, c.disputed)))))
  }

  lemma ClosureLawful()
    ensures Lawful(ClosureCodec()) && ClosureCodec().height == 0
    ensures forall c: PendingClosure :: ClosureCodec().valid(c)
  {
    hide Lawful, U32, U64, AccountIdCodec;
    IdsLawful();
    NumbersLawful();
    FlagLawful();
    PairLawful(U64(), Flag());
    PairLawful(U64(), Pair(U64(), Flag()));
    PairLawful(U32(), Pair(U64(), Pair(U64(), Flag())));
    PairLawful(AccountIdCodec(), Pair(U32(), Pair(U64(), Pair(U64(), Flag()))));
    RefineLawful(Pair(AccountIdCodec(), Pair(U32(), Pair(U64(), Pair(U64(), Flag())))),
           (p: (AccountId, (u32, (u64, (u64, bool))))) =>
             Some(PendingClosure(p.0, p.1.0, Window(p.1.1.0, p.1.1.1.0), p.1.1.1.1)),
           (c: PendingClosure) =>
             (c.claimant, (c.claimedTranches, (c.window.openedAtFinalized, (c.window.duration, c.disputed)))));
  }

  type PurseTail = (Hash, (u64, (u32, (u64, Option<PendingClosure>))))
  type PurseFields = (AccountId, (AccountId, (Asset, (u64, PurseTail))))

  ghost function PurseTailCodec(): Codec<PurseTail> {
    Pair(HashCodec(), Pair(U64(), Pair(U32(), Pair(U64(), Optional(ClosureCodec())))))
  }

  ghost function PurseFieldsCodec(): Codec<PurseFields> {
    Pair(AccountIdCodec(), Pair(AccountIdCodec(), Pair(AssetCodec(), Pair(U64(), PurseTailCodec()))))
  }

  function PurseFrom(p: PurseFields): Option<LedgerPurse> {
    var tail := p.1.1.1.1;
    Some(Purse(p.0, p.1.0, p.1.1.0, p.1.1.1.0, tail.0, tail.1.0, tail.1.1.0, tail.1.1.1.0, tail.1.1.1.1))
  }

  function FieldsOfPurse(p: LedgerPurse): PurseFields {
    (p.payer, (p.payee, (p.asset, (p.deposit,
      (p.paywordRoot, (p.trancheValue, (p.capacity, (p.expiryFinalizedHeight, p.closing))))))))
  }

  ghost function PurseCodec(): Codec<LedgerPurse> {
    Refine(PurseFieldsCodec(), PurseFrom, FieldsOfPurse)
  }

  lemma PurseLawful()
    ensures Lawful(PurseCodec()) && PurseCodec().height == 1
    ensures forall p: LedgerPurse :: PurseCodec().valid(p)
  {
    hide Lawful, U32, U64, AccountIdCodec, HashCodec, AssetCodec, ClosureCodec;
    IdsLawful();
    NumbersLawful();
    ClosureLawful();
    OptionalLawful(ClosureCodec());
    PairLawful(U64(), Optional(ClosureCodec()));
    PairLawful(U32(), Pair(U64(), Optional(ClosureCodec())));
    PairLawful(U64(), Pair(U32(), Pair(U64(), Optional(ClosureCodec()))));
    PairLawful(HashCodec(), Pair(U64(), Pair(U32(), Pair(U64(), Optional(ClosureCodec())))));
    PairLawful(U64(), PurseTailCodec());
    PairLawful(AssetCodec(), Pair(U64(), PurseTailCodec()));
    PairLawful(AccountIdCodec(), Pair(AssetCodec(), Pair(U64(), PurseTailCodec())));
    PairLawful(AccountIdCodec(), Pair(AccountIdCodec(), Pair(AssetCodec(), Pair(U64(), PurseTailCodec()))));
    RefineLawful(PurseFieldsCodec(), PurseFrom, FieldsOfPurse);
    forall p: LedgerPurse ensures PurseCodec().valid(p) {
      assert HashCodec().valid(p.paywordRoot) && U64().valid(p.deposit) && U64().valid(p.trancheValue);
      assert U32().valid(p.capacity) && U64().valid(p.expiryFinalizedHeight) && AssetCodec().valid(p.asset);
      assert PurseTailCodec().valid((p.paywordRoot,
          (p.trancheValue, (p.capacity, (p.expiryFinalizedHeight, p.closing)))));
      assert PurseFieldsCodec().valid(FieldsOfPurse(p));
      assert PurseFrom(FieldsOfPurse(p)) == Some(p);
    }
  }

  /** The channel record is bijective, for every channel. */
  lemma PurseBijective(b: Bytes, p: LedgerPurse)
    ensures FromCanonicalBytes(PurseCodec(), b) == Success(p) <==> |b| <= 1_048_576 && b == PurseCodec().enc(p)
  {
    hide Lawful, PurseCodec;
    PurseLawful();
    Bijective(PurseCodec(), b, p);
  }

  // ----- Assets, commitments, recoveries, offences and counters

  ghost function AssetRecordCodec(): Codec<AssetRecord> {
    Refine(Pair(AccountIdCodec(), Pair(NameCodec(), Pair(U8(), Pair(Flag(), U64())))),
           (p: (AccountId, (Name, (u8, (bool, u64))))) => Some(AssetRecord(p.0, p.1.0, p.1.1.0, p.1.1.1.0, p.1.1.1.1)),
           (r: AssetRecord) => (r.issuer, (r.ticker, (r.decimals, (r.reissuable, r.supply)))))
  }

  lemma AssetRecordLawful()
    ensures Lawful(AssetRecordCodec()) && AssetRecordCodec().height == 0
    ensures forall r: AssetRecord :: AssetRecordCodec().valid(r)
  {
    hide Lawful, U8, U64, AccountIdCodec, NameCodec;
    IdsLawful();
    NumbersLawful();
    FlagLawful();
    NameLawful();
    PairLawful(Flag(), U64());
    PairLawful(U8(), Pair(Flag(), U64()));
    PairLawful(NameCodec(), Pair(U8(), Pair(Flag(), U64())));
    PairLawful(AccountIdCodec(), Pair(NameCodec(), Pair(U8(), Pair(Flag(), U64()))));
    RefineLawful(Pair(AccountIdCodec(), Pair(NameCodec(), Pair(U8(), Pair(Flag(), U64())))),
           (p: (AccountId, (Name, (u8, (bool, u64))))) => Some(AssetRecord(p.0, p.1.0, p.1.1.0, p.1.1.1.0, p.1.1.1.1)),
           (r: AssetRecord) => (r.issuer, (r.ticker, (r.decimals, (r.reissuable, r.supply)))));
  }

  ghost function CommitmentCodec(): Codec<CommitmentRecord> {
    Refine(Pair(AccountIdCodec(), U64()),
           (p: (AccountId, u64)) => Some(CommitmentRecord(p.0, p.1)),
           (r: CommitmentRecord) => (r.account, r.committedAtFinalized))
  }

  ghost function ValidatorOffenceCodec(): Codec<ValidatorOffence> {
    Refine(Pair(AccountIdCodec(), U64()),
           (p: (AccountId, u64)) => Some(ValidatorOffence(p.0, p.1)),
           (r: ValidatorOffence) => (r.validator, r.height))
  }

  ghost function AccountOffenceCodec(): Codec<AccountOffence> {
    Refine(Pair(AccountIdCodec(), Pair(DeviceIdCodec(), Pair(U32(), U64()))),
           (p: (AccountId, (DeviceId, (u32, u64)))) => Some(AccountOffence(p.0, p.1.0, p.1.1.0, p.1.1.1)),
           (r: AccountOffence) => (r.account, (r.device, (r.lane, r.sequence))))
  }

  /** The burn, the context pot and the fees, under the reserved key. */
  ghost function CountersCodec(): Codec<(u64, (u64, u64))> {
    Pair(U64(), Pair(U64(), U64()))
  }

  lemma SmallRecordsLawful()
    ensures Lawful(CommitmentCodec()) && CommitmentCodec().height == 0
    ensures forall r: CommitmentRecord :: CommitmentCodec().valid(r)
    ensures Lawful(ValidatorOffenceCodec()) && ValidatorOffenceCodec().height == 0
    ensures forall r: ValidatorOffence :: ValidatorOffenceCodec().valid(r)
    ensures Lawful(AccountOffenceCodec()) && AccountOffenceCodec().height == 0
    ensures forall r: AccountOffence :: AccountOffenceCodec().valid(r)
    ensures Lawful(CountersCodec()) && CountersCodec().height == 0
    ensures forall c: (u64, (u64, u64)) :: CountersCodec().valid(c)
  {
    hide Lawful, U32, U64, AccountIdCodec, DeviceIdCodec;
    IdsLawful();
    NumbersLawful();
    PairLawful(AccountIdCodec(), U64());
    RefineLawful(Pair(AccountIdCodec(), U64()),
           (p: (AccountId, u64)) => Some(CommitmentRecord(p.0, p.1)),
           (r: CommitmentRecord) => (r.account, r.committedAtFinalized));
    RefineLawful(Pair(AccountIdCodec(), U64()),
           (p: (AccountId, u64)) => Some(ValidatorOffence(p.0, p.1)),
           (r: ValidatorOffence) => (r.validator, r.height));
    PairLawful(U32(), U64());
    PairLawful(DeviceIdCodec(), Pair(U32(), U64()));
    PairLawful(AccountIdCodec(), Pair(DeviceIdCodec(), Pair(U32(), U64())));
    RefineLawful(Pair(AccountIdCodec(), Pair(DeviceIdCodec(), Pair(U32(), U64()))),
           (p: (AccountId, (DeviceId, (u32, u64)))) => Some(AccountOffence(p.0, p.1.0, p.1.1.0, p.1.1.1)),
           (r: AccountOffence) => (r.account, (r.device, (r.lane, r.sequence))));
    PairLawful(U64(), U64());
    PairLawful(U64(), Pair(U64(), U64()));
    forall c: (u64, (u64, u64)) ensures CountersCodec().valid(c) {
      assert U64().valid(c.0) && U64().valid(c.1.0) && U64().valid(c.1.1);
    }
  }

  ghost function RecoveryCodec(limit: nat): Codec<PendingRecovery> {
    Refine(Pair(KeyCodec(), Pair(GuardiansCodec(limit), Pair(U64(), U64()))),
           (p: (VerifyingKey, (set<AccountId>, (u64, u64)))) =>
             Some(PendingRecovery(p.0, p.1.0, Window(p.1.1.0, p.1.1.1))),
           (r: PendingRecovery) => (r.newRootKey, (r.approvals, (r.window.openedAtFinalized, r.window.duration))))
  }

  lemma RecoveryLawful(limit: nat)
    ensures Lawful(RecoveryCodec(limit)) && RecoveryCodec(limit).height == 1
    ensures limit < U64_LIMIT ==> forall r: PendingRecovery :: RecoveryCodec(limit).valid(r) <==> |r.approvals| <= limit
  {
    hide Lawful, U64, AccountIdCodec, SetOf;
    IdsLawful();
    KeyLawful();
    NumbersLawful();
    CollectionsLawful(limit);
    PairLawful(U64(), U64());
    PairLawful(GuardiansCodec(limit), Pair(U64(), U64()));
    PairLawful(KeyCodec(), Pair(GuardiansCodec(limit), Pair(U64(), U64())));
    RefineLawful(Pair(KeyCodec(), Pair(GuardiansCodec(limit), Pair(U64(), U64()))),
           (p: (VerifyingKey, (set<AccountId>, (u64, u64)))) =>
             Some(PendingRecovery(p.0, p.1.0, Window(p.1.1.0, p.1.1.1))),
           (r: PendingRecovery) => (r.newRootKey, (r.approvals, (r.window.openedAtFinalized, r.window.duration))));
    if limit < U64_LIMIT {
      RanksInjective();
      forall r: PendingRecovery ensures RecoveryCodec(limit).valid(r) <==> |r.approvals| <= limit {
        SetOfValid(AccountIdCodec(), RankAccount, limit, r.approvals);
      }
    }
  }
}
