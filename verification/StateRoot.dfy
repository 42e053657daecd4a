/**
  The state root. Every record goes into one sparse tree under a namespaced key; with a hash
  that does not collide on what is in use, two ledgers with one root are equal in every
  field, and a proof about one record says exactly what the ledger says.
 */
module StateRoot {
  import opened Prelude
  import opened Types
  import opened Orders
  import opened Accounts
  import opened RecoveryBooks
  import opened SlashingBooks
  import opened LedgerSpec
  import opened Codec
  import opened Records
  import opened Smt

  // ----- Keys

  datatype StateKey =
    | AccountKey(account: AccountId)
    | PurseKey(purse: PurseId)
    | AssetKey(asset: AssetId)
    | TickerKey(ticker: Name)
    | NameKey(name: Name)
    | CommitmentKey(commitment: Hash)
    | RecoveryKey(target: AccountId)
    | OffenceKey(digest: Hash)
    | CountersKey

  function Ascii(s: string): (b: Bytes)
    ensures |b| == |s|
  {
    seq(|s|, i requires 0 <= i < |s| => if s[i] as int < 128 then s[i] as int else 0)
  }

  function Namespace(k: StateKey): string {
    match k
    case AccountKey(_) => "account"
    case PurseKey(_) => "purse"
    case AssetKey(_) => "asset"
    case TickerKey(_) => "ticker"
    case NameKey(_) => "name"
    case CommitmentKey(_) => "commitment"
    case RecoveryKey(_) => "recovery"
    case OffenceKey(_) => "offence"
    case CountersKey => "reserved"
  }

  function Payload(k: StateKey): Bytes {
    match k
    case AccountKey(id) => id.raw.bytes
    case PurseKey(id) => id.raw.bytes
    case AssetKey(id) => id.raw.bytes
    case TickerKey(name) => NameBytes(name)
    case NameKey(name) => NameBytes(name)
    case CommitmentKey(c) => c.bytes
    case RecoveryKey(id) => id.raw.bytes
    case OffenceKey(d) => d.bytes
    case CountersKey => Ascii("burn and context pot")
  }

  /** What a key is the hash of: the namespace's length, the namespace, the payload. */
  function Preimage(k: StateKey): Bytes {
    [|Namespace(k)|] + Ascii(Namespace(k)) + Payload(k)
  }

  lemma NameBytesInjective(a: Name, b: Name)
    requires NameBytes(a) == NameBytes(b)
    ensures a == b
  {
    hide IsName;
    assert |a| == |b|;
    forall i | 0 <= i < |a| ensures a[i] == b[i] {
      assert NameBytes(a)[i] == NameBytes(b)[i];
    }
    assert a == b;
  }

  lemma NamespacesDiffer(k: StateKey, l: StateKey)
    requires |Namespace(k)| == |Namespace(l)| && Ascii(Namespace(k)) == Ascii(Namespace(l))
    ensures Namespace(k) == Namespace(l)
  {
    var n := |Namespace(k)|;
    assert n > 3;
    assert Ascii(Namespace(k))[0] == Ascii(Namespace(l))[0];
    assert Ascii(Namespace(k))[2] == Ascii(Namespace(l))[2];
  }

  /** No two keys have one preimage: the length byte keeps the namespaces apart. */
  lemma PreimagesDiffer(k: StateKey, l: StateKey)
    requires Preimage(k) == Preimage(l)
    ensures k == l
  {
    var m := |Namespace(k)|;
    var n := |Namespace(l)|;
    assert Preimage(k)[0] == m && Preimage(l)[0] == n;
    assert Preimage(k)[1..1 + m] == Ascii(Namespace(k));
    assert Preimage(l)[1..1 + n] == Ascii(Namespace(l));
    NamespacesDiffer(k, l);
    assert Preimage(k)[1 + m..] == Payload(k);
    assert Preimage(l)[1 + n..] == Payload(l);
    SamePayload(k, l);
  }

  lemma SamePayload(k: StateKey, l: StateKey)
    requires Namespace(k) == Namespace(l) && Payload(k) == Payload(l)
    ensures k == l
  {
    hide NameBytes, IsName, Ascii;
    if k.TickerKey? && l.TickerKey? {
      NameBytesInjective(k.ticker, l.ticker);
    } else if k.NameKey? && l.NameKey? {
      NameBytesInjective(k.name, l.name);
    }
  }

  // ----- What lives at each key

  /** An encoder has no limit of its own; the largest count a varint writes bounds it. */
  const NO_LIMIT: nat := U64_LIMIT - 1

  ghost function AccountBytes(a: Account): Bytes { AccountCodec(NO_LIMIT).enc(a) }
  ghost function RecoveryBytes(r: PendingRecovery): Bytes { RecoveryCodec(NO_LIMIT).enc(r) }
  ghost function AccountOffenceBytes(x: AccountOffence): Bytes { AccountOffenceCodec().enc(x) }
  ghost function ValidatorOffenceBytes(x: ValidatorOffence): Bytes { ValidatorOffenceCodec().enc(x) }
  ghost function CounterBytes(s: State): Bytes { CountersCodec().enc((s.burned, (s.contextPot, s.fees))) }

  /** The encodings of the offences already punished. */
  ghost function OffenceBytes(s: State): set<Bytes> {
    (set x | x in s.accountOffences :: AccountOffenceBytes(x))
        + (set x | x in s.validatorOffences :: ValidatorOffenceBytes(x))
  }

  /** The bytes whose hash is the value at a key, where the value is a hash of a record. */
  ghost function RecordAt(s: State, k: StateKey): Option<Bytes> {
    match k
    case AccountKey(id) => if id in s.accounts then Some(AccountBytes(s.accounts[id])) else None
    case PurseKey(id) => if id in s.purses then Some(PurseCodec().enc(s.purses[id])) else None
    case AssetKey(id) => if id in s.assets then Some(AssetRecordCodec().enc(s.assets[id])) else None
    case CommitmentKey(c) => if c in s.commitments then Some(CommitmentCodec().enc(s.commitments[c])) else None
    case RecoveryKey(id) => if id in s.recoveries then Some(RecoveryBytes(s.recoveries[id])) else None
    case CountersKey => Some(CounterBytes(s))
    case _ => None
  }

  /** What the tree holds at a key: the hash of a record, or the identifier a name points to,
      or the offence's own digest. */
  ghost function ValueAt(h: Bytes -> Hash, s: State, k: StateKey): Option<Hash> {
    match k
    case TickerKey(name) => if name in s.tickers then Some(s.tickers[name].raw) else None
    case NameKey(name) => if name in s.owners then Some(s.owners[name].raw) else None
    case OffenceKey(d) => if exists b :: b in OffenceBytes(s) && h(b) == d then Some(d) else None
    case _ => match RecordAt(s, k) case None => None case Some(b) => Some(h(b))
  }

  ghost function Located(h: Bytes -> Hash, k: StateKey): Hash {
    h(Preimage(k))
  }

  // ----- The tree

  function Digested(value: Option<Hash>): Option<Digest> {
    match value
    case None => None
    case Some(v) => Some(Digest.Raw(v))
  }

  function OffenceRank(x: AccountOffence): nat {
    Spelled(x.account.raw.bytes + x.device.raw.bytes + BigEndian(x.lane, 4) + BigEndian(x.sequence, 8))
  }

  function ValidatorOffenceRank(x: ValidatorOffence): nat {
    Spelled(x.validator.raw.bytes + BigEndian(x.height, 8))
  }

  /** Names compare as their bytes do, a prefix before what it begins. */
  function RankName(name: Name): nat {
    Spelled(NameBytes(name) + seq(32 - |name|, _ => 0))
  }

  function RankAssetId(id: AssetId): nat { RankHash(id.raw) }

  /** `x` in `n` bytes, most significant first. */
  function BigEndian(x: nat, n: nat): (b: Bytes)
    ensures |b| == n
  {
    if n == 0 then [] else BigEndian(x / 256, n - 1) + [x % 256]
  }

  lemma {:induction false} BigEndianInjective(x: nat, y: nat, n: nat)
    requires BigEndian(x, n) == BigEndian(y, n) && x < Scale(n) && y < Scale(n)
    ensures x == y
  {
    if n != 0 {
      assert BigEndian(x, n)[..n - 1] == BigEndian(x / 256, n - 1);
      assert BigEndian(y, n)[..n - 1] == BigEndian(y / 256, n - 1);
      assert BigEndian(x, n)[n - 1] == x % 256 && BigEndian(y, n)[n - 1] == y % 256;
      BigEndianInjective(x / 256, y / 256, n - 1);
    }
  }

  function Scale(n: nat): nat {
    if n == 0 then 1 else 256 * Scale(n - 1)
  }

  lemma Scales()
    ensures Scale(4) == U32_LIMIT && Scale(8) == U64_LIMIT
  {
    assert Scale(2) == 256 * Scale(1) && Scale(4) == 256 * Scale(3);
    assert Scale(6) == 256 * Scale(5) && Scale(8) == 256 * Scale(7);
  }

  lemma OffenceRankInjective(x: AccountOffence, y: AccountOffence)
    requires OffenceRank(x) == OffenceRank(y)
    ensures x == y
  {
    var a := x.account.raw.bytes + x.device.raw.bytes + BigEndian(x.lane, 4) + BigEndian(x.sequence, 8);
    var b := y.account.raw.bytes + y.device.raw.bytes + BigEndian(y.lane, 4) + BigEndian(y.sequence, 8);
    SpelledInjective(a, b);
    assert a[..32] == x.account.raw.bytes && b[..32] == y.account.raw.bytes;
    assert a[32..64] == x.device.raw.bytes && b[32..64] == y.device.raw.bytes;
    assert a[64..68] == BigEndian(x.lane, 4) && b[64..68] == BigEndian(y.lane, 4);
    assert a[68..] == BigEndian(x.sequence, 8) && b[68..] == BigEndian(y.sequence, 8);
    Scales();
    BigEndianInjective(x.lane, y.lane, 4);
    BigEndianInjective(x.sequence, y.sequence, 8);
  }

  lemma ValidatorOffenceRankInjective(x: ValidatorOffence, y: ValidatorOffence)
    requires ValidatorOffenceRank(x) == ValidatorOffenceRank(y)
    ensures x == y
  {
    var a := x.validator.raw.bytes + BigEndian(x.height, 8);
    var b := y.validator.raw.bytes + BigEndian(y.height, 8);
    SpelledInjective(a, b);
    assert a[..32] == x.validator.raw.bytes && b[..32] == y.validator.raw.bytes;
    assert a[32..] == BigEndian(x.height, 8) && b[32..] == BigEndian(y.height, 8);
    Scales();
    BigEndianInjective(x.height, y.height, 8);
  }

  function Padded(name: Name): Bytes {
    NameBytes(name) + seq(32 - |name|, _ => 0)
  }

  lemma ShorterPadsDifferently(a: Name, b: Name)
    requires |a| < |b|
    ensures Padded(a) != Padded(b)
  {
    assert Padded(a)[|a|] == 0 && Padded(b)[|a|] == b[|a|] as int;
  }

  lemma RankNameInjective(a: Name, b: Name)
    requires RankName(a) == RankName(b)
    ensures a == b
  {
    assert |Padded(a)| == 32 && |Padded(b)| == 32;
    hide IsName, NameBytes;
    SpelledInjective(Padded(a), Padded(b));
    if |a| == |b| {
      assert Padded(a)[..|a|] == NameBytes(a) && Padded(b)[..|b|] == NameBytes(b);
      NameBytesInjective(a, b);
    } else if |a| < |b| {
      ShorterPadsDifferently(a, b);
    } else {
      ShorterPadsDifferently(b, a);
    }
  }

  lemma StateRanksInjective()
    ensures Injective(RankPurse) && Injective(RankAssetId) && Injective(RankName) && Injective(RankHash)
    ensures Injective(RankAccount) && Injective(OffenceRank) && Injective(ValidatorOffenceRank)
  {
    hide RankHash, RankName, OffenceRank, ValidatorOffenceRank;
    RanksInjective();
    forall a, b | RankPurse(a) == RankPurse(b) ensures a == b { RankHashInjective(a.raw, b.raw); }
    forall a, b | RankAssetId(a) == RankAssetId(b) ensures a == b { RankHashInjective(a.raw, b.raw); }
    forall a, b | RankName(a) == RankName(b) ensures a == b { RankNameInjective(a, b); }
    forall a, b | RankHash(a) == RankHash(b) ensures a == b { RankHashInjective(a, b); }
    forall a, b | OffenceRank(a) == OffenceRank(b) ensures a == b { OffenceRankInjective(a, b); }
    forall a, b | ValidatorOffenceRank(a) == ValidatorOffenceRank(b) ensures a ==
        b { ValidatorOffenceRankInjective(a, b); }
  }

  ghost function Keyed<K(!new)>(rank: K -> nat, s: set<K>, key: K -> StateKey): seq<StateKey>
    requires Injective(rank)
  {
    var xs := Items(rank, s);
    seq(|xs|, i requires 0 <= i < |xs| => key(xs[i]))
  }

  lemma KeyedHolds<K(!new)>(rank: K -> nat, s: set<K>, key: K -> StateKey, k: StateKey)
    requires Injective(rank)
    ensures k in Keyed(rank, s, key) <==> exists x :: x in s && key(x) == k
  {
    hide Injective;
    var xs := Items(rank, s);
    var keys := Keyed(rank, s, key);
    assert forall i :: 0 <= i < |xs| ==> keys[i] == key(xs[i]);
    if k in keys {
      var i :| 0 <= i < |keys| && keys[i] == k;
      assert xs[i] in xs;
    }
    if x :| x in s && key(x) == k {
      assert x in xs;
      var i :| 0 <= i < |xs| && xs[i] == x;
      assert keys[i] == key(x);
    }
  }

  /** Every key in the order the tree is filled. */
  ghost function KeyOrder(h: Bytes -> Hash, s: State): seq<StateKey> {
    StateRanksInjective();
    Keyed(RankAccount, s.accounts.Keys, (id: AccountId) => AccountKey(id))
    + Keyed(RankPurse, s.purses.Keys, (id: PurseId) => PurseKey(id))
    + Keyed(RankAssetId, s.assets.Keys, (id: AssetId) => AssetKey(id))
    + Keyed(RankName, s.tickers.Keys, (name: Name) => TickerKey(name))
    + Keyed(RankName, s.owners.Keys, (name: Name) => NameKey(name))
    + Keyed(RankHash, s.commitments.Keys, (c: Hash) => CommitmentKey(c))
    + Keyed(RankAccount, s.recoveries.Keys, (id: AccountId) => RecoveryKey(id))
    + Keyed(OffenceRank, s.accountOffences, (x: AccountOffence) => OffenceKey(h(AccountOffenceBytes(x))))
    + Keyed(ValidatorOffenceRank, s.validatorOffences, (x: ValidatorOffence) => OffenceKey(h(ValidatorOffenceBytes(x))))
    + [CountersKey]
  }

  lemma OffencesListed(h: Bytes -> Hash, s: State, d: Hash)
    ensures (exists b :: b in OffenceBytes(s) && h(b) == d) <==>
              || (exists x :: x in s.accountOffences && OffenceKey(h(AccountOffenceBytes(x))) == OffenceKey(d))
              || (exists y :: y in s.validatorOffences && OffenceKey(h(ValidatorOffenceBytes(y))) == OffenceKey(d))
  {
    hide AccountOffenceBytes, ValidatorOffenceBytes;
    if b :| b in OffenceBytes(s) && h(b) == d {
      if x :| x in s.accountOffences && AccountOffenceBytes(x) == b {
        assert OffenceKey(h(AccountOffenceBytes(x))) == OffenceKey(d);
      } else {
        var y :| y in s.validatorOffences && ValidatorOffenceBytes(y) == b;
        assert OffenceKey(h(ValidatorOffenceBytes(y))) == OffenceKey(d);
      }
    }
    if x :| x in s.accountOffences && OffenceKey(h(AccountOffenceBytes(x))) == OffenceKey(d) {
      assert AccountOffenceBytes(x) in OffenceBytes(s);
    }
    if y :| y in s.validatorOffences && OffenceKey(h(ValidatorOffenceBytes(y))) == OffenceKey(d) {
      assert ValidatorOffenceBytes(y) in OffenceBytes(s);
    }
  }

  /** The tree lists exactly the keys at which the ledger holds something. */
  lemma KeysListed(h: Bytes -> Hash, s: State, k: StateKey)
    ensures k in KeyOrder(h, s) <==> ValueAt(h, s, k).Some?
  {
    hide AccountBytes, RecoveryBytes, AccountOffenceBytes, ValidatorOffenceBytes, CounterBytes, OffenceBytes, Keyed,
      PurseCodec, AssetRecordCodec, CommitmentCodec, RankAccount, RankPurse, RankAssetId, RankName, RankHash,
      OffenceRank, ValidatorOffenceRank, Injective;
    StateRanksInjective();
    KeyedHolds(RankAccount, s.accounts.Keys, (id: AccountId) => AccountKey(id), k);
    KeyedHolds(RankPurse, s.purses.Keys, (id: PurseId) => PurseKey(id), k);
    KeyedHolds(RankAssetId, s.assets.Keys, (id: AssetId) => AssetKey(id), k);
    KeyedHolds(RankName, s.tickers.Keys, (name: Name) => TickerKey(name), k);
    KeyedHolds(RankName, s.owners.Keys, (name: Name) => NameKey(name), k);
    KeyedHolds(RankHash, s.commitments.Keys, (c: Hash) => CommitmentKey(c), k);
    KeyedHolds(RankAccount, s.recoveries.Keys, (id: AccountId) => RecoveryKey(id), k);
    KeyedHolds(OffenceRank, s.accountOffences, (x: AccountOffence) => OffenceKey(h(AccountOffenceBytes(x))), k);
    KeyedHolds(ValidatorOffenceRank, s.validatorOffences,
        (x: ValidatorOffence) => OffenceKey(h(ValidatorOffenceBytes(x))), k);
    if k.OffenceKey? {
      OffencesListed(h, s, k.digest);
    }
  }

  ghost function Inserted(h: Bytes -> Hash, s: State, keys: seq<StateKey>): map<Hash, Digest>
    requires forall k :: k in keys ==> ValueAt(h, s, k).Some?
    decreases |keys|
  {
    if keys == [] then map[]
    else
      var n := |keys| - 1;
      Inserted(h, s, keys[..n])[Located(h, keys[n]) := Digest.Raw(ValueAt(h, s, keys[n]).value)]
  }

  ghost function Tree(h: Bytes -> Hash, s: State): map<Hash, Digest> {
    assert forall k :: k in KeyOrder(h, s) ==> ValueAt(h, s, k).Some? by {
      forall k | k in KeyOrder(h, s) ensures ValueAt(h, s, k).Some? {
        KeysListed(h, s, k);
      }
    }
    Inserted(h, s, KeyOrder(h, s))
  }

  ghost function Root(h: Bytes -> Hash, s: State): Digest {
    TreeRoot(Tree(h, s))
  }

  // ----- Collisions

  ghost predicate Apart(h: Bytes -> Hash, used: iset<Bytes>) {
    forall a, b :: a in used && b in used && h(a) == h(b) ==> a == b
  }

  /** Everything hashed to build the tree of a ledger. */
  ghost function InUse(h: Bytes -> Hash, s: State): iset<Bytes> {
    iset b |
      || b in OffenceBytes(s)
      || exists k :: ValueAt(h, s, k).Some? && (b == Preimage(k) || RecordAt(s, k) == Some(b))
  }

  lemma KeyInUse(h: Bytes -> Hash, s: State, k: StateKey)
    requires ValueAt(h, s, k).Some?
    ensures Preimage(k) in InUse(h, s)
    ensures RecordAt(s, k).Some? ==> RecordAt(s, k).value in InUse(h, s)
  {
    hide Preimage, RecordAt, ValueAt, OffenceBytes;
  }

  lemma {:induction false} InsertedGets(h: Bytes -> Hash, s: State, keys: seq<StateKey>, used: iset<Bytes>, k: StateKey)
    requires forall j :: j in keys ==> ValueAt(h, s, j).Some?
    requires InUse(h, s) <= used && Apart(h, used) && Preimage(k) in used
    ensures var m := Inserted(h, s, keys);
      Lookup(m, Located(h, k)) == if k in keys then Some(Digest.Raw(ValueAt(h, s, k).value)) else None
    decreases |keys|
  {
    hide InUse, Preimage, ValueAt;
    if keys != [] {
      var n := |keys| - 1;
      InsertedGets(h, s, keys[..n], used, k);
      KeyInUse(h, s, keys[n]);
      assert keys == keys[..n] + [keys[n]];
      if Located(h, keys[n]) == Located(h, k) {
        PreimagesDiffer(keys[n], k);
      }
    }
  }

  /** The tree says of a key what the ledger says. */
  lemma TreeSays(h: Bytes -> Hash, s: State, used: iset<Bytes>, k: StateKey)
    requires InUse(h, s) <= used && Apart(h, used) && Preimage(k) in used
    ensures Lookup(Tree(h, s), Located(h, k)) == Digested(ValueAt(h, s, k))
  {
    hide InUse, Preimage, ValueAt, KeyOrder, Located;
    forall j | j in KeyOrder(h, s) ensures ValueAt(h, s, j).Some? {
      KeysListed(h, s, j);
    }
    KeysListed(h, s, k);
    InsertedGets(h, s, KeyOrder(h, s), used, k);
  }

  /** A light client's proof about a record verifies against the state root exactly when the
      ledger holds that record there, or holds none when the proof says so. */
  lemma ProofsSayTheState(h: Bytes -> Hash, s: State, k: StateKey, value: Option<Hash>)
    requires Apart(h, InUse(h, s) + iset{Preimage(k)})
    ensures (exists proof :: Verifies(proof, Root(h, s), Located(h, k), Digested(value))) <==> ValueAt(h, s, k) == value
  {
    hide InUse, Preimage, ValueAt, Tree, Located, Verifies;
    TreeSays(h, s, InUse(h, s) + iset{Preimage(k)}, k);
    ProvableExactly(Tree(h, s), Located(h, k), Digested(value));
    assert Root(h, s) == TreeRoot(Tree(h, s));
    assert Digested(value) == Digested(ValueAt(h, s, k)) <==> value == ValueAt(h, s, k);
  }

  // ----- One root, one ledger

  /** Counts that fit the varint that writes them. */
  ghost predicate Countable(s: State) {
    && (forall id :: id in s.accounts ==> AccountWithin(s.accounts[id], NO_LIMIT))
    && (forall id :: id in s.recoveries ==> |s.recoveries[id].approvals| <= NO_LIMIT)
  }

  /** Two ledgers that say the same at every key, over a hash that does not collide on them. */
  ghost predicate Indistinguishable(h: Bytes -> Hash, s: State, t: State) {
    && Apart(h, InUse(h, s) + InUse(h, t))
    && forall k :: ValueAt(h, s, k) == ValueAt(h, t, k)
  }

  lemma EqualRootsAgree(h: Bytes -> Hash, s: State, t: State)
    requires Apart(h, InUse(h, s) + InUse(h, t)) && Root(h, s) == Root(h, t)
    ensures Indistinguishable(h, s, t)
  {
    hide InUse, Preimage, ValueAt, Tree, Located, Apart;
    EqualRoots(Tree(h, s), Tree(h, t));
    forall k ensures ValueAt(h, s, k) == ValueAt(h, t, k) {
      if ValueAt(h, s, k).Some? || ValueAt(h, t, k).Some? {
        if ValueAt(h, s, k).Some? {
          KeyInUse(h, s, k);
        } else {
          KeyInUse(h, t, k);
        }
        TreeSays(h, s, InUse(h, s) + InUse(h, t), k);
        TreeSays(h, t, InUse(h, s) + InUse(h, t), k);
      }
    }
  }

  lemma SameRecord(h: Bytes -> Hash, s: State, t: State, k: StateKey)
    requires Indistinguishable(h, s, t) && RecordAt(s, k).Some? && !k.TickerKey? && !k.NameKey? && !k.OffenceKey?
    ensures RecordAt(t, k) == RecordAt(s, k)
  {
    hide InUse, Preimage, RecordAt, OffenceBytes, ValueAt;
    RecordIsHashed(h, s, k);
    RecordIsHashed(h, t, k);
    assert ValueAt(h, s, k) == ValueAt(h, t, k);
    KeyInUse(h, s, k);
    KeyInUse(h, t, k);
  }

  lemma RecordIsHashed(h: Bytes -> Hash, s: State, k: StateKey)
    requires !k.TickerKey? && !k.NameKey? && !k.OffenceKey?
    ensures ValueAt(h, s, k) == match RecordAt(s, k) case None => None case Some(b) => Some(h(b))
  {
    hide RecordAt;
  }

  lemma SameAccounts(h: Bytes -> Hash, s: State, t: State)
    requires Indistinguishable(h, s, t) && Countable(s) && Countable(t)
    ensures forall id :: id in s.accounts ==> id in t.accounts && t.accounts[id] == s.accounts[id]
  {
    hide Indistinguishable, AccountCodec, Lawful;
    AccountLawful(NO_LIMIT);
    forall id | id in s.accounts ensures id in t.accounts && t.accounts[id] == s.accounts[id] {
      SameRecord(h, s, t, AccountKey(id));
      AccountValidExactly(NO_LIMIT, s.accounts[id]);
      AccountValidExactly(NO_LIMIT, t.accounts[id]);
      PrefixFree(AccountCodec(NO_LIMIT), s.accounts[id], [], t.accounts[id], []);
    }
  }

  lemma SamePurses(h: Bytes -> Hash, s: State, t: State)
    requires Indistinguishable(h, s, t)
    ensures forall id :: id in s.purses ==> id in t.purses && t.purses[id] == s.purses[id]
  {
    hide Indistinguishable, PurseCodec, Lawful;
    PurseLawful();
    forall id | id in s.purses ensures id in t.purses && t.purses[id] == s.purses[id] {
      SameRecord(h, s, t, PurseKey(id));
      PrefixFree(PurseCodec(), s.purses[id], [], t.purses[id], []);
    }
  }

  lemma SameAssets(h: Bytes -> Hash, s: State, t: State)
    requires Indistinguishable(h, s, t)
    ensures forall id :: id in s.assets ==> id in t.assets && t.assets[id] == s.assets[id]
  {
    hide Indistinguishable, AssetRecordCodec, Lawful;
    AssetRecordLawful();
    forall id | id in s.assets ensures id in t.assets && t.assets[id] == s.assets[id] {
      SameRecord(h, s, t, AssetKey(id));
      PrefixFree(AssetRecordCodec(), s.assets[id], [], t.assets[id], []);
    }
  }

  lemma SameCommitments(h: Bytes -> Hash, s: State, t: State)
    requires Indistinguishable(h, s, t)
    ensures forall c :: c in s.commitments ==> c in t.commitments && t.commitments[c] == s.commitments[c]
  {
    hide Indistinguishable, CommitmentCodec, Lawful;
    SmallRecordsLawful();
    forall c | c in s.commitments ensures c in t.commitments && t.commitments[c] == s.commitments[c] {
      SameRecord(h, s, t, CommitmentKey(c));
      PrefixFree(CommitmentCodec(), s.commitments[c], [], t.commitments[c], []);
    }
  }

  lemma SameRecoveries(h: Bytes -> Hash, s: State, t: State)
    requires Indistinguishable(h, s, t) && Countable(s) && Countable(t)
    ensures forall id :: id in s.recoveries ==> id in t.recoveries && t.recoveries[id] == s.recoveries[id]
  {
    hide Indistinguishable, RecoveryCodec, Lawful;
    RecoveryLawful(NO_LIMIT);
    forall id | id in s.recoveries ensures id in t.recoveries && t.recoveries[id] == s.recoveries[id] {
      SameRecord(h, s, t, RecoveryKey(id));
      PrefixFree(RecoveryCodec(NO_LIMIT), s.recoveries[id], [], t.recoveries[id], []);
    }
  }

  lemma SamePointers(h: Bytes -> Hash, s: State, t: State)
    requires Indistinguishable(h, s, t)
    ensures forall name :: name in s.tickers ==> name in t.tickers && t.tickers[name] == s.tickers[name]
    ensures forall name :: name in s.owners ==> name in t.owners && t.owners[name] == s.owners[name]
  {
    forall name | name in s.tickers ensures name in t.tickers && t.tickers[name] == s.tickers[name] {
      assert ValueAt(h, s, TickerKey(name)) == ValueAt(h, t, TickerKey(name));
    }
    forall name | name in s.owners ensures name in t.owners && t.owners[name] == s.owners[name] {
      assert ValueAt(h, s, NameKey(name)) == ValueAt(h, t, NameKey(name));
    }
  }

  lemma SameCounters(h: Bytes -> Hash, s: State, t: State)
    requires Indistinguishable(h, s, t)
    ensures s.burned == t.burned && s.contextPot == t.contextPot && s.fees == t.fees
  {
    hide Indistinguishable, CountersCodec, Lawful;
    SmallRecordsLawful();
    SameRecord(h, s, t, CountersKey);
    PrefixFree(CountersCodec(), (s.burned, (s.contextPot, s.fees)), [], (t.burned, (t.contextPot, t.fees)), []);
  }

  lemma SameOffenceBytes(h: Bytes -> Hash, s: State, t: State, b: Bytes)
    requires Indistinguishable(h, s, t) && b in OffenceBytes(s)
    ensures b in OffenceBytes(t)
  {
    hide OffenceBytes, Preimage;
    assert ValueAt(h, s, OffenceKey(h(b))) == ValueAt(h, t, OffenceKey(h(b)));
    var c :| c in OffenceBytes(t) && h(c) == h(b);
    assert b in InUse(h, s) && c in InUse(h, t);
  }

  lemma {:induction false} VarintLength(value: nat, read: nat)
    requires read < MAX_VARINT_BYTES && value < Room(read)
    ensures |EncVarint(value)| <= MAX_VARINT_BYTES - read
    decreases value
  {
    if value >= 128 {
      RoomStep(read);
      VarintLength(value / 128, read + 1);
    }
  }

  /** An account's offence is longer than any validator's, so the two never share a digest. */
  lemma OffenceKindsDiffer(x: AccountOffence, y: ValidatorOffence)
    ensures AccountOffenceBytes(x) != ValidatorOffenceBytes(y)
  {
    RoomIsU64();
    VarintLength(y.height, 0);
  }

  lemma SameOffences(h: Bytes -> Hash, s: State, t: State)
    requires Indistinguishable(h, s, t)
    ensures s.accountOffences <= t.accountOffences && s.validatorOffences <= t.validatorOffences
  {
    hide Indistinguishable, AccountOffenceCodec, ValidatorOffenceCodec, Lawful;
    SmallRecordsLawful();
    forall x | x in s.accountOffences ensures x in t.accountOffences {
      SameOffenceBytes(h, s, t, AccountOffenceBytes(x));
      if y :| y in t.validatorOffences && ValidatorOffenceBytes(y) == AccountOffenceBytes(x) {
        OffenceKindsDiffer(x, y);
      }
      var z :| z in t.accountOffences && AccountOffenceBytes(z) == AccountOffenceBytes(x);
      PrefixFree(AccountOffenceCodec(), x, [], z, []);
    }
    forall y | y in s.validatorOffences ensures y in t.validatorOffences {
      SameOffenceBytes(h, s, t, ValidatorOffenceBytes(y));
      if x :| x in t.accountOffences && AccountOffenceBytes(x) == ValidatorOffenceBytes(y) {
        OffenceKindsDiffer(x, y);
      }
      var z :| z in t.validatorOffences && ValidatorOffenceBytes(z) == ValidatorOffenceBytes(y);
      PrefixFree(ValidatorOffenceCodec(), y, [], z, []);
    }
  }

  lemma Mirrored(h: Bytes -> Hash, s: State, t: State)
    requires Indistinguishable(h, s, t)
    ensures Indistinguishable(h, t, s)
  {
    hide InUse, ValueAt;
    assert InUse(h, s) + InUse(h, t) == InUse(h, t) + InUse(h, s);
  }

  lemma OneSided(h: Bytes -> Hash, s: State, t: State)
    requires Indistinguishable(h, s, t) && Countable(s) && Countable(t)
    ensures && (forall id :: id in s.accounts ==> id in t.accounts && t.accounts[id] == s.accounts[id])
            && (forall id :: id in s.purses ==> id in t.purses && t.purses[id] == s.purses[id])
            && (forall id :: id in s.assets ==> id in t.assets && t.assets[id] == s.assets[id])
            && (forall name :: name in s.tickers ==> name in t.tickers && t.tickers[name] == s.tickers[name])
            && (forall name :: name in s.owners ==> name in t.owners && t.owners[name] == s.owners[name])
            && (forall c :: c in s.commitments ==> c in t.commitments && t.commitments[c] == s.commitments[c])
            && (forall id :: id in s.recoveries ==> id in t.recoveries && t.recoveries[id] == s.recoveries[id])
            && s.accountOffences <= t.accountOffences && s.validatorOffences <= t.validatorOffences
  {
    hide Indistinguishable, Countable;
    SameAccounts(h, s, t);
    SamePurses(h, s, t);
    SameAssets(h, s, t);
    SamePointers(h, s, t);
    SameCommitments(h, s, t);
    SameRecoveries(h, s, t);
    SameOffences(h, s, t);
  }

  /** Two ledgers with the same state root are equal in every field. */
  lemma OneRootOneLedger(h: Bytes -> Hash, s: State, t: State)
    requires Countable(s) && Countable(t)
    requires Apart(h, InUse(h, s) + InUse(h, t)) && Root(h, s) == Root(h, t)
    ensures s == t
  {
    hide Indistinguishable, Countable, Root, Apart, InUse;
    EqualRootsAgree(h, s, t);
    Mirrored(h, s, t);
    OneSided(h, s, t);
    OneSided(h, t, s);
    SameCounters(h, s, t);
    assert s.accounts == t.accounts && s.purses == t.purses && s.assets == t.assets;
    assert s.tickers == t.tickers && s.owners == t.owners && s.commitments == t.commitments;
    assert s.recoveries == t.recoveries;
  }
}
