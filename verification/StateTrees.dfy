/** Building the state tree from a ledger, and proving single records to a light client. */
module StateTrees {
  import opened Types
  import opened SlashingBooks
  import opened LedgerSpec
  import opened Ledgers
  import opened Codec
  import opened Records
  import opened RecordWire
  import opened StateRoot
  import opened Smt

  method KeysInOrder<K(==,!new)>(rank: K -> nat, s: set<K>, key: K -> StateKey) returns (keys: seq<StateKey>)
    requires Injective(rank)
    ensures keys == Keyed(rank, s, key)
  {
    var xs := RecordWire.InOrder(rank, s);
    keys := seq(|xs|, i requires 0 <= i < |xs| => key(xs[i]));
  }

  method OffenceDigests(h: Bytes -> Hash, offences: set<AccountOffence>) returns (keys: seq<StateKey>)
    requires Injective(OffenceRank)
    ensures keys == Keyed(OffenceRank, offences, (x: AccountOffence) => OffenceKey(h(AccountOffenceBytes(x))))
  {
    hide OffenceRank, Injective, AccountOffenceBytes;
    var xs := RecordWire.InOrder(OffenceRank, offences);
    keys := [];
    var i := 0;
    while i < |xs|
      invariant 0 <= i <= |xs| && |keys| == i
      invariant forall j :: 0 <= j < i ==> keys[j] == OffenceKey(h(AccountOffenceBytes(xs[j])))
    {
      var b := EncodeAccountOffence(xs[i]);
      SameOffenceEncoding(xs[i]);
      keys := keys + [OffenceKey(h(b))];
      i := i + 1;
    }
  }

  lemma SameOffenceEncoding(x: AccountOffence)
    ensures AccountOffenceBytes(x) == AccountOffenceCodec().enc(x)
  {
  }

  lemma SameValidatorOffenceEncoding(x: ValidatorOffence)
    ensures ValidatorOffenceBytes(x) == ValidatorOffenceCodec().enc(x)
  {
  }

  method ValidatorOffenceDigests(h: Bytes -> Hash, offences: set<ValidatorOffence>) returns (keys: seq<StateKey>)
    requires Injective(ValidatorOffenceRank)
    ensures keys == Keyed(ValidatorOffenceRank, offences,
      (x: ValidatorOffence) => OffenceKey(h(ValidatorOffenceBytes(x))))
  {
    hide ValidatorOffenceRank, Injective, ValidatorOffenceBytes;
    var xs := RecordWire.InOrder(ValidatorOffenceRank, offences);
    keys := [];
    var i := 0;
    while i < |xs|
      invariant 0 <= i <= |xs| && |keys| == i
      invariant forall j :: 0 <= j < i ==> keys[j] == OffenceKey(h(ValidatorOffenceBytes(xs[j])))
    {
      var b := EncodeValidatorOffence(xs[i]);
      SameValidatorOffenceEncoding(xs[i]);
      keys := keys + [OffenceKey(h(b))];
      i := i + 1;
    }
  }

  /** Every key of the tree, group by group. */
  method ListKeys(h: Bytes -> Hash, s: State) returns (keys: seq<StateKey>)
    ensures keys == KeyOrder(h, s)
  {
    hide Keyed, RankAccount, RankPurse, RankAssetId, RankName, RankHash, OffenceRank, ValidatorOffenceRank, Injective;
    StateRanksInjective();
    var accounts := KeysInOrder(RankAccount, s.accounts.Keys, (id: AccountId) => AccountKey(id));
    var purses := KeysInOrder(RankPurse, s.purses.Keys, (id: PurseId) => PurseKey(id));
    var assets := KeysInOrder(RankAssetId, s.assets.Keys, (id: AssetId) => AssetKey(id));
    var tickers := KeysInOrder(RankName, s.tickers.Keys, (name: Name) => TickerKey(name));
    var names := KeysInOrder(RankName, s.owners.Keys, (name: Name) => NameKey(name));
    var commitments := KeysInOrder(RankHash, s.commitments.Keys, (c: Hash) => CommitmentKey(c));
    var recoveries := KeysInOrder(RankAccount, s.recoveries.Keys, (id: AccountId) => RecoveryKey(id));
    var offences := OffenceDigests(h, s.accountOffences);
    var validatorOffences := ValidatorOffenceDigests(h, s.validatorOffences);
    keys := accounts + purses + assets + tickers + names + commitments + recoveries + offences + validatorOffences
        + [CountersKey];
  }

  /** The value the tree holds at a key that is listed. */
  method ValueOf(h: Bytes -> Hash, s: State, k: StateKey) returns (v: Hash)
    requires ValueAt(h, s, k).Some?
    ensures v == ValueAt(h, s, k).value
  {
    hide PurseCodec, AssetRecordCodec, CommitmentCodec, AccountCodec, RecoveryCodec, CountersCodec, OffenceBytes;
    match k
    case AccountKey(id) =>
      var b := EncodeAccount(s.accounts[id], NO_LIMIT);
      v := h(b);
    case PurseKey(id) =>
      var b := EncodePurse(s.purses[id]);
      v := h(b);
    case AssetKey(id) =>
      var b := EncodeAssetRecord(s.assets[id]);
      v := h(b);
    case TickerKey(name) => v := s.tickers[name].raw;
    case NameKey(name) => v := s.owners[name].raw;
    case CommitmentKey(c) =>
      var b := EncodeCommitment(s.commitments[c]);
      v := h(b);
    case RecoveryKey(id) =>
      var b := EncodeRecovery(s.recoveries[id], NO_LIMIT);
      v := h(b);
    case OffenceKey(d) => v := d;
    case CountersKey =>
      var b := EncodeCounters(s.burned, s.contextPot, s.fees);
      v := h(b);
  }

  /** Fills the tree, key after key. */
  method BuildTree(h: Bytes -> Hash, s: State) returns (tree: SparseMerkleTree)
    ensures fresh(tree) && tree.entries == Tree(h, s)
  {
    hide KeyOrder, ValueAt, Located;
    var keys := ListKeys(h, s);
    forall k | k in keys ensures ValueAt(h, s, k).Some? {
      KeysListed(h, s, k);
    }
    tree := new SparseMerkleTree();
    var i := 0;
    while i < |keys|
      invariant 0 <= i <= |keys| && fresh(tree)
      invariant tree.entries == Inserted(h, s, keys[..i])
    {
      assert keys[..i + 1][..i] == keys[..i];
      var v := ValueOf(h, s, keys[i]);
      tree.Insert(Place(h, keys[i]), Digest.Raw(v));
      i := i + 1;
    }
    assert keys[..i] == keys;
  }

  function Place(h: Bytes -> Hash, k: StateKey): (place: Hash)
    ensures place == Located(h, k)
  {
    h(Preimage(k))
  }

  /** The state root of a ledger. */
  method StateRootOf(h: Bytes -> Hash, ledger: Ledger) returns (root: Digest)
    ensures root == StateRoot.Root(h, ledger.View())
  {
    var s := ledger.Snapshot();
    var tree := BuildTree(h, s);
    root := tree.Root();
  }

  /** A proof about one record; it verifies against the state root with what the ledger holds. */
  method ProveRecord(h: Bytes -> Hash, ledger: Ledger, k: StateKey) returns (proof: SmtProof)
    requires Apart(h, InUse(h, ledger.View()) + iset{Preimage(k)})
    ensures Verifies(proof, StateRoot.Root(h, ledger.View()), Located(h, k), Digested(ValueAt(h, ledger.View(), k)))
  {
    hide Verifies, Tree, InUse, ValueAt, Preimage, Located;
    var s := ledger.Snapshot();
    var tree := BuildTree(h, s);
    proof := tree.Prove(Place(h, k));
    TreeSays(h, s, InUse(h, s) + iset{Preimage(k)}, k);
  }
}
