/** Identifiers, records, transactions and headers, as values. */
module Types {
  import opened Prelude
  import Orders

  // ----- Hashes and identifiers

  datatype Bytes32 = Bytes32(bytes: seq<u8>)

  /** Thirty-two bytes, compared as a big-endian number. */
  type Hash = h: Bytes32 | |h.bytes| == 32 witness Bytes32(seq(32, _ => 0))

  const ZERO_HASH: Hash :=
      Bytes32([0, 0, 0, 0, 0, 0, 0, 0, 0, 0, 0, 0, 0, 0, 0, 0, 0, 0, 0, 0, 0, 0, 0, 0, 0, 0, 0, 0, 0, 0, 0, 0])

  function RankHash(h: Hash): nat {
    Orders.Spelled(h.bytes)
  }

  datatype AccountId = AccountId(raw: Hash)
  datatype AssetId = AssetId(raw: Hash)
  datatype DeviceId = DeviceId(raw: Hash)
  datatype TxId = TxId(raw: Hash)
  datatype ChainId = ChainId(raw: Hash)
  datatype BlockId = BlockId(raw: Hash)

  type PurseId = TxId
  type Amount = u64
  type Lane = u32

  /** The grammar of a name or ticker: 1 to 32 of a-z, 0-9 and '-', no hyphen at either end,
      no two in a row. */
  predicate IsName(s: string) {
    && 1 <= |s| <= 32
    && (forall i :: 0 <= i < |s| ==> 'a' <= s[i] <= 'z' || '0' <= s[i] <= '9' || s[i] == '-')
    && s[0] != '-' && s[|s| - 1] != '-'
    && (forall i :: 0 <= i < |s| - 1 ==> !(s[i] == '-' && s[i + 1] == '-'))
  }

  type Name = s: string | IsName(s) witness "a"

  /** VAN is the absence of an asset identifier. */
  type Asset = Option<AssetId>

  const ZERO_BLOCK: BlockId := BlockId(ZERO_HASH)

  function RankAccount(id: AccountId): nat { RankHash(id.raw) }
  function RankPurse(id: PurseId): nat { RankHash(id.raw) }

  lemma RankHashInjective(a: Hash, b: Hash)
    requires RankHash(a) == RankHash(b)
    ensures a == b
  {
    Orders.SpelledInjective(a.bytes, b.bytes);
  }

  lemma RankPurseInjective(s: set<PurseId>)
    ensures Orders.RankInjective(RankPurse, s)
  {
    forall a, b | a in s && b in s && RankPurse(a) == RankPurse(b) ensures a == b {
      RankHashInjective(a.raw, b.raw);
    }
  }

  lemma RankAccountInjective(s: set<AccountId>)
    ensures Orders.RankInjective(RankAccount, s)
  {
    forall a, b | a in s && b in s && RankAccount(a) == RankAccount(b) ensures a == b {
      RankHashInjective(a.raw, b.raw);
    }
  }

  // ----- Keys and signatures

  datatype Algorithm = MlDsa44 | MlKem768 | MlDsa65 | InsecureTest {
    predicate ValidOnLiveChain() {
      !InsecureTest?
    }

    predicate IsSignature() {
      !MlKem768?
    }

    function PublicKeyLen(): nat {
      match this
      case MlDsa44 => 1312
      case MlKem768 => 1184
      case MlDsa65 => 1952
      case InsecureTest => 32
    }
  }

  datatype KeyRecord = Key(algorithm: Algorithm, bytes: seq<u8>)

  /** A signature key of the length its algorithm fixes. */
  type VerifyingKey = k: KeyRecord | k.algorithm.IsSignature() && |k.bytes| == k.algorithm.PublicKeyLen()
    witness Key(InsecureTest, seq(32, _ => 0))

  const TEST_KEY: VerifyingKey := Key(InsecureTest, seq(32, _ => 0))
  datatype Signature = Signature(algorithm: Algorithm, bytes: seq<u8>)

  // ----- Symbolic digests of the two Merkle trees

  /** A digest is the term it was computed from, so distinct inputs have distinct digests. */
  datatype Digest =
    | Zero
    | Raw(hash: Hash)
    | Record(encoding: seq<u8>)
    | Leaf(key: Hash, value: Digest)
    | ListLeaf(item: Digest)
    | Node(left: Digest, right: Digest)

  // ----- Blocks

  datatype Rung = Provisional | Chain | Federal {
    predicate ClaimableByAHeader() {
      Provisional? || Chain?
    }
  }

  datatype Ratio = Ratio(numerator: u64, denominator: u64)

  datatype BlockHeader = BlockHeader(
    version: nat,
    chain: ChainId,
    height: u64,
    parent: BlockId,
    rung: Rung,
    finalizedHeight: u64,
    stateRoot: Digest,
    txRoot: Digest,
    proposer: AccountId,
    randomnessReveal: Hash,
    archiveCommitment: Hash,
    emittedSupply: Amount,
    securityBudget: Amount,
    feeEmissionRatio: Ratio)

  datatype SignedHeader = SignedHeader(header: BlockHeader, signature: Signature)

  /** A contestation window, counted in finalised height only. */
  datatype Window = Window(openedAtFinalized: u64, duration: u64) {
    /** A window whose end overflows never elapses. */
    predicate HasElapsed(currentFinalized: u64) {
      openedAtFinalized + duration < U64_LIMIT && openedAtFinalized + duration <= currentFinalized
    }
  }

  const EPOCH_BLOCKS: u64 := 720

  // ----- Transactions

  datatype Nonce = Nonce(lane: Lane, sequence: u64)

  datatype TxKind =
    | Transfer(to: AccountId, asset: Asset, amount: Amount)
    | NomadSet(credit: Amount, margin: Amount)
    | DeviceAdd(key: VerifyingKey, lane: Lane, nomadShare: Amount)
    | DeviceRevoke(device: DeviceId)
    | NameCommit(commitment: Hash)
    | NameReveal(name: Name, salt: Hash)
    | GuardianSet(guardians: set<AccountId>, threshold: u32)
    | RecoveryStart(account: AccountId, newRootKey: VerifyingKey)
    | RecoveryCancel(account: AccountId)
    | RecoveryFinalise(account: AccountId)
    | Bond(amount: Amount, commitmentRoot: Hash)
    | Unbond(amount: Amount)
    | PurseOpen(counterparty: AccountId, asset: Asset, deposit: Amount, paywordRoot: Hash,
                trancheValue: Amount, expiryFinalizedHeight: u64)
    | PurseCloseCooperative(purse: PurseId, payerBalance: Amount, payeeBalance: Amount,
                            counterpartySignature: Signature)
    | PurseCloseUnilateral(purse: PurseId, tranchesClaimed: u32, paywordToken: Hash)
    | PurseDispute(purse: PurseId, tranchesClaimed: u32, paywordToken: Hash)
    | AssetCreate(ticker: Name, decimals: u8, reissuable: bool)
    | AssetMint(assetId: AssetId, to: AccountId, amount: Amount)
    | AssetBurn(assetId: AssetId, amount: Amount)
    | AccountEquivocation(accused: DeviceId, first: Transaction, second: Transaction)
    | ValidatorEquivocation(validator: AccountId, firstHeader: SignedHeader, secondHeader: SignedHeader)
  {
    /** The partition grammar: what a provisional block may carry. */
    predicate AllowedInProvisional() {
      Transfer? || PurseOpen? || PurseCloseCooperative?
    }

    predicate IsEvidence() {
      AccountEquivocation? || ValidatorEquivocation?
    }
  }

  datatype TxBody = TxBody(
    version: nat,
    chain: ChainId,
    account: AccountId,
    device: DeviceId,
    nonce: Nonce,
    fee: Amount,
    validUntilFinalized: Option<u64>,
    kind: TxKind)

  datatype Transaction = Transaction(body: TxBody, signature: Signature)

  const TX_VERSION: nat := 1
  const HEADER_VERSION: nat := 1

  // ----- Everything that hashes or verifies

  /** The hash-derived identifiers and the signature check, left arbitrary: every
      theorem about a function taking an `Oracle` holds for all of them. */
  datatype Oracle = Oracle(
    txId: TxBody -> TxId,
    blockId: BlockHeader -> BlockId,
    txDigest: (ChainId, TxId) -> Hash,
    blockDigest: (ChainId, BlockId) -> Hash,
    deviceId: VerifyingKey -> DeviceId,
    assetId: (AccountId, TxId) -> AssetId,
    nameCommitment: (Name, Hash, AccountId) -> Hash,
    payword: Hash -> Hash,
    commitmentLink: Hash -> Hash,
    stateHash: seq<u8> -> Hash,
    verifies: (VerifyingKey, Hash, Signature) -> bool)
}
