/** When a block is accepted, and the state it leads to: the rules in the order they are applied. */
module BlockRules {
  import opened Prelude
  import opened Types
  import opened Amounts
  import opened Chains
  import opened NameBooks
  import opened PurseBooks
  import opened LedgerSpec
  import opened Weights
  import opened Validators
  import opened Committees
  import opened Certificates
  import opened Emission
  import opened MerkleList
  import opened StateRoot

  const MAX_REVEAL_CATCHUP: u32 := 720

  datatype ChainParameters = ChainParameters(chain: ChainId, allowTest: bool)

  datatype Block = Block(header: SignedHeader, transactions: seq<Transaction>, certificate: Option<Certificate>)

  datatype HeaderError =
    | UnsupportedHeaderVersion(headerVersion: nat)
    | UnclaimableRung(rung: Rung)
    | FinalizedAhead(finalized: u64, height: u64)
    | GenesisHasParent
    | MissingParent
    | SupplyOverCap(supply: Amount)

  datatype BlockError =
    | HeaderFault(headerError: HeaderError)
    | WrongBlockChain
    | NotTheNextHeight(parentHeight: u64, claimedHeight: u64)
    | WrongParent(claimedParent: BlockId, actualParent: BlockId)
    | FinalizedFell(parentTip: u64, claimedTip: u64)
    | EmissionFault(emissionError: EmissionError)
    | ProposerOffDuty(offDuty: AccountId)
    | UnknownProposer(unknown: AccountId)
    | TestAlgorithmProposer
    | BadProposerSignature
    | BadRandomnessReveal
    | TxRootMismatch(claimedTxRoot: Digest, computedTxRoot: Digest)
    | CertifiedProvisionalBlock
    | GrammarFault
    | HousekeepingFault(housekeepingError: StateError)
    | TransactionFault(faultIndex: nat, cause: StateError)
    | UnknownDevice(deviceIndex: nat)
    | BadTransactionSignature(signatureIndex: nat)
    | StateRootMismatch(claimedStateRoot: Digest, computedStateRoot: Digest)
    | FeeRatioMismatch(claimedRatio: Ratio, computedRatio: Ratio)
    | SecurityBudgetMismatch
    | CertificateFault(certificateError: CertificateError)

  /** What applying a block reports. */
  datatype BlockApplied = BlockApplied(
    block: BlockId,
    claimedRung: Rung,
    reachedRung: Rung,
    signedWeight: Weight,
    settlements: seq<Payout>,
    prunedCommitments: nat)

  /** What is fixed while a chain is validated. */
  datatype Setting = Setting(o: Oracle, params: ChainParameters, committee: Committee)

  // ----- The header and its place

  function HeaderChecked(h: BlockHeader): Outcome<HeaderError> {
    if h.version != HEADER_VERSION then Fail(UnsupportedHeaderVersion(h.version))
    else if !h.rung.ClaimableByAHeader() then Fail(UnclaimableRung(h.rung))
    else if h.finalizedHeight > h.height then Fail(FinalizedAhead(h.finalizedHeight, h.height))
    else if h.rung == Rung.Chain && h.finalizedHeight != h.height then Fail(FinalizedAhead(h.finalizedHeight, h.height))
    else if h.height == 0 && h.parent != ZERO_BLOCK then Fail(GenesisHasParent)
    else if h.height != 0 && h.parent == ZERO_BLOCK then Fail(MissingParent)
    else if h.emittedSupply > MAX_SUPPLY then Fail(SupplyOverCap(h.emittedSupply))
    else Pass
  }

  function EpochOf(height: u64): u64 {
    height / EPOCH_BLOCKS
  }

  ghost function PlaceChecked(g: Setting, h: BlockHeader, parent: BlockHeader): Outcome<BlockError> {
    match HeaderChecked(h)
    case Fail(e) => Fail(HeaderFault(e))
    case Pass =>
      if h.chain != g.params.chain then Fail(WrongBlockChain)
      else if h.height != SaturatingAdd(parent.height, 1) then Fail(NotTheNextHeight(parent.height, h.height))
      else if h.parent != g.o.blockId(parent) then Fail(WrongParent(h.parent, g.o.blockId(parent)))
      else if h.finalizedHeight < parent.finalizedHeight then
          Fail(FinalizedFell(parent.finalizedHeight, h.finalizedHeight))
      else
        match CounterChecked(parent.emittedSupply, h.emittedSupply, EpochOf(h.height))
        case Fail(e) => Fail(EmissionFault(e))
        case Pass => Pass
  }

  /** On duty, registered, with an acceptable key, a good signature and a reveal that moves
      its sealed chain forward by at most an epoch. */
  function ProposerChecked(g: Setting, signed: SignedHeader, validators: ValidatorMap): Outcome<BlockError>
    requires g.committee.WellFormed()
  {
    if !g.committee.IsActiveAt(signed.header.proposer, signed.header.height % EPOCH_BLOCKS) then
      Fail(ProposerOffDuty(signed.header.proposer))
    else if signed.header.proposer !in validators then Fail(UnknownProposer(signed.header.proposer))
    else RecordChecked(g, signed, validators[signed.header.proposer])
  }

  function RecordChecked(g: Setting, signed: SignedHeader, record: ValidatorRecord): Outcome<BlockError> {
    if !g.params.allowTest && !record.key.algorithm.ValidOnLiveChain() then Fail(TestAlgorithmProposer)
    else if !CheckHeader(g.o, signed, record.key) then Fail(BadProposerSignature)
    else if Distance(g.o.commitmentLink, signed.header.randomnessReveal, record.lastReveal,
        MAX_REVEAL_CATCHUP).None? then
      Fail(BadRandomnessReveal)
    else Pass
  }

  function TxLeaves(o: Oracle, txs: seq<Transaction>): (leaves: seq<Digest>)
    ensures |leaves| == |txs|
    ensures forall i :: 0 <= i < |txs| ==> leaves[i] == Digest.Raw(o.txId(txs[i].body).raw)
  {
    seq(|txs|, i requires 0 <= i < |txs| => Digest.Raw(o.txId(txs[i].body).raw))
  }

  function TxRoot(o: Oracle, txs: seq<Transaction>): Digest {
    ListRoot(TxLeaves(o, txs))
  }

  predicate GrammarHolds(txs: seq<Transaction>) {
    forall i :: 0 <= i < |txs| ==> txs[i].body.kind.AllowedInProvisional()
  }

  function BodyChecked(o: Oracle, block: Block): Outcome<BlockError> {
    if block.header.header.txRoot != TxRoot(o, block.transactions) then
      Fail(TxRootMismatch(block.header.header.txRoot, TxRoot(o, block.transactions)))
    else if block.header.header.rung == Rung.Provisional && block.certificate.Some? then Fail(CertifiedProvisionalBlock)
    else if block.header.header.rung == Rung.Provisional && !GrammarHolds(block.transactions) then Fail(GrammarFault)
    else Pass
  }

  // ----- The transactions

  function ContextOf(h: BlockHeader): BlockContext {
    BlockContext(h.chain, h.height, h.finalizedHeight, h.rung, h.proposer)
  }

  function SignatureChecked(o: Oracle, allowTest: bool, tx: Transaction, key: VerifyingKey): Outcome<TxError> {
    if allowTest then CheckTransaction(o, tx, key) else CheckTransactionLive(o, tx, key)
  }

  ghost function TransactionStep(g: Setting, s: State, ctx: BlockContext, tx: Transaction, index: nat)
      : Result<State, BlockError> {
    if tx.body.account !in s.accounts then Failure(TransactionFault(index, NoSuchAccount(tx.body.account)))
    else if tx.body.device !in s.accounts[tx.body.account].devices then Failure(UnknownDevice(index))
    else if SignatureChecked(g.o, g.params.allowTest, tx,
        s.accounts[tx.body.account].devices[tx.body.device].key).Fail? then
      Failure(BadTransactionSignature(index))
    else
      match TxApplied(g.o, s, ctx, tx.body)
      case Failure(e) => Failure(TransactionFault(index, e))
      case Success(t) => Success(t)
  }

  /** The state after the first `n` transactions of a block. */
  ghost function TransactionsApplied(g: Setting, s: State, ctx: BlockContext, txs: seq<Transaction>, n: nat)
      : Result<State, BlockError>
    requires n <= |txs|
  {
    if n == 0 then Success(s)
    else
      var before :- TransactionsApplied(g, s, ctx, txs, n - 1);
      TransactionStep(g, before, ctx, txs[n - 1], n - 1)
  }

  // ----- The commitments and the certificate

  function RatioOf(s: State, emitted: Amount): Ratio {
    Ratio(s.fees, emitted)
  }

  ghost function SealChecked(g: Setting, h: BlockHeader, s: State, validators: ValidatorMap): Outcome<BlockError> {
    if h.stateRoot != Root(g.o.stateHash, s) then Fail(StateRootMismatch(h.stateRoot, Root(g.o.stateHash, s)))
    else if h.feeEmissionRatio != RatioOf(s, h.emittedSupply) then
      Fail(FeeRatioMismatch(h.feeEmissionRatio, RatioOf(s, h.emittedSupply)))
    else if SecurityBudget(validators) != Some(h.securityBudget) then Fail(SecurityBudgetMismatch)
    else Pass
  }

  function SlotOf(g: Setting, h: BlockHeader, validators: ValidatorMap): Slot {
    Slot(g.committee, h.height % EPOCH_BLOCKS, validators, g.params.allowTest)
  }

  /** The rung reached, once the certificate is weighed, and the weight that signed. */
  function CertificateWeighed(g: Setting, block: Block, validators: ValidatorMap): Result<(Rung, Weight), BlockError>
    requires g.committee.WellFormed()
  {
    match block.certificate
    case None => Success((Rung.Provisional, 0))
    case Some(c) =>
      var h := block.header.header;
      match CertificateChecked(g.o, c, h, SlotOf(g, h, validators))
      case Failure(e) => Failure(CertificateFault(e))
      case Success(signed) =>
        Success((if Finalises(signed, g.committee.ActiveWeightAt(h.height % EPOCH_BLOCKS)) then Rung.Chain
            else Rung.Provisional, signed))
  }

  function RevealSpent(validators: ValidatorMap, h: BlockHeader): ValidatorMap {
    if h.proposer in validators
    then validators[h.proposer := validators[h.proposer].(lastReveal := h.randomnessReveal)]
    else validators
  }

  // ----- The whole block

  datatype ChainState = ChainState(ledger: State, validators: ValidatorMap)

  /** The state the transactions start from. */
  ghost function Prepared(s: State, finalized: u64): Result<State, BlockError> {
    match Housekept(s, finalized)
    case Failure(e) => Failure(HousekeepingFault(e))
    case Success(t) => Success(t)
  }

  /** The checks that come before the ledger is touched. */
  ghost function Examined(g: Setting, block: Block, parent: BlockHeader, validators: ValidatorMap): Outcome<BlockError>
    requires g.committee.WellFormed()
  {
    match PlaceChecked(g, block.header.header, parent)
    case Fail(e) => Fail(e)
    case Pass =>
      match ProposerChecked(g, block.header, validators)
      case Fail(e) => Fail(e)
      case Pass => BodyChecked(g.o, block)
  }

  /** Housekeeping, then the transactions in order. */
  ghost function Executed(g: Setting, block: Block, s: State): Result<State, BlockError> {
    match Prepared(s, block.header.header.finalizedHeight)
    case Failure(e) => Failure(e)
    case Success(prepared) =>
      TransactionsApplied(g, prepared, ContextOf(block.header.header), block.transactions, |block.transactions|)
  }

  /** What an accepted block did. */
  ghost function Report(g: Setting, h: BlockHeader, before: State, rung: Rung, weight: Weight): BlockApplied {
    BlockApplied(g.o.blockId(h), h.rung, rung, weight, Payouts(before.purses, h.finalizedHeight),
                 |Stale(before.commitments, h.finalizedHeight)|)
  }

  /** The verdict on a block and, if it is accepted, the chain it leads to and what it did. */
  ghost function BlockChecked(g: Setting, block: Block, parent: BlockHeader, c: ChainState)
      : Result<(ChainState, BlockApplied), BlockError>
    requires g.committee.WellFormed()
  {
    match Examined(g, block, parent, c.validators)
    case Fail(e) => Failure(e)
    case Pass =>
      match Executed(g, block, c.ledger)
      case Failure(e) => Failure(e)
      case Success(s) =>
        match SealChecked(g, block.header.header, s, c.validators)
        case Fail(e) => Failure(e)
        case Pass =>
          match CertificateWeighed(g, block, c.validators)
          case Failure(e) => Failure(e)
          case Success((rung, weight)) =>
            Success((ChainState(s, RevealSpent(c.validators, block.header.header)),
                     Report(g, block.header.header, c.ledger, rung, weight)))
  }

  lemma {:induction false} TransactionsPrefix(g: Setting, s: State, ctx: BlockContext, xs: seq<Transaction>,
      ys: seq<Transaction>, n: nat)
    requires n <= |xs| && n <= |ys| && xs[..n] == ys[..n]
    ensures TransactionsApplied(g, s, ctx, xs, n) == TransactionsApplied(g, s, ctx, ys, n)
  {
    hide TransactionStep;
    if n > 0 {
      assert xs[n - 1] == xs[..n][n - 1] == ys[..n][n - 1] == ys[n - 1];
      assert xs[..n][..n - 1] == xs[..n - 1] && ys[..n][..n - 1] == ys[..n - 1];
      TransactionsPrefix(g, s, ctx, xs, ys, n - 1);
    }
  }

  lemma {:induction false} FailedTransactionStays(g: Setting, s: State, ctx: BlockContext, txs: seq<Transaction>,
      m: nat, n: nat)
    requires m <= n <= |txs| && TransactionsApplied(g, s, ctx, txs, m).Failure?
    ensures TransactionsApplied(g, s, ctx, txs, n) == TransactionsApplied(g, s, ctx, txs, m)
    decreases n
  {
    hide TransactionStep;
    if m < n {
      FailedTransactionStays(g, s, ctx, txs, m, n - 1);
    }
  }
}
