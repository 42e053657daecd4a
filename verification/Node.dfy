/** Validating and building blocks, as the node runs them: on copies, committed only on success. */
module Node {
  import opened Prelude
  import opened Types
  import opened Chains
  import opened PurseBooks
  import opened LedgerSpec
  import opened Ledgers
  import opened Weights
  import opened Validators
  import opened Committees
  import opened Certificates
  import opened Emission
  import opened MerkleList
  import opened StateRoot
  import opened StateTrees
  import opened BlockRules
  import opened Proposals

  method CheckPlace(g: Setting, h: BlockHeader, parent: BlockHeader) returns (r: Outcome<BlockError>)
    ensures r == PlaceChecked(g, h, parent)
  {
    hide CounterChecked;
    var header := HeaderChecked(h);
    if header.Fail? {
      return Fail(HeaderFault(header.error));
    }
    if h.chain != g.params.chain {
      return Fail(WrongBlockChain);
    }
    if h.height != SaturatingAdd(parent.height, 1) {
      return Fail(NotTheNextHeight(parent.height, h.height));
    }
    var parentId := g.o.blockId(parent);
    if h.parent != parentId {
      return Fail(WrongParent(h.parent, parentId));
    }
    if h.finalizedHeight < parent.finalizedHeight {
      return Fail(FinalizedFell(parent.finalizedHeight, h.finalizedHeight));
    }
    var counter := CheckCounter(parent.emittedSupply, h.emittedSupply, EpochOf(h.height));
    r := if counter.Fail? then Fail(EmissionFault(counter.error)) else Pass;
  }

  method CheckProposer(g: Setting, signed: SignedHeader, validators: ValidatorSet) returns (r: Outcome<BlockError>)
    requires g.committee.WellFormed()
    ensures r == ProposerChecked(g, signed, validators.entries)
  {
    hide Committee.IsActiveAt, CheckHeader;
    var h := signed.header;
    if !g.committee.IsActiveAt(h.proposer, h.height % EPOCH_BLOCKS) {
      return Fail(ProposerOffDuty(h.proposer));
    }
    if h.proposer !in validators.entries {
      return Fail(UnknownProposer(h.proposer));
    }
    var record := validators.entries[h.proposer];
    if !g.params.allowTest && !record.key.algorithm.ValidOnLiveChain() {
      return Fail(TestAlgorithmProposer);
    }
    if !CheckHeader(g.o, signed, record.key) {
      return Fail(BadProposerSignature);
    }
    var cursor := new ChainCursor(g.o.commitmentLink, record.lastReveal, MAX_REVEAL_CATCHUP);
    var advanced := cursor.Advance(h.randomnessReveal);
    r := if advanced.Failure? then Fail(BadRandomnessReveal) else Pass;
  }

  method CheckBody(o: Oracle, block: Block) returns (r: Outcome<BlockError>)
    ensures r == BodyChecked(o, block)
  {
    var h := block.header.header;
    var computed := ComputeTxRoot(o, block.transactions);
    if h.txRoot != computed {
      return Fail(TxRootMismatch(h.txRoot, computed));
    }
    if h.rung == Rung.Provisional {
      if block.certificate.Some? {
        return Fail(CertifiedProvisionalBlock);
      }
      if !GrammarHolds(block.transactions) {
        return Fail(GrammarFault);
      }
    }
    return Pass;
  }

  method Examine(g: Setting, block: Block, parent: BlockHeader, validators: ValidatorSet)
      returns (r: Outcome<BlockError>)
    requires g.committee.WellFormed()
    ensures r == Examined(g, block, parent, validators.entries)
  {
    hide PlaceChecked, ProposerChecked, BodyChecked;
    r := CheckPlace(g, block.header.header, parent);
    if r.Fail? {
      return;
    }
    r := CheckProposer(g, block.header, validators);
    if r.Fail? {
      return;
    }
    r := CheckBody(g.o, block);
  }

  /** Settles and prunes before any transaction. */
  method Prepare(ledger: Ledger, finalized: u64) returns (r: Result<(seq<Payout>, nat), StateError>)
    modifies ledger.Repr()
    ensures match Housekept(old(ledger.View()), finalized)
      case Success(t) =>
        && r == Success((Payouts(old(ledger.View()).purses, finalized),
             |NameBooks.Stale(old(ledger.View()).commitments, finalized)|))
        && ledger.View() == t
      case Failure(e) => r == Failure(e)
  {
    hide PursesSettled;
    SettlingKeepsCommitments(ledger.View(), finalized);
    var settlements :- ledger.SettleElapsedPurses(finalized);
    var pruned := ledger.PruneExpiredCommitments(finalized);
    return Success((settlements, pruned));
  }

  lemma {:induction false} PayingKeepsCommitments(s: State, payouts: seq<Payout>)
    requires AllPaidOut(s, payouts).Success?
    ensures AllPaidOut(s, payouts).value.commitments == s.commitments
    decreases |payouts|
  {
    hide Credited, PaidOut;
    if payouts != [] {
      OnePayoutKeepsCommitments(s, payouts[0]);
      PayingKeepsCommitments(PaidOut(s, payouts[0]).value, payouts[1..]);
    }
  }

  lemma OnePayoutKeepsCommitments(s: State, payout: Payout)
    ensures PaidOut(s, payout).Success? ==> PaidOut(s, payout).value.commitments == s.commitments
  {
    hide Credited;
    var first := s;
    if payout.settlement.toPayer != 0 && Credited(s, payout.payer, payout.asset, payout.settlement.toPayer).Success? {
      CreditKeepsCommitments(s, payout.payer, payout.asset, payout.settlement.toPayer);
      first := Credited(s, payout.payer, payout.asset, payout.settlement.toPayer).value;
    }
    CreditKeepsCommitments(first, payout.payee, payout.asset, payout.settlement.toPayee);
  }

  lemma CreditKeepsCommitments(s: State, id: AccountId, asset: Asset, amount: Amount)
    ensures Credited(s, id, asset, amount).Success? ==>
      Credited(s, id, asset, amount).value.commitments == s.commitments
  {
  }

  lemma SettlingKeepsCommitments(s: State, finalized: u64)
    ensures PursesSettled(s, finalized).Success? ==> PursesSettled(s, finalized).value.commitments == s.commitments
  {
    hide AllPaidOut;
    if PursesSettled(s, finalized).Success? {
      PayingKeepsCommitments(s.(purses := s.purses - Due(s.purses, finalized)), Payouts(s.purses, finalized));
    }
  }

  /** One transaction of a block: its signature, then its effect. */
  method RunTransaction(g: Setting, ledger: Ledger, ctx: BlockContext, tx: Transaction, index: nat)
      returns (r: Outcome<BlockError>)
    modifies ledger.Repr()
    ensures match TransactionStep(g, old(ledger.View()), ctx, tx, index)
      case Success(t) => r == Pass && ledger.View() == t
      case Failure(e) => r == Fail(e)
  {
    hide TxApplied, SignatureChecked, CheckTransaction, CheckTransactionLive;
    if tx.body.account !in ledger.accounts {
      return Fail(TransactionFault(index, NoSuchAccount(tx.body.account)));
    }
    if tx.body.device !in ledger.accounts[tx.body.account].devices {
      return Fail(UnknownDevice(index));
    }
    var key := ledger.accounts[tx.body.account].devices[tx.body.device].key;
    if SignatureChecked(g.o, g.params.allowTest, tx, key).Fail? {
      return Fail(BadTransactionSignature(index));
    }
    var applied := ledger.Apply(g.o, ctx, tx.body);
    r := if applied.Failure? then Fail(TransactionFault(index, applied.error)) else Pass;
  }

  method RunTransactions(g: Setting, ledger: Ledger, ctx: BlockContext, txs: seq<Transaction>)
      returns (r: Outcome<BlockError>)
    modifies ledger.Repr()
    ensures match TransactionsApplied(g, old(ledger.View()), ctx, txs, |txs|)
      case Success(t) => r == Pass && ledger.View() == t
      case Failure(e) => r == Fail(e)
  {
    hide TransactionStep, Ledger.View;
    ghost var start := ledger.View();
    var index := 0;
    while index < |txs|
      invariant 0 <= index <= |txs|
      invariant TransactionsApplied(g, start, ctx, txs, index) == Success(ledger.View())
    {
      var step := RunTransaction(g, ledger, ctx, txs[index], index);
      if step.Fail? {
        FailedTransactionStays(g, start, ctx, txs, index + 1, |txs|);
        return step;
      }
      index := index + 1;
    }
    return Pass;
  }

  method CheckSeal(g: Setting, h: BlockHeader, ledger: Ledger, validators: ValidatorSet)
      returns (r: Outcome<BlockError>)
    ensures r == SealChecked(g, h, ledger.View(), validators.entries)
  {
    hide Root, SecurityBudget;
    var root := StateRootOf(g.o.stateHash, ledger);
    if h.stateRoot != root {
      return Fail(StateRootMismatch(h.stateRoot, root));
    }
    var ratio := Ratio(ledger.fees, h.emittedSupply);
    if h.feeEmissionRatio != ratio {
      return Fail(FeeRatioMismatch(h.feeEmissionRatio, ratio));
    }
    var budget := validators.Budget();
    if budget != Some(h.securityBudget) {
      return Fail(SecurityBudgetMismatch);
    }
    return Pass;
  }

  method WeighCertificate(g: Setting, block: Block, validators: ValidatorSet)
      returns (r: Result<(Rung, Weight), BlockError>)
    requires g.committee.WellFormed()
    ensures r == CertificateWeighed(g, block, validators.entries)
  {
    hide CertificateChecked;
    if block.certificate.None? {
      return Success((Rung.Provisional, 0));
    }
    var h := block.header.header;
    var signed := Certificates.Verify(g.o, block.certificate.value, h, SlotOf(g, h, validators.entries));
    if signed.Failure? {
      return Failure(CertificateFault(signed.error));
    }
    var active := g.committee.ActiveWeightAt(h.height % EPOCH_BLOCKS);
    return Success((if Finalises(signed.value, active) then Rung.Chain else Rung.Provisional, signed.value));
  }

  /** Housekeeping and transactions; what was settled and how much pruned. */
  method Execute(g: Setting, block: Block, ledger: Ledger) returns (r: Result<(seq<Payout>, nat), BlockError>)
    modifies ledger.Repr()
    ensures match Executed(g, block, old(ledger.View()))
      case Success(t) =>
        && ledger.View() == t
        && r == Success((Payouts(old(ledger.View()).purses, block.header.header.finalizedHeight),
                         |NameBooks.Stale(old(ledger.View()).commitments, block.header.header.finalizedHeight)|))
      case Failure(e) => r == Failure(e)
  {
    hide Housekept, TransactionsApplied, Ledger.View;
    var prepared := Prepare(ledger, block.header.header.finalizedHeight);
    if prepared.Failure? {
      return Failure(HousekeepingFault(prepared.error));
    }
    var ran := RunTransactions(g, ledger, ContextOf(block.header.header), block.transactions);
    if ran.Fail? {
      return Failure(ran.error);
    }
    return Success(prepared.value);
  }

  /** The ten steps, in order, on a ledger and a validator set that are thrown away on failure. */
  method Run(g: Setting, block: Block, parent: BlockHeader, ledger: Ledger, validators: ValidatorSet)
    returns (r: Result<BlockApplied, BlockError>)
    requires g.committee.WellFormed()
    modifies ledger.Repr(), validators
    ensures match BlockChecked(g, block, parent, old(ChainState(ledger.View(), validators.entries)))
      case Success((c, applied)) => r == Success(applied) && ledger.View() == c.ledger
          && validators.entries == c.validators
      case Failure(e) => r == Failure(e)
  {
    hide Examined, Executed, SealChecked, CertificateWeighed, Ledger.View, Committee.WellFormed, Payouts,
        NameBooks.Stale, RevealSpent;
    var h := block.header.header;
    var examined := Examine(g, block, parent, validators);
    if examined.Fail? {
      return Failure(examined.error);
    }
    var done :- Execute(g, block, ledger);
    var closed := CheckSeal(g, h, ledger, validators);
    if closed.Fail? {
      return Failure(closed.error);
    }
    var weighed :- WeighCertificate(g, block, validators);
    validators.entries := RevealSpent(validators.entries, h);
    return Success(BlockApplied(g.o.blockId(h), h.rung, weighed.0, weighed.1, done.0, done.1));
  }

  /** Validates a block and applies it, or changes nothing. */
  method ValidateAndApply(g: Setting, block: Block, parent: BlockHeader, ledger: Ledger, validators: ValidatorSet)
    returns (r: Result<BlockApplied, BlockError>)
    requires g.committee.WellFormed()
    modifies ledger.Repr(), validators
    ensures match BlockChecked(g, block, parent, old(ChainState(ledger.View(), validators.entries)))
      case Success((c, applied)) => r == Success(applied) && ledger.View() == c.ledger
          && validators.entries == c.validators
      case Failure(e) =>
        && r == Failure(e) && ledger.View() == old(ledger.View())
        && validators.entries == old(validators.entries)
  {
    hide BlockChecked, Ledger.View;
    var workingLedger := ledger.Clone();
    var workingValidators := new ValidatorSet(validators.entries);
    var applied :- Run(g, block, parent, workingLedger, workingValidators);
    ledger.Adopt(workingLedger);
    validators.entries := workingValidators.entries;
    return Success(applied);
  }

  // ----- Building

  method CheckInputs(g: Setting, inputs: ProposalInputs, validators: ValidatorSet) returns (r: Outcome<ProposeError>)
    requires g.committee.WellFormed()
    ensures r == InputsChecked(g, inputs, validators.entries)
  {
    hide CounterChecked, Committee.IsActiveAt;
    var height := SaturatingAdd(inputs.parent.height, 1);
    if !inputs.rung.ClaimableByAHeader() {
      return Fail(CannotClaim(inputs.rung));
    }
    if !g.committee.IsActiveAt(inputs.proposer, height % EPOCH_BLOCKS) {
      return Fail(NotOnDutyNow(inputs.proposer));
    }
    if inputs.proposer !in validators.entries {
      return Fail(NotAValidator(inputs.proposer));
    }
    if inputs.finalizedHeight < inputs.parent.finalizedHeight {
      return Fail(TipFell(inputs.parent.finalizedHeight, inputs.finalizedHeight));
    }
    var counter := CheckCounter(inputs.parent.emittedSupply, inputs.emittedSupply, EpochOf(height));
    r := if counter.Fail? then Fail(BadCounter(counter.error)) else Pass;
  }

  method Screen(g: Setting, ledger: Ledger, ctx: BlockContext, tx: Transaction) returns (reason: Option<DeclineReason>)
    ensures reason == Screened(g, ledger.View(), ctx, tx)
  {
    hide SignatureChecked;
    if ctx.rung == Rung.Provisional && !tx.body.kind.AllowedInProvisional() {
      return Some(Forbidden);
    }
    if tx.body.account !in ledger.accounts {
      return Some(NoAccount);
    }
    if tx.body.device !in ledger.accounts[tx.body.account].devices {
      return Some(NoDevice);
    }
    var key := ledger.accounts[tx.body.account].devices[tx.body.device].key;
    if SignatureChecked(g.o, g.params.allowTest, tx, key).Fail? {
      return Some(Unsigned);
    }
    return None;
  }

  /** Includes what applies and declines the rest, in the order the candidates come. */
  method Choose(g: Setting, working: Ledger, ctx: BlockContext, candidates: seq<Transaction>)
    returns (included: seq<Transaction>, declined: seq<Declined>)
    modifies working.Repr()
    ensures Draft(working.View(), included, declined) == Drafted(g, old(working.View()), ctx, candidates, |candidates|)
  {
    hide TxApplied, Screened, Ledger.View;
    included, declined := [], [];
    var index := 0;
    while index < |candidates|
      invariant 0 <= index <= |candidates|
      invariant Draft(working.View(), included, declined) == Drafted(g, old(working.View()), ctx, candidates, index)
    {
      var tx := candidates[index];
      var reason := Screen(g, working, ctx, tx);
      if reason.Some? {
        declined := declined + [Declined(index, reason.value)];
      } else {
        var applied := working.Apply(g.o, ctx, tx.body);
        match applied {
          case Success(_) => included := included + [tx];
          case Failure(e) => declined := declined + [Declined(index, Rejected(e))];
        }
      }
      index := index + 1;
    }
  }

  /** Housekeeping and then every candidate, on a copy of the ledger. */
  method MakeDraft(g: Setting, inputs: ProposalInputs, candidates: seq<Transaction>, ledger: Ledger,
      validators: ValidatorSet)
    returns (working: Ledger, r: Result<(seq<Transaction>, seq<Declined>), ProposeError>)
    ensures fresh(working.Repr())
    ensures match DraftFor(g, inputs, candidates, ChainState(ledger.View(), validators.entries))
      case Success(draft) => working.View() == draft.working && r == Success((draft.included, draft.declined))
      case Failure(e) => r == Failure(e)
  {
    hide Housekept, Drafted, Ledger.View;
    working := ledger.Clone();
    var prepared := Prepare(working, TipOf(inputs));
    if prepared.Failure? {
      return working, Failure(BadHousekeeping(prepared.error));
    }
    var included, declined := Choose(g, working, ContextFor(g, inputs), candidates);
    return working, Success((included, declined));
  }

  /** The block of a draft, once its header is signed. */
  ghost function SealedFor(g: Setting, inputs: ProposalInputs, draft: Draft, validators: ValidatorMap, signer: Signer)
    : Result<Proposal, ProposeError>
  {
    var header := HeaderFor(g, inputs, draft, validators);
    match signer(SigningDigest(g.o, header))
    case None => Failure(CannotSign)
    case Some(signature) => Success(Proposal(Block(SignedHeader(header, signature), draft.included, None),
        draft.declined))
  }

  method Seal(g: Setting, inputs: ProposalInputs, working: Ledger, included: seq<Transaction>, declined: seq<Declined>,
              validators: ValidatorSet, signer: Signer) returns (r: Result<Proposal, ProposeError>)
    ensures r == SealedFor(g, inputs, Draft(working.View(), included, declined), validators.entries, signer)
  {
    hide HeaderFor, Ledger.View;
    var header := MakeHeader(g, inputs, working, included, declined, validators);
    var signature := signer(SigningDigest(g.o, header));
    if signature.None? {
      return Failure(CannotSign);
    }
    return Success(Proposal(Block(SignedHeader(header, signature.value), included, None), declined));
  }

  /** Builds a block against a copy of the ledger; the ledger itself is not touched. */
  method Build(g: Setting, inputs: ProposalInputs, candidates: seq<Transaction>, ledger: Ledger,
      validators: ValidatorSet, signer: Signer)
    returns (r: Result<Proposal, ProposeError>)
    requires g.committee.WellFormed()
    ensures match Built(g, inputs, candidates, ChainState(ledger.View(), validators.entries), signer)
      case Success((proposal, _)) => r == Success(proposal)
      case Failure(e) => r == Failure(e)
  {
    BuiltInSteps(g, inputs, candidates, ChainState(ledger.View(), validators.entries), signer);
    hide Built, InputsChecked, DraftFor, SealedFor, Ledger.View, Committee.WellFormed;
    var checked := CheckInputs(g, inputs, validators);
    if checked.Fail? {
      return Failure(checked.error);
    }
    var working, draft := MakeDraft(g, inputs, candidates, ledger, validators);
    if draft.Failure? {
      return Failure(draft.error);
    }
    r := Seal(g, inputs, working, draft.value.0, draft.value.1, validators, signer);
  }

  /** A proposal is its checks, its draft and its seal. */
  lemma BuiltInSteps(g: Setting, inputs: ProposalInputs, candidates: seq<Transaction>, c: ChainState, signer: Signer)
    requires g.committee.WellFormed()
    ensures var built, draft := Built(g, inputs, candidates, c, signer), DraftFor(g, inputs, candidates, c);
      if InputsChecked(g, inputs, c.validators).Fail? then
          built == Failure(InputsChecked(g, inputs, c.validators).error)
      else if draft.Failure? then built == Failure(draft.error)
      else
        var sealed := SealedFor(g, inputs, draft.value, c.validators, signer);
        if sealed.Failure? then built == Failure(sealed.error) else built.Success? && built.value.0 == sealed.value
  {
    hide InputsChecked, DraftFor, HeaderFor, Committee.WellFormed;
  }

  method MakeHeader(g: Setting, inputs: ProposalInputs, working: Ledger, included: seq<Transaction>,
      ghost declined: seq<Declined>,
                    validators: ValidatorSet) returns (header: BlockHeader)
    ensures header == HeaderFor(g, inputs, Draft(working.View(), included, declined), validators.entries)
  {
    hide Root, SecurityBudget, TxRoot, Ledger.View;
    var stateRoot := StateRootOf(g.o.stateHash, working);
    var txRoot := ComputeTxRoot(g.o, included);
    var budget := validators.Budget();
    var ratio := FeeRatio(working, inputs.emittedSupply);
    header := BlockHeader(
      HEADER_VERSION, g.params.chain, SaturatingAdd(inputs.parent.height, 1), g.o.blockId(inputs.parent), inputs.rung,
      TipOf(inputs), stateRoot, txRoot, inputs.proposer, inputs.randomnessReveal, inputs.archiveCommitment,
      inputs.emittedSupply, budget.GetOr(0), ratio);
  }

  method ComputeTxRoot(o: Oracle, txs: seq<Transaction>) returns (root: Digest)
    ensures root == TxRoot(o, txs)
  {
    root := ComputeListRoot(TxLeaves(o, txs));
  }

  method FeeRatio(ledger: Ledger, emitted: Amount) returns (ratio: Ratio)
    ensures ratio == RatioOf(ledger.View(), emitted)
  {
    ratio := Ratio(ledger.fees, emitted);
  }
}
