/**
  Building a block, and the theorem that ties the producer to the validator: a block that
  was built is accepted exactly under conditions its builder can check beforehand, and
  the validator then ends in exactly the builder's working ledger.
 */
module Proposals {
  import opened Prelude
  import opened Types
  import opened Chains
  import opened LedgerSpec
  import opened Validators
  import opened Committees
  import opened Certificates
  import opened Emission
  import opened StateRoot
  import opened BlockRules

  datatype ProposalInputs = ProposalInputs(
    parent: BlockHeader,
    proposer: AccountId,
    randomnessReveal: Hash,
    rung: Rung,
    finalizedHeight: u64,
    archiveCommitment: Hash,
    emittedSupply: Amount)

  datatype DeclineReason =
    | NoAccount
    | NoDevice
    | Unsigned
    | Forbidden
    | Rejected(error: StateError)

  datatype Declined = Declined(index: nat, reason: DeclineReason)

  datatype ProposeError =
    | NotOnDutyNow(offDuty: AccountId)
    | NotAValidator(unknown: AccountId)
    | TipFell(parentTip: u64, claimedTip: u64)
    | CannotClaim(rung: Rung)
    | BadCounter(emissionError: EmissionError)
    | BadHousekeeping(housekeepingError: StateError)
    | CannotSign

  /** The ledger being built on, what made it into the block and what did not. */
  datatype Draft = Draft(working: State, included: seq<Transaction>, declined: seq<Declined>)

  /** The checks that need no change to the ledger. */
  function Screened(g: Setting, s: State, ctx: BlockContext, tx: Transaction): Option<DeclineReason> {
    if ctx.rung == Rung.Provisional && !tx.body.kind.AllowedInProvisional() then Some(Forbidden)
    else if tx.body.account !in s.accounts then Some(NoAccount)
    else if tx.body.device !in s.accounts[tx.body.account].devices then Some(NoDevice)
    else if SignatureChecked(g.o, g.params.allowTest, tx,
        s.accounts[tx.body.account].devices[tx.body.device].key).Fail? then
      Some(Unsigned)
    else None
  }

  ghost function Considered(g: Setting, d: Draft, ctx: BlockContext, tx: Transaction, index: nat): Draft {
    match Screened(g, d.working, ctx, tx)
    case Some(reason) => d.(declined := d.declined + [Declined(index, reason)])
    case None =>
      match TxApplied(g.o, d.working, ctx, tx.body)
      case Failure(e) => d.(declined := d.declined + [Declined(index, Rejected(e))])
      case Success(t) => d.(working := t, included := d.included + [tx])
  }

  /** The draft after the first `n` candidates. */
  ghost function Drafted(g: Setting, s: State, ctx: BlockContext, candidates: seq<Transaction>, n: nat): Draft
    requires n <= |candidates|
  {
    if n == 0 then Draft(s, [], [])
    else Considered(g, Drafted(g, s, ctx, candidates, n - 1), ctx, candidates[n - 1], n - 1)
  }

  function TipOf(inputs: ProposalInputs): u64 {
    if inputs.rung == Rung.Chain then SaturatingAdd(inputs.parent.height, 1) else inputs.finalizedHeight
  }

  function ContextFor(g: Setting, inputs: ProposalInputs): BlockContext {
    BlockContext(g.params.chain, SaturatingAdd(inputs.parent.height, 1), TipOf(inputs), inputs.rung, inputs.proposer)
  }

  ghost function InputsChecked(g: Setting, inputs: ProposalInputs, validators: ValidatorMap): Outcome<ProposeError>
    requires g.committee.WellFormed()
  {
    if !inputs.rung.ClaimableByAHeader() then Fail(CannotClaim(inputs.rung))
    else if !g.committee.IsActiveAt(inputs.proposer, SaturatingAdd(inputs.parent.height, 1) % EPOCH_BLOCKS) then
      Fail(NotOnDutyNow(inputs.proposer))
    else if inputs.proposer !in validators then Fail(NotAValidator(inputs.proposer))
    else if inputs.finalizedHeight < inputs.parent.finalizedHeight then
      Fail(TipFell(inputs.parent.finalizedHeight, inputs.finalizedHeight))
    else
      match CounterChecked(inputs.parent.emittedSupply, inputs.emittedSupply,
          EpochOf(SaturatingAdd(inputs.parent.height, 1)))
      case Fail(e) => Fail(BadCounter(e))
      case Pass => Pass
  }

  ghost function HeaderFor(g: Setting, inputs: ProposalInputs, draft: Draft, validators: ValidatorMap): BlockHeader {
    BlockHeader(
      HEADER_VERSION, g.params.chain, SaturatingAdd(inputs.parent.height, 1), g.o.blockId(inputs.parent), inputs.rung,
      TipOf(inputs), Root(g.o.stateHash, draft.working), TxRoot(g.o, draft.included), inputs.proposer,
      inputs.randomnessReveal, inputs.archiveCommitment, inputs.emittedSupply,
      SecurityBudget(validators).GetOr(0), RatioOf(draft.working, inputs.emittedSupply))
  }

  type Signer = Hash -> Option<Signature>

  datatype Proposal = Proposal(block: Block, declined: seq<Declined>)

  /** The draft a proposal is made from: housekeeping, then every candidate in order. */
  ghost function DraftFor(g: Setting, inputs: ProposalInputs, candidates: seq<Transaction>, c: ChainState)
      : Result<Draft, ProposeError> {
    match Housekept(c.ledger, TipOf(inputs))
    case Failure(e) => Failure(BadHousekeeping(e))
    case Success(s) => Success(Drafted(g, s, ContextFor(g, inputs), candidates, |candidates|))
  }

  ghost function Built(g: Setting, inputs: ProposalInputs, candidates: seq<Transaction>, c: ChainState, signer: Signer)
    : Result<(Proposal, State), ProposeError>
    requires g.committee.WellFormed()
  {
    match InputsChecked(g, inputs, c.validators)
    case Fail(e) => Failure(e)
    case Pass =>
      match DraftFor(g, inputs, candidates, c)
      case Failure(e) => Failure(e)
      case Success(draft) =>
        match signer(SigningDigest(g.o, HeaderFor(g, inputs, draft, c.validators)))
        case None => Failure(CannotSign)
        case Some(signature) =>
          Success((Proposal(Block(SignedHeader(HeaderFor(g, inputs, draft, c.validators), signature), draft.included,
              None),
                            draft.declined),
                   draft.working))
  }

  // ----- Nothing is lost and nothing reordered

  /** The candidates left when some positions are declined, in their order. */
  function Kept(candidates: seq<Transaction>, declined: set<nat>, n: nat): seq<Transaction>
    requires n <= |candidates|
  {
    if n == 0 then []
    else Kept(candidates, declined, n - 1) + if n - 1 in declined then [] else [candidates[n - 1]]
  }

  ghost function Positions(declined: seq<Declined>): set<nat> {
    set d | d in declined :: d.index
  }

  lemma {:induction false} KeptIgnoresLater(candidates: seq<Transaction>, declined: set<nat>, later: nat, n: nat)
    requires n <= |candidates| && n <= later
    ensures Kept(candidates, declined + {later}, n) == Kept(candidates, declined, n)
  {
    if n > 0 {
      KeptIgnoresLater(candidates, declined, later, n - 1);
    }
  }

  ghost predicate Partitioned(candidates: seq<Transaction>, included: seq<Transaction>, declined: seq<Declined>, n: nat)
    requires n <= |candidates|
  {
    && (forall i :: 0 <= i < |declined| ==> declined[i].index < n)
    && (forall i, j :: 0 <= i < j < |declined| ==> declined[i].index < declined[j].index)
    && included == Kept(candidates, Positions(declined), n)
    && |included| + |declined| == n
  }

  lemma OneMoreIncluded(candidates: seq<Transaction>, included: seq<Transaction>, declined: seq<Declined>, n: nat)
    requires n < |candidates| && Partitioned(candidates, included, declined, n)
    ensures Partitioned(candidates, included + [candidates[n]], declined, n + 1)
  {
    assert n !in Positions(declined);
  }

  lemma OneMoreDeclined(candidates: seq<Transaction>, included: seq<Transaction>, declined: seq<Declined>, n: nat,
      reason: DeclineReason)
    requires n < |candidates| && Partitioned(candidates, included, declined, n)
    ensures Partitioned(candidates, included, declined + [Declined(n, reason)], n + 1)
  {
    assert Positions(declined + [Declined(n, reason)]) == Positions(declined) + {n};
    KeptIgnoresLater(candidates, Positions(declined), n, n);
    assert included + [] == included;
  }

  /** Included and declined partition the candidates: each position is declined at most once,
      in ascending order, and the block is exactly the others, in their order. */
  lemma {:induction false} CandidatesArePartitioned(g: Setting, s: State, ctx: BlockContext,
      candidates: seq<Transaction>, n: nat)
    requires n <= |candidates|
    ensures var d := Drafted(g, s, ctx, candidates, n); Partitioned(candidates, d.included, d.declined, n)
  {
    hide Considered;
    if n == 0 {
      assert Positions([]) == {};
    } else {
      hide Partitioned;
      CandidatesArePartitioned(g, s, ctx, candidates, n - 1);
      var before := Drafted(g, s, ctx, candidates, n - 1);
      var after := Drafted(g, s, ctx, candidates, n);
      ConsideredOne(g, before, ctx, candidates[n - 1], n - 1);
      if after.declined == before.declined {
        OneMoreIncluded(candidates, before.included, before.declined, n - 1);
      } else {
        var reason :| after.declined == before.declined + [Declined(n - 1, reason)];
        OneMoreDeclined(candidates, before.included, before.declined, n - 1, reason);
      }
    }
  }

  lemma ConsideredOne(g: Setting, d: Draft, ctx: BlockContext, tx: Transaction, index: nat)
    ensures var e := Considered(g, d, ctx, tx, index);
      || (e.included == d.included + [tx] && e.declined == d.declined)
      || (e.included == d.included && e.declined != d.declined
           && exists reason :: e.declined == d.declined + [Declined(index, reason)])
  {
    hide TxApplied, Screened;
    var e := Considered(g, d, ctx, tx, index);
    match Screened(g, d.working, ctx, tx)
    case Some(reason) => assert e.declined == d.declined + [Declined(index, reason)] && |e.declined| != |d.declined|;
    case None =>
      if TxApplied(g.o, d.working, ctx, tx.body).Failure? {
        var reason := Rejected(TxApplied(g.o, d.working, ctx, tx.body).error);
        assert e.declined == d.declined + [Declined(index, reason)] && |e.declined| != |d.declined|;
      }
  }

  // ----- What the validator makes of the draft

  lemma IncludedStep(g: Setting, d: Draft, ctx: BlockContext, tx: Transaction, index: nat, position: nat)
    requires Considered(g, d, ctx, tx, index).included != d.included
    ensures Considered(g, d, ctx, tx, index).included == d.included + [tx]
    ensures TransactionStep(g, d.working, ctx, tx, position) == Success(Considered(g, d, ctx, tx, index).working)
    ensures ctx.rung == Rung.Provisional ==> tx.body.kind.AllowedInProvisional()
  {
    hide TxApplied, SignatureChecked;
  }

  lemma DeclinedStep(g: Setting, d: Draft, ctx: BlockContext, tx: Transaction, index: nat)
    requires Considered(g, d, ctx, tx, index).included == d.included
    ensures Considered(g, d, ctx, tx, index).working == d.working
  {
    hide TxApplied, Screened;
    assert |d.included + [tx]| != |d.included|;
  }

  /** Applying the included transactions in order retraces the producer's working ledger. */
  lemma {:induction false} IncludedRetraceTheDraft(g: Setting, s: State, ctx: BlockContext,
      candidates: seq<Transaction>, n: nat)
    requires n <= |candidates|
    ensures var d := Drafted(g, s, ctx, candidates, n);
      && TransactionsApplied(g, s, ctx, d.included, |d.included|) == Success(d.working)
      && (ctx.rung == Rung.Provisional ==> GrammarHolds(d.included))
  {
    hide Considered, TransactionStep;
    if n > 0 {
      IncludedRetraceTheDraft(g, s, ctx, candidates, n - 1);
      var before := Drafted(g, s, ctx, candidates, n - 1);
      var after := Drafted(g, s, ctx, candidates, n);
      var tx := candidates[n - 1];
      if after.included == before.included {
        DeclinedStep(g, before, ctx, tx, n - 1);
      } else {
        IncludedStep(g, before, ctx, tx, n - 1, |before.included|);
        TransactionsPrefix(g, s, ctx, before.included, after.included, |before.included|);
      }
    }
  }

  /** What the builder could have checked and `build` does not; a parent that passed its own
      header check always meets the third condition. */
  ghost predicate Sound(g: Setting, inputs: ProposalInputs, block: Block, validators: ValidatorMap)
    requires inputs.proposer in validators
  {
    && g.o.blockId(inputs.parent) != ZERO_BLOCK
    && (inputs.rung == Rung.Provisional ==> inputs.finalizedHeight <= SaturatingAdd(inputs.parent.height, 1))
    && inputs.parent.finalizedHeight <= TipOf(inputs)
    && (g.params.allowTest || validators[inputs.proposer].key.algorithm.ValidOnLiveChain())
    && CheckHeader(g.o, block.header, validators[inputs.proposer].key)
    && Distance(g.o.commitmentLink, inputs.randomnessReveal, validators[inputs.proposer].lastReveal,
         MAX_REVEAL_CATCHUP).Some?
    && SecurityBudget(validators).Some?
  }

  lemma BuiltPlace(g: Setting, inputs: ProposalInputs, draft: Draft, validators: ValidatorMap)
    requires g.committee.WellFormed() && InputsChecked(g, inputs, validators).Pass?
    ensures PlaceChecked(g, HeaderFor(g, inputs, draft, validators), inputs.parent).Pass? <==>
      && g.o.blockId(inputs.parent) != ZERO_BLOCK
      && (inputs.rung == Rung.Provisional ==> inputs.finalizedHeight <= SaturatingAdd(inputs.parent.height, 1))
      && inputs.parent.finalizedHeight <= TipOf(inputs)
  {
    hide Root, TxRoot, SecurityBudget, Emitted, Committee.IsActiveAt, Committee.WellFormed;
  }

  lemma BuiltProposer(g: Setting, inputs: ProposalInputs, draft: Draft, validators: ValidatorMap, signature: Signature)
    requires g.committee.WellFormed() && InputsChecked(g, inputs, validators).Pass?
    ensures inputs.proposer in validators
    ensures var signed := SignedHeader(HeaderFor(g, inputs, draft, validators), signature);
      ProposerChecked(g, signed, validators).Pass? <==>
        && (g.params.allowTest || validators[inputs.proposer].key.algorithm.ValidOnLiveChain())
        && CheckHeader(g.o, signed, validators[inputs.proposer].key)
        && Distance(g.o.commitmentLink, inputs.randomnessReveal, validators[inputs.proposer].lastReveal,
             MAX_REVEAL_CATCHUP).Some?
  {
    hide Root, TxRoot, SecurityBudget, CounterChecked, CheckHeader, Distance, Committee.IsActiveAt,
        Committee.WellFormed;
  }

  /** Examining a built block comes down to the conditions, whatever was included. */
  lemma BuiltExamined(g: Setting, inputs: ProposalInputs, candidates: seq<Transaction>, c: ChainState, signer: Signer)
    requires g.committee.WellFormed() && Built(g, inputs, candidates, c, signer).Success?
    ensures inputs.proposer in c.validators
    ensures var block := Built(g, inputs, candidates, c, signer).value.0.block;
      Examined(g, block, inputs.parent, c.validators).Pass? && SecurityBudget(c.validators).Some? <==>
        Sound(g, inputs, block, c.validators)
  {
    hide InputsChecked, PlaceChecked, ProposerChecked, TxRoot, Root, SecurityBudget, CheckHeader, Distance, Drafted,
        Housekept,
      Committee.WellFormed;
    var draft := DraftFor(g, inputs, candidates, c).value;
    var block := Built(g, inputs, candidates, c, signer).value.0.block;
    BuiltPlace(g, inputs, draft, c.validators);
    BuiltProposer(g, inputs, draft, c.validators, block.header.signature);
    IncludedRetraceTheDraft(g, Housekept(c.ledger, TipOf(inputs)).value, ContextFor(g, inputs), candidates,
        |candidates|);
  }

  lemma BuiltExecuted(g: Setting, inputs: ProposalInputs, candidates: seq<Transaction>, c: ChainState, signer: Signer)
    requires g.committee.WellFormed() && Built(g, inputs, candidates, c, signer).Success?
    ensures var (proposal, working) := Built(g, inputs, candidates, c, signer).value;
      Executed(g, proposal.block, c.ledger) == Success(working)
  {
    hide InputsChecked, TxRoot, Root, SecurityBudget, Drafted, Housekept, TransactionsApplied, Committee.WellFormed;
    IncludedRetraceTheDraft(g, Housekept(c.ledger, TipOf(inputs)).value, ContextFor(g, inputs), candidates,
        |candidates|);
  }

  lemma BuiltSealed(g: Setting, inputs: ProposalInputs, candidates: seq<Transaction>, c: ChainState, signer: Signer)
    requires g.committee.WellFormed() && Built(g, inputs, candidates, c, signer).Success?
    ensures var (proposal, working) := Built(g, inputs, candidates, c, signer).value;
      SealChecked(g, proposal.block.header.header, working, c.validators).Pass? <==> SecurityBudget(c.validators).Some?
  {
    hide InputsChecked, TxRoot, Root, SecurityBudget, Drafted, Housekept, Committee.WellFormed;
  }

  /** Producer and validator agree: for every list of candidates, a block that `build` returns
      is accepted exactly when the sound conditions hold, and acceptance ends in exactly
      the producer's working ledger with only the proposer's reveal moved on. */
  lemma BuiltBlocksAreAccepted(g: Setting, inputs: ProposalInputs, candidates: seq<Transaction>, c: ChainState,
      signer: Signer)
    requires g.committee.WellFormed() && Built(g, inputs, candidates, c, signer).Success?
    ensures inputs.proposer in c.validators
    ensures var (proposal, working) := Built(g, inputs, candidates, c, signer).value;
      var verdict := BlockChecked(g, proposal.block, inputs.parent, c);
      && (verdict.Success? <==> Sound(g, inputs, proposal.block, c.validators))
      && (verdict.Success? ==>
           && verdict.value.0.ledger == working
           && verdict.value.0.validators ==
                c.validators[inputs.proposer := c.validators[inputs.proposer].(lastReveal := inputs.randomnessReveal)])
  {
    hide Examined, Executed, SealChecked, Sound, TxRoot, Root, SecurityBudget, Drafted, Housekept, InputsChecked,
        Report,
      Committee.WellFormed;
    BuiltExamined(g, inputs, candidates, c, signer);
    BuiltExecuted(g, inputs, candidates, c, signer);
    BuiltSealed(g, inputs, candidates, c, signer);
  }
}
