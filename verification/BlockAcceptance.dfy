/** Exactly which blocks are accepted on top of a parent, and which rung they reach. */
module BlockAcceptance {
  import opened Prelude
  import opened Types
  import opened Sums
  import opened Chains
  import opened PurseBooks
  import opened NameBooks
  import opened LedgerSpec
  import opened Validators
  import opened Committees
  import opened Certificates
  import opened Emission
  import opened MerkleList
  import opened StateRoot
  import opened BlockRules
  import opened Proposals
  import opened Vouchers

  /** The header's form and its place: version 1, a rung a header may claim, a tip not ahead of
      the block and equal to it on the chain rung, the next height on this chain under this
      parent, a tip that did not fall, and a counter between the parent's and the formula. */
  ghost predicate InPlace(g: Setting, h: BlockHeader, parent: BlockHeader) {
    && h.version == 1 && (h.rung == Rung.Provisional || h.rung == Rung.Chain)
    && (if h.rung == Rung.Chain then h.finalizedHeight == h.height else h.finalizedHeight <= h.height)
    && h.chain == g.params.chain
    && h.height == (if parent.height + 1 < U64_LIMIT then parent.height + 1 else U64_LIMIT - 1)
    && h.parent == g.o.blockId(parent) && h.parent.raw != ZERO_HASH
    && parent.finalizedHeight <= h.finalizedHeight
    && parent.emittedSupply <= h.emittedSupply <= Emitted(h.height / 720)
  }

  /** On duty, registered, with a key that may be used here and signed the header, and with a
      reveal at most 720 links before the last one. */
  ghost predicate ByProposer(g: Setting, signed: SignedHeader, validators: ValidatorMap)
    requires g.committee.WellFormed()
  {
    var h := signed.header;
    && (exists m :: m in g.committee.ActiveAt(h.height % 720) && m.account == h.proposer)
    && h.proposer in validators
    && var v := validators[h.proposer];
      && (g.params.allowTest || v.key.algorithm != InsecureTest)
      && g.o.verifies(v.key, g.o.blockDigest(h.chain, g.o.blockId(h)), signed.signature)
      && exists k :: 1 <= k <= 720 && Iterate(g.o.commitmentLink, k, h.randomnessReveal) == v.lastReveal
  }

  /** The transactions under the header's root; on the provisional rung no certificate, and only
      the three kinds a partition allows. */
  ghost predicate WithBody(o: Oracle, block: Block) {
    var h, txs := block.header.header, block.transactions;
    && (exists leaves: seq<Digest> ::
         && |leaves| == |txs| && (forall i :: 0 <= i < |txs| ==> leaves[i] == Digest.Raw(o.txId(txs[i].body).raw))
         && h.txRoot == ListRoot(leaves))
    && (h.rung == Rung.Provisional ==>
         && block.certificate.None?
         && forall i :: 0 <= i < |txs| ==>
              txs[i].body.kind.Transfer? || txs[i].body.kind.PurseOpen? || txs[i].body.kind.PurseCloseCooperative?)
  }

  /** The header commits to the ledger it leads to, to its fees over the emission, and to a third
      of the bonds. */
  ghost predicate Commits(g: Setting, h: BlockHeader, s: State, validators: ValidatorMap) {
    && h.stateRoot == Root(g.o.stateHash, s)
    && h.feeEmissionRatio == Ratio(s.fees, h.emittedSupply)
    && Sum(validators, BondOf) < U64_LIMIT
    && 3 * h.securityBudget <= Sum(validators, BondOf) < 3 * h.securityBudget + 3
  }

  /** A certificate, if there is one, names this header, and every vote qualifies. */
  ghost predicate Certified(g: Setting, block: Block, validators: ValidatorMap)
    requires g.committee.WellFormed()
  {
    block.certificate.Some? ==>
      var c, h := block.certificate.value, block.header.header;
      && c.block == g.o.blockId(h)
      && AllQualify(g.o, h, Slot(g.committee, h.height % 720, validators, g.params.allowTest), c.votes, |c.votes|)
  }

  /** Housekeeping, then every transaction vouched for and accepted in its turn. */
  ghost predicate Runs(g: Setting, block: Block, s: State) {
    var h, txs := block.header.header, block.transactions;
    && Housekept(s, h.finalizedHeight).Success?
    && VouchedThroughout(g, Housekept(s, h.finalizedHeight).value, ContextOf(h), txs, |txs|)
  }

  ghost predicate Valid(g: Setting, block: Block, parent: BlockHeader, c: ChainState)
    requires g.committee.WellFormed()
  {
    var h, txs := block.header.header, block.transactions;
    && InPlace(g, h, parent) && ByProposer(g, block.header, c.validators) && WithBody(g.o, block)
    && Certified(g, block, c.validators)
    && Runs(g, block, c.ledger)
    && var s := TransactionsApplied(g, Housekept(c.ledger, h.finalizedHeight).value, ContextOf(h), txs, |txs|);
      s.Success? && Commits(g, h, s.value, c.validators)
  }

  lemma PlaceExactly(g: Setting, h: BlockHeader, parent: BlockHeader)
    ensures PlaceChecked(g, h, parent).Pass? <==> InPlace(g, h, parent)
  {
    hide Emitted;
    CounterPassesExactly(parent.emittedSupply, h.emittedSupply, h.height / 720);
    EmittedWithinCap(h.height / 720);
    hide CounterChecked;
  }

  lemma ProposerExactly(g: Setting, signed: SignedHeader, validators: ValidatorMap)
    requires g.committee.WellFormed()
    ensures ProposerChecked(g, signed, validators).Pass? <==> ByProposer(g, signed, validators)
  {
    hide Iterate, Committee.ActiveAt, Committee.WellFormed;
  }

  lemma BodyExactly(o: Oracle, block: Block)
    ensures BodyChecked(o, block).Pass? <==> WithBody(o, block)
  {
    hide ListRoot;
    var txs, leaves := block.transactions, TxLeaves(o, block.transactions);
    forall other: seq<Digest> | |other| == |txs|
      && (forall i :: 0 <= i < |txs| ==> other[i] == Digest.Raw(o.txId(txs[i].body).raw))
      ensures other == leaves
    {
    }
  }

  lemma SealExactly(g: Setting, h: BlockHeader, s: State, validators: ValidatorMap)
    ensures SealChecked(g, h, s, validators).Pass? <==> Commits(g, h, s, validators)
  {
    hide Root, SecurityBudget;
    BudgetIsAThird(validators);
  }

  lemma CertificateExactly(g: Setting, block: Block, validators: ValidatorMap)
    requires WellDrawn(g.committee)
    ensures CertificateWeighed(g, block, validators).Success? <==> Certified(g, block, validators)
  {
    hide CertificateChecked, AllQualify, WellDrawn, Committee.ActiveWeightAt, Committee.WellFormed;
    if block.certificate.Some? {
      CertificateVerifiesExactly(g.o, block.certificate.value, block.header.header,
          SlotOf(g, block.header.header, validators));
    }
  }

  lemma ExaminedExactly(g: Setting, block: Block, parent: BlockHeader, validators: ValidatorMap)
    requires g.committee.WellFormed()
    ensures Examined(g, block, parent, validators).Pass? <==>
      InPlace(g, block.header.header, parent) && ByProposer(g, block.header, validators) && WithBody(g.o, block)
  {
    hide PlaceChecked, ProposerChecked, BodyChecked, InPlace, ByProposer, WithBody, Committee.WellFormed;
    PlaceExactly(g, block.header.header, parent);
    ProposerExactly(g, block.header, validators);
    BodyExactly(g.o, block);
  }

  lemma ExecutedExactly(g: Setting, block: Block, s: State)
    ensures Executed(g, block, s).Success? <==> Runs(g, block, s)
    ensures Executed(g, block, s).Success? ==>
      Executed(g, block, s) == TransactionsApplied(g, Housekept(s, block.header.header.finalizedHeight).value,
        ContextOf(block.header.header), block.transactions, |block.transactions|)
  {
    hide Housekept, TransactionsApplied, VouchedThroughout;
    var h, txs := block.header.header, block.transactions;
    if Housekept(s, h.finalizedHeight).Success? {
      RowExactly(g, Housekept(s, h.finalizedHeight).value, ContextOf(h), txs, |txs|);
    }
  }

  /** The four stages of the verdict. */
  lemma StagesExactly(g: Setting, block: Block, parent: BlockHeader, c: ChainState)
    requires g.committee.WellFormed()
    ensures BlockChecked(g, block, parent, c).Success? <==>
      && Examined(g, block, parent, c.validators).Pass? && Executed(g, block, c.ledger).Success?
      && SealChecked(g, block.header.header, Executed(g, block, c.ledger).value, c.validators).Pass?
      && CertificateWeighed(g, block, c.validators).Success?
  {
    hide Examined, Executed, SealChecked, CertificateWeighed, RevealSpent, Committee.WellFormed;
  }

  /** What an accepted block reports of them. */
  lemma ReportExactly(g: Setting, block: Block, parent: BlockHeader, c: ChainState)
    requires g.committee.WellFormed() && BlockChecked(g, block, parent, c).Success?
    ensures Examined(g, block, parent, c.validators).Pass? && Executed(g, block, c.ledger).Success?
    ensures CertificateWeighed(g, block, c.validators).Success?
    ensures
      var (d, report) := BlockChecked(g, block, parent, c).value;
      && d == ChainState(Executed(g, block, c.ledger).value, RevealSpent(c.validators, block.header.header))
      && report.block == g.o.blockId(block.header.header) && report.claimedRung == block.header.header.rung
      && report.settlements == Payouts(c.ledger.purses, block.header.header.finalizedHeight)
      && report.prunedCommitments == |Stale(c.ledger.commitments, block.header.header.finalizedHeight)|
      && (report.reachedRung, report.signedWeight) == CertificateWeighed(g, block, c.validators).value
  {
    hide Examined, Executed, SealChecked, CertificateWeighed, RevealSpent, Committee.WellFormed;
  }

  /** A block is accepted exactly when it is valid. */
  lemma AcceptedExactly(g: Setting, block: Block, parent: BlockHeader, c: ChainState)
    requires WellDrawn(g.committee)
    ensures BlockChecked(g, block, parent, c).Success? <==> Valid(g, block, parent, c)
  {
    assert g.committee.WellFormed();
    hide WellDrawn, BlockChecked, Examined, Executed, SealChecked, CertificateWeighed, InPlace, ByProposer, WithBody,
      Commits, Certified, Runs, Housekept, TransactionsApplied, Committee.WellFormed;
    StagesExactly(g, block, parent, c);
    ExaminedExactly(g, block, parent, c.validators);
    ExecutedExactly(g, block, c.ledger);
    if Executed(g, block, c.ledger).Success? {
      SealExactly(g, block.header.header, Executed(g, block, c.ledger).value, c.validators);
    }
    CertificateExactly(g, block, c.validators);
  }

  /** It then leads to the ledger after its last transaction, and moves the proposer's reveal on
      and nothing else of the validators. */
  lemma AcceptedLeadsTo(g: Setting, block: Block, parent: BlockHeader, c: ChainState)
    requires g.committee.WellFormed() && BlockChecked(g, block, parent, c).Success?
    ensures var h, d := block.header.header, BlockChecked(g, block, parent, c).value.0;
      && Runs(g, block, c.ledger)
      && Success(d.ledger) == TransactionsApplied(g, Housekept(c.ledger, h.finalizedHeight).value, ContextOf(h),
           block.transactions, |block.transactions|)
      && h.proposer in c.validators
      && d.validators == c.validators[h.proposer := c.validators[h.proposer].(lastReveal := h.randomnessReveal)]
  {
    hide BlockChecked, Examined, Executed, SealChecked, CertificateWeighed, Runs, Committee.WellFormed;
    ReportExactly(g, block, parent, c);
    ExecutedExactly(g, block, c.ledger);
    ExaminedExactly(g, block, parent, c.validators);
  }

  /** What the certificate of an accepted block weighs, and the rung that gives. */
  lemma WeighedExactly(g: Setting, block: Block, validators: ValidatorMap)
    requires WellDrawn(g.committee) && CertificateWeighed(g, block, validators).Success?
    ensures var active, (rung, weight) := g.committee.ActiveAt(block.header.header.height % 720),
        CertificateWeighed(g, block, validators).value;
      && weight == (if block.certificate.Some? then Carried(active, AllVoters(block.certificate.value)) else 0)
      && rung == if block.certificate.Some? && 3 * weight > 2 * Total(active) then Rung.Chain else Rung.Provisional
  {
    assert g.committee.WellFormed();
    hide WellDrawn, CertificateChecked, Carried, Total, AllVoters, Finalises, Committee.ActiveAt,
      Committee.ActiveWeightAt, Committee.WellFormed;
    var h := block.header.header;
    if block.certificate.Some? {
      SignedWithinActive(g.o, block.certificate.value, h, SlotOf(g, h, validators));
      FinalityIsExact(g.o, SlotOf(g, h, validators), block.certificate.value, h);
      ActiveWeight(g.committee, h.height % 720);
    }
  }

  /** An accepted block reaches the chain rung exactly when it carries a certificate whose voters
      hold strictly more than two thirds of the weight on duty, and else the provisional one. */
  lemma RungExactly(g: Setting, block: Block, parent: BlockHeader, c: ChainState)
    requires WellDrawn(g.committee) && BlockChecked(g, block, parent, c).Success?
    ensures var active, report := g.committee.ActiveAt(block.header.header.height % 720),
        BlockChecked(g, block, parent, c).value.1;
      && report.signedWeight == (if block.certificate.Some? then
           Carried(active, AllVoters(block.certificate.value)) else 0)
      && report.reachedRung ==
           if block.certificate.Some? && 3 * report.signedWeight > 2 * Total(active) then Rung.Chain
           else Rung.Provisional
  {
    assert g.committee.WellFormed();
    hide WellDrawn, BlockChecked, Examined, Executed, SealChecked, CertificateWeighed, Carried, Total, AllVoters,
      Committee.ActiveAt, Committee.WellFormed;
    ReportExactly(g, block, parent, c);
    WeighedExactly(g, block, c.validators);
  }

  // ----- What a producer builds, and when

  /** The height after a parent's, and the tip a block there refers to. */
  function NextHeight(parent: BlockHeader): u64 {
    if parent.height + 1 < U64_LIMIT then parent.height + 1 else U64_LIMIT - 1
  }

  function NextTip(inputs: ProposalInputs): u64 {
    if inputs.rung == Rung.Chain then NextHeight(inputs.parent) else inputs.finalizedHeight
  }

  /** A registered validator on duty that claims a rung a header may claim, a tip not below the
      parent's, and a counter the formula permits. */
  ghost predicate MayBuild(g: Setting, inputs: ProposalInputs, validators: ValidatorMap)
    requires g.committee.WellFormed()
  {
    var parent, height := inputs.parent, NextHeight(inputs.parent);
    && (inputs.rung == Rung.Provisional || inputs.rung == Rung.Chain)
    && (exists m :: m in g.committee.ActiveAt(height % 720) && m.account == inputs.proposer)
    && inputs.proposer in validators
    && parent.finalizedHeight <= inputs.finalizedHeight
    && parent.emittedSupply <= inputs.emittedSupply <= Emitted(height / 720)
  }

  lemma InputsExactly(g: Setting, inputs: ProposalInputs, validators: ValidatorMap)
    requires g.committee.WellFormed()
    ensures InputsChecked(g, inputs, validators).Pass? <==> MayBuild(g, inputs, validators)
  {
    hide Emitted, Committee.ActiveAt, Committee.WellFormed;
    CounterPassesExactly(inputs.parent.emittedSupply, inputs.emittedSupply, NextHeight(inputs.parent) / 720);
    hide CounterChecked;
  }

  /** Building succeeds exactly for a producer that may build, on a ledger whose housekeeping
      succeeds, with a signer that signs the header of the draft. */
  lemma BuiltExactly(g: Setting, inputs: ProposalInputs, candidates: seq<Transaction>, c: ChainState, signer: Signer)
    requires g.committee.WellFormed()
    ensures DraftFor(g, inputs, candidates, c).Success? <==> Housekept(c.ledger, NextTip(inputs)).Success?
    ensures Built(g, inputs, candidates, c, signer).Success? <==>
      && MayBuild(g, inputs, c.validators) && DraftFor(g, inputs, candidates, c).Success?
      && var draft := DraftFor(g, inputs, candidates, c).value;
        signer(SigningDigest(g.o, HeaderFor(g, inputs, draft, c.validators))).Some?
  {
    hide InputsChecked, MayBuild, Drafted, Housekept, HeaderFor, Committee.WellFormed;
    InputsExactly(g, inputs, c.validators);
  }

  /** The header of a built block, field by field. */
  lemma BuiltHeader(g: Setting, inputs: ProposalInputs, candidates: seq<Transaction>, c: ChainState, signer: Signer)
    requires g.committee.WellFormed() && Built(g, inputs, candidates, c, signer).Success?
    ensures var (proposal, working) := Built(g, inputs, candidates, c, signer).value;
      var h, parent := proposal.block.header.header, inputs.parent;
      && h.version == 1 && h.chain == g.params.chain && h.rung == inputs.rung && h.proposer == inputs.proposer
      && h.height == NextHeight(parent) && h.parent == g.o.blockId(parent) && h.finalizedHeight == NextTip(inputs)
      && h.stateRoot == Root(g.o.stateHash, working) && h.txRoot == TxRoot(g.o, proposal.block.transactions)
      && h.randomnessReveal == inputs.randomnessReveal && h.archiveCommitment == inputs.archiveCommitment
      && h.emittedSupply == inputs.emittedSupply && h.feeEmissionRatio == Ratio(working.fees, inputs.emittedSupply)
      && Some(proposal.block.header.signature) == signer(SigningDigest(g.o, h)) && proposal.block.certificate.None?
  {
    hide InputsChecked, Drafted, Housekept, Root, TxRoot, SecurityBudget, Committee.WellFormed;
  }
}
