/** What a sound ledger must accept: fees that can be paid, and the blocks of an honest producer. */
module Liveness {
  import opened Prelude
  import opened Types
  import opened Amounts
  import opened LedgerSpec
  import opened Conservation
  import opened LedgerInvariants
  import opened Custody
  import opened Nomad
  import opened Overflow
  import opened Chains
  import opened Validators
  import opened BlockRules
  import opened Proposals

  /** What the signer has of an asset once the fee is settled; a proposer gets its part back. */
  function LeftAfterFee(s: State, ctx: BlockContext, body: TxBody, asset: Asset): int {
    AccountAt(s.accounts, body.account).Balance(asset)
    - (if asset.None? then body.fee else 0)
    + (if asset.None? && ctx.proposer == body.account then 70 * body.fee / 100 else 0)
  }

  lemma FeePaidExactly(s: State, ctx: BlockContext, body: TxBody)
    requires Solvent(s)
    ensures FeeCharged(s, ctx, body).Success? <==>
      body.account in s.accounts && body.fee <= s.accounts[body.account].Balance(None)
  {
    hide SplitFee, Solvent, Credited, Value;
    SolventParts(s);
    FeeNeverOverflows(s, ctx, body);
    if Debited(s, body.account, None, body.fee).Success? {
      FeeFailsOnlyForOverflow(s, ctx, body);
    }
  }

  lemma SolventParts(s: State)
    requires Solvent(s)
    ensures FeesAgree(s) && WithinCap(s)
    ensures forall asset :: Value(s, asset) < U64_LIMIT
  {
    hide Value;
    forall asset
      ensures Value(s, asset) < U64_LIMIT
    {
      if asset.Some? {
        assert Value(s, Some(asset.value)) == SupplyOf(s, asset.value);
      }
    }
  }

  lemma FeeFailsOnlyForOverflow(s: State, ctx: BlockContext, body: TxBody)
    requires Debited(s, body.account, None, body.fee).Success?
    ensures FeeCharged(s, ctx, body).Success? || FeeCharged(s, ctx, body) == Failure(ArithmeticOverflow)
  {
    hide SplitFee;
  }

  lemma FeeLeaves(s: State, ctx: BlockContext, body: TxBody, asset: Asset)
    requires FeeCharged(s, ctx, body).Success?
    ensures var t := FeeCharged(s, ctx, body).value;
      body.account in t.accounts && t.accounts[body.account].Balance(asset) == LeftAfterFee(s, ctx, body, asset)
  {
    PayerStays(s, ctx, body);
    FeeMoves(s, ctx, body, body.account, asset);
    hide FeeCharged;
  }

  lemma PayerStays(s: State, ctx: BlockContext, body: TxBody)
    requires FeeCharged(s, ctx, body).Success?
    ensures body.account in FeeCharged(s, ctx, body).value.accounts
  {
    hide SplitFee;
  }

  lemma TransferredExactly(s: State, from: AccountId, to: AccountId, asset: Asset, amount: Amount)
    requires Value(s, asset) < U64_LIMIT
    ensures Transferred(s, from, to, asset, amount).Success? <==>
      from in s.accounts && amount <= s.accounts[from].Balance(asset)
    ensures Transferred(s, from, to, asset, amount).Success? ==>
      from in Transferred(s, from, to, asset, amount).value.accounts
  {
    hide Value;
    TransferNeverOverflows(s, from, to, asset, amount);
  }

  lemma AdmittedSlot(s: State, ctx: BlockContext, body: TxBody)
    requires Admitted(s, ctx, body).Success?
    ensures body.account in s.accounts && s.accounts[body.account].Accepts(body.nonce)
  {
  }

  lemma SlotSpentExactly(s: State, body: TxBody, consumed: Amount)
    requires body.account in s.accounts && s.accounts[body.account].Accepts(body.nonce)
    requires NonceSpent(s, body, consumed) != Failure(ArithmeticOverflow)
    ensures NonceSpent(s, body, consumed).Success? <==> body.nonce.sequence + 1 < U64_LIMIT
  {
  }

  lemma SolventAfterFee(s: State, ctx: BlockContext, body: TxBody)
    requires Solvent(s) && AllNomadSound(s) && FeeCharged(s, ctx, body).Success?
    ensures forall asset :: Value(FeeCharged(s, ctx, body).value, asset) < U64_LIMIT
  {
    hide FeeCharged, Value, AllNomadSound, AsksTooMuch;
    FeeStaysSound(s, ctx, body);
    var t := FeeCharged(s, ctx, body).value;
    forall asset
      ensures Value(t, asset) < U64_LIMIT
    {
      if asset.Some? {
        assert Value(t, Some(asset.value)) == SupplyOf(t, asset.value);
      }
    }
  }

  // ----- Honest producers

  /** A signer whose every signature verifies under the key. */
  ghost predicate Signs(o: Oracle, signer: Signer, key: VerifyingKey) {
    forall d :: signer(d).Some? && o.verifies(key, d, signer(d).value)
  }

  /** What a producer can check before building: a parent that is not the zero block, a tip
      that neither falls nor runs ahead, an allowed key that signs, a reveal within reach and
      a security budget that fits. */
  ghost predicate CanBuild(g: Setting, inputs: ProposalInputs, c: ChainState, signer: Signer)
    requires g.committee.WellFormed()
  {
    && InputsChecked(g, inputs, c.validators).Pass?
    && g.o.blockId(inputs.parent) != ZERO_BLOCK
    && (inputs.rung == Rung.Provisional ==> inputs.finalizedHeight <= SaturatingAdd(inputs.parent.height, 1))
    && inputs.parent.finalizedHeight <= TipOf(inputs)
    && inputs.proposer in c.validators
    && var v := c.validators[inputs.proposer];
      && (g.params.allowTest || v.key.algorithm.ValidOnLiveChain())
      && Signs(g.o, signer, v.key)
      && Distance(g.o.commitmentLink, inputs.randomnessReveal, v.lastReveal, MAX_REVEAL_CATCHUP).Some?
      && SecurityBudget(c.validators).Some?
  }

  /** On a solvent ledger an honest producer's block is built and accepted, whatever the
      candidates, and the validator ends in the producer's working ledger. */
  lemma HonestBlocksAreAccepted(g: Setting, inputs: ProposalInputs, candidates: seq<Transaction>, c: ChainState,
      signer: Signer)
    requires g.committee.WellFormed() && Solvent(c.ledger) && CanBuild(g, inputs, c, signer)
    ensures Built(g, inputs, candidates, c, signer).Success?
    ensures var (proposal, working) := Built(g, inputs, candidates, c, signer).value;
      var verdict := BlockChecked(g, proposal.block, inputs.parent, c);
      verdict.Success? && verdict.value.0.ledger == working
  {
    hide Solvent, Drafted, HeaderFor, BlockChecked, Distance, SecurityBudget, InputsChecked;
    SolventSettles(c.ledger, TipOf(inputs));
    hide Housekept;
    BuiltBlocksAreAccepted(g, inputs, candidates, c, signer);
  }
}
