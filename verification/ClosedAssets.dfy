/** Exactly when an asset is minted and burned, and when a closed float grows again. */
module ClosedAssets {
  import opened Prelude
  import opened Types
  import opened LedgerSpec
  import opened LedgerInvariants
  import opened Nomad
  import opened Custody
  import opened Liveness
  import opened Admission
  import opened Acceptance
  import R = Runs

  /** On a solvent ledger a mint is accepted exactly when the transaction is admissible, its fee
      can be paid, the issuer mints a positive amount that fits, of an asset that is reissuable
      or of which none is left, and the lane is not at its end. */
  lemma MintAcceptedExactly(o: Oracle, s: State, ctx: BlockContext, body: TxBody)
    requires Solvent(s) && AllNomadSound(s) && body.kind.AssetMint?
    ensures var id := body.kind.assetId;
      TxApplied(o, s, ctx, body).Success? <==>
        && Admissible(s, ctx, body)
        && body.fee <= BalanceAt(s, body.account, None)
        && body.kind.amount > 0 && id in s.assets && s.assets[id].issuer == body.account
        && (s.assets[id].reissuable || s.assets[id].supply == 0) && s.assets[id].supply + body.kind.amount < U64_LIMIT
        && body.nonce.sequence + 1 < U64_LIMIT
  {
    hide TxApplied, Admissible, Solvent, AllNomadSound, LeftAfterFee;
    AcceptedExactly(o, s, ctx, body);
  }

  /** And a burn exactly when the transaction is admissible, its fee can be paid, the signer holds
      the positive amount it burns, and the lane is not at its end: the supply always suffices. */
  lemma BurnAcceptedExactly(o: Oracle, s: State, ctx: BlockContext, body: TxBody)
    requires Solvent(s) && AllNomadSound(s) && body.kind.AssetBurn?
    ensures TxApplied(o, s, ctx, body).Success? <==>
      && Admissible(s, ctx, body)
      && body.fee <= BalanceAt(s, body.account, None)
      && 0 < body.kind.amount <= BalanceAt(s, body.account, Some(body.kind.assetId))
      && body.kind.assetId in s.assets
      && body.nonce.sequence + 1 < U64_LIMIT
  {
    hide TxApplied, Admissible, Solvent, AllNomadSound;
    AcceptedExactly(o, s, ctx, body);
  }

  lemma BurnedAsset(o: Oracle, s: State, ctx: BlockContext, body: TxBody)
    requires body.kind.AssetBurn? && TxApplied(o, s, ctx, body).Success?
    ensures var id, t := body.kind.assetId, TxApplied(o, s, ctx, body).value;
      && id in s.assets && body.kind.amount <= s.assets[id].supply
      && t.assets == s.assets[id := s.assets[id].(supply := s.assets[id].supply - body.kind.amount)]
  {
    hide TxApplied, FeeCharged, Debited;
    H.TransactionBooks(o, s, ctx, body);
    DebitedKeeps(FeeCharged(s, ctx, body).value, body.account, Some(body.kind.assetId), body.kind.amount);
  }

  lemma SolventAfter(o: Oracle, s: State, ctx: BlockContext, body: TxBody)
    requires Solvent(s) && AllNomadSound(s) && TxApplied(o, s, ctx, body).Success? && body.kind.AssetBurn?
    ensures Solvent(TxApplied(o, s, ctx, body).value) && AllNomadSound(TxApplied(o, s, ctx, body).value)
  {
    hide TxApplied, Solvent, AllNomadSound;
    SolventStep(o, s, R.Submit(ctx, body));
    TransactionNomad(o, s, ctx, body);
  }

  /** A closed float grows again: while any of the asset is left every mint is refused, but
      once an accepted burn has taken all of it, the issuer's next admissible mint, of any
      amount, is accepted if its fee can be paid and its lane is not at its end. */
  lemma BurningReopens(o: Oracle, s: State, ctx: BlockContext, burn: TxBody, later: BlockContext, mint: TxBody)
    requires Solvent(s) && AllNomadSound(s)
    requires burn.kind.AssetBurn? && TxApplied(o, s, ctx, burn).Success?
    requires mint.kind.AssetMint? && mint.kind.assetId == burn.kind.assetId && mint.kind.amount > 0
    ensures burn.kind.assetId in s.assets
    ensures var id, t := burn.kind.assetId, TxApplied(o, s, ctx, burn).value;
      && (!s.assets[id].reissuable && s.assets[id].supply > 0 ==> TxApplied(o, s, later, mint).Failure?)
      && (!s.assets[id].reissuable && mint.account == s.assets[id].issuer && Admissible(t, later, mint)
          && mint.fee <= BalanceAt(t, mint.account, None) && mint.nonce.sequence + 1 < U64_LIMIT ==>
            (TxApplied(o, t, later, mint).Success? <==> burn.kind.amount == s.assets[id].supply))
  {
    hide TxApplied, Solvent, AllNomadSound, Admissible;
    BurnedAsset(o, s, ctx, burn);
    SolventAfter(o, s, ctx, burn);
    MintAcceptedExactly(o, TxApplied(o, s, ctx, burn).value, later, mint);
    MintAcceptedExactly(o, s, later, mint);
  }
}
