/** The one transaction that makes VAN: a conviction pays out a margin nobody ever paid in. */
module Margins {
  import opened Prelude
  import opened Types
  import opened LedgerSpec
  import opened Conservation
  import opened LedgerInvariants
  import opened Nomad
  import opened Custody
  import opened Liveness
  import opened Admission
  import opened Acceptance
  import Histories

  /** On a solvent ledger a conviction is accepted exactly when the transaction is admissible, its
      fee can be paid, the evidence convicts of a slot not punished before, the lane is not at
      its end, and what the margin adds to the burned total and to the denouncer's balance fits. */
  lemma ConvictionAcceptedExactly(o: Oracle, s: State, ctx: BlockContext, body: TxBody)
    requires Solvent(s) && AllNomadSound(s) && body.kind.AccountEquivocation?
    ensures TxApplied(o, s, ctx, body).Success? <==>
      && Admissible(s, ctx, body)
      && body.fee <= BalanceAt(s, body.account, None)
      && Equivocates(o, s, body.kind.accused, body.kind.first, body.kind.second)
      && Histories.OffenceOf(body.kind.accused, body.kind.first) !in s.accountOffences
      && body.nonce.sequence + 1 < U64_LIMIT
      && HasRoom(s.burned + FeeBurn(body.fee), LeftAfterFee(s, ctx, body, None),
                 MarginAt(s, body.kind.first.body.account))
  {
    hide TxApplied, Admissible, Solvent, AllNomadSound, LeftAfterFee, Equivocates, HasRoom, FeeBurn;
    AcceptedExactly(o, s, ctx, body);
  }

  /** And then VAN grows by exactly the margin. */
  lemma ConvictionCreatesVan(o: Oracle, s: State, ctx: BlockContext, body: TxBody)
    requires body.kind.AccountEquivocation? && TxApplied(o, s, ctx, body).Success?
    ensures Value(TxApplied(o, s, ctx, body).value, None)
         == Value(s, None) + AccountAt(s.accounts, body.kind.first.body.account).nomadMargin
  {
    hide TxApplied, Value;
    TransactionConserves(o, s, ctx, body, None);
  }
}
