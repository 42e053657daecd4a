/**
  When housekeeping can pay everybody out, and what follows where it cannot: a ledger, reached
  from a genesis, on top of which no chain of valid blocks ever finalises a certain height.
 */
module Halts {
  import opened Prelude
  import opened Types
  import opened Purses
  import opened PurseBooks
  import opened LedgerSpec
  import opened LedgerInvariants
  import opened Standing
  import opened Custody
  import opened Committees
  import opened BlockRules
  import opened Clock
  import opened ChainRuns
  import opened Acceptance
  import H = Histories

  // ----- Exactly when housekeeping succeeds

  /** A payout that fails would have brought one of its parties too much. */
  lemma PaidOutOverflows(s: State, payout: Payout) returns (id: AccountId)
    requires PaidOut(s, payout).Failure?
    ensures BalanceAt(s, id, payout.asset) + Brings(payout, id, payout.asset) >= U64_LIMIT
  {
    hide Credited, BalanceAt;
    id := payout.payer;
    var first := s;
    if payout.settlement.toPayer != 0 {
      CreditExactly(s, payout.payer, payout.asset, payout.settlement.toPayer);
      if Credited(s, payout.payer, payout.asset, payout.settlement.toPayer).Failure? {
        return;
      }
      CreditMoves(s, payout.payer, payout.asset, payout.settlement.toPayer, payout.payee, payout.asset);
      first := Credited(s, payout.payer, payout.asset, payout.settlement.toPayer).value;
    }
    id := payout.payee;
    CreditExactly(first, payout.payee, payout.asset, payout.settlement.toPayee);
  }

  /** Payouts succeed exactly when no account's balance and all it is owed exceed 64 bits. */
  lemma {:induction false} AllPaidOutExactly(s: State, payouts: seq<Payout>)
    ensures AllPaidOut(s, payouts).Success? <==>
      forall id, asset :: BalanceAt(s, id, asset) + Owed(payouts, id, asset) < U64_LIMIT
    decreases |payouts|
  {
    hide PaidOut, Brings, BalanceAt;
    if payouts != [] {
      if PaidOut(s, payouts[0]).Failure? {
        var id := PaidOutOverflows(s, payouts[0]);
        assert BalanceAt(s, id, payouts[0].asset) + Owed(payouts, id, payouts[0].asset) >= U64_LIMIT;
      } else {
        var first := PaidOut(s, payouts[0]).value;
        AllPaidOutExactly(first, payouts[1..]);
        forall id, asset
          ensures BalanceAt(first, id, asset) + Owed(payouts[1..], id, asset)
               == BalanceAt(s, id, asset) + Owed(payouts, id, asset)
        {
          PaidOutMoves(s, payouts[0], id, asset);
        }
      }
    }
  }

  /** Housekeeping succeeds exactly when every account has room for what the due channels owe it. */
  lemma HousekeepingSucceedsExactly(s: State, finalized: u64)
    ensures Housekept(s, finalized).Success? <==>
      forall id, asset :: BalanceAt(s, id, asset) + Owed(Payouts(s.purses, finalized), id, asset) < U64_LIMIT
  {
    hide AllPaidOut, Payouts, Owed, Due;
    var t := s.(purses := s.purses - Due(s.purses, finalized));
    AllPaidOutExactly(t, Payouts(s.purses, finalized));
    assert forall id, asset :: BalanceAt(t, id, asset) == BalanceAt(s, id, asset);
    hide BalanceAt;
  }

  // ----- One payout too many

  lemma {:induction false} PayoutsInOrder(purses: PurseMap, finalized: u64, ids: seq<PurseId>, i: nat)
    requires i < |ids| && forall id :: id in ids ==> id in Due(purses, finalized)
    ensures ids[i] in ids
    ensures PayoutsFor(purses, finalized, ids)[i] == PayoutAt(purses, finalized, ids[i])
    decreases |ids|
  {
    var n := |ids| - 1;
    assert ids[n] in ids;
    if i < n {
      assert forall id :: id in ids[..n] ==> id in ids;
      PayoutsInOrder(purses, finalized, ids[..n], i);
    }
  }

  lemma {:induction false} OwedAtLeast(payouts: seq<Payout>, i: nat, id: AccountId, asset: Asset)
    requires i < |payouts|
    ensures Brings(payouts[i], id, asset) <= Owed(payouts, id, asset)
    decreases |payouts|
  {
    hide Brings;
    if i > 0 {
      OwedAtLeast(payouts[1..], i - 1, id, asset);
    }
  }

  /** A due channel whose payer has no room for what it gets back makes housekeeping fail. */
  lemma OnePayoutTooMany(s: State, finalized: u64, purse: PurseId)
    requires purse in Due(s.purses, finalized)
    requires var p := s.purses[purse];
      BalanceAt(s, p.payer, p.asset) + p.Settle(finalized).value.toPayer >= U64_LIMIT
    ensures Housekept(s, finalized).Failure?
  {
    hide Housekept, Owed, BalanceAt;
    var p := s.purses[purse];
    var ids := DueInOrder(s.purses, finalized);
    assert purse in ids;
    var i :| 0 <= i < |ids| && ids[i] == purse;
    PayoutsInOrder(s.purses, finalized, ids, i);
    OwedAtLeast(Payouts(s.purses, finalized), i, p.payer, p.asset);
    assert BalanceAt(s, p.payer, p.asset) + Owed(Payouts(s.purses, finalized), p.payer, p.asset) >= U64_LIMIT;
    HousekeepingSucceedsExactly(s, finalized);
  }

  // ----- Accounts that can never act again

  /** No device to sign with, and nobody who could give it one. */
  ghost predicate Mute(s: State, id: AccountId) {
    AccountAt(s.accounts, id).devices == map[] && AccountAt(s.accounts, id).guardians == {} && id !in s.recoveries
  }

  lemma MuteNeverSigns(s: State, ctx: BlockContext, body: TxBody, id: AccountId)
    requires Mute(s, id) && Admitted(s, ctx, body).Success?
    ensures body.account != id
  {
  }

  lemma MuteIsNotRecovered(o: Oracle, s: State, ctx: BlockContext, body: TxBody, id: AccountId)
    requires KindApplied(o, s, ctx, body).Success? && Mute(s, id)
    ensures body.kind != RecoveryFinalise(id) && id !in KindApplied(o, s, ctx, body).value.recoveries
  {
    hide Recovered;
    if id in KindApplied(o, s, ctx, body).value.recoveries {
      hide KindApplied;
      H.KindRecoveries(o, s, ctx, body, id);
    }
  }

  lemma MuteStays(o: Oracle, s: State, ctx: BlockContext, body: TxBody, id: AccountId)
    requires Mute(s, id) && TxApplied(o, s, ctx, body).Success?
    ensures body.account != id && Mute(TxApplied(o, s, ctx, body).value, id)
  {
    hide KindApplied, FeeCharged, SpentAccount, Admitted;
    MuteNeverSigns(s, ctx, body, id);
    var charged := FeeCharged(s, ctx, body).value;
    FeeStanding(s, ctx, body);
    H.FeeBooks(s, ctx, body);
    assert SameStanding(AccountAt(s.accounts, id), AccountAt(charged.accounts, id));
    MuteIsNotRecovered(o, charged, ctx, body, id);
    OthersStand(o, charged, ctx, body, id);
  }

  // ----- A closure that can only be paid out, and cannot be

  /** What the payer gets back when everything claimable is claimed. */
  function Returned(p: LedgerPurse): int {
    p.deposit - p.capacity * p.trancheValue
  }

  /** Both parties are mute, the closure claims all there is to claim, and the payer has no
      room for what it gets back. */
  ghost predicate Doomed(s: State, id: PurseId) {
    && SoundPurses(s.purses) && id in s.purses
    && Stuck(s, s.purses[id])
  }

  ghost predicate Stuck(s: State, p: LedgerPurse) {
    && p.closing.Some? && !p.closing.value.disputed && p.closing.value.claimedTranches == p.capacity
    && BalanceAt(s, p.payer, p.asset) + Returned(p) >= U64_LIMIT
    && Mute(s, p.payer) && Mute(s, p.payee)
  }

  /** The closure's window is still open at this height. */
  predicate Waits(purses: PurseMap, id: PurseId, finalized: u64) {
    id in purses && purses[id].closing.Some? && !purses[id].closing.value.window.HasElapsed(finalized)
  }

  /** Nobody can close such a channel by agreement. */
  lemma OnlyPartiesAgree(o: Oracle, s: State, ctx: BlockContext, body: TxBody, id: PurseId)
    requires TxApplied(o, s, ctx, body).Success? && ClosedBy(body.kind) == Some(id) && id in s.purses
    ensures s.purses[id].IsParty(body.account)
  {
    hide FeeCharged, Admitted, NonceSpent, PaidOut;
    FeeKeepsRecords(s, ctx, body);
  }

  lemma StuckStays(s: State, t: State, p: LedgerPurse)
    requires Stuck(s, p) && Mute(t, p.payer) && Mute(t, p.payee)
    requires BalanceAt(t, p.payer, p.asset) >= BalanceAt(s, p.payer, p.asset)
    ensures Stuck(t, p)
  {
    hide Mute, BalanceAt;
  }

  lemma FullClaimStands(p: LedgerPurse, q: LedgerPurse, finalized: u64)
    requires Moves(p, q, finalized) && SoundPurse(q)
    requires p.closing.Some? && p.closing.value.claimedTranches == p.capacity
    ensures q == p
  {
  }

  lemma DoomedThroughTransaction(o: Oracle, s: State, ctx: BlockContext, body: TxBody, id: PurseId)
    requires Doomed(s, id) && TxApplied(o, s, ctx, body).Success?
    ensures var t := TxApplied(o, s, ctx, body).value; Doomed(t, id) && t.purses[id] == s.purses[id]
  {
    hide TxApplied, Mute, BalanceAt, SoundPurse, Moves;
    var t, p := TxApplied(o, s, ctx, body).value, s.purses[id];
    MuteStays(o, s, ctx, body, p.payer);
    MuteStays(o, s, ctx, body, p.payee);
    if ClosedBy(body.kind) == Some(id) {
      OnlyPartiesAgree(o, s, ctx, body, id);
    }
    TransactionMoves(o, s, ctx, body);
    FullClaimStands(p, t.purses[id], ctx.finalizedHeight);
    OnlyTheSignerPays(o, s, ctx, body);
    assert BalanceAt(t, p.payer, p.asset) >= BalanceAt(s, p.payer, p.asset);
    StuckStays(s, t, p);
  }

  /** Housekeeping cannot settle it, and before the window runs out leaves it alone. */
  lemma DoomedThroughHousekeeping(s: State, finalized: u64, id: PurseId)
    requires Doomed(s, id) && Housekept(s, finalized).Success?
    ensures Waits(s.purses, id, finalized)
    ensures var t := Housekept(s, finalized).value; Doomed(t, id) && t.purses[id] == s.purses[id]
  {
    hide Housekept, BalanceAt, Due;
    var p := s.purses[id];
    if p.closing.value.window.HasElapsed(finalized) {
      DueExactly(s.purses, finalized);
      OwedInFull(p, p.capacity);
      OnePayoutTooMany(s, finalized, id);
      assert false;
    }
    var t := Housekept(s, finalized).value;
    HousekeepingRemovesElapsed(s, finalized);
    HousekeepingStanding(s, finalized);
    H.HousekeepingBooks(s, finalized);
    HousekeepingPaysExactly(s, finalized, p.payer, p.asset);
    assert SameStanding(AccountAt(s.accounts, p.payer), AccountAt(t.accounts, p.payer));
    assert SameStanding(AccountAt(s.accounts, p.payee), AccountAt(t.accounts, p.payee));
    StuckStays(s, t, p);
  }

  lemma {:induction false} DoomedThroughTransactions(g: Setting, s: State, ctx: BlockContext, txs: seq<Transaction>,
      n: nat, id: PurseId)
    requires n <= |txs| && TransactionsApplied(g, s, ctx, txs, n).Success? && Doomed(s, id)
    ensures var t := TransactionsApplied(g, s, ctx, txs, n).value; Doomed(t, id) && t.purses[id] == s.purses[id]
  {
    hide TxApplied, SignatureChecked, Stuck, SoundPurses;
    if n > 0 {
      DoomedThroughTransactions(g, s, ctx, txs, n - 1, id);
      DoomedThroughTransaction(g.o, TransactionsApplied(g, s, ctx, txs, n - 1).value, ctx, txs[n - 1].body, id);
    }
  }

  lemma DoomedThroughBlock(g: Setting, block: Block, parent: BlockHeader, c: ChainState, id: PurseId)
    requires g.committee.WellFormed() && BlockChecked(g, block, parent, c).Success? && Doomed(c.ledger, id)
    ensures Waits(c.ledger.purses, id, block.header.header.finalizedHeight)
    ensures var d := BlockChecked(g, block, parent, c).value.0;
      Doomed(d.ledger, id) && d.ledger.purses[id] == c.ledger.purses[id]
  {
    hide Examined, SealChecked, CertificateWeighed, TransactionsApplied, Housekept, Doomed, Committee.WellFormed;
    var h := block.header.header;
    DoomedThroughHousekeeping(c.ledger, h.finalizedHeight, id);
    var prepared := Prepared(c.ledger, h.finalizedHeight).value;
    DoomedThroughTransactions(g, prepared, ContextOf(h), block.transactions, |block.transactions|, id);
  }

  predicate AllWait(purses: PurseMap, id: PurseId, links: seq<Link>) {
    forall k :: 0 <= k < |links| ==> Waits(purses, id, HeaderOf(links[k]).finalizedHeight)
  }

  /** On such a ledger no chain of valid blocks, whoever signs and whatever they carry, ever
      refers to a finalised height at which the closure's window has run out. */
  lemma {:induction false} FinalityStops(o: Oracle, params: ChainParameters, parent: BlockHeader, c: ChainState,
                                         links: seq<Link>, tip: BlockHeader, d: ChainState, id: PurseId)
    requires Extends(o, params, parent, c, links, tip, d) && Doomed(c.ledger, id)
    ensures Doomed(d.ledger, id) && d.ledger.purses[id] == c.ledger.purses[id]
    ensures AllWait(c.ledger.purses, id, links)
    decreases |links|
  {
    hide BlockChecked, Stuck, SoundPurses, Committee.WellFormed;
    if links != [] {
      var g := SettingOf(o, params, links[0]);
      DoomedThroughBlock(g, links[0].block, parent, c, id);
      var next := BlockChecked(g, links[0].block, parent, c).value.0;
      FinalityStops(o, params, HeaderOf(links[0]), next, links[1..], tip, d, id);
      forall k | 0 <= k < |links|
        ensures Waits(c.ledger.purses, id, HeaderOf(links[k]).finalizedHeight)
      {
        if k > 0 {
          assert links[k] == links[1..][k - 1];
        }
      }
    }
  }
}
