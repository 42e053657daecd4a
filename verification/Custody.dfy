/**
  Who pays and who is paid. Every balance, bond and margin moves by exactly what an accepted
  transaction declares and what its fee is shared into; so nobody loses a unit of any asset
  but the signer, and the signer at most the fee and what the kind declares.
 */
module Custody {
  import opened Prelude
  import opened Types
  import opened Amounts
  import opened Accounts
  import opened PurseBooks
  import opened AssetRegistries
  import opened RecoveryBooks
  import opened SlashingBooks
  import opened LedgerSpec
  import opened Conservation

  function BalanceAt(s: State, id: AccountId, asset: Asset): Amount {
    AccountAt(s.accounts, id).Balance(asset)
  }

  /** What an account has at stake: its bond, and its declared margin. */
  function BondAt(s: State, id: AccountId): Amount { AccountAt(s.accounts, id).bonded }

  function MarginAt(s: State, id: AccountId): Amount { AccountAt(s.accounts, id).nomadMargin }

  predicate SameStakes(s: State, t: State, id: AccountId) {
    BondAt(t, id) == BondAt(s, id) && MarginAt(t, id) == MarginAt(s, id)
  }

  /** What a kind declares its signer pays in an asset, the fee aside. */
  function Declared(kind: TxKind, asset: Asset): Amount {
    match kind
    case Transfer(_, a, amount) => if a == asset then amount else 0
    case PurseOpen(_, a, deposit, _, _, _) => if a == asset then deposit else 0
    case Bond(amount, _) => if asset == None then amount else 0
    case AssetBurn(id, amount) => if asset == Some(id) then amount else 0
    case _ => 0
  }

  function Outlay(body: TxBody, asset: Asset): nat {
    Declared(body.kind, asset) + if asset == None then body.fee else 0
  }

  /** What a transaction brings an account, the fee's share aside: a transfer, an unbonding, a
      channel's agreed split, a mint, or half of what a conviction seizes. */
  function Inflow(s: State, body: TxBody, id: AccountId, asset: Asset): nat {
    match body.kind
    case Transfer(to, a, amount) => if id == to && asset == a then amount else 0
    case Unbond(amount) => if id == body.account && asset == None then amount else 0
    case PurseCloseCooperative(purse, toPayer, toPayee, _) =>
      if purse !in s.purses || asset != s.purses[purse].asset then 0
      else (if id == s.purses[purse].payer then toPayer else 0) + (if id == s.purses[purse].payee then toPayee else 0)
    case AssetMint(a, to, amount) => if id == to && asset == Some(a) then amount else 0
    case AccountEquivocation(_, first, _) =>
      if id == body.account && asset == None then MarginAt(s, first.body.account) / 2 else 0
    case ValidatorEquivocation(v, _, _) => if id == body.account && asset == None then BondAt(s, v) / 2 else 0
    case _ => 0
  }

  /** The proposer's seventy hundredths of the fee. */
  function FeeIncome(ctx: BlockContext, body: TxBody, id: AccountId, asset: Asset): nat {
    if id == ctx.proposer && asset == None then 70 * body.fee / 100 else 0
  }

  // ----- Single steps

  lemma CreditMoves(s: State, id: AccountId, asset: Asset, amount: Amount, other: AccountId, of: Asset)
    requires Credited(s, id, asset, amount).Success?
    ensures var t := Credited(s, id, asset, amount).value;
      && BalanceAt(t, other, of) == BalanceAt(s, other, of) + (if other == id && of == asset then amount else 0)
      && SameStakes(s, t, other)
  {
  }

  lemma DebitMoves(s: State, id: AccountId, asset: Asset, amount: Amount, other: AccountId, of: Asset)
    requires Debited(s, id, asset, amount).Success?
    ensures var t := Debited(s, id, asset, amount).value;
      && id in t.accounts
      && BalanceAt(t, other, of) == BalanceAt(s, other, of) - (if other == id && of == asset then amount else 0)
      && SameStakes(s, t, other)
  {
  }

  /** What one payout brings an account. */
  function Brings(payout: Payout, id: AccountId, asset: Asset): nat {
    if payout.asset != asset then 0
    else
      (if payout.payer == id then payout.settlement.toPayer else 0)
      + (if payout.payee == id then payout.settlement.toPayee else 0)
  }

  lemma PaidOutMoves(s: State, payout: Payout, id: AccountId, asset: Asset)
    requires PaidOut(s, payout).Success?
    ensures var t := PaidOut(s, payout).value;
      BalanceAt(t, id, asset) == BalanceAt(s, id, asset) + Brings(payout, id, asset) && SameStakes(s, t, id)
  {
    hide Credited, BalanceAt;
    var first := s;
    if payout.settlement.toPayer != 0 {
      CreditMoves(s, payout.payer, payout.asset, payout.settlement.toPayer, id, asset);
      first := Credited(s, payout.payer, payout.asset, payout.settlement.toPayer).value;
    }
    if payout.settlement.toPayee != 0 {
      CreditMoves(first, payout.payee, payout.asset, payout.settlement.toPayee, id, asset);
    }
  }

  // ----- Housekeeping

  function Owed(payouts: seq<Payout>, id: AccountId, asset: Asset): nat
    decreases |payouts|
  {
    if payouts == [] then 0 else Brings(payouts[0], id, asset) + Owed(payouts[1..], id, asset)
  }

  lemma {:induction false} AllPaidOutMoves(s: State, payouts: seq<Payout>, id: AccountId, asset: Asset)
    requires AllPaidOut(s, payouts).Success?
    ensures var t := AllPaidOut(s, payouts).value;
      BalanceAt(t, id, asset) == BalanceAt(s, id, asset) + Owed(payouts, id, asset) && SameStakes(s, t, id)
    decreases |payouts|
  {
    hide PaidOut, Brings, BalanceAt;
    if payouts != [] {
      PaidOutMoves(s, payouts[0], id, asset);
      AllPaidOutMoves(PaidOut(s, payouts[0]).value, payouts[1..], id, asset);
    }
  }

  /** Housekeeping brings every account exactly what the due channels owe it. */
  lemma HousekeepingPaysExactly(s: State, finalized: u64, id: AccountId, asset: Asset)
    requires Housekept(s, finalized).Success?
    ensures var t := Housekept(s, finalized).value;
      && BalanceAt(t, id, asset) == BalanceAt(s, id, asset) + Owed(Payouts(s.purses, finalized), id, asset)
      && SameStakes(s, t, id)
  {
    hide AllPaidOut, Owed;
    AllPaidOutMoves(s.(purses := s.purses - Due(s.purses, finalized)), Payouts(s.purses, finalized), id, asset);
  }

  // ----- The fee

  lemma FeeMoves(s: State, ctx: BlockContext, body: TxBody, id: AccountId, asset: Asset)
    requires FeeCharged(s, ctx, body).Success?
    ensures var t := FeeCharged(s, ctx, body).value;
      && BalanceAt(t, id, asset) == BalanceAt(s, id, asset) + FeeIncome(ctx, body, id, asset)
                                    - (if id == body.account && asset == None then body.fee else 0)
      && SameStakes(s, t, id)
  {
    FeeShares(body.fee);
    hide Credited, Debited, SplitFee, BalanceAt, BondAt, MarginAt;
    var split := SplitFee(body.fee);
    var paid := Debited(s, body.account, None, body.fee).value;
    DebitMoves(s, body.account, None, body.fee, id, asset);
    var booked := paid.(burned := paid.burned + split.burn, contextPot := paid.contextPot + split.pot,
        fees := paid.fees + body.fee);
    SameAccountsStand(paid, booked, id, asset);
    CreditMoves(booked, ctx.proposer, None, split.provider, id, asset);
  }

  lemma SameAccountsStand(s: State, t: State, id: AccountId, asset: Asset)
    requires t.accounts == s.accounts
    ensures BalanceAt(t, id, asset) == BalanceAt(s, id, asset) && SameStakes(s, t, id)
  {
  }

  // ----- Each kind

  lemma TransferMoves(s: State, from: AccountId, to: AccountId, asset: Asset, amount: Amount, id: AccountId, of: Asset)
    requires Transferred(s, from, to, asset, amount).Success?
    ensures var t := Transferred(s, from, to, asset, amount).value;
      && BalanceAt(t, id, of) == BalanceAt(s, id, of) + (if id == to && of == asset then amount else 0)
                                 - (if id == from && of == asset then amount else 0)
      && SameStakes(s, t, id)
  {
    hide Credited, Debited, BalanceAt, BondAt, MarginAt;
    DebitMoves(s, from, asset, amount, id, of);
    CreditMoves(Debited(s, from, asset, amount).value, to, asset, amount, id, of);
  }

  lemma BondMoves(s: State, bonder: AccountId, amount: Amount, id: AccountId, of: Asset)
    requires Bonded(s, bonder, amount).Success?
    ensures var t := Bonded(s, bonder, amount).value;
      && BalanceAt(t, id, of) == BalanceAt(s, id, of) - (if id == bonder && of == None then amount else 0)
      && BondAt(t, id) == BondAt(s, id) + (if id == bonder then amount else 0) && MarginAt(t, id) == MarginAt(s, id)
  {
    hide Debited;
    DebitMoves(s, bonder, None, amount, id, of);
    DebitMoves(s, bonder, None, amount, bonder, of);
  }

  lemma UnbondMoves(s: State, bonder: AccountId, amount: Amount, id: AccountId, of: Asset)
    requires Unbonded(s, bonder, amount).Success?
    ensures var t := Unbonded(s, bonder, amount).value;
      && BalanceAt(t, id, of) == BalanceAt(s, id, of) + (if id == bonder && of == None then amount else 0)
      && BondAt(t, id) == BondAt(s, id) - (if id == bonder then amount else 0) && MarginAt(t, id) == MarginAt(s, id)
  {
    hide Credited;
    var loose := s.(accounts :=
        s.accounts[bonder := s.accounts[bonder].(bonded := s.accounts[bonder].bonded - amount)]);
    CreditMoves(loose, bonder, None, amount, id, of);
  }

  lemma OpenMoves(s: State, purse: PurseId, payer: AccountId, payee: AccountId, asset: Asset, deposit: Amount,
                  root: Hash, trancheValue: Amount, expiry: u64, id: AccountId, of: Asset)
    requires PurseOpened(s, purse, payer, payee, asset, deposit, root, trancheValue, expiry).Success?
    ensures var t := PurseOpened(s, purse, payer, payee, asset, deposit, root, trancheValue, expiry).value;
      && BalanceAt(t, id, of) == BalanceAt(s, id, of) - (if id == payer && of == asset then deposit else 0)
      && SameStakes(s, t, id)
  {
    hide Debited, BalanceAt, BondAt, MarginAt;
    var paid := Debited(s, payer, asset, deposit).value;
    DebitMoves(s, payer, asset, deposit, id, of);
    SameAccountsStand(paid, PurseOpened(s, purse, payer, payee, asset, deposit, root, trancheValue, expiry).value, id,
        of);
  }

  lemma CloseMoves(s: State, purse: PurseId, caller: AccountId, toPayer: Amount, toPayee: Amount, id: AccountId,
      of: Asset)
    requires PurseClosed(s, purse, caller, toPayer, toPayee).Success?
    ensures purse in s.purses
    ensures var p, t := s.purses[purse], PurseClosed(s, purse, caller, toPayer, toPayee).value;
      && BalanceAt(t, id, of) == BalanceAt(s, id, of)
           + (if of == p.asset then
                (if id == p.payer then toPayer else 0) + (if id == p.payee then toPayee else 0) else 0)
      && SameStakes(s, t, id)
  {
    hide PaidOut, BalanceAt, BondAt, MarginAt;
    var (m, payout) := ClosedCooperatively(s.purses, purse, caller, toPayer, toPayee).value;
    SameAccountsStand(s, s.(purses := m), id, of);
    PaidOutMoves(s.(purses := m), payout, id, of);
  }

  lemma ClosingMovesNothing(o: Oracle, s: State, ctx: BlockContext, purse: PurseId, caller: AccountId, claimed: u32,
      link: Hash)
    ensures PurseClosing(o, s, ctx, purse, caller, claimed, link).Success? ==>
      PurseClosing(o, s, ctx, purse, caller, claimed, link).value.accounts == s.accounts
    ensures PurseContested(o, s, purse, claimed, link).Success? ==>
      PurseContested(o, s, purse, claimed, link).value.accounts == s.accounts
  {
    hide Closing, Disputed;
  }

  lemma MintMoves(s: State, caller: AccountId, asset: AssetId, to: AccountId, amount: Amount, id: AccountId, of: Asset)
    requires AssetMinted(s, caller, asset, to, amount).Success?
    ensures var t := AssetMinted(s, caller, asset, to, amount).value;
      && BalanceAt(t, id, of) == BalanceAt(s, id, of) + (if id == to && of == Some(asset) then amount else 0)
      && SameStakes(s, t, id)
  {
    hide Credited, Minted, BalanceAt, BondAt, MarginAt;
    var minted := s.(assets := Minted(s.assets, asset, caller, amount).value);
    SameAccountsStand(s, minted, id, of);
    CreditMoves(minted, to, Some(asset), amount, id, of);
  }

  lemma BurnMoves(s: State, caller: AccountId, asset: AssetId, amount: Amount, id: AccountId, of: Asset)
    requires AssetBurned(s, caller, asset, amount).Success?
    ensures var t := AssetBurned(s, caller, asset, amount).value;
      && BalanceAt(t, id, of) == BalanceAt(s, id, of) - (if id == caller && of == Some(asset) then amount else 0)
      && SameStakes(s, t, id)
  {
    hide Debited, Burned, BalanceAt, BondAt, MarginAt;
    var paid := Debited(s, caller, Some(asset), amount).value;
    DebitMoves(s, caller, Some(asset), amount, id, of);
    SameAccountsStand(paid, AssetBurned(s, caller, asset, amount).value, id, of);
  }

  lemma PenaltyMoves(s: State, seized: Amount, denouncer: AccountId, id: AccountId, of: Asset)
    requires PenaltyPaid(s, SplitPenalty(seized), denouncer).Success?
    ensures var t := PenaltyPaid(s, SplitPenalty(seized), denouncer).value;
      && BalanceAt(t, id, of) == BalanceAt(s, id, of) + (if id == denouncer && of == None then seized / 2 else 0)
      && SameStakes(s, t, id)
  {
    hide Credited, SplitPenalty, BalanceAt, BondAt, MarginAt;
    PenaltyIsConserved(seized);
    var penalty := SplitPenalty(seized);
    if seized != 0 {
      var burnt := s.(burned := s.burned + penalty.burned);
      SameAccountsStand(s, burnt, id, of);
      CreditMoves(burnt, denouncer, None, penalty.toDenouncer, id, of);
    }
  }

  lemma PunishedMoves(o: Oracle, s: State, device: DeviceId, first: Transaction, second: Transaction,
      denouncer: AccountId, id: AccountId, of: Asset)
    requires AccountPunished(o, s, device, first, second, denouncer).Success?
    ensures var accused, t := first.body.account, AccountPunished(o, s, device, first, second, denouncer).value;
      && BalanceAt(t, id, of) == BalanceAt(s, id, of)
                                 + (if id == denouncer && of == None then MarginAt(s, accused) / 2 else 0)
      && BondAt(t, id) == BondAt(s, id) && MarginAt(t, id) == (if id == accused then 0 else MarginAt(s, id))
  {
    hide CheckAccountEquivocation, SplitPenalty, PenaltyPaid;
    var accused := first.body.account;
    var a := s.accounts[accused];
    var offence := AccountOffence(accused, device, first.body.nonce.lane, first.body.nonce.sequence);
    var seized := s.(accountOffences := s.accountOffences + {offence},
        accounts := s.accounts[accused := a.(nomadMargin := 0)]);
    PenaltyMoves(seized, a.nomadMargin, denouncer, id, of);
  }

  lemma ValidatorPunishedMoves(o: Oracle, s: State, v: AccountId, first: SignedHeader, second: SignedHeader,
      denouncer: AccountId, id: AccountId, of: Asset)
    requires ValidatorPunished(o, s, v, first, second, denouncer).Success?
    ensures var t := ValidatorPunished(o, s, v, first, second, denouncer).value;
      && BalanceAt(t, id, of) == BalanceAt(s, id, of)
                                 + (if id == denouncer && of == None then BondAt(s, v) / 2 else 0)
      && BondAt(t, id) == (if id == v then 0 else BondAt(s, id)) && MarginAt(t, id) == MarginAt(s, id)
  {
    hide CheckValidatorEquivocation, SplitPenalty, PenaltyPaid;
    var a := s.accounts[v];
    var offence := ValidatorOffence(v, first.header.height);
    var seized := s.(validatorOffences := s.validatorOffences + {offence},
        accounts := s.accounts[v := a.(bonded := 0)]);
    PenaltyMoves(seized, a.bonded, denouncer, id, of);
  }

  /** Replacing one account by another with the same balances and bond. */
  lemma EditMoves(s: State, t: State, edited: AccountId, id: AccountId, of: Asset)
    requires t.accounts == s.accounts[edited := AccountAt(t.accounts, edited)]
    requires AccountAt(t.accounts, edited).balances == AccountAt(s.accounts, edited).balances
    requires BondAt(t, edited) == BondAt(s, edited)
    ensures BalanceAt(t, id, of) == BalanceAt(s, id, of) && BondAt(t, id) == BondAt(s, id)
    ensures MarginAt(t, id) == if id == edited then MarginAt(t, edited) else MarginAt(s, id)
  {
    if id != edited {
      assert AccountAt(t.accounts, id) == AccountAt(s.accounts, id);
    }
  }

  lemma DevicesMove(o: Oracle, s: State, me: AccountId, key: VerifyingKey, lane: Lane, share: Amount, device: DeviceId,
      id: AccountId, of: Asset)
    ensures DeviceAdded(o, s, me, key, lane, share).Success? ==>
      var t := DeviceAdded(o, s, me, key, lane, share).value;
      BalanceAt(t, id, of) == BalanceAt(s, id, of) && SameStakes(s, t, id)
    ensures DeviceDropped(s, me, device).Success? ==>
      var t := DeviceDropped(s, me, device).value;
      BalanceAt(t, id, of) == BalanceAt(s, id, of) && SameStakes(s, t, id)
  {
    hide AllocatedNomad;
    if DeviceAdded(o, s, me, key, lane, share).Success? {
      EditMoves(s, DeviceAdded(o, s, me, key, lane, share).value, me, id, of);
    }
    if DeviceDropped(s, me, device).Success? {
      EditMoves(s, DeviceDropped(s, me, device).value, me, id, of);
    }
  }

  lemma DeclarationsMove(s: State, me: AccountId, credit: Amount, margin: Amount, guardians: set<AccountId>,
      threshold: u32, id: AccountId, of: Asset)
    ensures NomadDeclared(s, me, credit, margin).Success? ==>
      var t := NomadDeclared(s, me, credit, margin).value;
      && BalanceAt(t, id, of) == BalanceAt(s, id, of) && BondAt(t, id) == BondAt(s, id)
      && MarginAt(t, id) == if id == me then margin else MarginAt(s, id)
    ensures GuardiansSet(s, me, guardians, threshold).Success? ==>
      var t := GuardiansSet(s, me, guardians, threshold).value;
      BalanceAt(t, id, of) == BalanceAt(s, id, of) && SameStakes(s, t, id)
  {
    hide AllocatedNomad;
    if NomadDeclared(s, me, credit, margin).Success? {
      EditMoves(s, NomadDeclared(s, me, credit, margin).value, me, id, of);
    }
    if GuardiansSet(s, me, guardians, threshold).Success? {
      EditMoves(s, GuardiansSet(s, me, guardians, threshold).value, me, id, of);
    }
  }

  lemma RecoveryMoves(o: Oracle, s: State, ctx: BlockContext, target: AccountId, id: AccountId, of: Asset)
    requires RecoveryCompleted(o, s, ctx, target).Success?
    ensures var t := RecoveryCompleted(o, s, ctx, target).value;
      BalanceAt(t, id, of) == BalanceAt(s, id, of) && SameStakes(s, t, id)
  {
    hide Finalised;
    EditMoves(s, RecoveryCompleted(o, s, ctx, target).value, target, id, of);
  }

  lemma RecordMoves(o: Oracle, s: State, ctx: BlockContext, body: TxBody)
    requires KindApplied(o, s, ctx, body).Success? && IsRecordKind(body.kind)
    ensures KindApplied(o, s, ctx, body).value.accounts == s.accounts
  {
    hide KindApplied;
    RecordHoldings(o, s, ctx, body);
  }

  /** What a kind makes of a bond, and of a margin. */
  function BondAfter(s: State, body: TxBody, id: AccountId): int {
    match body.kind
    case Bond(amount, _) => BondAt(s, id) + if id == body.account then amount else 0
    case Unbond(amount) => BondAt(s, id) - if id == body.account then amount else 0
    case ValidatorEquivocation(v, _, _) => if id == v then 0 else BondAt(s, id)
    case _ => BondAt(s, id)
  }

  function MarginAfter(s: State, body: TxBody, id: AccountId): Amount {
    match body.kind
    case NomadSet(_, margin) => if id == body.account then margin else MarginAt(s, id)
    case AccountEquivocation(_, first, _) => if id == first.body.account then 0 else MarginAt(s, id)
    case _ => MarginAt(s, id)
  }

  lemma KindMovesExactly(o: Oracle, s: State, ctx: BlockContext, body: TxBody, id: AccountId, of: Asset)
    requires KindApplied(o, s, ctx, body).Success?
    ensures var t := KindApplied(o, s, ctx, body).value;
      && BalanceAt(t, id, of) == BalanceAt(s, id, of) + Inflow(s, body, id, of)
                                 - (if id == body.account then Declared(body.kind, of) else 0)
      && BondAt(t, id) == BondAfter(s, body, id) && MarginAt(t, id) == MarginAfter(s, body, id)
  {
    hide Transferred, NomadDeclared, DeviceAdded, DeviceDropped, Bonded, Unbonded, PurseOpened, PurseClosed,
      PurseClosing, PurseContested, AssetMade, AssetMinted, AssetBurned, NameCommitted, NameRevealed, GuardiansSet,
      RecoveryApproved, RecoveryDropped, RecoveryCompleted, AccountPunished, ValidatorPunished, BalanceAt, BondAt,
      MarginAt;
    var me := body.account;
    match body.kind
    case Transfer(to, asset, amount) => TransferMoves(s, me, to, asset, amount, id, of);
    case Bond(amount, _) => BondMoves(s, me, amount, id, of);
    case Unbond(amount) => UnbondMoves(s, me, amount, id, of);
    case PurseOpen(counterparty, asset, deposit, root, trancheValue, expiry) =>
      OpenMoves(s, o.txId(body), me, counterparty, asset, deposit, root, trancheValue, expiry, id, of);
    case PurseCloseCooperative(purse, toPayer, toPayee, _) => CloseMoves(s, purse, me, toPayer, toPayee, id, of);
    case PurseCloseUnilateral(purse, claimed, link) =>
      ClosingMovesNothing(o, s, ctx, purse, me, claimed, link);
      SameAccountsStand(s, KindApplied(o, s, ctx, body).value, id, of);
    case PurseDispute(purse, claimed, link) =>
      ClosingMovesNothing(o, s, ctx, purse, me, claimed, link);
      SameAccountsStand(s, KindApplied(o, s, ctx, body).value, id, of);
    case AssetMint(asset, to, amount) => MintMoves(s, me, asset, to, amount, id, of);
    case AssetBurn(asset, amount) => BurnMoves(s, me, asset, amount, id, of);
    case AccountEquivocation(device, first, second) => PunishedMoves(o, s, device, first, second, me, id, of);
    case ValidatorEquivocation(v, first, second) => ValidatorPunishedMoves(o, s, v, first, second, me, id, of);
    case NomadSet(credit, margin) => DeclarationsMove(s, me, credit, margin, {}, 0, id, of);
    case DeviceAdd(key, lane, share) => DevicesMove(o, s, me, key, lane, share, body.device, id, of);
    case DeviceRevoke(device) => DevicesMove(o, s, me, TEST_KEY, 0, 0, device, id, of);
    case GuardianSet(guardians, threshold) => DeclarationsMove(s, me, 0, 0, guardians, threshold, id, of);
    case RecoveryFinalise(target) => RecoveryMoves(o, s, ctx, target, id, of);
    case _ =>
      RecordMoves(o, s, ctx, body);
      SameAccountsStand(s, KindApplied(o, s, ctx, body).value, id, of);
  }

  lemma NonceMovesNothing(s: State, body: TxBody, consumed: Amount, id: AccountId, of: Asset)
    requires NonceSpent(s, body, consumed).Success?
    ensures var t := NonceSpent(s, body, consumed).value;
      BalanceAt(t, id, of) == BalanceAt(s, id, of) && SameStakes(s, t, id)
  {
  }

  // ----- One transaction

  lemma SameInflow(s: State, t: State, body: TxBody, id: AccountId, of: Asset)
    requires t.purses == s.purses && SameStakes(s, t, id)
    requires body.kind.AccountEquivocation? ==> SameStakes(s, t, body.kind.first.body.account)
    requires body.kind.ValidatorEquivocation? ==> SameStakes(s, t, body.kind.validator)
    ensures Inflow(t, body, id, of) == Inflow(s, body, id, of)
    ensures BondAfter(t, body, id) == BondAfter(s, body, id) && MarginAfter(t, body, id) == MarginAfter(s, body, id)
  {
    hide BondAt, MarginAt;
  }

  lemma FeeBringsNothingElse(s: State, ctx: BlockContext, body: TxBody, id: AccountId, of: Asset)
    requires FeeCharged(s, ctx, body).Success?
    ensures var t := FeeCharged(s, ctx, body).value;
      && Inflow(t, body, id, of) == Inflow(s, body, id, of)
      && BondAfter(t, body, id) == BondAfter(s, body, id) && MarginAfter(t, body, id) == MarginAfter(s, body, id)
  {
    hide FeeCharged, SameStakes, BalanceAt, FeeIncome, Inflow, BondAfter, MarginAfter;
    FeeKeepsPurses(s, ctx, body);
    FeeMoves(s, ctx, body, id, of);
    if body.kind.AccountEquivocation? {
      FeeMoves(s, ctx, body, body.kind.first.body.account, of);
    }
    if body.kind.ValidatorEquivocation? {
      FeeMoves(s, ctx, body, body.kind.validator, of);
    }
    SameInflow(s, FeeCharged(s, ctx, body).value, body, id, of);
  }

  lemma FeeKeepsPurses(s: State, ctx: BlockContext, body: TxBody)
    requires FeeCharged(s, ctx, body).Success?
    ensures FeeCharged(s, ctx, body).value.purses == s.purses
  {
    hide SplitFee;
  }

  /** Across an accepted transaction every account's balance of every asset moves by exactly
      the proposer's share of the fee, what the kind brings it, and what its signer pays. */
  lemma BalancesMoveExactly(o: Oracle, s: State, ctx: BlockContext, body: TxBody, id: AccountId, asset: Asset)
    requires TxApplied(o, s, ctx, body).Success?
    ensures BalanceAt(TxApplied(o, s, ctx, body).value, id, asset) ==
      BalanceAt(s, id, asset) + FeeIncome(ctx, body, id, asset) + Inflow(s, body, id, asset)
      - (if id == body.account then Outlay(body, asset) else 0)
    ensures BondAt(TxApplied(o, s, ctx, body).value, id) == BondAfter(s, body, id)
    ensures MarginAt(TxApplied(o, s, ctx, body).value, id) == MarginAfter(s, body, id)
  {
    hide KindApplied, FeeCharged, NonceSpent, Admitted, BalanceAt, BondAt, MarginAt, Inflow, FeeIncome, Declared,
      BondAfter, MarginAfter;
    var consumed := Admitted(s, ctx, body).value;
    var charged := FeeCharged(s, ctx, body).value;
    var changed := KindApplied(o, charged, ctx, body).value;
    FeeMoves(s, ctx, body, id, asset);
    FeeBringsNothingElse(s, ctx, body, id, asset);
    KindMovesExactly(o, charged, ctx, body, id, asset);
    NonceMovesNothing(changed, body, consumed, id, asset);
  }

  ghost predicate PaysAtMost(s: State, t: State, payer: AccountId, outlay: Asset -> nat) {
    forall id, b :: BalanceAt(t, id, b) >= BalanceAt(s, id, b) - if id == payer then outlay(b) else 0
  }

  /** So no account but the signer's loses anything, and the signer's loses at most the fee
      and what the kind declares. */
  lemma OnlyTheSignerPays(o: Oracle, s: State, ctx: BlockContext, body: TxBody)
    requires TxApplied(o, s, ctx, body).Success?
    ensures PaysAtMost(s, TxApplied(o, s, ctx, body).value, body.account, b => Outlay(body, b))
  {
    hide TxApplied, BalanceAt, Inflow, FeeIncome;
    forall id, b
      ensures BalanceAt(TxApplied(o, s, ctx, body).value, id, b) >=
        BalanceAt(s, id, b) - if id == body.account then Outlay(body, b) else 0
    {
      BalancesMoveExactly(o, s, ctx, body, id, b);
    }
  }
}
