/** The part of an account that says who may act for it, and which steps leave it alone. */
module Standing {
  import opened Prelude
  import opened Types
  import opened Amounts
  import opened Accounts
  import opened PurseBooks
  import opened AssetRegistries
  import opened RecoveryBooks
  import opened SlashingBooks
  import opened LedgerSpec
  import opened Conservation

  ghost predicate SameStanding(a: Account, b: Account) {
    && b.devices == a.devices && b.revokedDevices == a.revokedDevices
    && b.nextLane == a.nextLane && b.lanes == a.lanes && b.nomadCredit == a.nomadCredit
    && b.guardians == a.guardians && b.guardianThreshold == a.guardianThreshold
  }

  ghost predicate SameStandings(s: State, t: State) {
    forall id :: SameStanding(AccountAt(s.accounts, id), AccountAt(t.accounts, id))
  }

  lemma CreditedStanding(s: State, id: AccountId, asset: Asset, amount: Amount)
    requires Credited(s, id, asset, amount).Success?
    ensures SameStandings(s, Credited(s, id, asset, amount).value)
  {
  }

  lemma DebitedStanding(s: State, id: AccountId, asset: Asset, amount: Amount)
    requires Debited(s, id, asset, amount).Success?
    ensures id in Debited(s, id, asset, amount).value.accounts
    ensures SameStandings(s, Debited(s, id, asset, amount).value)
  {
  }

  lemma EditedStanding(s: State, id: AccountId, a: Account)
    requires SameStanding(AccountAt(s.accounts, id), a)
    ensures SameStandings(s, s.(accounts := s.accounts[id := a]))
  {
  }

  lemma StandingsChain(s: State, t: State, u: State)
    requires SameStandings(s, t) && SameStandings(t, u)
    ensures SameStandings(s, u)
  {
    forall id ensures SameStanding(AccountAt(s.accounts, id), AccountAt(u.accounts, id)) {
      assert SameStanding(AccountAt(s.accounts, id), AccountAt(t.accounts, id));
    }
  }

  lemma SameAccountsStanding(s: State, t: State)
    requires t.accounts == s.accounts
    ensures SameStandings(s, t)
  {
  }

  lemma PaidOutStanding(s: State, payout: Payout)
    requires PaidOut(s, payout).Success?
    ensures SameStandings(s, PaidOut(s, payout).value)
  {
    hide Credited, SameStandings;
    var first := s;
    SameAccountsStanding(s, s);
    if payout.settlement.toPayer != 0 {
      CreditedStanding(s, payout.payer, payout.asset, payout.settlement.toPayer);
      first := Credited(s, payout.payer, payout.asset, payout.settlement.toPayer).value;
    }
    if payout.settlement.toPayee != 0 {
      CreditedStanding(first, payout.payee, payout.asset, payout.settlement.toPayee);
      StandingsChain(s, first, PaidOut(s, payout).value);
    }
  }

  lemma {:induction false} AllPaidOutStanding(s: State, payouts: seq<Payout>)
    requires AllPaidOut(s, payouts).Success?
    ensures SameStandings(s, AllPaidOut(s, payouts).value)
    decreases |payouts|
  {
    hide PaidOut, SameStandings;
    if payouts == [] {
      SameAccountsStanding(s, s);
    } else {
      var first := PaidOut(s, payouts[0]).value;
      PaidOutStanding(s, payouts[0]);
      AllPaidOutStanding(first, payouts[1..]);
      StandingsChain(s, first, AllPaidOut(s, payouts).value);
    }
  }

  lemma HousekeepingStanding(s: State, finalized: u64)
    requires Housekept(s, finalized).Success?
    ensures SameStandings(s, Housekept(s, finalized).value)
  {
    hide AllPaidOut, SameStandings;
    var t := s.(purses := s.purses - Due(s.purses, finalized));
    AllPaidOutStanding(t, Payouts(s.purses, finalized));
    SameAccountsStanding(s, t);
    var u := PursesSettled(s, finalized).value;
    StandingsChain(s, t, u);
    SameAccountsStanding(u, Housekept(s, finalized).value);
    StandingsChain(s, u, Housekept(s, finalized).value);
  }

  lemma FeeStanding(s: State, ctx: BlockContext, body: TxBody)
    requires FeeCharged(s, ctx, body).Success?
    ensures SameStandings(s, FeeCharged(s, ctx, body).value)
  {
    hide Credited, Debited, SplitFee, SameStandings;
    var split := SplitFee(body.fee);
    var paid := Debited(s, body.account, None, body.fee).value;
    DebitedStanding(s, body.account, None, body.fee);
    var booked := paid.(burned := paid.burned + split.burn, contextPot := paid.contextPot + split.pot,
        fees := paid.fees + body.fee);
    SameAccountsStanding(paid, booked);
    CreditedStanding(booked, ctx.proposer, None, split.provider);
    StandingsChain(s, paid, booked);
    StandingsChain(s, booked, FeeCharged(s, ctx, body).value);
  }

  lemma PenaltyStanding(s: State, penalty: Penalty, denouncer: AccountId)
    requires PenaltyPaid(s, penalty, denouncer).Success?
    ensures SameStandings(s, PenaltyPaid(s, penalty, denouncer).value)
  {
    hide Credited, SameStandings;
    SameAccountsStanding(s, s);
    if penalty.seized != 0 {
      var burnt := s.(burned := s.burned + penalty.burned);
      SameAccountsStanding(s, burnt);
      CreditedStanding(burnt, denouncer, None, penalty.toDenouncer);
      StandingsChain(s, burnt, PenaltyPaid(s, penalty, denouncer).value);
    }
  }

  /** The kinds that change no account's devices, lanes, revocations, credit or guardians. */
  predicate LeavesStanding(kind: TxKind) {
    !kind.NomadSet? && !kind.DeviceAdd? && !kind.DeviceRevoke? && !kind.GuardianSet? && !kind.RecoveryFinalise?
  }

  lemma TransferStanding(s: State, from: AccountId, to: AccountId, asset: Asset, amount: Amount)
    requires Transferred(s, from, to, asset, amount).Success?
    ensures SameStandings(s, Transferred(s, from, to, asset, amount).value)
  {
    hide Credited, Debited, SameStandings;
    var paid := Debited(s, from, asset, amount).value;
    DebitedStanding(s, from, asset, amount);
    CreditedStanding(paid, to, asset, amount);
    StandingsChain(s, paid, Transferred(s, from, to, asset, amount).value);
  }

  lemma BondStanding(s: State, id: AccountId, amount: Amount)
    requires Bonded(s, id, amount).Success?
    ensures SameStandings(s, Bonded(s, id, amount).value)
  {
    hide Debited, SameStandings;
    var paid := Debited(s, id, None, amount).value;
    DebitedStanding(s, id, None, amount);
    EditedStanding(paid, id, paid.accounts[id].(bonded := paid.accounts[id].bonded + amount));
    StandingsChain(s, paid, Bonded(s, id, amount).value);
  }

  lemma UnbondStanding(s: State, id: AccountId, amount: Amount)
    requires Unbonded(s, id, amount).Success?
    ensures SameStandings(s, Unbonded(s, id, amount).value)
  {
    hide Credited, SameStandings;
    var a := s.accounts[id].(bonded := s.accounts[id].bonded - amount);
    var loose := s.(accounts := s.accounts[id := a]);
    EditedStanding(s, id, a);
    CreditedStanding(loose, id, None, amount);
    StandingsChain(s, loose, Unbonded(s, id, amount).value);
  }

  lemma OpenStanding(s: State, id: PurseId, payer: AccountId, payee: AccountId, asset: Asset, deposit: Amount,
                     root: Hash, trancheValue: Amount, expiry: u64)
    requires PurseOpened(s, id, payer, payee, asset, deposit, root, trancheValue, expiry).Success?
    ensures SameStandings(s, PurseOpened(s, id, payer, payee, asset, deposit, root, trancheValue, expiry).value)
  {
    hide Debited, SameStandings;
    var t := PurseOpened(s, id, payer, payee, asset, deposit, root, trancheValue, expiry).value;
    var paid := Debited(s, payer, asset, deposit).value;
    DebitedStanding(s, payer, asset, deposit);
    SameAccountsStanding(paid, t);
    StandingsChain(s, paid, t);
  }

  lemma CloseStanding(s: State, id: PurseId, caller: AccountId, toPayer: Amount, toPayee: Amount)
    requires PurseClosed(s, id, caller, toPayer, toPayee).Success?
    ensures SameStandings(s, PurseClosed(s, id, caller, toPayer, toPayee).value)
  {
    hide PaidOut, SameStandings;
    var (m, payout) := ClosedCooperatively(s.purses, id, caller, toPayer, toPayee).value;
    SameAccountsStanding(s, s.(purses := m));
    PaidOutStanding(s.(purses := m), payout);
    StandingsChain(s, s.(purses := m), PurseClosed(s, id, caller, toPayer, toPayee).value);
  }

  lemma MintStanding(s: State, caller: AccountId, id: AssetId, to: AccountId, amount: Amount)
    requires AssetMinted(s, caller, id, to, amount).Success?
    ensures SameStandings(s, AssetMinted(s, caller, id, to, amount).value)
  {
    hide Credited, Minted, SameStandings;
    var minted := s.(assets := Minted(s.assets, id, caller, amount).value);
    SameAccountsStanding(s, minted);
    CreditedStanding(minted, to, Some(id), amount);
    StandingsChain(s, minted, AssetMinted(s, caller, id, to, amount).value);
  }

  lemma BurnStanding(s: State, caller: AccountId, id: AssetId, amount: Amount)
    requires AssetBurned(s, caller, id, amount).Success?
    ensures SameStandings(s, AssetBurned(s, caller, id, amount).value)
  {
    hide Debited, Burned, SameStandings;
    var paid := Debited(s, caller, Some(id), amount).value;
    DebitedStanding(s, caller, Some(id), amount);
    SameAccountsStanding(paid, AssetBurned(s, caller, id, amount).value);
    StandingsChain(s, paid, AssetBurned(s, caller, id, amount).value);
  }

  lemma PunishedStanding(o: Oracle, s: State, device: DeviceId, first: Transaction, second: Transaction,
      denouncer: AccountId)
    requires AccountPunished(o, s, device, first, second, denouncer).Success?
    ensures SameStandings(s, AccountPunished(o, s, device, first, second, denouncer).value)
  {
    hide CheckAccountEquivocation, SplitPenalty, PenaltyPaid, SameStandings;
    var accused := first.body.account;
    var a := s.accounts[accused];
    var offence := AccountOffence(accused, device, first.body.nonce.lane, first.body.nonce.sequence);
    var edited := s.(accounts := s.accounts[accused := a.(nomadMargin := 0)]);
    var seized := edited.(accountOffences := s.accountOffences + {offence});
    EditedStanding(s, accused, a.(nomadMargin := 0));
    SameAccountsStanding(edited, seized);
    StandingsChain(s, edited, seized);
    PenaltyStanding(seized, SplitPenalty(a.nomadMargin), denouncer);
    StandingsChain(s, seized, AccountPunished(o, s, device, first, second, denouncer).value);
  }

  lemma ValidatorPunishedStanding(o: Oracle, s: State, v: AccountId, first: SignedHeader, second: SignedHeader,
      denouncer: AccountId)
    requires ValidatorPunished(o, s, v, first, second, denouncer).Success?
    ensures SameStandings(s, ValidatorPunished(o, s, v, first, second, denouncer).value)
  {
    hide CheckValidatorEquivocation, SplitPenalty, PenaltyPaid, SameStandings;
    var a := s.accounts[v];
    var offence := ValidatorOffence(v, first.header.height);
    var edited := s.(accounts := s.accounts[v := a.(bonded := 0)]);
    var seized := edited.(validatorOffences := s.validatorOffences + {offence});
    EditedStanding(s, v, a.(bonded := 0));
    SameAccountsStanding(edited, seized);
    StandingsChain(s, edited, seized);
    PenaltyStanding(seized, SplitPenalty(a.bonded), denouncer);
    StandingsChain(s, seized, ValidatorPunished(o, s, v, first, second, denouncer).value);
  }

  lemma ClosingStanding(o: Oracle, s: State, ctx: BlockContext, id: PurseId, caller: AccountId, claimed: u32,
      link: Hash)
    ensures PurseClosing(o, s, ctx, id, caller, claimed, link).Success? ==>
      SameStandings(s, PurseClosing(o, s, ctx, id, caller, claimed, link).value)
    ensures PurseContested(o, s, id, claimed, link).Success? ==>
      SameStandings(s, PurseContested(o, s, id, claimed, link).value)
  {
    hide Closing, Disputed;
  }

  lemma RecordStanding(o: Oracle, s: State, ctx: BlockContext, body: TxBody)
    requires KindApplied(o, s, ctx, body).Success? && IsRecordKind(body.kind)
    ensures SameStandings(s, KindApplied(o, s, ctx, body).value)
  {
    hide KindApplied, SameStandings;
    RecordHoldings(o, s, ctx, body);
    SameAccountsStanding(s, KindApplied(o, s, ctx, body).value);
  }

  lemma KindStanding(o: Oracle, s: State, ctx: BlockContext, body: TxBody)
    requires KindApplied(o, s, ctx, body).Success? && LeavesStanding(body.kind)
    ensures SameStandings(s, KindApplied(o, s, ctx, body).value)
  {
    hide Transferred, NomadDeclared, DeviceAdded, DeviceDropped, Bonded, Unbonded, PurseOpened, PurseClosed,
      PurseClosing, PurseContested, AssetMade, AssetMinted, AssetBurned, NameCommitted, NameRevealed, GuardiansSet,
      RecoveryApproved, RecoveryDropped, RecoveryCompleted, AccountPunished, ValidatorPunished, SameStandings;
    var id := body.account;
    match body.kind
    case Transfer(to, asset, amount) => TransferStanding(s, id, to, asset, amount);
    case Bond(amount, _) => BondStanding(s, id, amount);
    case Unbond(amount) => UnbondStanding(s, id, amount);
    case PurseOpen(counterparty, asset, deposit, root, trancheValue, expiry) =>
      OpenStanding(s, o.txId(body), id, counterparty, asset, deposit, root, trancheValue, expiry);
    case PurseCloseCooperative(purse, toPayer, toPayee, _) => CloseStanding(s, purse, id, toPayer, toPayee);
    case AssetMint(asset, to, amount) => MintStanding(s, id, asset, to, amount);
    case AssetBurn(asset, amount) => BurnStanding(s, id, asset, amount);
    case AccountEquivocation(device, first, second) => PunishedStanding(o, s, device, first, second, id);
    case ValidatorEquivocation(v, first, second) => ValidatorPunishedStanding(o, s, v, first, second, id);
    case PurseCloseUnilateral(purse, claimed, link) => ClosingStanding(o, s, ctx, purse, id, claimed, link);
    case PurseDispute(purse, claimed, link) => ClosingStanding(o, s, ctx, purse, id, claimed, link);
    case AssetCreate(_, _, _) => RecordStanding(o, s, ctx, body);
    case NameCommit(_) => RecordStanding(o, s, ctx, body);
    case NameReveal(_, _) => RecordStanding(o, s, ctx, body);
    case RecoveryStart(_, _) => RecordStanding(o, s, ctx, body);
    case RecoveryCancel(_) => RecordStanding(o, s, ctx, body);
  }

  /** The other kinds change the signer's standing only, or that of the account they recover. */
  lemma OthersStand(o: Oracle, s: State, ctx: BlockContext, body: TxBody, id: AccountId)
    requires KindApplied(o, s, ctx, body).Success? && id != body.account && body.kind != RecoveryFinalise(id)
    ensures SameStanding(AccountAt(s.accounts, id), AccountAt(KindApplied(o, s, ctx, body).value.accounts, id))
  {
    if LeavesStanding(body.kind) {
      hide KindApplied;
      KindStanding(o, s, ctx, body);
    } else {
      hide Finalised, AllocatedNomad;
    }
  }
}
