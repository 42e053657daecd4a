/**
  Where value is. `Value(s, asset)` counts every unit the ledger knows of: balances and
  channel deposits and, for VAN, bonds, the burn and the context pot. One theorem
  says what each transaction adds to it: nothing, except a mint, a burn of units, and
  the margin that a conviction pays out without anyone having paid it in.
 */
module Conservation {
  import opened Prelude
  import opened Types
  import opened Sums
  import opened Amounts
  import opened Accounts
  import opened PurseBooks
  import opened AssetRegistries
  import opened NameBooks
  import opened RecoveryBooks
  import opened SlashingBooks
  import opened LedgerSpec

  ghost function AccountValue(asset: Asset): (AccountId, Account) -> int {
    (id: AccountId, a: Account) => a.Balance(asset) + if asset == None then a.bonded else 0
  }

  ghost function DepositIn(asset: Asset): (PurseId, LedgerPurse) -> int {
    (id: PurseId, p: LedgerPurse) => if p.asset == asset then p.deposit else 0
  }

  ghost function Held(s: State, asset: Asset): int {
    Sum(s.accounts, AccountValue(asset)) + Sum(s.purses, DepositIn(asset))
  }

  ghost function Value(s: State, asset: Asset): int {
    Held(s, asset) + if asset == None then s.burned + s.contextPot else 0
  }

  /** What a transaction adds to the value of an asset. */
  ghost function Flow(s: State, body: TxBody, asset: Asset): int {
    match body.kind
    case AssetMint(id, _, amount) => if asset == Some(id) then amount else 0
    case AssetBurn(id, amount) => if asset == Some(id) then 0 - amount else 0
    case AccountEquivocation(_, first, _) =>
      if asset == None then AccountAt(s.accounts, first.body.account).nomadMargin else 0
    case _ => 0
  }

  lemma PutAccount(accounts: map<AccountId, Account>, id: AccountId, a: Account, asset: Asset)
    ensures Sum(accounts[id := a], AccountValue(asset)) ==
              Sum(accounts, AccountValue(asset)) - AccountValue(asset)(id, AccountAt(accounts, id))
                  + AccountValue(asset)(id, a)
  {
    SumUpdate(accounts, AccountValue(asset), id, a);
  }

  lemma PutPurse(purses: PurseMap, id: PurseId, p: LedgerPurse, asset: Asset)
    ensures id !in purses ==>
      Sum(purses[id := p], DepositIn(asset)) == Sum(purses, DepositIn(asset)) + DepositIn(asset)(id, p)
    ensures id in purses && p.asset == purses[id].asset && p.deposit == purses[id].deposit ==>
      Sum(purses[id := p], DepositIn(asset)) == Sum(purses, DepositIn(asset))
  {
    SumUpdate(purses, DepositIn(asset), id, p);
  }

  lemma CreditedValue(s: State, id: AccountId, asset: Asset, amount: Amount, other: Asset)
    requires Credited(s, id, asset, amount).Success?
    ensures Value(Credited(s, id, asset, amount).value, other) == Value(s, other) + if other == asset then amount else 0
  {
    var a := AccountAt(s.accounts, id);
    PutAccount(s.accounts, id, a.Credit(asset, amount).value, other);
    CreditBalance(a, asset, amount, other);
  }

  lemma DebitedValue(s: State, id: AccountId, asset: Asset, amount: Amount, other: Asset)
    requires Debited(s, id, asset, amount).Success?
    ensures Value(Debited(s, id, asset, amount).value, other) == Value(s, other) - if other == asset then amount else 0
  {
    var a := AccountAt(s.accounts, id);
    PutAccount(s.accounts, id, a.Debit(asset, amount).value, other);
    DebitBalance(a, asset, amount, other);
  }

  lemma FeeValue(s: State, ctx: BlockContext, body: TxBody, asset: Asset)
    requires FeeCharged(s, ctx, body).Success?
    ensures Value(FeeCharged(s, ctx, body).value, asset) == Value(s, asset)
  {
    var split := SplitFee(body.fee);
    FeeIsConserved(body.fee);
    DebitedValue(s, body.account, None, body.fee, asset);
    var paid := Debited(s, body.account, None, body.fee).value;
    var booked := paid.(burned := paid.burned + split.burn, contextPot := paid.contextPot + split.pot,
        fees := paid.fees + body.fee);
    CreditedValue(booked, ctx.proposer, None, split.provider, asset);
  }

  lemma PaidOutValue(s: State, payout: Payout, asset: Asset)
    requires PaidOut(s, payout).Success?
    ensures Value(PaidOut(s, payout).value, asset) ==
              Value(s, asset) + if asset == payout.asset then payout.settlement.toPayer + payout.settlement.toPayee
                  else 0
  {
    var first := s;
    if payout.settlement.toPayer != 0 {
      CreditedValue(s, payout.payer, payout.asset, payout.settlement.toPayer, asset);
      first := Credited(s, payout.payer, payout.asset, payout.settlement.toPayer).value;
    }
    if payout.settlement.toPayee != 0 {
      CreditedValue(first, payout.payee, payout.asset, payout.settlement.toPayee, asset);
    }
  }

  lemma DroppedPurseValue(s: State, id: PurseId, asset: Asset)
    requires id in s.purses
    ensures Value(s.(purses := s.purses - {id}), asset) ==
              Value(s, asset) - if asset == s.purses[id].asset then s.purses[id].deposit else 0
  {
    SumRemove(s.purses, DepositIn(asset), id);
  }

  lemma PenaltyValue(s: State, seized: Amount, denouncer: AccountId, asset: Asset)
    requires PenaltyPaid(s, SplitPenalty(seized), denouncer).Success?
    ensures Value(PenaltyPaid(s, SplitPenalty(seized), denouncer).value, asset) ==
              Value(s, asset) + if asset == None then seized else 0
  {
    PenaltyIsConserved(seized);
    var penalty := SplitPenalty(seized);
    if seized != 0 {
      CreditedValue(s.(burned := s.burned + penalty.burned), denouncer, None, penalty.toDenouncer, asset);
    }
  }

  lemma TransferValue(s: State, from: AccountId, to: AccountId, asset: Asset, amount: Amount, other: Asset)
    requires Transferred(s, from, to, asset, amount).Success?
    ensures Value(Transferred(s, from, to, asset, amount).value, other) == Value(s, other)
  {
    DebitedValue(s, from, asset, amount, other);
    CreditedValue(Debited(s, from, asset, amount).value, to, asset, amount, other);
  }

  /** Replacing one account. */
  lemma ReplacedValue(s: State, id: AccountId, a: Account, asset: Asset)
    ensures Value(s.(accounts := s.accounts[id := a]), asset) ==
              Value(s, asset) - AccountValue(asset)(id, AccountAt(s.accounts, id)) + AccountValue(asset)(id, a)
  {
    PutAccount(s.accounts, id, a, asset);
  }

  lemma BondValue(s: State, id: AccountId, amount: Amount, asset: Asset)
    requires Bonded(s, id, amount).Success?
    ensures Value(Bonded(s, id, amount).value, asset) == Value(s, asset)
  {
    DebitedValue(s, id, None, amount, asset);
    var paid := Debited(s, id, None, amount).value;
    var a := paid.accounts[id].(bonded := paid.accounts[id].bonded + amount);
    assert Bonded(s, id, amount).value == paid.(accounts := paid.accounts[id := a]);
    ReplacedValue(paid, id, a, asset);
  }

  lemma UnbondValue(s: State, id: AccountId, amount: Amount, asset: Asset)
    requires Unbonded(s, id, amount).Success?
    ensures Value(Unbonded(s, id, amount).value, asset) == Value(s, asset)
  {
    hide Credited;
    var a := s.accounts[id].(bonded := s.accounts[id].bonded - amount);
    PutAccount(s.accounts, id, a, asset);
    CreditedValue(s.(accounts := s.accounts[id := a]), id, None, amount, asset);
  }

  lemma PurseOpenValue(s: State, id: PurseId, payer: AccountId, payee: AccountId, asset: Asset, deposit: Amount,
                       root: Hash, trancheValue: Amount, expiry: u64, other: Asset)
    requires PurseOpened(s, id, payer, payee, asset, deposit, root, trancheValue, expiry).Success?
    ensures Value(PurseOpened(s, id, payer, payee, asset, deposit, root, trancheValue, expiry).value, other) ==
      Value(s, other)
  {
    DebitedValue(s, payer, asset, deposit, other);
    var paid := Debited(s, payer, asset, deposit).value;
    var purse := Purses.Open(payer, payee, asset, deposit, root, trancheValue, CapacityOf(deposit, trancheValue),
        expiry).value;
    PutPurse(paid.purses, id, purse, other);
  }

  lemma PurseClosedValue(s: State, id: PurseId, caller: AccountId, toPayer: Amount, toPayee: Amount, asset: Asset)
    requires PurseClosed(s, id, caller, toPayer, toPayee).Success?
    ensures Value(PurseClosed(s, id, caller, toPayer, toPayee).value, asset) == Value(s, asset)
  {
    DroppedPurseValue(s, id, asset);
    var payout := ClosedCooperatively(s.purses, id, caller, toPayer, toPayee).value.1;
    PaidOutValue(s.(purses := s.purses - {id}), payout, asset);
  }

  lemma PunishedValue(o: Oracle, s: State, device: DeviceId, first: Transaction, second: Transaction,
                      denouncer: AccountId, asset: Asset)
    requires AccountPunished(o, s, device, first, second, denouncer).Success?
    ensures Value(AccountPunished(o, s, device, first, second, denouncer).value, asset) ==
              Value(s, asset) + if asset == None then AccountAt(s.accounts, first.body.account).nomadMargin else 0
  {
    var accused := first.body.account;
    var a := s.accounts[accused];
    PutAccount(s.accounts, accused, a.(nomadMargin := 0), asset);
    var offence := AccountOffence(accused, device, first.body.nonce.lane, first.body.nonce.sequence);
    PenaltyValue(s.(accountOffences := s.accountOffences + {offence},
        accounts := s.accounts[accused := a.(nomadMargin := 0)]),
                 a.nomadMargin, denouncer, asset);
  }

  lemma ValidatorPunishedValue(o: Oracle, s: State, validator: AccountId, first: SignedHeader, second: SignedHeader,
                               denouncer: AccountId, asset: Asset)
    requires ValidatorPunished(o, s, validator, first, second, denouncer).Success?
    ensures Value(ValidatorPunished(o, s, validator, first, second, denouncer).value, asset) == Value(s, asset)
  {
    var a := s.accounts[validator];
    PutAccount(s.accounts, validator, a.(bonded := 0), asset);
    var offence := ValidatorOffence(validator, first.header.height);
    PenaltyValue(s.(validatorOffences := s.validatorOffences + {offence},
        accounts := s.accounts[validator := a.(bonded := 0)]),
                 a.bonded, denouncer, asset);
  }

  /** Editing an account without touching balances or bond. */
  lemma EditedValue(s: State, id: AccountId, a: Account, asset: Asset)
    requires a.balances == AccountAt(s.accounts, id).balances && a.bonded == AccountAt(s.accounts, id).bonded
    ensures Value(s.(accounts := s.accounts[id := a]), asset) == Value(s, asset)
  {
    PutAccount(s.accounts, id, a, asset);
  }

  lemma SameEntriesValue(s: State, s': State, asset: Asset)
    requires s'.accounts == s.accounts && s'.purses == s.purses
    requires s'.burned == s.burned && s'.contextPot == s.contextPot
    ensures Value(s', asset) == Value(s, asset)
  {
  }

  lemma NomadDeclaredValue(s: State, id: AccountId, credit: Amount, margin: Amount, asset: Asset)
    requires NomadDeclared(s, id, credit, margin).Success?
    ensures Value(NomadDeclared(s, id, credit, margin).value, asset) == Value(s, asset)
  {
    EditedValue(s, id, s.accounts[id].(nomadCredit := credit, nomadMargin := margin), asset);
  }

  lemma DeviceAddedValue(o: Oracle, s: State, id: AccountId, key: VerifyingKey, lane: Lane, share: Amount, asset: Asset)
    requires DeviceAdded(o, s, id, key, lane, share).Success?
    ensures Value(DeviceAdded(o, s, id, key, lane, share).value, asset) == Value(s, asset)
  {
    hide AllocatedNomad;
    EditedValue(s, id, DeviceAdded(o, s, id, key, lane, share).value.accounts[id], asset);
  }

  lemma DeviceDroppedValue(s: State, id: AccountId, device: DeviceId, asset: Asset)
    requires DeviceDropped(s, id, device).Success?
    ensures Value(DeviceDropped(s, id, device).value, asset) == Value(s, asset)
  {
    EditedValue(s, id, DeviceDropped(s, id, device).value.accounts[id], asset);
  }

  lemma GuardiansSetValue(s: State, id: AccountId, guardians: set<AccountId>, threshold: u32, asset: Asset)
    requires GuardiansSet(s, id, guardians, threshold).Success?
    ensures Value(GuardiansSet(s, id, guardians, threshold).value, asset) == Value(s, asset)
  {
    EditedValue(s, id, s.accounts[id].(guardians := guardians, guardianThreshold := threshold), asset);
  }

  lemma RecoveryValue(o: Oracle, s: State, ctx: BlockContext, target: AccountId, asset: Asset)
    requires RecoveryCompleted(o, s, ctx, target).Success?
    ensures Value(RecoveryCompleted(o, s, ctx, target).value, asset) == Value(s, asset)
  {
    var s' := RecoveryCompleted(o, s, ctx, target).value;
    EditedValue(s, target, s'.accounts[target], asset);
    SameEntriesValue(s.(accounts := s'.accounts), s', asset);
  }

  /** Closing or contesting a channel moves nothing yet. */
  lemma ClosingValue(o: Oracle, s: State, ctx: BlockContext, id: PurseId, caller: AccountId, claimed: u32, link: Hash,
      asset: Asset)
    ensures PurseClosing(o, s, ctx, id, caller, claimed, link).Success? ==>
      Value(PurseClosing(o, s, ctx, id, caller, claimed, link).value, asset) == Value(s, asset)
    ensures PurseContested(o, s, id, claimed, link).Success? ==>
      Value(PurseContested(o, s, id, claimed, link).value, asset) == Value(s, asset)
  {
    var closing := PurseClosing(o, s, ctx, id, caller, claimed, link);
    if closing.Success? {
      PutPurse(s.purses, id, closing.value.purses[id], asset);
    }
    var contested := PurseContested(o, s, id, claimed, link);
    if contested.Success? {
      PutPurse(s.purses, id, contested.value.purses[id], asset);
    }
  }

  lemma AssetMintedValue(s: State, caller: AccountId, id: AssetId, to: AccountId, amount: Amount, asset: Asset)
    requires AssetMinted(s, caller, id, to, amount).Success?
    ensures Value(AssetMinted(s, caller, id, to, amount).value, asset) == Value(s, asset) + if asset == Some(id) then
      amount else 0
  {
    hide Credited, Minted;
    var minted := s.(assets := Minted(s.assets, id, caller, amount).value);
    SameEntriesValue(s, minted, asset);
    CreditedValue(minted, to, Some(id), amount, asset);
  }

  lemma AssetBurnedValue(s: State, caller: AccountId, id: AssetId, amount: Amount, asset: Asset)
    requires AssetBurned(s, caller, id, amount).Success?
    ensures Value(AssetBurned(s, caller, id, amount).value, asset) == Value(s, asset) - if asset == Some(id) then
      amount else 0
  {
    hide Debited, Burned;
    DebitedValue(s, caller, Some(id), amount, asset);
    SameEntriesValue(Debited(s, caller, Some(id), amount).value, AssetBurned(s, caller, id, amount).value, asset);
  }

  /** What no operation on the record books touches. */
  predicate SameHoldings(s: State, t: State) {
    && t.accounts == s.accounts && t.purses == s.purses
    && t.burned == s.burned && t.contextPot == s.contextPot
  }

  lemma AssetMadeHoldings(s: State, id: AssetId, issuer: AccountId, ticker: Name, decimals: u8, reissuable: bool)
    requires AssetMade(s, id, issuer, ticker, decimals, reissuable).Success?
    ensures SameHoldings(s, AssetMade(s, id, issuer, ticker, decimals, reissuable).value)
  {
    hide Created;
  }

  lemma NamesHoldings(o: Oracle, s: State, name: Name, salt: Hash, account: AccountId, finalized: u64)
    ensures NameCommitted(s, salt, account, finalized).Success? ==>
      SameHoldings(s, NameCommitted(s, salt, account, finalized).value)
    ensures NameRevealed(o, s, name, salt, account, finalized).Success? ==>
      SameHoldings(s, NameRevealed(o, s, name, salt, account, finalized).value)
  {
    hide Committed, Revealed;
  }

  lemma RecoveryHoldings(s: State, ctx: BlockContext, target: AccountId, key: VerifyingKey, caller: AccountId)
    ensures RecoveryApproved(s, ctx, target, key, caller).Success? ==>
      SameHoldings(s, RecoveryApproved(s, ctx, target, key, caller).value)
    ensures RecoveryDropped(s, target, caller).Success? ==>
      SameHoldings(s, RecoveryDropped(s, target, caller).value)
  {
    hide Approved, Cancelled;
  }

  predicate IsRecordKind(kind: TxKind) {
    kind.AssetCreate? || kind.NameCommit? || kind.NameReveal? || kind.RecoveryStart? || kind.RecoveryCancel?
  }

  /** The records that hold no value. */
  lemma RecordHoldings(o: Oracle, s: State, ctx: BlockContext, body: TxBody)
    requires KindApplied(o, s, ctx, body).Success?
    requires IsRecordKind(body.kind)
    ensures SameHoldings(s, KindApplied(o, s, ctx, body).value)
  {
    hide Transferred, NomadDeclared, DeviceAdded, DeviceDropped, Bonded, Unbonded, PurseOpened, PurseClosed,
      PurseClosing, PurseContested, AssetMade, AssetMinted, AssetBurned, NameCommitted, NameRevealed, GuardiansSet,
      RecoveryApproved, RecoveryDropped, RecoveryCompleted, AccountPunished, ValidatorPunished, SameHoldings;
    var id := body.account;
    match body.kind
    case AssetCreate(ticker, decimals, reissuable) =>
      AssetMadeHoldings(s, o.assetId(id, o.txId(body)), id, ticker, decimals, reissuable);
    case NameCommit(commitment) => NamesHoldings(o, s, "a", commitment, id, ctx.finalizedHeight);
    case NameReveal(name, salt) => NamesHoldings(o, s, name, salt, id, ctx.finalizedHeight);
    case RecoveryStart(target, key) => RecoveryHoldings(s, ctx, target, key, id);
    case RecoveryCancel(target) => RecoveryHoldings(s, ctx, target, TEST_KEY, id);
  }

  lemma KindValue(o: Oracle, s: State, ctx: BlockContext, body: TxBody, asset: Asset)
    requires KindApplied(o, s, ctx, body).Success?
    ensures Value(KindApplied(o, s, ctx, body).value, asset) == Value(s, asset) + Flow(s, body, asset)
  {
    hide Transferred, NomadDeclared, DeviceAdded, DeviceDropped, Bonded, Unbonded, PurseOpened, PurseClosed,
      PurseClosing, PurseContested, AssetMade, AssetMinted, AssetBurned, NameCommitted, NameRevealed, GuardiansSet,
      RecoveryApproved, RecoveryDropped, RecoveryCompleted, AccountPunished, ValidatorPunished, Value;
    var id := body.account;
    match body.kind
    case Transfer(to, asset', amount) => TransferValue(s, id, to, asset', amount, asset);
    case NomadSet(credit, margin) => NomadDeclaredValue(s, id, credit, margin, asset);
    case DeviceAdd(key, lane, share) => DeviceAddedValue(o, s, id, key, lane, share, asset);
    case DeviceRevoke(device) => DeviceDroppedValue(s, id, device, asset);
    case Bond(amount, _) => BondValue(s, id, amount, asset);
    case Unbond(amount) => UnbondValue(s, id, amount, asset);
    case PurseOpen(counterparty, asset', deposit, root, trancheValue, expiry) =>
      PurseOpenValue(s, o.txId(body), id, counterparty, asset', deposit, root, trancheValue, expiry, asset);
    case PurseCloseCooperative(purse, toPayer, toPayee, _) => PurseClosedValue(s, purse, id, toPayer, toPayee, asset);
    case PurseCloseUnilateral(purse, claimed, link) => ClosingValue(o, s, ctx, purse, id, claimed, link, asset);
    case PurseDispute(purse, claimed, link) => ClosingValue(o, s, ctx, purse, id, claimed, link, asset);
    case AssetMint(asset', to, amount) => AssetMintedValue(s, id, asset', to, amount, asset);
    case AssetBurn(asset', amount) => AssetBurnedValue(s, id, asset', amount, asset);
    case GuardianSet(guardians, threshold) => GuardiansSetValue(s, id, guardians, threshold, asset);
    case RecoveryFinalise(target) => RecoveryValue(o, s, ctx, target, asset);
    case AccountEquivocation(device, first, second) => PunishedValue(o, s, device, first, second, id, asset);
    case ValidatorEquivocation(v, first, second) => ValidatorPunishedValue(o, s, v, first, second, id, asset);
    case _ =>
      RecordHoldings(o, s, ctx, body);
      SameEntriesValue(s, KindApplied(o, s, ctx, body).value, asset);
  }

  lemma NonceValue(s: State, body: TxBody, consumed: Amount, asset: Asset)
    requires NonceSpent(s, body, consumed).Success?
    ensures Value(NonceSpent(s, body, consumed).value, asset) == Value(s, asset)
  {
    var a := SpentAccount(s.accounts[body.account], body, consumed).value;
    assert a.balances == s.accounts[body.account].balances && a.bonded == s.accounts[body.account].bonded;
    EditedValue(s, body.account, a, asset);
  }

  /** Charging a fee leaves every margin alone. */
  lemma FeeKeepsMargins(s: State, ctx: BlockContext, body: TxBody, id: AccountId)
    requires FeeCharged(s, ctx, body).Success?
    ensures AccountAt(FeeCharged(s, ctx, body).value.accounts, id).nomadMargin == AccountAt(s.accounts, id).nomadMargin
  {
  }

  /** Every accepted transaction conserves VAN and every local asset, up to its flow. */
  lemma TransactionConserves(o: Oracle, s: State, ctx: BlockContext, body: TxBody, asset: Asset)
    requires TxApplied(o, s, ctx, body).Success?
    ensures Value(TxApplied(o, s, ctx, body).value, asset) == Value(s, asset) + Flow(s, body, asset)
  {
    hide KindApplied, FeeCharged, NonceSpent, Admitted, Value;
    var consumed := Admitted(s, ctx, body).value;
    var charged := FeeCharged(s, ctx, body).value;
    var changed := KindApplied(o, charged, ctx, body).value;
    FeeValue(s, ctx, body, asset);
    KindValue(o, charged, ctx, body, asset);
    NonceValue(changed, body, consumed, asset);
    if body.kind.AccountEquivocation? {
      FeeKeepsMargins(s, ctx, body, body.kind.first.body.account);
    }
  }
}
