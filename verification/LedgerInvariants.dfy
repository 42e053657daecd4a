/** Supply accounting, and why no balance or counter of a sound ledger can overflow. */
module LedgerInvariants {
  import opened Prelude
  import opened Types
  import opened Sums
  import opened Amounts
  import opened Accounts
  import opened Purses
  import opened PurseBooks
  import opened AssetRegistries
  import opened NameBooks
  import opened RecoveryBooks
  import opened SlashingBooks
  import opened LedgerSpec
  import opened Conservation
  import opened HousekeepingValue
  import opened Runs

  ghost function SupplyOf(s: State, id: AssetId): nat {
    if id in s.assets then s.assets[id].supply else 0
  }

  /** Each asset's recorded supply is what balances and channels hold of it. */
  ghost predicate SuppliesAgree(s: State) {
    forall id: AssetId :: Value(s, Some(id)) == SupplyOf(s, id)
  }

  /** At least 30% of every fee ever paid was burned or is in the pot. */
  ghost predicate FeesAgree(s: State) {
    3 * s.fees <= 10 * (s.burned + s.contextPot)
  }

  ghost predicate WithinCap(s: State) {
    Value(s, None) <= MAX_SUPPLY
  }

  ghost predicate Solvent(s: State) {
    SuppliesAgree(s) && FeesAgree(s) && WithinCap(s) && TickersIndex(s.assets, s.tickers)
  }

  // ----- Supply

  lemma FeeKeepsRecords(s: State, ctx: BlockContext, body: TxBody)
    requires FeeCharged(s, ctx, body).Success?
    ensures var t := FeeCharged(s, ctx, body).value;
      && t.assets == s.assets && t.tickers == s.tickers && t.purses == s.purses
      && t.fees == s.fees + body.fee
      && t.burned == s.burned + SplitFee(body.fee).burn && t.contextPot == s.contextPot + SplitFee(body.fee).pot
  {
  }

  /** What every kind but the asset kinds leaves alone, and what no kind lowers. */
  ghost predicate KeepsRecords(s: State, t: State, burnt: int) {
    && t.assets == s.assets && t.tickers == s.tickers
    && t.fees == s.fees && t.contextPot == s.contextPot && t.burned == s.burned + burnt
  }

  /** The same, and the channels too. */
  ghost predicate KeepsBooks(s: State, t: State, burnt: int) {
    KeepsRecords(s, t, burnt) && t.purses == s.purses
  }

  /** The half of what a conviction seizes that is burned, the odd unit included. */
  function SeizedBurn(s: State, body: TxBody): int {
    if body.kind.AccountEquivocation? then Burnt(AccountAt(s.accounts, body.kind.first.body.account).nomadMargin)
    else if body.kind.ValidatorEquivocation? then Burnt(AccountAt(s.accounts, body.kind.validator).bonded)
    else 0
  }

  function Burnt(seized: Amount): int { seized - seized / 2 }

  predicate IsAssetKind(kind: TxKind) {
    kind.AssetCreate? || kind.AssetMint? || kind.AssetBurn?
  }

  lemma CreditedKeeps(s: State, id: AccountId, asset: Asset, amount: Amount)
    requires Credited(s, id, asset, amount).Success?
    ensures KeepsBooks(s, Credited(s, id, asset, amount).value, 0)
  {
  }

  lemma DebitedKeeps(s: State, id: AccountId, asset: Asset, amount: Amount)
    requires Debited(s, id, asset, amount).Success?
    ensures KeepsBooks(s, Debited(s, id, asset, amount).value, 0)
  {
  }

  lemma PaidOutKeeps(s: State, payout: Payout)
    requires PaidOut(s, payout).Success?
    ensures KeepsBooks(s, PaidOut(s, payout).value, 0)
  {
    hide Credited;
    var first := s;
    if payout.settlement.toPayer != 0 {
      CreditedKeeps(s, payout.payer, payout.asset, payout.settlement.toPayer);
      first := Credited(s, payout.payer, payout.asset, payout.settlement.toPayer).value;
    }
    if payout.settlement.toPayee != 0 {
      CreditedKeeps(first, payout.payee, payout.asset, payout.settlement.toPayee);
    }
  }

  lemma TransferKeeps(s: State, from: AccountId, to: AccountId, asset: Asset, amount: Amount)
    requires Transferred(s, from, to, asset, amount).Success?
    ensures KeepsBooks(s, Transferred(s, from, to, asset, amount).value, 0)
  {
    hide Credited, Debited;
    DebitedKeeps(s, from, asset, amount);
    CreditedKeeps(Debited(s, from, asset, amount).value, to, asset, amount);
  }

  lemma BondKeeps(s: State, id: AccountId, amount: Amount)
    ensures Bonded(s, id, amount).Success? ==> KeepsBooks(s, Bonded(s, id, amount).value, 0)
    ensures Unbonded(s, id, amount).Success? ==> KeepsBooks(s, Unbonded(s, id, amount).value, 0)
  {
    hide Credited, Debited;
    if Bonded(s, id, amount).Success? {
      DebitedKeeps(s, id, None, amount);
    }
    if Unbonded(s, id, amount).Success? {
      var a := s.accounts[id];
      CreditedKeeps(s.(accounts := s.accounts[id := a.(bonded := a.bonded - amount)]), id, None, amount);
    }
  }

  lemma OpenKeeps(s: State, id: PurseId, payer: AccountId, payee: AccountId, asset: Asset, deposit: Amount,
                  root: Hash, trancheValue: Amount, expiry: u64)
    requires PurseOpened(s, id, payer, payee, asset, deposit, root, trancheValue, expiry).Success?
    ensures KeepsRecords(s, PurseOpened(s, id, payer, payee, asset, deposit, root, trancheValue, expiry).value, 0)
  {
    hide Debited;
    DebitedKeeps(s, payer, asset, deposit);
  }

  lemma CloseKeeps(s: State, id: PurseId, caller: AccountId, toPayer: Amount, toPayee: Amount)
    requires PurseClosed(s, id, caller, toPayer, toPayee).Success?
    ensures KeepsRecords(s, PurseClosed(s, id, caller, toPayer, toPayee).value, 0)
  {
    hide PaidOut;
    var (m, payout) := ClosedCooperatively(s.purses, id, caller, toPayer, toPayee).value;
    PaidOutKeeps(s.(purses := m), payout);
  }

  lemma ClosingKeeps(o: Oracle, s: State, ctx: BlockContext, id: PurseId, caller: AccountId, claimed: u32, link: Hash)
    ensures PurseClosing(o, s, ctx, id, caller, claimed, link).Success? ==>
      KeepsRecords(s, PurseClosing(o, s, ctx, id, caller, claimed, link).value, 0)
    ensures PurseContested(o, s, id, claimed, link).Success? ==>
      KeepsRecords(s, PurseContested(o, s, id, claimed, link).value, 0)
  {
    hide Closing, Disputed;
  }

  lemma DevicesKeep(o: Oracle, s: State, id: AccountId, key: VerifyingKey, lane: Lane, share: Amount, device: DeviceId)
    ensures DeviceAdded(o, s, id, key, lane, share).Success? ==>
      KeepsBooks(s, DeviceAdded(o, s, id, key, lane, share).value, 0)
    ensures DeviceDropped(s, id, device).Success? ==> KeepsBooks(s, DeviceDropped(s, id, device).value, 0)
  {
    hide AllocatedNomad;
  }

  lemma DeclarationsKeep(s: State, id: AccountId, credit: Amount, margin: Amount, guardians: set<AccountId>,
      threshold: u32)
    ensures NomadDeclared(s, id, credit, margin).Success? ==>
      KeepsBooks(s, NomadDeclared(s, id, credit, margin).value, 0)
    ensures GuardiansSet(s, id, guardians, threshold).Success? ==>
      KeepsBooks(s, GuardiansSet(s, id, guardians, threshold).value, 0)
  {
    hide AllocatedNomad;
  }

  lemma RecoveryKeeps(o: Oracle, s: State, ctx: BlockContext, target: AccountId, key: VerifyingKey, caller: AccountId)
    ensures RecoveryApproved(s, ctx, target, key, caller).Success? ==>
      KeepsBooks(s, RecoveryApproved(s, ctx, target, key, caller).value, 0)
    ensures RecoveryDropped(s, target, caller).Success? ==> KeepsBooks(s, RecoveryDropped(s, target, caller).value, 0)
    ensures RecoveryCompleted(o, s, ctx, target).Success? ==>
      KeepsBooks(s, RecoveryCompleted(o, s, ctx, target).value, 0)
  {
    hide Approved, Cancelled, Finalised, Recovered;
  }

  lemma NamesKeep(o: Oracle, s: State, commitment: Hash, name: Name, salt: Hash, account: AccountId, finalized: u64)
    ensures NameCommitted(s, commitment, account, finalized).Success? ==>
      KeepsBooks(s, NameCommitted(s, commitment, account, finalized).value, 0)
    ensures NameRevealed(o, s, name, salt, account, finalized).Success? ==>
      KeepsBooks(s, NameRevealed(o, s, name, salt, account, finalized).value, 0)
  {
    hide Committed, Revealed;
  }

  lemma PenaltyKeeps(s: State, seized: Amount, denouncer: AccountId)
    requires PenaltyPaid(s, SplitPenalty(seized), denouncer).Success?
    ensures KeepsBooks(s, PenaltyPaid(s, SplitPenalty(seized), denouncer).value, Burnt(seized))
  {
    hide Credited, SplitPenalty;
    PenaltyIsConserved(seized);
    var penalty := SplitPenalty(seized);
    if seized != 0 {
      CreditedKeeps(s.(burned := s.burned + penalty.burned), denouncer, None, penalty.toDenouncer);
    }
  }

  lemma PunishedKeeps(o: Oracle, s: State, device: DeviceId, first: Transaction, second: Transaction,
      denouncer: AccountId)
    requires AccountPunished(o, s, device, first, second, denouncer).Success?
    ensures KeepsBooks(s, AccountPunished(o, s, device, first, second, denouncer).value,
      Burnt(AccountAt(s.accounts, first.body.account).nomadMargin))
  {
    hide CheckAccountEquivocation, SplitPenalty, PenaltyPaid;
    var accused := first.body.account;
    var a := s.accounts[accused];
    var offence := AccountOffence(accused, device, first.body.nonce.lane, first.body.nonce.sequence);
    PenaltyKeeps(s.(accountOffences := s.accountOffences + {offence},
        accounts := s.accounts[accused := a.(nomadMargin := 0)]),
                 a.nomadMargin, denouncer);
  }

  lemma ValidatorPunishedKeeps(o: Oracle, s: State, v: AccountId, first: SignedHeader, second: SignedHeader,
      denouncer: AccountId)
    requires ValidatorPunished(o, s, v, first, second, denouncer).Success?
    ensures KeepsBooks(s, ValidatorPunished(o, s, v, first, second, denouncer).value,
      Burnt(AccountAt(s.accounts, v).bonded))
  {
    hide CheckValidatorEquivocation, SplitPenalty, PenaltyPaid;
    var a := s.accounts[v];
    var offence := ValidatorOffence(v, first.header.height);
    PenaltyKeeps(s.(validatorOffences := s.validatorOffences + {offence}, accounts := s.accounts[v := a.(bonded := 0)]),
                 a.bonded, denouncer);
  }

  lemma KindKeepsRecords(o: Oracle, s: State, ctx: BlockContext, body: TxBody)
    requires KindApplied(o, s, ctx, body).Success? && !IsAssetKind(body.kind)
    ensures KeepsRecords(s, KindApplied(o, s, ctx, body).value, SeizedBurn(s, body))
  {
    hide Transferred, NomadDeclared, DeviceAdded, DeviceDropped, Bonded, Unbonded, PurseOpened, PurseClosed,
      PurseClosing, PurseContested, AssetMade, AssetMinted, AssetBurned, NameCommitted, NameRevealed, GuardiansSet,
      RecoveryApproved, RecoveryDropped, RecoveryCompleted, AccountPunished, ValidatorPunished, KeepsRecords;
    var id := body.account;
    match body.kind
    case Transfer(to, asset, amount) => TransferKeeps(s, id, to, asset, amount);
    case NomadSet(credit, margin) => DeclarationsKeep(s, id, credit, margin, {}, 0);
    case DeviceAdd(key, lane, share) => DevicesKeep(o, s, id, key, lane, share, body.device);
    case DeviceRevoke(device) => DevicesKeep(o, s, id, TEST_KEY, 0, 0, device);
    case Bond(amount, _) => BondKeeps(s, id, amount);
    case Unbond(amount) => BondKeeps(s, id, amount);
    case PurseOpen(counterparty, asset, deposit, root, trancheValue, expiry) =>
      OpenKeeps(s, o.txId(body), id, counterparty, asset, deposit, root, trancheValue, expiry);
    case PurseCloseCooperative(purse, toPayer, toPayee, _) => CloseKeeps(s, purse, id, toPayer, toPayee);
    case PurseCloseUnilateral(purse, claimed, link) => ClosingKeeps(o, s, ctx, purse, id, claimed, link);
    case PurseDispute(purse, claimed, link) => ClosingKeeps(o, s, ctx, purse, id, claimed, link);
    case NameCommit(commitment) => NamesKeep(o, s, commitment, "a", commitment, id, ctx.finalizedHeight);
    case NameReveal(name, salt) => NamesKeep(o, s, salt, name, salt, id, ctx.finalizedHeight);
    case GuardianSet(guardians, threshold) => DeclarationsKeep(s, id, 0, 0, guardians, threshold);
    case RecoveryStart(target, key) => RecoveryKeeps(o, s, ctx, target, key, id);
    case RecoveryCancel(target) => RecoveryKeeps(o, s, ctx, target, TEST_KEY, id);
    case RecoveryFinalise(target) => RecoveryKeeps(o, s, ctx, target, TEST_KEY, id);
    case AccountEquivocation(device, first, second) => PunishedKeeps(o, s, device, first, second, id);
    case ValidatorEquivocation(v, first, second) => ValidatorPunishedKeeps(o, s, v, first, second, id);
  }

  lemma MintSupply(s: State, caller: AccountId, id: AssetId, to: AccountId, amount: Amount)
    requires AssetMinted(s, caller, id, to, amount).Success?
    ensures var t := AssetMinted(s, caller, id, to, amount).value;
      && (forall other :: SupplyOf(t, other) == SupplyOf(s, other) + if other == id then amount else 0)
      && t.purses == s.purses && t.fees == s.fees && t.contextPot == s.contextPot && t.burned == s.burned
      && (TickersIndex(s.assets, s.tickers) ==> TickersIndex(t.assets, t.tickers))
  {
    hide Credited, TickersIndex;
    var minted := Minted(s.assets, id, caller, amount).value;
    CreditedKeeps(s.(assets := minted), to, Some(id), amount);
    if TickersIndex(s.assets, s.tickers) {
      SupplyKeepsIndex(s.assets, s.tickers, id, minted[id].supply);
    }
  }

  lemma BurnSupply(s: State, caller: AccountId, id: AssetId, amount: Amount)
    requires AssetBurned(s, caller, id, amount).Success?
    ensures var t := AssetBurned(s, caller, id, amount).value;
      && (forall other :: SupplyOf(t, other) == SupplyOf(s, other) - if other == id then amount else 0)
      && t.purses == s.purses && t.fees == s.fees && t.contextPot == s.contextPot && t.burned == s.burned
      && (TickersIndex(s.assets, s.tickers) ==> TickersIndex(t.assets, t.tickers))
  {
    hide Debited, TickersIndex;
    DebitedKeeps(s, caller, Some(id), amount);
    if TickersIndex(s.assets, s.tickers) {
      SupplyKeepsIndex(s.assets, s.tickers, id, s.assets[id].supply - amount);
    }
  }

  lemma MadeSupply(s: State, id: AssetId, issuer: AccountId, ticker: Name, decimals: u8, reissuable: bool)
    requires AssetMade(s, id, issuer, ticker, decimals, reissuable).Success?
    ensures var t := AssetMade(s, id, issuer, ticker, decimals, reissuable).value;
      && (forall other :: SupplyOf(t, other) == SupplyOf(s, other))
      && t.purses == s.purses && t.fees == s.fees && t.contextPot == s.contextPot && t.burned == s.burned
      && (TickersIndex(s.assets, s.tickers) ==> TickersIndex(t.assets, t.tickers))
  {
    hide TickersIndex;
    if TickersIndex(s.assets, s.tickers) {
      CreatedIndex(s.assets, s.tickers, id, issuer, ticker, decimals, reissuable);
    }
  }

  /** The asset kinds: recorded supplies follow the flow, and tickers stay an index. */
  lemma AssetKindSupply(o: Oracle, s: State, ctx: BlockContext, body: TxBody)
    requires KindApplied(o, s, ctx, body).Success? && IsAssetKind(body.kind)
    ensures var t := KindApplied(o, s, ctx, body).value;
      && (forall id :: SupplyOf(t, id) == SupplyOf(s, id) + Flow(s, body, Some(id)))
      && t.fees == s.fees && t.contextPot == s.contextPot && t.burned == s.burned
      && (TickersIndex(s.assets, s.tickers) ==> TickersIndex(t.assets, t.tickers))
  {
    hide Transferred, NomadDeclared, DeviceAdded, DeviceDropped, Bonded, Unbonded, PurseOpened, PurseClosed,
      PurseClosing, PurseContested, AssetMade, AssetMinted, AssetBurned, NameCommitted, NameRevealed, GuardiansSet,
      RecoveryApproved, RecoveryDropped, RecoveryCompleted, AccountPunished, ValidatorPunished, SupplyOf, TickersIndex;
    match body.kind
    case AssetCreate(ticker, decimals, reissuable) =>
      MadeSupply(s, o.assetId(body.account, o.txId(body)), body.account, ticker, decimals, reissuable);
    case AssetMint(id, to, amount) => MintSupply(s, body.account, id, to, amount);
    case AssetBurn(id, amount) => BurnSupply(s, body.account, id, amount);
  }

  lemma NonceKeepsRecords(s: State, body: TxBody, consumed: Amount)
    requires NonceSpent(s, body, consumed).Success?
    ensures KeepsRecords(s, NonceSpent(s, body, consumed).value, 0)
      && NonceSpent(s, body, consumed).value.purses == s.purses
  {
    hide SpentAccount;
  }

  /** Each accepted transaction keeps supplies, tickers and the fee bound in agreement. */
  lemma TransactionAgrees(o: Oracle, s: State, ctx: BlockContext, body: TxBody)
    requires TxApplied(o, s, ctx, body).Success?
    requires SuppliesAgree(s) && FeesAgree(s) && TickersIndex(s.assets, s.tickers)
    ensures var t := TxApplied(o, s, ctx, body).value;
      SuppliesAgree(t) && FeesAgree(t) && TickersIndex(t.assets, t.tickers)
  {
    hide KindApplied, FeeCharged, NonceSpent, Admitted, Value, TickersIndex, SplitFee;
    var consumed := Admitted(s, ctx, body).value;
    var charged := FeeCharged(s, ctx, body).value;
    var changed := KindApplied(o, charged, ctx, body).value;
    var t := TxApplied(o, s, ctx, body).value;
    FeeKeepsRecords(s, ctx, body);
    FeeIsConserved(body.fee);
    NonceKeepsRecords(changed, body, consumed);
    if IsAssetKind(body.kind) {
      AssetKindSupply(o, charged, ctx, body);
    } else {
      KindKeepsRecords(o, charged, ctx, body);
    }
    forall id: AssetId ensures Value(t, Some(id)) == SupplyOf(t, id) {
      TransactionConserves(o, s, ctx, body, Some(id));
    }
  }

  // ----- Overflow

  lemma HeldNonNegative(s: State, asset: Asset)
    ensures 0 <= Sum(s.accounts, AccountValue(asset)) && 0 <= Sum(s.purses, DepositIn(asset))
    ensures 0 <= Held(s, asset)
  {
    SumNonNegative(s.accounts, AccountValue(asset));
    SumNonNegative(s.purses, DepositIn(asset));
  }

  /** One account holds at most what the ledger holds. */
  lemma AccountBound(s: State, id: AccountId, asset: Asset)
    ensures AccountValue(asset)(id, AccountAt(s.accounts, id)) <= Held(s, asset)
  {
    HeldNonNegative(s, asset);
    if id in s.accounts {
      SumBoundsEntry(s.accounts, AccountValue(asset), id);
    }
  }

  /** A credit fits whenever the asset's whole value and the credit fit together. */
  lemma CreditFits(s: State, id: AccountId, asset: Asset, amount: Amount)
    requires Value(s, asset) + amount < U64_LIMIT
    ensures Credited(s, id, asset, amount).Success?
  {
    AccountBound(s, id, asset);
  }

  lemma FeeNeverOverflows(s: State, ctx: BlockContext, body: TxBody)
    requires FeesAgree(s) && WithinCap(s)
    ensures FeeCharged(s, ctx, body) != Failure(ArithmeticOverflow)
  {
    hide SplitFee, DepositIn;
    var debited := Debited(s, body.account, None, body.fee);
    if debited.Success? {
      var paid := debited.value;
      var split := SplitFee(body.fee);
      FeeIsConserved(body.fee);
      AccountBound(s, body.account, None);
      HeldNonNegative(s, None);
      DebitedValue(s, body.account, None, body.fee, None);
      var booked := paid.(burned := s.burned + split.burn, contextPot := s.contextPot + split.pot,
          fees := s.fees + body.fee);
      assert Value(booked, None) == Value(paid, None) + split.burn + split.pot;
      CreditFits(booked, ctx.proposer, None, split.provider);
    }
  }

  lemma TransferNeverOverflows(s: State, from: AccountId, to: AccountId, asset: Asset, amount: Amount)
    requires Value(s, asset) < U64_LIMIT
    ensures Transferred(s, from, to, asset, amount) != Failure(ArithmeticOverflow)
  {
    var debited := Debited(s, from, asset, amount);
    if debited.Success? {
      DebitedValue(s, from, asset, amount, asset);
      CreditFits(debited.value, to, asset, amount);
    }
  }

  lemma BondNeverOverflows(s: State, id: AccountId, amount: Amount)
    requires Value(s, None) < U64_LIMIT
    ensures Bonded(s, id, amount) != Failure(ArithmeticOverflow)
    ensures Unbonded(s, id, amount) != Failure(ArithmeticOverflow)
  {
    AccountBound(s, id, None);
  }

  lemma PayoutFits(s: State, payout: Payout)
    requires Value(s, payout.asset) + payout.settlement.toPayer + payout.settlement.toPayee < U64_LIMIT
    ensures PaidOut(s, payout).Success?
  {
    var first := s;
    if payout.settlement.toPayer != 0 {
      CreditFits(s, payout.payer, payout.asset, payout.settlement.toPayer);
      CreditedValue(s, payout.payer, payout.asset, payout.settlement.toPayer, payout.asset);
      first := Credited(s, payout.payer, payout.asset, payout.settlement.toPayer).value;
    }
    if payout.settlement.toPayee != 0 {
      CreditFits(first, payout.payee, payout.asset, payout.settlement.toPayee);
    }
  }

  lemma CloseNeverOverflows(s: State, id: PurseId, caller: AccountId, toPayer: Amount, toPayee: Amount)
    requires forall asset :: Value(s, asset) < U64_LIMIT
    ensures PurseClosed(s, id, caller, toPayer, toPayee) != Failure(ArithmeticOverflow)
  {
    var closed := ClosedCooperatively(s.purses, id, caller, toPayer, toPayee);
    if closed.Success? {
      var (m, payout) := closed.value;
      DroppedPurseValue(s, id, payout.asset);
      PayoutFits(s.(purses := m), payout);
    }
  }

  lemma MintNeverOverflows(s: State, caller: AccountId, id: AssetId, to: AccountId, amount: Amount)
    requires SuppliesAgree(s)
    ensures AssetMinted(s, caller, id, to, amount) != Failure(ArithmeticOverflow)
  {
    var minted := Minted(s.assets, id, caller, amount);
    if minted.Success? {
      var s1 := s.(assets := minted.value);
      SameEntriesValue(s, s1, Some(id));
      assert Value(s, Some(id)) == SupplyOf(s, id);
      CreditFits(s1, to, Some(id), amount);
    }
  }

  lemma PenaltyFits(s: State, seized: Amount, denouncer: AccountId)
    requires Value(s, None) + seized < U64_LIMIT
    ensures PenaltyPaid(s, SplitPenalty(seized), denouncer).Success?
  {
    PenaltyIsConserved(seized);
    HeldNonNegative(s, None);
    var penalty := SplitPenalty(seized);
    if seized != 0 {
      CreditFits(s.(burned := s.burned + penalty.burned), denouncer, None, penalty.toDenouncer);
    }
  }

  /** Paying out channels never overflows when all the value there is fits in 64 bits. */
  lemma {:induction false} PayoutsFit(purses: PurseMap, finalized: u64, ids: seq<PurseId>, t: State)
    requires forall id :: id in ids ==> id in purses && id in Due(purses, finalized)
    requires forall asset :: Value(t, asset) + Deposits(purses, ids, asset) < U64_LIMIT
    ensures AllPaidOut(t, PayoutsFor(purses, finalized, ids)).Success?
    decreases |ids|
  {
    hide Value, PaidOut;
    if ids != [] {
      var n := |ids| - 1;
      assert ids[n] in ids;
      forall id | id in ids[..n] ensures id in Due(purses, finalized) {
        assert id in ids;
      }
      forall asset ensures Value(t, asset) + Deposits(purses, ids[..n], asset) < U64_LIMIT {
        assert Deposits(purses, ids, asset) == Deposits(purses, ids[..n], asset)
            + DepositIn(asset)(ids[n], purses[ids[n]]);
      }
      PayoutsFit(purses, finalized, ids[..n], t);
      var before := PayoutsFor(purses, finalized, ids[..n]);
      var last := PayoutAt(purses, finalized, ids[n]);
      var asset := purses[ids[n]].asset;
      PaidOutAppend(t, before, last);
      PayoutsValue(purses, finalized, ids[..n], t, asset);
      assert Value(t, asset) + Deposits(purses, ids, asset) < U64_LIMIT;
      SettlementIsTheDeposit(purses[ids[n]], finalized);
      PayoutFits(AllPaidOut(t, before).value, last);
    }
  }

  /** Housekeeping of a solvent ledger never fails. */
  lemma HousekeepingNeverFails(s: State, finalized: u64)
    requires SuppliesAgree(s) && WithinCap(s)
    ensures Housekept(s, finalized).Success?
  {
    hide PaidOut, AllPaidOut, FeesAgree, TickersIndex;
    var ids := DueInOrder(s.purses, finalized);
    var t := s.(purses := s.purses - Due(s.purses, finalized));
    AscendingDistinct(ids);
    assert Elements(ids) == Due(s.purses, finalized);
    forall asset ensures Value(t, asset) + Deposits(s.purses, ids, asset) < U64_LIMIT {
      RemovedDeposits(s.purses, ids, asset);
      assert Value(t, asset) + Deposits(s.purses, ids, asset) == Value(s, asset);
      if asset.Some? {
        assert Value(s, Some(asset.value)) == SupplyOf(s, asset.value);
      }
    }
    PayoutsFit(s.purses, finalized, ids, t);
  }

  lemma {:induction false} AllPaidOutKeeps(s: State, payouts: seq<Payout>)
    requires AllPaidOut(s, payouts).Success?
    ensures KeepsRecords(s, AllPaidOut(s, payouts).value, 0)
    decreases |payouts|
  {
    hide PaidOut;
    if payouts != [] {
      PaidOutKeeps(s, payouts[0]);
      AllPaidOutKeeps(PaidOut(s, payouts[0]).value, payouts[1..]);
    }
  }

  lemma HousekeepingAgrees(s: State, finalized: u64)
    requires Housekept(s, finalized).Success?
    requires SuppliesAgree(s) && FeesAgree(s) && TickersIndex(s.assets, s.tickers)
    ensures var t := Housekept(s, finalized).value;
      SuppliesAgree(t) && FeesAgree(t) && TickersIndex(t.assets, t.tickers)
  {
    hide AllPaidOut, Value, TickersIndex;
    var t := Housekept(s, finalized).value;
    AllPaidOutKeeps(s.(purses := s.purses - Due(s.purses, finalized)), Payouts(s.purses, finalized));
    forall id: AssetId ensures Value(t, Some(id)) == SupplyOf(t, id) {
      HousekeepingConserves(s, finalized, Some(id));
    }
  }

  lemma ClearingAgrees(s: State)
    requires SuppliesAgree(s) && FeesAgree(s) && TickersIndex(s.assets, s.tickers)
    ensures var t := CountersCleared(s);
      SuppliesAgree(t) && FeesAgree(t) && TickersIndex(t.assets, t.tickers)
  {
    hide Value, TickersIndex;
    forall id: AssetId ensures Value(CountersCleared(s), Some(id)) == SupplyOf(CountersCleared(s), id) {
      ClearingConserves(s, Some(id));
    }
  }

  lemma SolventStep(o: Oracle, s: State, e: Event)
    requires Solvent(s) && EventFlow(o, s, e, None) == 0
    ensures Solvent(Next(o, s, e))
  {
    hide TxApplied, Housekept, CountersCleared, Value, TickersIndex;
    EventConserves(o, s, e, None);
    if After(o, s, e).Success? {
      match e
      case Submit(ctx, body) => TransactionAgrees(o, s, ctx, body);
      case Housekeep(finalized) => HousekeepingAgrees(s, finalized);
      case ClearCounters => ClearingAgrees(s);
    }
  }

  /** Over every run in which no conviction seizes a margin, supplies, tickers and the fee
      bound stay in agreement, the value of VAN stays under the cap, and housekeeping
      at any height succeeds. */
  lemma {:induction false} SolventRun(o: Oracle, s: State, events: seq<Event>, finalized: u64)
    requires Solvent(s) && SeizesNoMargin(o, s, events)
    ensures Solvent(Run(o, s, events))
    ensures Housekept(Run(o, s, events), finalized).Success?
    decreases |events|
  {
    hide Solvent, Next, Housekept, EventFlow;
    if events != [] {
      var n := |events| - 1;
      SolventRun(o, s, events[..n], finalized);
      SolventStep(o, Run(o, s, events[..n]), events[n]);
    }
    SolventSettles(Run(o, s, events), finalized);
  }

  lemma SolventSettles(s: State, finalized: u64)
    requires Solvent(s)
    ensures Housekept(s, finalized).Success?
  {
    hide Housekept;
    HousekeepingNeverFails(s, finalized);
  }
}
