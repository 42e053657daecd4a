/** What whole runs do to the books: names, tickers and convictions last, and what a reveal
    or a recovery must have been preceded by. */
module Histories {
  import opened Prelude
  import opened Types
  import opened Amounts
  import opened Accounts
  import opened PurseBooks
  import opened AssetRegistries
  import opened NameBooks
  import opened RecoveryBooks
  import opened SlashingBooks
  import opened LedgerSpec
  import opened Standing
  import opened Runs
  import Authority
  import LedgerInvariants

  /** The part of the ledger that is neither accounts, channels nor counters. */
  datatype Books = Books(
    assets: AssetMap,
    tickers: TickerMap,
    owners: OwnerMap,
    commitments: CommitmentMap,
    recoveries: RecoveryMap,
    accountOffences: set<AccountOffence>,
    validatorOffences: set<ValidatorOffence>)

  function BooksOf(s: State): Books {
    Books(s.assets, s.tickers, s.owners, s.commitments, s.recoveries, s.accountOffences, s.validatorOffences)
  }

  // ----- Moving value writes nothing in the books

  lemma CreditedBooks(s: State, id: AccountId, asset: Asset, amount: Amount)
    requires Credited(s, id, asset, amount).Success?
    ensures BooksOf(Credited(s, id, asset, amount).value) == BooksOf(s)
  {
  }

  lemma DebitedBooks(s: State, id: AccountId, asset: Asset, amount: Amount)
    requires Debited(s, id, asset, amount).Success?
    ensures BooksOf(Debited(s, id, asset, amount).value) == BooksOf(s)
  {
  }

  lemma PaidOutBooks(s: State, payout: Payout)
    requires PaidOut(s, payout).Success?
    ensures BooksOf(PaidOut(s, payout).value) == BooksOf(s)
  {
    hide Credited;
    var first := s;
    if payout.settlement.toPayer != 0 {
      CreditedBooks(s, payout.payer, payout.asset, payout.settlement.toPayer);
      first := Credited(s, payout.payer, payout.asset, payout.settlement.toPayer).value;
    }
    if payout.settlement.toPayee != 0 {
      CreditedBooks(first, payout.payee, payout.asset, payout.settlement.toPayee);
    }
  }

  lemma {:induction false} AllPaidOutBooks(s: State, payouts: seq<Payout>)
    requires AllPaidOut(s, payouts).Success?
    ensures BooksOf(AllPaidOut(s, payouts).value) == BooksOf(s)
    decreases |payouts|
  {
    hide PaidOut;
    if payouts != [] {
      PaidOutBooks(s, payouts[0]);
      AllPaidOutBooks(PaidOut(s, payouts[0]).value, payouts[1..]);
    }
  }

  lemma FeeBooks(s: State, ctx: BlockContext, body: TxBody)
    requires FeeCharged(s, ctx, body).Success?
    ensures BooksOf(FeeCharged(s, ctx, body).value) == BooksOf(s)
  {
    hide Credited, Debited, SplitFee;
    var split := SplitFee(body.fee);
    DebitedBooks(s, body.account, None, body.fee);
    var paid := Debited(s, body.account, None, body.fee).value;
    CreditedBooks(paid.(burned := paid.burned + split.burn, contextPot := paid.contextPot + split.pot,
                        fees := paid.fees + body.fee), ctx.proposer, None, split.provider);
  }

  lemma PenaltyBooks(s: State, penalty: Penalty, denouncer: AccountId)
    requires PenaltyPaid(s, penalty, denouncer).Success?
    ensures BooksOf(PenaltyPaid(s, penalty, denouncer).value) == BooksOf(s)
  {
    hide Credited;
    if penalty.seized != 0 {
      CreditedBooks(s.(burned := s.burned + penalty.burned), denouncer, None, penalty.toDenouncer);
    }
  }

  lemma TransferBooks(s: State, from: AccountId, to: AccountId, asset: Asset, amount: Amount)
    requires Transferred(s, from, to, asset, amount).Success?
    ensures BooksOf(Transferred(s, from, to, asset, amount).value) == BooksOf(s)
  {
    hide Credited, Debited;
    DebitedBooks(s, from, asset, amount);
    CreditedBooks(Debited(s, from, asset, amount).value, to, asset, amount);
  }

  lemma BondBooks(s: State, id: AccountId, amount: Amount)
    requires Bonded(s, id, amount).Success?
    ensures BooksOf(Bonded(s, id, amount).value) == BooksOf(s)
  {
    hide Debited;
    DebitedBooks(s, id, None, amount);
  }

  lemma UnbondBooks(s: State, id: AccountId, amount: Amount)
    requires Unbonded(s, id, amount).Success?
    ensures BooksOf(Unbonded(s, id, amount).value) == BooksOf(s)
  {
    hide Credited;
    var a := s.accounts[id];
    CreditedBooks(s.(accounts := s.accounts[id := a.(bonded := a.bonded - amount)]), id, None, amount);
  }

  lemma ChannelBooks(o: Oracle, s: State, ctx: BlockContext, id: PurseId, caller: AccountId, other: AccountId,
      asset: Asset,
                     deposit: Amount, root: Hash, trancheValue: Amount, expiry: u64, toPayer: Amount, toPayee: Amount,
                     claimed: u32, link: Hash)
    ensures PurseOpened(s, id, caller, other, asset, deposit, root, trancheValue, expiry).Success? ==>
      BooksOf(PurseOpened(s, id, caller, other, asset, deposit, root, trancheValue, expiry).value) == BooksOf(s)
    ensures PurseClosed(s, id, caller, toPayer, toPayee).Success? ==>
      BooksOf(PurseClosed(s, id, caller, toPayer, toPayee).value) == BooksOf(s)
    ensures PurseClosing(o, s, ctx, id, caller, claimed, link).Success? ==>
      BooksOf(PurseClosing(o, s, ctx, id, caller, claimed, link).value) == BooksOf(s)
    ensures PurseContested(o, s, id, claimed, link).Success? ==>
      BooksOf(PurseContested(o, s, id, claimed, link).value) == BooksOf(s)
  {
    hide Debited, PaidOut, Closing, Disputed, ClosedCooperatively, Purses.Open, CapacityOf;
    if PurseOpened(s, id, caller, other, asset, deposit, root, trancheValue, expiry).Success? {
      DebitedBooks(s, caller, asset, deposit);
    }
    if PurseClosed(s, id, caller, toPayer, toPayee).Success? {
      var (m, payout) := ClosedCooperatively(s.purses, id, caller, toPayer, toPayee).value;
      PaidOutBooks(s.(purses := m), payout);
    }
  }

  lemma AccountBooks(o: Oracle, s: State, id: AccountId, key: VerifyingKey, lane: Lane, share: Amount, device: DeviceId,
                     credit: Amount, margin: Amount, guardians: set<AccountId>, threshold: u32)
    ensures DeviceAdded(o, s, id, key, lane, share).Success? ==>
      BooksOf(DeviceAdded(o, s, id, key, lane, share).value) == BooksOf(s)
    ensures DeviceDropped(s, id, device).Success? ==> BooksOf(DeviceDropped(s, id, device).value) == BooksOf(s)
    ensures NomadDeclared(s, id, credit, margin).Success? ==>
      BooksOf(NomadDeclared(s, id, credit, margin).value) == BooksOf(s)
    ensures GuardiansSet(s, id, guardians, threshold).Success? ==>
      BooksOf(GuardiansSet(s, id, guardians, threshold).value) == BooksOf(s)
  {
    hide AllocatedNomad, LaneNext;
  }

  // ----- What each book kind writes

  lemma AssetBooks(s: State, caller: AccountId, id: AssetId, to: AccountId, amount: Amount)
    ensures AssetMinted(s, caller, id, to, amount).Success? ==>
      && Minted(s.assets, id, caller, amount).Success?
      && BooksOf(AssetMinted(s, caller, id, to, amount).value) ==
           BooksOf(s).(assets := Minted(s.assets, id, caller, amount).value)
    ensures AssetBurned(s, caller, id, amount).Success? ==>
      && Burned(s.assets, id, amount).Success?
      && BooksOf(AssetBurned(s, caller, id, amount).value) == BooksOf(s).(assets := Burned(s.assets, id, amount).value)
  {
    hide Credited, Debited, Minted, Burned;
    if AssetMinted(s, caller, id, to, amount).Success? {
      CreditedBooks(s.(assets := Minted(s.assets, id, caller, amount).value), to, Some(id), amount);
    }
    if AssetBurned(s, caller, id, amount).Success? {
      DebitedBooks(s, caller, Some(id), amount);
    }
  }

  lemma ConvictionBooks(o: Oracle, s: State, device: DeviceId, first: Transaction, second: Transaction,
      denouncer: AccountId)
    requires AccountPunished(o, s, device, first, second, denouncer).Success?
    ensures var offence := OffenceOf(device, first);
      && offence !in s.accountOffences
      && BooksOf(AccountPunished(o, s, device, first, second, denouncer).value)
         == BooksOf(s).(accountOffences := s.accountOffences + {offence})
  {
    hide PenaltyPaid, CheckAccountEquivocation, SplitPenalty;
    var accused := first.body.account;
    var a := s.accounts[accused];
    PenaltyBooks(s.(accountOffences := s.accountOffences + {OffenceOf(device, first)},
                    accounts := s.accounts[accused := a.(nomadMargin := 0)]), SplitPenalty(a.nomadMargin), denouncer);
  }

  lemma ValidatorConvictionBooks(o: Oracle, s: State, v: AccountId, first: SignedHeader, second: SignedHeader,
      denouncer: AccountId)
    requires ValidatorPunished(o, s, v, first, second, denouncer).Success?
    ensures var offence := ValidatorOffence(v, first.header.height);
      && offence !in s.validatorOffences
      && BooksOf(ValidatorPunished(o, s, v, first, second, denouncer).value)
         == BooksOf(s).(validatorOffences := s.validatorOffences + {offence})
  {
    hide PenaltyPaid, CheckValidatorEquivocation, SplitPenalty;
    var a := s.accounts[v];
    PenaltyBooks(s.(validatorOffences := s.validatorOffences + {ValidatorOffence(v, first.header.height)},
                    accounts := s.accounts[v := a.(bonded := 0)]), SplitPenalty(a.bonded), denouncer);
  }

  lemma NameWrites(o: Oracle, s: State, commitment: Hash, name: Name, salt: Hash, account: AccountId, finalized: u64)
    ensures NameCommitted(s, commitment, account, finalized).Success? ==>
      && commitment !in s.commitments
      && BooksOf(NameCommitted(s, commitment, account, finalized).value)
         == BooksOf(s).(commitments := s.commitments[commitment := CommitmentRecord(account, finalized)])
    ensures NameRevealed(o, s, name, salt, account, finalized).Success? ==>
      var c := o.nameCommitment(name, salt, account);
      && name !in s.owners && c in s.commitments && RipeFor(s.commitments[c], account, finalized)
      && BooksOf(NameRevealed(o, s, name, salt, account, finalized).value)
         == BooksOf(s).(owners := s.owners[name := account], commitments := s.commitments - {c})
  {
  }

  /** A commitment its own account may open: at least 10 finalised blocks old, and at most 12 epochs. */
  predicate RipeFor(record: CommitmentRecord, account: AccountId, finalized: u64) {
    && record.account == account
    && SaturatingAdd(record.committedAtFinalized, MIN_REVEAL_DELAY) <= finalized
    && finalized <= SaturatingAdd(record.committedAtFinalized, COMMITMENT_EXPIRY)
  }

  lemma RecoveryWrites(o: Oracle, s: State, ctx: BlockContext, target: AccountId, key: VerifyingKey, caller: AccountId)
    ensures RecoveryApproved(s, ctx, target, key, caller).Success? ==>
      && target in s.accounts && caller in s.accounts[target].guardians
      && (target in s.recoveries ==> s.recoveries[target].newRootKey == key)
      && BooksOf(RecoveryApproved(s, ctx, target, key, caller).value)
         == BooksOf(s).(recoveries := s.recoveries[target := Backed(s.recoveries, ctx, target, key, caller)])
    ensures RecoveryDropped(s, target, caller).Success? ==>
      && target == caller
      && BooksOf(RecoveryDropped(s, target, caller).value) == BooksOf(s).(recoveries := s.recoveries - {target})
    ensures RecoveryCompleted(o, s, ctx, target).Success? ==>
      && target in s.accounts && target in s.recoveries
      && s.recoveries[target].ApprovalCount() >= s.accounts[target].guardianThreshold
      && s.recoveries[target].window.HasElapsed(ctx.finalizedHeight)
      && BooksOf(RecoveryCompleted(o, s, ctx, target).value) == BooksOf(s).(recoveries := s.recoveries - {target})
  {
    hide Recovered;
  }

  /** The recovery after one more approval; the first opens the window, later ones leave it. */
  function Backed(pending: RecoveryMap, ctx: BlockContext, target: AccountId, key: VerifyingKey,
      guardian: AccountId): PendingRecovery {
    if target in pending then pending[target].(approvals := pending[target].approvals + {guardian})
    else PendingRecovery(key, {guardian}, Window(ctx.finalizedHeight, RECOVERY_WINDOW))
  }

  lemma MadeBooks(s: State, id: AssetId, issuer: AccountId, ticker: Name, decimals: u8, reissuable: bool)
    requires AssetMade(s, id, issuer, ticker, decimals, reissuable).Success?
    ensures Created(s.assets, s.tickers, id, issuer, ticker, decimals, reissuable).Success?
    ensures var (a, t) := Created(s.assets, s.tickers, id, issuer, ticker, decimals, reissuable).value;
      BooksOf(AssetMade(s, id, issuer, ticker, decimals, reissuable).value) == BooksOf(s).(assets := a, tickers := t)
  {
  }

  function OffenceOf(device: DeviceId, first: Transaction): AccountOffence {
    AccountOffence(first.body.account, device, first.body.nonce.lane, first.body.nonce.sequence)
  }

  // ----- One transaction

  predicate IsBookKind(kind: TxKind) {
    kind.NameCommit? || kind.NameReveal? || kind.RecoveryStart? || kind.RecoveryCancel? || kind.RecoveryFinalise?
    || kind.AssetCreate? || kind.AssetMint? || kind.AssetBurn? || kind.IsEvidence()
  }

  lemma OtherKindsBooks(o: Oracle, s: State, ctx: BlockContext, body: TxBody)
    requires KindApplied(o, s, ctx, body).Success? && !IsBookKind(body.kind)
    ensures BooksOf(KindApplied(o, s, ctx, body).value) == BooksOf(s)
  {
    hide Transferred, Bonded, Unbonded, PurseOpened, PurseClosed, PurseClosing, PurseContested, DeviceAdded,
        DeviceDropped,
      NomadDeclared, GuardiansSet, BooksOf;
    var id := body.account;
    match body.kind {
      case Transfer(to, asset, amount) => TransferBooks(s, id, to, asset, amount);
      case Bond(amount, _) => BondBooks(s, id, amount);
      case Unbond(amount) => UnbondBooks(s, id, amount);
      case PurseOpen(other, asset, deposit, root, value, expiry) =>
        ChannelBooks(o, s, ctx, o.txId(body), id, other, asset, deposit, root, value, expiry, 0, 0, 0, root);
      case PurseCloseCooperative(purse, toPayer, toPayee, _) =>
        ChannelBooks(o, s, ctx, purse, id, id, None, 0, ZERO_HASH, 0, 0, toPayer, toPayee, 0, ZERO_HASH);
      case PurseCloseUnilateral(purse, claimed, link) =>
        ChannelBooks(o, s, ctx, purse, id, id, None, 0, link, 0, 0, 0, 0, claimed, link);
      case PurseDispute(purse, claimed, link) =>
        ChannelBooks(o, s, ctx, purse, id, id, None, 0, link, 0, 0, 0, 0, claimed, link);
      case NomadSet(credit, margin) => AccountBooks(o, s, id, TEST_KEY, 0, 0, body.device, credit, margin, {}, 0);
      case DeviceAdd(key, lane, share) => AccountBooks(o, s, id, key, lane, share, body.device, 0, 0, {}, 0);
      case DeviceRevoke(device) => AccountBooks(o, s, id, TEST_KEY, 0, 0, device, 0, 0, {}, 0);
      case GuardianSet(guardians, threshold) => AccountBooks(o, s, id, TEST_KEY, 0, 0, body.device, 0, 0, guardians,
          threshold);
    }
  }

  /** What the books see of a transaction is its kind, applied after the fee. */
  lemma TransactionBooks(o: Oracle, s: State, ctx: BlockContext, body: TxBody)
    requires TxApplied(o, s, ctx, body).Success?
    ensures FeeCharged(s, ctx, body).Success?
    ensures BooksOf(FeeCharged(s, ctx, body).value) == BooksOf(s)
    ensures KindApplied(o, FeeCharged(s, ctx, body).value, ctx, body).Success?
    ensures BooksOf(TxApplied(o, s, ctx, body).value) ==
      BooksOf(KindApplied(o, FeeCharged(s, ctx, body).value, ctx, body).value)
  {
    hide KindApplied, FeeCharged, Admitted, SpentAccount;
    FeeBooks(s, ctx, body);
  }

  lemma HousekeepingBooks(s: State, finalized: u64)
    requires Housekept(s, finalized).Success?
    ensures BooksOf(Housekept(s, finalized).value) ==
      BooksOf(s).(commitments := s.commitments - Stale(s.commitments, finalized))
  {
    hide AllPaidOut, Stale, Due;
    AllPaidOutBooks(s.(purses := s.purses - Due(s.purses, finalized)), Payouts(s.purses, finalized));
  }

  // ----- What lasts

  ghost predicate SameAsset(a: AssetRecord, b: AssetRecord) {
    b.issuer == a.issuer && b.ticker == a.ticker && b.decimals == a.decimals && b.reissuable == a.reissuable
  }

  /** Owners, tickers and assets stay what they are, and convictions stay recorded. */
  ghost predicate Lasts(b: Books, c: Books) {
    && (forall n :: n in b.owners ==> n in c.owners && c.owners[n] == b.owners[n])
    && (forall n :: n in b.tickers ==> n in c.tickers && c.tickers[n] == b.tickers[n])
    && (forall id :: id in b.assets ==> id in c.assets && SameAsset(b.assets[id], c.assets[id]))
    && b.accountOffences <= c.accountOffences && b.validatorOffences <= c.validatorOffences
  }

  lemma AssetKindsLast(o: Oracle, s: State, ctx: BlockContext, body: TxBody)
    requires body.kind.AssetCreate? || body.kind.AssetMint? || body.kind.AssetBurn?
    requires KindApplied(o, s, ctx, body).Success?
    ensures Lasts(BooksOf(s), BooksOf(KindApplied(o, s, ctx, body).value))
    ensures KindApplied(o, s, ctx, body).value.commitments == s.commitments
    ensures KindApplied(o, s, ctx, body).value.recoveries == s.recoveries
  {
    hide AssetMade, AssetMinted, AssetBurned, Created, Minted, Burned, Lasts;
    var id, b := body.account, BooksOf(s);
    match body.kind {
      case AssetCreate(ticker, decimals, reissuable) =>
        MadeBooks(s, o.assetId(id, o.txId(body)), id, ticker, decimals, reissuable);
        CreatedLasts(b, o.assetId(id, o.txId(body)), id, ticker, decimals, reissuable);
      case AssetMint(asset, to, amount) =>
        AssetBooks(s, id, asset, to, amount);
        SupplyLasts(b, asset, id, amount);
      case AssetBurn(asset, amount) =>
        AssetBooks(s, id, asset, id, amount);
        SupplyLasts(b, asset, id, amount);
    }
  }

  lemma EvidenceLasts(o: Oracle, s: State, ctx: BlockContext, body: TxBody)
    requires body.kind.AccountEquivocation? || body.kind.ValidatorEquivocation?
    requires KindApplied(o, s, ctx, body).Success?
    ensures Lasts(BooksOf(s), BooksOf(KindApplied(o, s, ctx, body).value))
    ensures KindApplied(o, s, ctx, body).value.commitments == s.commitments
    ensures KindApplied(o, s, ctx, body).value.recoveries == s.recoveries
  {
    hide AccountPunished, ValidatorPunished, OffenceOf, Lasts;
    var id, b := body.account, BooksOf(s);
    match body.kind {
      case AccountEquivocation(device, first, second) =>
        ConvictionBooks(o, s, device, first, second, id);
        ConvictionLasts(b, {OffenceOf(device, first)}, {});
      case ValidatorEquivocation(v, first, second) =>
        ValidatorConvictionBooks(o, s, v, first, second, id);
        ConvictionLasts(b, {}, {ValidatorOffence(v, first.header.height)});
    }
  }

  lemma NameKindsLast(o: Oracle, s: State, ctx: BlockContext, body: TxBody)
    requires body.kind.NameCommit? || body.kind.NameReveal?
    requires KindApplied(o, s, ctx, body).Success?
    ensures Lasts(BooksOf(s), BooksOf(KindApplied(o, s, ctx, body).value))
    ensures KindApplied(o, s, ctx, body).value.recoveries == s.recoveries
  {
    hide NameCommitted, NameRevealed, RipeFor, Lasts;
    var id, b := body.account, BooksOf(s);
    match body.kind {
      case NameCommit(c) =>
        NameWrites(o, s, c, "a", c, id, ctx.finalizedHeight);
        WaitingLasts(b, s.commitments[c := CommitmentRecord(id, ctx.finalizedHeight)], s.recoveries);
      case NameReveal(name, salt) =>
        NameWrites(o, s, salt, name, salt, id, ctx.finalizedHeight);
        RevealLasts(b, name, id, s.commitments - {o.nameCommitment(name, salt, id)});
    }
  }

  lemma RecoveryKindsLast(o: Oracle, s: State, ctx: BlockContext, body: TxBody)
    requires body.kind.RecoveryStart? || body.kind.RecoveryCancel? || body.kind.RecoveryFinalise?
    requires KindApplied(o, s, ctx, body).Success?
    ensures Lasts(BooksOf(s), BooksOf(KindApplied(o, s, ctx, body).value))
    ensures KindApplied(o, s, ctx, body).value.commitments == s.commitments
  {
    hide RecoveryApproved, RecoveryDropped, RecoveryCompleted, Backed, Lasts;
    var id, b := body.account, BooksOf(s);
    match body.kind {
      case RecoveryStart(target, key) =>
        RecoveryWrites(o, s, ctx, target, key, id);
        WaitingLasts(b, s.commitments, s.recoveries[target := Backed(s.recoveries, ctx, target, key, id)]);
      case RecoveryCancel(target) =>
        RecoveryWrites(o, s, ctx, target, TEST_KEY, id);
        WaitingLasts(b, s.commitments, s.recoveries - {target});
      case RecoveryFinalise(target) =>
        RecoveryWrites(o, s, ctx, target, TEST_KEY, id);
        WaitingLasts(b, s.commitments, s.recoveries - {target});
    }
  }

  lemma KindLasts(o: Oracle, s: State, ctx: BlockContext, body: TxBody)
    requires KindApplied(o, s, ctx, body).Success?
    ensures Lasts(BooksOf(s), BooksOf(KindApplied(o, s, ctx, body).value))
    ensures !body.kind.NameCommit? && !body.kind.NameReveal? ==>
      KindApplied(o, s, ctx, body).value.commitments == s.commitments
    ensures !body.kind.RecoveryStart? && !body.kind.RecoveryCancel? && !body.kind.RecoveryFinalise? ==>
      KindApplied(o, s, ctx, body).value.recoveries == s.recoveries
  {
    hide KindApplied, Lasts;
    var kind := body.kind;
    if !IsBookKind(kind) {
      OtherKindsBooks(o, s, ctx, body);
      LastsItself(BooksOf(s));
    } else if kind.AssetCreate? || kind.AssetMint? || kind.AssetBurn? {
      AssetKindsLast(o, s, ctx, body);
    } else if kind.IsEvidence() {
      EvidenceLasts(o, s, ctx, body);
    } else if kind.NameCommit? || kind.NameReveal? {
      NameKindsLast(o, s, ctx, body);
    } else {
      RecoveryKindsLast(o, s, ctx, body);
    }
  }

  lemma WaitingLasts(b: Books, commitments: CommitmentMap, recoveries: RecoveryMap)
    ensures Lasts(b, b.(commitments := commitments, recoveries := recoveries))
  {
  }

  lemma RevealLasts(b: Books, name: Name, owner: AccountId, commitments: CommitmentMap)
    requires name !in b.owners
    ensures Lasts(b, b.(owners := b.owners[name := owner], commitments := commitments))
  {
  }

  lemma ConvictionLasts(b: Books, accounts: set<AccountOffence>, validators: set<ValidatorOffence>)
    ensures Lasts(b, b.(accountOffences := b.accountOffences + accounts))
    ensures Lasts(b, b.(validatorOffences := b.validatorOffences + validators))
  {
  }

  lemma CreatedLasts(b: Books, id: AssetId, issuer: AccountId, ticker: Name, decimals: u8, reissuable: bool)
    ensures Created(b.assets, b.tickers, id, issuer, ticker, decimals, reissuable).Success? ==>
      var (a, t) := Created(b.assets, b.tickers, id, issuer, ticker, decimals, reissuable).value;
      Lasts(b, b.(assets := a, tickers := t))
  {
  }

  lemma SupplyLasts(b: Books, id: AssetId, caller: AccountId, amount: Amount)
    ensures Minted(b.assets, id, caller, amount).Success? ==>
      Lasts(b, b.(assets := Minted(b.assets, id, caller, amount).value))
    ensures Burned(b.assets, id, amount).Success? ==> Lasts(b, b.(assets := Burned(b.assets, id, amount).value))
  {
  }

  lemma EventLasts(o: Oracle, s: State, e: Event)
    ensures Lasts(BooksOf(s), BooksOf(Next(o, s, e)))
  {
    hide TxApplied, KindApplied, FeeCharged, Housekept, Stale;
    if After(o, s, e).Success? {
      match e
      case Submit(ctx, body) =>
        TransactionBooks(o, s, ctx, body);
        KindLasts(o, FeeCharged(s, ctx, body).value, ctx, body);
      case Housekeep(finalized) => HousekeepingBooks(s, finalized);
      case ClearCounters =>
    }
  }

  lemma LastsChain(a: Books, b: Books, c: Books)
    requires Lasts(a, b) && Lasts(b, c)
    ensures Lasts(a, c)
  {
  }

  /** Over every run a registered name keeps its owner, a ticker its asset, an asset its
      issuer, ticker, decimals and promise, and a conviction stays on record. */
  lemma {:induction false} BooksLast(o: Oracle, s: State, events: seq<Event>)
    ensures Lasts(BooksOf(s), BooksOf(Run(o, s, events)))
    decreases |events|
  {
    hide Next, Lasts, BooksOf;
    if events == [] {
      LastsItself(BooksOf(s));
    } else {
      var n := |events| - 1;
      BooksLast(o, s, events[..n]);
      EventLasts(o, Run(o, s, events[..n]), events[n]);
      LastsChain(BooksOf(s), BooksOf(Run(o, s, events[..n])), BooksOf(Run(o, s, events)));
    }
  }

  lemma LastsItself(b: Books)
    ensures Lasts(b, b)
  {
  }

  /** Nobody is punished twice for one slot: once a conviction is accepted, no transaction of
      any later moment of the run convicts the same device of the same slot again. */
  lemma NeverPunishedTwice(o: Oracle, s: State, ctx: BlockContext, body: TxBody, events: seq<Event>,
                           later: BlockContext, again: TxBody)
    requires body.kind.AccountEquivocation? && again.kind.AccountEquivocation?
    requires OffenceOf(body.kind.accused, body.kind.first) == OffenceOf(again.kind.accused, again.kind.first)
    requires TxApplied(o, s, ctx, body).Success?
    ensures TxApplied(o, Run(o, TxApplied(o, s, ctx, body).value, events), later, again).Failure?
  {
    hide Run, TxApplied, FeeCharged, AccountPunished;
    var t := TxApplied(o, s, ctx, body).value;
    TransactionBooks(o, s, ctx, body);
    ConvictionBooks(o, FeeCharged(s, ctx, body).value, body.kind.accused, body.kind.first, body.kind.second,
        body.account);
    BooksLast(o, t, events);
    var u := Run(o, t, events);
    if TxApplied(o, u, later, again).Success? {
      TransactionBooks(o, u, later, again);
      ConvictionBooks(o, FeeCharged(u, later, again).value, again.kind.accused, again.kind.first, again.kind.second,
          again.account);
    }
  }

  // ----- What a reveal was preceded by

  predicate IsCommit(e: Event, c: Hash, record: CommitmentRecord) {
    e.Submit? && e.body.kind == NameCommit(c) && record == CommitmentRecord(e.body.account, e.ctx.finalizedHeight)
  }

  /** Event `i` of the run filed this commitment. */
  ghost predicate FiledAt(o: Oracle, s: State, events: seq<Event>, i: nat, c: Hash, record: CommitmentRecord) {
    i < |events| && IsCommit(events[i], c, record) && After(o, Run(o, s, events[..i]), events[i]).Success?
  }

  lemma KindCommitments(o: Oracle, s: State, ctx: BlockContext, body: TxBody, c: Hash)
    requires KindApplied(o, s, ctx, body).Success?
    requires var t := KindApplied(o, s, ctx, body).value;
      c in t.commitments && (c in s.commitments ==> t.commitments[c] != s.commitments[c])
    ensures body.kind == NameCommit(c)
    ensures KindApplied(o, s, ctx, body).value.commitments[c] == CommitmentRecord(body.account, ctx.finalizedHeight)
  {
    var t := KindApplied(o, s, ctx, body).value;
    if body.kind.NameCommit? || body.kind.NameReveal? {
      hide RipeFor;
      var id := body.account;
      match body.kind {
        case NameCommit(d) => NameWrites(o, s, d, "a", d, id, ctx.finalizedHeight);
        case NameReveal(name, salt) => NameWrites(o, s, salt, name, salt, id, ctx.finalizedHeight);
      }
    } else {
      hide KindApplied;
      KindLasts(o, s, ctx, body);
    }
  }

  lemma EventCommitments(o: Oracle, s: State, e: Event, c: Hash)
    requires c in Next(o, s, e).commitments
    requires c in s.commitments ==> Next(o, s, e).commitments[c] != s.commitments[c]
    ensures After(o, s, e).Success? && IsCommit(e, c, Next(o, s, e).commitments[c])
  {
    hide TxApplied, KindApplied, FeeCharged, Housekept, Stale;
    if After(o, s, e).Success? {
      match e
      case Submit(ctx, body) =>
        TransactionBooks(o, s, ctx, body);
        KindCommitments(o, FeeCharged(s, ctx, body).value, ctx, body, c);
      case Housekeep(finalized) =>
        HousekeepingBooks(s, finalized);
        assert false;
      case ClearCounters =>
        assert false;
    }
  }

  lemma {:induction false} CommitmentsFiled(o: Oracle, s: State, events: seq<Event>, c: Hash)
    requires c in Run(o, s, events).commitments
    ensures
      || (c in s.commitments && s.commitments[c] == Run(o, s, events).commitments[c])
      || exists i :: FiledAt(o, s, events, i, c, Run(o, s, events).commitments[c])
    decreases |events|
  {
    hide Next, IsCommit, After;
    if events != [] {
      var n := |events| - 1;
      var before := Run(o, s, events[..n]);
      var record := Run(o, s, events).commitments[c];
      if c in before.commitments && before.commitments[c] == record {
        CommitmentsFiled(o, s, events[..n], c);
        if i: nat :| FiledAt(o, s, events[..n], i, c, record) {
          assert events[..n][..i] == events[..i];
          assert FiledAt(o, s, events, i, c, record);
        }
      } else {
        EventCommitments(o, before, events[n], c);
        assert FiledAt(o, s, events, n, c, record);
      }
    }
  }

  /** A name is only ever revealed by the account that committed to it in the same run, at
      least 10 and at most 8640 finalised blocks before, and only while nobody owns it. */
  lemma RevealFollowsCommit(o: Oracle, s: State, events: seq<Event>, ctx: BlockContext, body: TxBody)
    requires s.commitments == map[] && body.kind.NameReveal?
    requires TxApplied(o, Run(o, s, events), ctx, body).Success?
    ensures body.kind.name !in Run(o, s, events).owners
    ensures exists i, record ::
      && FiledAt(o, s, events, i, o.nameCommitment(body.kind.name, body.kind.salt, body.account), record)
      && RipeFor(record, body.account, ctx.finalizedHeight)
  {
    hide Run, TxApplied, FeeCharged, NameRevealed, RipeFor;
    var t := Run(o, s, events);
    TransactionBooks(o, t, ctx, body);
    var charged := FeeCharged(t, ctx, body).value;
    var c := o.nameCommitment(body.kind.name, body.kind.salt, body.account);
    NameWrites(o, charged, c, body.kind.name, body.kind.salt, body.account, ctx.finalizedHeight);
    CommitmentsFiled(o, s, events, c);
    var i :| FiledAt(o, s, events, i, c, t.commitments[c]);
  }

  // ----- What a recovery was preceded by

  /** A transaction that, if accepted, ends the recovery of `target`. */
  predicate Ends(e: Event, target: AccountId) {
    e.Submit? && (e.body.kind == RecoveryCancel(target) || e.body.kind == RecoveryFinalise(target))
  }

  predicate IsApproval(e: Event, target: AccountId, key: VerifyingKey, guardian: AccountId) {
    e.Submit? && e.body.kind == RecoveryStart(target, key) && e.body.account == guardian
  }

  lemma KindRecoveries(o: Oracle, s: State, ctx: BlockContext, body: TxBody, target: AccountId)
    requires KindApplied(o, s, ctx, body).Success?
    requires target in KindApplied(o, s, ctx, body).value.recoveries
    ensures var t := KindApplied(o, s, ctx, body).value;
      if body.kind.RecoveryStart? && body.kind.account == target then
        && body.account in AccountAt(s.accounts, target).guardians
        && (target in s.recoveries ==> s.recoveries[target].newRootKey == body.kind.newRootKey)
        && t.recoveries[target] == Backed(s.recoveries, ctx, target, body.kind.newRootKey, body.account)
      else
        && target in s.recoveries && t.recoveries[target] == s.recoveries[target]
        && !Ends(Submit(ctx, body), target)
  {
    if body.kind.RecoveryStart? || body.kind.RecoveryCancel? || body.kind.RecoveryFinalise? {
      hide RecoveryApproved, RecoveryDropped, RecoveryCompleted, Backed;
      var id := body.account;
      match body.kind {
        case RecoveryStart(other, key) => RecoveryWrites(o, s, ctx, other, key, id);
        case RecoveryCancel(other) => RecoveryWrites(o, s, ctx, other, TEST_KEY, id);
        case RecoveryFinalise(other) => RecoveryWrites(o, s, ctx, other, TEST_KEY, id);
      }
    } else {
      hide KindApplied, Lasts;
      KindLasts(o, s, ctx, body);
    }
  }

  /** After one event, a pending recovery stands as before, or an approval by a guardian of
      that moment was just added to it. */
  ghost predicate Advances(o: Oracle, s: State, e: Event, target: AccountId)
    requires target in Next(o, s, e).recoveries
  {
    var p := Next(o, s, e).recoveries[target];
    if After(o, s, e).Success? && e.Submit? && e.body.kind.RecoveryStart? && e.body.kind.account == target then
      && e.body.account in AccountAt(s.accounts, target).guardians
      && (target in s.recoveries ==> s.recoveries[target].newRootKey == e.body.kind.newRootKey)
      && p == Backed(s.recoveries, e.ctx, target, e.body.kind.newRootKey, e.body.account)
    else
      target in s.recoveries && p == s.recoveries[target] && (Ends(e, target) ==> After(o, s, e).Failure?)
  }

  lemma EventRecoveries(o: Oracle, s: State, e: Event, target: AccountId)
    requires target in Next(o, s, e).recoveries
    ensures Advances(o, s, e, target)
  {
    hide TxApplied, KindApplied, FeeCharged, Housekept, Stale, Backed;
    if After(o, s, e).Success? {
      match e
      case Submit(ctx, body) =>
        TransactionBooks(o, s, ctx, body);
        FeeStanding(s, ctx, body);
        KindRecoveries(o, FeeCharged(s, ctx, body).value, ctx, body, target);
      case Housekeep(finalized) => HousekeepingBooks(s, finalized);
      case ClearCounters =>
    }
  }

  /** Since event `i` nothing ended the recovery of `target`. */
  ghost predicate StandsSince(o: Oracle, s: State, events: seq<Event>, i: nat, target: AccountId) {
    forall j :: i < j < |events| && Ends(events[j], target) ==> After(o, Run(o, s, events[..j]), events[j]).Failure?
  }

  /** Event `i` was an accepted approval, by one of the account's guardians at that moment. */
  ghost predicate ApprovedAt(o: Oracle, s: State, events: seq<Event>, i: nat, target: AccountId, key: VerifyingKey,
      guardian: AccountId) {
    && i < |events| && IsApproval(events[i], target, key, guardian)
    && After(o, Run(o, s, events[..i]), events[i]).Success?
    && guardian in AccountAt(Run(o, s, events[..i]).accounts, target).guardians
    && StandsSince(o, s, events, i, target)
  }

  ghost predicate OpenedAt(o: Oracle, s: State, events: seq<Event>, i: nat, target: AccountId, p: PendingRecovery) {
    i < |events| && events[i].Submit? && events[i].ctx.finalizedHeight == p.window.openedAtFinalized
    && exists g :: ApprovedAt(o, s, events, i, target, p.newRootKey, g)
  }

  /** Every approval of a pending recovery, and the opening of its window, is an event of the run. */
  ghost predicate Traced(o: Oracle, s: State, events: seq<Event>, target: AccountId, p: PendingRecovery) {
    && p.window.duration == RECOVERY_WINDOW
    && (exists i :: OpenedAt(o, s, events, i, target, p))
    && (forall g :: g in p.approvals ==> exists i :: ApprovedAt(o, s, events, i, target, p.newRootKey, g))
  }

  lemma ApprovalStands(o: Oracle, s: State, events: seq<Event>, i: nat, target: AccountId, key: VerifyingKey,
      g: AccountId)
    requires events != [] && ApprovedAt(o, s, events[..|events| - 1], i, target, key, g)
    requires var n := |events| - 1; Ends(events[n], target) ==> After(o, Run(o, s, events[..n]), events[n]).Failure?
    ensures ApprovedAt(o, s, events, i, target, key, g)
  {
    hide After, Ends, IsApproval, Run;
    var n := |events| - 1;
    assert events[..n][..i] == events[..i];
    forall j | i < j < |events| && Ends(events[j], target)
      ensures After(o, Run(o, s, events[..j]), events[j]).Failure?
    {
      if j < n {
        assert events[..n][..j] == events[..j] && events[..n][j] == events[j];
      }
    }
  }

  lemma TraceStands(o: Oracle, s: State, events: seq<Event>, target: AccountId, p: PendingRecovery)
    requires events != [] && Traced(o, s, events[..|events| - 1], target, p)
    requires var n := |events| - 1; Ends(events[n], target) ==> After(o, Run(o, s, events[..n]), events[n]).Failure?
    ensures Traced(o, s, events, target, p)
  {
    hide After, Ends, ApprovedAt, Run;
    var front := events[..|events| - 1];
    var f: nat :| OpenedAt(o, s, front, f, target, p);
    var opener :| ApprovedAt(o, s, front, f, target, p.newRootKey, opener);
    ApprovalStands(o, s, events, f, target, p.newRootKey, opener);
    assert OpenedAt(o, s, events, f, target, p);
    forall g | g in p.approvals
      ensures exists i :: ApprovedAt(o, s, events, i, target, p.newRootKey, g)
    {
      var i: nat :| ApprovedAt(o, s, front, i, target, p.newRootKey, g);
      ApprovalStands(o, s, events, i, target, p.newRootKey, g);
    }
  }

  lemma {:induction false} RecoveriesTraced(o: Oracle, s: State, events: seq<Event>, target: AccountId)
    requires s.recoveries == map[] && target in Run(o, s, events).recoveries
    ensures Traced(o, s, events, target, Run(o, s, events).recoveries[target])
    decreases |events|
  {
    hide Next, After, Traced, Ends;
    var n := |events| - 1;
    var before, e := Run(o, s, events[..n]), events[n];
    EventRecoveries(o, before, e, target);
    if target in before.recoveries {
      RecoveriesTraced(o, s, events[..n], target);
    }
    if IsStart(e, target) && After(o, before, e).Success? {
      NewApproval(o, s, events, target);
    } else {
      TraceStands(o, s, events, target, before.recoveries[target]);
    }
  }

  predicate IsStart(e: Event, target: AccountId) {
    e.Submit? && e.body.kind.RecoveryStart? && e.body.kind.account == target
  }

  lemma NewApproval(o: Oracle, s: State, events: seq<Event>, target: AccountId)
    requires events != [] && IsStart(events[|events| - 1], target)
    requires target in Run(o, s, events).recoveries
    requires var before := Run(o, s, events[..|events| - 1]);
      && After(o, before, events[|events| - 1]).Success?
      && Advances(o, before, events[|events| - 1], target)
      && (target in before.recoveries ==> Traced(o, s, events[..|events| - 1], target, before.recoveries[target]))
    ensures Traced(o, s, events, target, Run(o, s, events).recoveries[target])
  {
    hide Next, After;
    var n := |events| - 1;
    var before, e := Run(o, s, events[..n]), events[n];
    var p := Run(o, s, events).recoveries[target];
    var key, g := e.body.kind.newRootKey, e.body.account;
    assert ApprovedAt(o, s, events, n, target, key, g);
    if target in before.recoveries {
      hide ApprovedAt, Run, Advances;
      var q := before.recoveries[target];
      TraceStands(o, s, events, target, q);
      assert p == q.(approvals := q.approvals + {g});
      var f: nat :| OpenedAt(o, s, events, f, target, q);
      assert OpenedAt(o, s, events, f, target, p);
    } else {
      assert OpenedAt(o, s, events, n, target, p);
    }
  }

  /** A recovery completes only after as many guardians as the threshold asks for each
      approved that key in the same run, while the first approval is 51 840 finalised blocks
      old and neither the owner nor an earlier completion has ended it since. */
  lemma RecoveryFollowsApprovals(o: Oracle, s: State, events: seq<Event>, ctx: BlockContext, body: TxBody)
    requires s.recoveries == map[] && body.kind.RecoveryFinalise?
    requires TxApplied(o, Run(o, s, events), ctx, body).Success?
    ensures var target, t := body.kind.account, Run(o, s, events);
      && target in t.recoveries && Traced(o, s, events, target, t.recoveries[target])
      && |t.recoveries[target].approvals| >= AccountAt(t.accounts, target).guardianThreshold
      && t.recoveries[target].window.openedAtFinalized + RECOVERY_WINDOW <= ctx.finalizedHeight
  {
    hide Run, TxApplied, FeeCharged, RecoveryCompleted, Traced;
    var target, t := body.kind.account, Run(o, s, events);
    TransactionBooks(o, t, ctx, body);
    FeeStanding(t, ctx, body);
    RecoveryWrites(o, FeeCharged(t, ctx, body).value, ctx, target, TEST_KEY, target);
    RecoveriesTraced(o, s, events, target);
    TracedWindow(o, s, events, target, t.recoveries[target]);
  }

  lemma CompletionRecovers(o: Oracle, s: State, ctx: BlockContext, target: AccountId)
    requires RecoveryCompleted(o, s, ctx, target).Success?
    ensures target in s.accounts && target in s.recoveries
    ensures var d, key := o.deviceId(s.recoveries[target].newRootKey), s.recoveries[target].newRootKey;
      && Recovered(s.accounts[target], d, key).Success?
      && RecoveryCompleted(o, s, ctx, target).value.accounts
         == s.accounts[target := Recovered(s.accounts[target], d, key).value]
  {
    hide Recovered;
  }

  lemma NonceKeepsDevices(s: State, body: TxBody, id: AccountId)
    requires NonceSpent(s, body, 0).Success?
    ensures var a, b := AccountAt(s.accounts, id), AccountAt(NonceSpent(s, body, 0).value.accounts, id);
      b.devices == a.devices && b.revokedDevices == a.revokedDevices
  {
  }

  /** After an accepted completion the account has a device that may sign exactly when the
      approved key's device was neither revoked before nor registered. */
  lemma RecoveryRestores(o: Oracle, s: State, ctx: BlockContext, body: TxBody)
    requires body.kind.RecoveryFinalise? && TxApplied(o, s, ctx, body).Success?
    ensures var target := body.kind.account;
      && target in s.recoveries
      && var a, b := AccountAt(s.accounts, target), AccountAt(TxApplied(o, s, ctx, body).value.accounts, target);
      && var d := o.deviceId(s.recoveries[target].newRootKey);
      && b.devices.Keys == {d}
      && ((exists e :: e in b.devices && e !in b.revokedDevices) <==> d !in a.revokedDevices && d !in a.devices)
  {
    hide FeeCharged, NonceSpent, RecoveryCompleted, Recovered;
    var target := body.kind.account;
    var charged := FeeCharged(s, ctx, body).value;
    FeeBooks(s, ctx, body);
    FeeStanding(s, ctx, body);
    assert SameStanding(AccountAt(s.accounts, target), AccountAt(charged.accounts, target));
    CompletionRecovers(o, charged, ctx, target);
    var key := charged.recoveries[target].newRootKey;
    Authority.RecoveredCanAct(charged.accounts[target], o.deviceId(key), key);
    NonceKeepsDevices(RecoveryCompleted(o, charged, ctx, target).value, body, target);
  }

  lemma TracedWindow(o: Oracle, s: State, events: seq<Event>, target: AccountId, p: PendingRecovery)
    requires Traced(o, s, events, target, p)
    ensures p.window.duration == RECOVERY_WINDOW
  {
  }

  // ----- Closed assets

  ghost predicate ClosedAndLeft(assets: AssetMap, id: AssetId) {
    id in assets && !assets[id].reissuable && assets[id].supply > 0
  }

  lemma CreationKeeps(assets: AssetMap, tickers: TickerMap, other: AssetId, issuer: AccountId, ticker: Name,
      decimals: u8,
                      reissuable: bool, id: AssetId)
    requires id in assets && Created(assets, tickers, other, issuer, ticker, decimals, reissuable).Success?
    ensures var a := Created(assets, tickers, other, issuer, ticker, decimals, reissuable).value.0;
      id in a && a[id] == assets[id]
  {
  }

  lemma SupplyKeeps(assets: AssetMap, other: AssetId, caller: AccountId, amount: Amount, id: AssetId)
    requires ClosedAndLeft(assets, id)
    ensures var r := Minted(assets, other, caller, amount);
      r.Success? ==> id in r.value && r.value[id].supply <= assets[id].supply
    ensures var r := Burned(assets, other, amount);
      r.Success? ==> id in r.value && r.value[id].supply <= assets[id].supply
  {
  }

  lemma MadeSupply(s: State, other: AssetId, issuer: AccountId, ticker: Name, decimals: u8, reissuable: bool,
      id: AssetId)
    requires ClosedAndLeft(s.assets, id) && AssetMade(s, other, issuer, ticker, decimals, reissuable).Success?
    ensures var t := AssetMade(s, other, issuer, ticker, decimals, reissuable).value;
      id in t.assets && t.assets[id] == s.assets[id]
  {
    hide AssetMade, Created;
    MadeBooks(s, other, issuer, ticker, decimals, reissuable);
    CreationKeeps(s.assets, s.tickers, other, issuer, ticker, decimals, reissuable, id);
  }

  lemma MovedSupply(s: State, caller: AccountId, other: AssetId, to: AccountId, amount: Amount, id: AssetId)
    requires ClosedAndLeft(s.assets, id)
    ensures var r := AssetMinted(s, caller, other, to, amount);
      r.Success? ==> id in r.value.assets && r.value.assets[id].supply <= s.assets[id].supply
    ensures var r := AssetBurned(s, caller, other, amount);
      r.Success? ==> id in r.value.assets && r.value.assets[id].supply <= s.assets[id].supply
  {
    hide AssetMinted, AssetBurned, Minted, Burned, ClosedAndLeft;
    AssetBooks(s, caller, other, to, amount);
    SupplyKeeps(s.assets, other, caller, amount, id);
  }

  lemma KindSupply(o: Oracle, s: State, ctx: BlockContext, body: TxBody, id: AssetId)
    requires KindApplied(o, s, ctx, body).Success? && ClosedAndLeft(s.assets, id)
    ensures id in KindApplied(o, s, ctx, body).value.assets
    ensures KindApplied(o, s, ctx, body).value.assets[id].supply <= s.assets[id].supply
  {
    if LedgerInvariants.IsAssetKind(body.kind) {
      hide AssetMade, AssetMinted, AssetBurned;
      var caller := body.account;
      match body.kind {
        case AssetCreate(ticker, decimals, reissuable) =>
          MadeSupply(s, o.assetId(caller, o.txId(body)), caller, ticker, decimals, reissuable, id);
        case AssetMint(asset, to, amount) => MovedSupply(s, caller, asset, to, amount, id);
        case AssetBurn(asset, amount) => MovedSupply(s, caller, asset, caller, amount, id);
      }
    } else {
      hide KindApplied;
      LedgerInvariants.KindKeepsRecords(o, s, ctx, body);
    }
  }

  lemma EventSupply(o: Oracle, s: State, e: Event, id: AssetId)
    requires ClosedAndLeft(s.assets, id)
    ensures id in Next(o, s, e).assets && Next(o, s, e).assets[id].supply <= s.assets[id].supply
  {
    hide TxApplied, KindApplied, FeeCharged, Housekept;
    if After(o, s, e).Success? {
      match e
      case Submit(ctx, body) =>
        TransactionBooks(o, s, ctx, body);
        KindSupply(o, FeeCharged(s, ctx, body).value, ctx, body, id);
      case Housekeep(finalized) => HousekeepingBooks(s, finalized);
      case ClearCounters =>
    }
  }

  /** Over every run in which some of a closed asset is always left, its supply only falls. */
  lemma {:induction false} ClosedSupplyOnlyFalls(o: Oracle, s: State, events: seq<Event>, id: AssetId)
    requires forall n :: 0 <= n < |events| ==> ClosedAndLeft(Run(o, s, events[..n]).assets, id)
    requires ClosedAndLeft(s.assets, id)
    ensures id in Run(o, s, events).assets && Run(o, s, events).assets[id].supply <= s.assets[id].supply
    decreases |events|
  {
    hide Next;
    if events != [] {
      var n := |events| - 1;
      forall m | 0 <= m < n
        ensures ClosedAndLeft(Run(o, s, events[..n][..m]).assets, id)
      {
        assert events[..n][..m] == events[..m];
      }
      ClosedSupplyOnlyFalls(o, s, events[..n], id);
      EventSupply(o, Run(o, s, events[..n]), events[n], id);
    }
  }
}
