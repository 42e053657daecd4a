/** Exactly which transactions a solvent ledger accepts, kind by kind. */
module Acceptance {
  import opened Prelude
  import opened Types
  import opened Amounts
  import opened Accounts
  import opened Chains
  import opened PayWord
  import opened RecoveryBooks
  import opened SlashingBooks
  import opened LedgerSpec
  import opened Conservation
  import opened LedgerInvariants
  import opened Standing
  import opened Authority
  import opened Custody
  import opened Nomad
  import opened Overflow
  import opened Admission
  import opened Liveness
  import H = Histories

  // ----- What each kind asks for

  /** The link is that many links before the root, and no fewer. */
  ghost predicate Reaches(link: Hash -> Hash, root: Hash, claimed: u32, revealed: Hash) {
    && 1 <= claimed <= 65_536 && Iterate(link, claimed, revealed) == root
    && forall j :: 1 <= j < claimed ==> Iterate(link, j, revealed) != root
  }

  /** Two different transactions of one account, device, chain and slot, neither of them
      evidence itself, both signed under the device's registered key. */
  predicate Equivocates(o: Oracle, s: State, device: DeviceId, first: Transaction, second: Transaction) {
    var a, b := first.body, second.body;
    && a.account in s.accounts && device in s.accounts[a.account].devices
    && var key := s.accounts[a.account].devices[device].key;
      && !a.kind.AccountEquivocation? && !a.kind.ValidatorEquivocation?
      && !b.kind.AccountEquivocation? && !b.kind.ValidatorEquivocation?
      && a.chain == b.chain && a.account == b.account && a.device == b.device == device && a.nonce == b.nonce
      && o.txId(a) != o.txId(b) && o.deviceId(key) == device
      && o.verifies(key, o.txDigest(a.chain, o.txId(a)), first.signature)
      && o.verifies(key, o.txDigest(b.chain, o.txId(b)), second.signature)
  }

  /** Two different headers of one chain and height by this proposer, both signed under one of
      its registered keys. */
  predicate SignedTwice(o: Oracle, s: State, v: AccountId, first: SignedHeader, second: SignedHeader) {
    var a, b := first.header, second.header;
    && v in s.accounts && a.proposer == b.proposer == v && a.chain == b.chain && a.height == b.height
    && o.blockId(a) != o.blockId(b)
    && exists d :: d in s.accounts[v].devices && (var key := s.accounts[v].devices[d].key;
         && o.verifies(key, o.blockDigest(a.chain, o.blockId(a)), first.signature)
         && o.verifies(key, o.blockDigest(b.chain, o.blockId(b)), second.signature))
  }

  /** Room for the half of a margin that is burned and the half that is paid. */
  predicate HasRoom(burned: int, balance: int, margin: Amount) {
    margin == 0 || (burned + margin - margin / 2 < U64_LIMIT && balance + margin / 2 < U64_LIMIT)
  }

  /** What the signer must be entitled to. `left` is what it has of an asset once the fee is
      settled, `burned` the burned total by then. */
  ghost predicate Entitled(o: Oracle, s: State, ctx: BlockContext, body: TxBody, left: Asset -> int, burned: int) {
    var me := AccountAt(s.accounts, body.account);
    match body.kind
    case Transfer(_, asset, amount) => amount <= left(asset)
    case NomadSet(credit, _) => Shares(me.devices) <= credit
    case DeviceAdd(key, lane, share) =>
      && o.deviceId(key) !in me.devices && o.deviceId(key) !in me.revokedDevices
      && me.nextLane <= lane < U32_LIMIT - 1 && (forall d :: d in me.devices ==> me.devices[d].lane != lane)
      && Shares(me.devices) + share <= me.nomadCredit
    case DeviceRevoke(device) => device in me.devices
    case NameCommit(commitment) => commitment !in s.commitments
    case NameReveal(name, salt) =>
      var c := o.nameCommitment(name, salt, body.account);
      && |name| >= 6 && name !in s.owners && c in s.commitments && s.commitments[c].account == body.account
      && SaturatingAdd(s.commitments[c].committedAtFinalized, 10) <= ctx.finalizedHeight
      && ctx.finalizedHeight <= SaturatingAdd(s.commitments[c].committedAtFinalized, 8_640)
    case GuardianSet(_, _) => true
    case RecoveryStart(target, key) =>
      && body.account in AccountAt(s.accounts, target).guardians
      && (target in s.recoveries ==>
           s.recoveries[target].newRootKey == key && body.account !in s.recoveries[target].approvals)
    case RecoveryCancel(target) => target == body.account && target in s.recoveries
    case RecoveryFinalise(target) =>
      && (target in s.accounts || target == ctx.proposer) && target in s.recoveries
      && |s.recoveries[target].approvals| >= AccountAt(s.accounts, target).guardianThreshold
      && s.recoveries[target].window.openedAtFinalized + s.recoveries[target].window.duration <= ctx.finalizedHeight
      && AccountAt(s.accounts, target).nextLane < U32_LIMIT - 1
    case Bond(amount, _) => amount <= left(None)
    case Unbond(amount) => amount <= BondAt(s, body.account)
    case PurseOpen(counterparty, asset, deposit, _, trancheValue, _) =>
      && trancheValue > 0 && deposit <= left(asset) && counterparty != body.account && o.txId(body) !in s.purses
    case PurseCloseCooperative(id, toPayer, toPayee, _) =>
      && id in s.purses && (body.account == s.purses[id].payer || body.account == s.purses[id].payee)
      && toPayer + toPayee == s.purses[id].deposit
    case PurseCloseUnilateral(id, claimed, link) =>
      && id in s.purses && (body.account == s.purses[id].payer || body.account == s.purses[id].payee)
      && s.purses[id].closing.None? && claimed <= s.purses[id].capacity
      && (claimed > 0 ==> Reaches(o.payword, s.purses[id].paywordRoot, claimed, link))
    case PurseDispute(id, claimed, link) =>
      && id in s.purses && s.purses[id].closing.Some?
      && s.purses[id].closing.value.claimedTranches < claimed <= s.purses[id].capacity
      && Reaches(o.payword, s.purses[id].paywordRoot, claimed, link)
    case AssetCreate(ticker, _, _) => o.assetId(body.account, o.txId(body)) !in s.assets && ticker !in s.tickers
    case AssetMint(id, _, amount) =>
      && amount > 0 && id in s.assets && s.assets[id].issuer == body.account
      && (s.assets[id].reissuable || s.assets[id].supply == 0) && s.assets[id].supply + amount < U64_LIMIT
    case AssetBurn(id, amount) => 0 < amount <= left(Some(id)) && id in s.assets
    case AccountEquivocation(device, first, second) =>
      && Equivocates(o, s, device, first, second)
      && AccountOffence(first.body.account, device, first.body.nonce.lane, first.body.nonce.sequence)
           !in s.accountOffences
      && HasRoom(burned, left(None), MarginAt(s, first.body.account))
    case ValidatorEquivocation(v, first, second) =>
      SignedTwice(o, s, v, first, second) && ValidatorOffence(v, first.header.height) !in s.validatorOffences
  }

  // ----- Each kind succeeds exactly for who is entitled

  lemma OpenExactly(s: State, id: PurseId, payer: AccountId, payee: AccountId, asset: Asset, deposit: Amount,
                    root: Hash, trancheValue: Amount, expiry: u64)
    requires payer in s.accounts
    ensures PurseOpened(s, id, payer, payee, asset, deposit, root, trancheValue, expiry).Success? <==>
      trancheValue > 0 && deposit <= BalanceAt(s, payer, asset) && payee != payer && id !in s.purses
  {
    DebitKeepsPurses(s, payer, asset, deposit);
    hide Debited, CapacityOf, BalanceAt;
  }

  lemma DebitKeepsPurses(s: State, id: AccountId, asset: Asset, amount: Amount)
    requires id in s.accounts
    ensures Debited(s, id, asset, amount).Success? <==> amount <= BalanceAt(s, id, asset)
    ensures Debited(s, id, asset, amount).Success? ==> Debited(s, id, asset, amount).value.purses == s.purses
  {
  }

  lemma CloseExactly(s: State, id: PurseId, caller: AccountId, toPayer: Amount, toPayee: Amount)
    requires forall asset :: Value(s, asset) < U64_LIMIT
    ensures PurseClosed(s, id, caller, toPayer, toPayee).Success? <==>
      && id in s.purses && (caller == s.purses[id].payer || caller == s.purses[id].payee)
      && toPayer + toPayee == s.purses[id].deposit
  {
    CloseNeverOverflows(s, id, caller, toPayer, toPayee);
    hide Value, Credited;
  }

  lemma ReachesExactly(link: Hash -> Hash, root: Hash, claimed: u32, revealed: Hash)
    requires claimed > 0
    ensures Verified(link, root, Token(claimed, revealed)).Pass? <==> Reaches(link, root, claimed, revealed)
  {
    hide Iterate;
  }

  lemma UnilateralExactly(o: Oracle, s: State, ctx: BlockContext, id: PurseId, caller: AccountId, claimed: u32,
      link: Hash)
    ensures PurseClosing(o, s, ctx, id, caller, claimed, link).Success? <==>
      && id in s.purses && (caller == s.purses[id].payer || caller == s.purses[id].payee)
      && s.purses[id].closing.None? && claimed <= s.purses[id].capacity
      && (claimed > 0 ==> Reaches(o.payword, s.purses[id].paywordRoot, claimed, link))
  {
    if claimed > 0 && id in s.purses {
      ReachesExactly(o.payword, s.purses[id].paywordRoot, claimed, link);
    }
    hide Verified, Reaches;
  }

  lemma DisputeExactly(o: Oracle, s: State, id: PurseId, claimed: u32, link: Hash)
    ensures PurseContested(o, s, id, claimed, link).Success? <==>
      && id in s.purses && s.purses[id].closing.Some?
      && s.purses[id].closing.value.claimedTranches < claimed <= s.purses[id].capacity
      && Reaches(o.payword, s.purses[id].paywordRoot, claimed, link)
  {
    if claimed > 0 && id in s.purses {
      ReachesExactly(o.payword, s.purses[id].paywordRoot, claimed, link);
    }
    hide Verified, Reaches;
  }

  lemma BondExactly(s: State, id: AccountId, amount: Amount)
    requires Value(s, None) < U64_LIMIT && id in s.accounts
    ensures Bonded(s, id, amount).Success? <==> amount <= BalanceAt(s, id, None)
    ensures Unbonded(s, id, amount).Success? <==> amount <= BondAt(s, id)
  {
    BondNeverOverflows(s, id, amount);
    hide Value;
  }

  lemma MintExactly(s: State, caller: AccountId, id: AssetId, to: AccountId, amount: Amount)
    requires SuppliesAgree(s)
    ensures AssetMinted(s, caller, id, to, amount).Success? <==>
      && amount > 0 && id in s.assets && s.assets[id].issuer == caller
      && (s.assets[id].reissuable || s.assets[id].supply == 0) && s.assets[id].supply + amount < U64_LIMIT
  {
    MintNeverOverflows(s, caller, id, to, amount);
    hide SuppliesAgree;
  }

  lemma BurnExactly(s: State, caller: AccountId, id: AssetId, amount: Amount)
    requires SuppliesAgree(s) && caller in s.accounts
    ensures AssetBurned(s, caller, id, amount).Success? <==>
      0 < amount <= BalanceAt(s, caller, Some(id)) && id in s.assets
  {
    AccountBound(s, caller, Some(id));
    assert Value(s, Some(id)) == SupplyOf(s, id);
    hide SuppliesAgree, Value;
  }

  lemma CreditExactly(s: State, id: AccountId, asset: Asset, amount: Amount)
    ensures Credited(s, id, asset, amount).Success? <==> BalanceAt(s, id, asset) + amount < U64_LIMIT
  {
  }

  lemma PenaltyExactly(s: State, seized: Amount, denouncer: AccountId)
    ensures PenaltyPaid(s, SplitPenalty(seized), denouncer).Success? <==>
      HasRoom(s.burned, BalanceAt(s, denouncer, None), seized)
  {
    hide SplitPenalty, Credited;
    PenaltyIsConserved(seized);
    var penalty := SplitPenalty(seized);
    if s.burned + penalty.burned < U64_LIMIT {
      CreditExactly(s.(burned := s.burned + penalty.burned), denouncer, None, penalty.toDenouncer);
    }
  }

  lemma EvidenceExactly(o: Oracle, s: State, device: DeviceId, first: Transaction, second: Transaction)
    ensures Equivocates(o, s, device, first, second) <==>
      && first.body.account in s.accounts && device in s.accounts[first.body.account].devices
      && CheckAccountEquivocation(o, device, first, second,
           s.accounts[first.body.account].devices[device].key).Pass?
  {
  }

  lemma ConvictionExactly(o: Oracle, s: State, device: DeviceId, first: Transaction, second: Transaction,
      denouncer: AccountId)
    ensures AccountPunished(o, s, device, first, second, denouncer).Success? <==>
      && Equivocates(o, s, device, first, second)
      && AccountOffence(first.body.account, device, first.body.nonce.lane, first.body.nonce.sequence)
           !in s.accountOffences
      && HasRoom(s.burned, BalanceAt(s, denouncer, None), MarginAt(s, first.body.account))
  {
    EvidenceExactly(o, s, device, first, second);
    hide CheckAccountEquivocation, SplitPenalty, PenaltyPaid, Equivocates, HasRoom;
    var accused := first.body.account;
    if accused in s.accounts {
      var a := s.accounts[accused];
      var offence := AccountOffence(accused, device, first.body.nonce.lane, first.body.nonce.sequence);
      var seized := s.(accountOffences := s.accountOffences + {offence},
                       accounts := s.accounts[accused := a.(nomadMargin := 0)]);
      PenaltyExactly(seized, a.nomadMargin, denouncer);
      assert BalanceAt(seized, denouncer, None) == BalanceAt(s, denouncer, None);
    }
  }

  lemma TwiceExactly(o: Oracle, s: State, v: AccountId, first: SignedHeader, second: SignedHeader)
    ensures SignedTwice(o, s, v, first, second) <==>
      && v in s.accounts
      && exists d :: d in s.accounts[v].devices
           && CheckValidatorEquivocation(o, v, first, second, s.accounts[v].devices[d].key)
  {
  }

  lemma ValidatorConvictionExactly(o: Oracle, s: State, v: AccountId, first: SignedHeader, second: SignedHeader,
      denouncer: AccountId)
    requires Value(s, None) < U64_LIMIT
    ensures ValidatorPunished(o, s, v, first, second, denouncer).Success? <==>
      SignedTwice(o, s, v, first, second) && ValidatorOffence(v, first.header.height) !in s.validatorOffences
  {
    TwiceExactly(o, s, v, first, second);
    ValidatorPunishmentFits(o, s, v, first, second, denouncer);
    hide CheckValidatorEquivocation, SplitPenalty, Value, SignedTwice, Credited;
  }

  lemma DeviceAddExactly(o: Oracle, s: State, id: AccountId, key: VerifyingKey, lane: Lane, share: Amount)
    requires id in s.accounts && NomadSound(s.accounts[id])
    ensures var me := s.accounts[id];
      DeviceAdded(o, s, id, key, lane, share).Success? <==>
        && o.deviceId(key) !in me.devices && o.deviceId(key) !in me.revokedDevices
        && me.nextLane <= lane < U32_LIMIT - 1 && (forall d :: d in me.devices ==> me.devices[d].lane != lane)
        && Shares(me.devices) + share <= me.nomadCredit
  {
    hide Shares;
  }

  lemma DeclareExactly(s: State, id: AccountId, credit: Amount, margin: Amount)
    requires id in s.accounts
    ensures NomadDeclared(s, id, credit, margin).Success? <==> Shares(s.accounts[id].devices) <= credit
  {
    hide Shares;
  }

  lemma RevealExactly(o: Oracle, s: State, name: Name, salt: Hash, account: AccountId, finalized: u64)
    ensures var c := o.nameCommitment(name, salt, account);
      NameRevealed(o, s, name, salt, account, finalized).Success? <==>
        && |name| >= 6 && name !in s.owners && c in s.commitments && s.commitments[c].account == account
        && SaturatingAdd(s.commitments[c].committedAtFinalized, 10) <= finalized
        && finalized <= SaturatingAdd(s.commitments[c].committedAtFinalized, 8_640)
  {
  }

  lemma RecoveryExactly(o: Oracle, s: State, ctx: BlockContext, target: AccountId, key: VerifyingKey, caller: AccountId)
    ensures RecoveryApproved(s, ctx, target, key, caller).Success? <==>
      && caller in AccountAt(s.accounts, target).guardians
      && (target in s.recoveries ==>
           s.recoveries[target].newRootKey == key && caller !in s.recoveries[target].approvals)
    ensures RecoveryDropped(s, target, caller).Success? <==> target == caller && target in s.recoveries
    ensures RecoveryCompleted(o, s, ctx, target).Success? <==>
      && target in s.accounts && target in s.recoveries
      && |s.recoveries[target].approvals| >= AccountAt(s.accounts, target).guardianThreshold
      && s.recoveries[target].window.openedAtFinalized + s.recoveries[target].window.duration <= ctx.finalizedHeight
      && AccountAt(s.accounts, target).nextLane < U32_LIMIT - 1
  {
  }

  lemma NamesExactly(o: Oracle, s: State, c: Hash, id: AssetId, ticker: Name, issuer: AccountId, finalized: u64,
      decimals: u8, reissuable: bool)
    ensures NameCommitted(s, c, issuer, finalized).Success? <==> c !in s.commitments
    ensures AssetMade(s, id, issuer, ticker, decimals, reissuable).Success? <==> id !in s.assets && ticker !in s.tickers
  {
  }

  predicate IsMoneyKind(kind: TxKind) {
    kind.Transfer? || kind.Bond? || kind.Unbond? || kind.PurseOpen? || kind.PurseCloseCooperative? || kind.AssetMint?
    || kind.AssetBurn? || kind.AccountEquivocation? || kind.ValidatorEquivocation?
  }

  lemma MoneySucceedsExactly(o: Oracle, s: State, ctx: BlockContext, body: TxBody)
    requires body.account in s.accounts && IsMoneyKind(body.kind)
    requires SuppliesAgree(s) && forall asset :: Value(s, asset) < U64_LIMIT
    ensures KindApplied(o, s, ctx, body).Success? <==>
      Entitled(o, s, ctx, body, b => BalanceAt(s, body.account, b), s.burned)
  {
    hide Transferred, Bonded, Unbonded, PurseOpened, PurseClosed, AssetMinted, AssetBurned, AccountPunished,
      ValidatorPunished, Value, SuppliesAgree, Equivocates, SignedTwice, BalanceAt, BondAt, MarginAt;
    var id := body.account;
    match body.kind
    case Transfer(to, asset, amount) => TransferExactly(s, id, to, asset, amount);
    case Bond(amount, _) => BondExactly(s, id, amount);
    case Unbond(amount) => BondExactly(s, id, amount);
    case PurseOpen(counterparty, asset, deposit, root, trancheValue, expiry) =>
      OpenExactly(s, o.txId(body), id, counterparty, asset, deposit, root, trancheValue, expiry);
    case PurseCloseCooperative(purse, toPayer, toPayee, _) => CloseExactly(s, purse, id, toPayer, toPayee);
    case AssetMint(asset, to, amount) => MintExactly(s, id, asset, to, amount);
    case AssetBurn(asset, amount) => BurnExactly(s, id, asset, amount);
    case AccountEquivocation(device, first, second) => ConvictionExactly(o, s, device, first, second, id);
    case ValidatorEquivocation(v, first, second) => ValidatorConvictionExactly(o, s, v, first, second, id);
  }

  lemma TransferExactly(s: State, from: AccountId, to: AccountId, asset: Asset, amount: Amount)
    requires Value(s, asset) < U64_LIMIT && from in s.accounts
    ensures Transferred(s, from, to, asset, amount).Success? <==> amount <= BalanceAt(s, from, asset)
  {
    TransferredExactly(s, from, to, asset, amount);
    hide Transferred, Value;
  }

  lemma OtherSucceedsExactly(o: Oracle, s: State, ctx: BlockContext, body: TxBody)
    requires body.account in s.accounts && ctx.proposer in s.accounts && AllNomadSound(s) && !IsMoneyKind(body.kind)
    ensures KindApplied(o, s, ctx, body).Success? <==>
      Entitled(o, s, ctx, body, b => BalanceAt(s, body.account, b), s.burned)
  {
    hide NomadDeclared, DeviceAdded, PurseClosing, PurseContested, AssetMade, NameCommitted, NameRevealed,
      RecoveryApproved, RecoveryDropped, RecoveryCompleted, NomadSound, Reaches, Shares, BalanceAt;
    assert NomadSound(AccountAt(s.accounts, body.account));
    var id := body.account;
    match body.kind
    case NomadSet(credit, margin) => DeclareExactly(s, id, credit, margin);
    case DeviceAdd(key, lane, share) => DeviceAddExactly(o, s, id, key, lane, share);
    case PurseCloseUnilateral(purse, claimed, link) => UnilateralExactly(o, s, ctx, purse, id, claimed, link);
    case PurseDispute(purse, claimed, link) => DisputeExactly(o, s, purse, claimed, link);
    case AssetCreate(ticker, decimals, reissuable) =>
      NamesExactly(o, s, ZERO_HASH, o.assetId(id, o.txId(body)), ticker, id, ctx.finalizedHeight, decimals, reissuable);
    case NameCommit(c) => NamesExactly(o, s, c, AssetId(c), "a", id, ctx.finalizedHeight, 0, false);
    case NameReveal(name, salt) => RevealExactly(o, s, name, salt, id, ctx.finalizedHeight);
    case RecoveryStart(target, key) => RecoveryExactly(o, s, ctx, target, key, id);
    case RecoveryCancel(target) => RecoveryExactly(o, s, ctx, target, TEST_KEY, id);
    case RecoveryFinalise(target) => RecoveryExactly(o, s, ctx, target, TEST_KEY, id);
    case DeviceRevoke(_) =>
    case GuardianSet(_, _) =>
  }

  /** On a ledger whose supplies agree and whose VAN fits, a kind succeeds exactly for a signer
      who is entitled to it. */
  lemma KindSucceedsExactly(o: Oracle, s: State, ctx: BlockContext, body: TxBody)
    requires body.account in s.accounts && ctx.proposer in s.accounts && AllNomadSound(s)
    requires SuppliesAgree(s) && forall asset :: Value(s, asset) < U64_LIMIT
    ensures KindApplied(o, s, ctx, body).Success? <==>
      Entitled(o, s, ctx, body, b => BalanceAt(s, body.account, b), s.burned)
  {
    hide KindApplied, Entitled, Value, SuppliesAgree, AllNomadSound;
    if IsMoneyKind(body.kind) {
      MoneySucceedsExactly(o, s, ctx, body);
    } else {
      OtherSucceedsExactly(o, s, ctx, body);
    }
  }

  // ----- The fee changes nobody's entitlement

  lemma FeeKeys(s: State, ctx: BlockContext, body: TxBody)
    requires FeeCharged(s, ctx, body).Success?
    ensures body.account in s.accounts
    ensures FeeCharged(s, ctx, body).value.accounts.Keys == s.accounts.Keys + {ctx.proposer}
  {
    hide SplitFee;
  }

  /** The burn is what neither the proposer nor the pot gets. */
  function FeeBurn(fee: Amount): int {
    fee - 70 * fee / 100 - 20 * fee / 100
  }

  lemma FeeTotals(s: State, ctx: BlockContext, body: TxBody)
    requires FeeCharged(s, ctx, body).Success?
    ensures var t := FeeCharged(s, ctx, body).value;
      && t.burned == s.burned + FeeBurn(body.fee)
      && t.contextPot == s.contextPot + 20 * body.fee / 100 && t.fees == s.fees + body.fee
  {
    hide FeeCharged, SplitFee;
    FeeShares(body.fee);
    FeeKeepsRecords(s, ctx, body);
  }

  /** Two ledgers alike in all that entitlement looks at. */
  ghost predicate Alike(s: State, t: State, proposer: AccountId) {
    && t.accounts.Keys == s.accounts.Keys + {proposer}
    && SameStandings(s, t) && (forall id :: SameStakes(s, t, id))
    && t.purses == s.purses && t.assets == s.assets && t.tickers == s.tickers
    && t.owners == s.owners && t.commitments == s.commitments && t.recoveries == s.recoveries
    && t.accountOffences == s.accountOffences && t.validatorOffences == s.validatorOffences
  }

  lemma FeeLeavesAlike(s: State, ctx: BlockContext, body: TxBody)
    requires FeeCharged(s, ctx, body).Success?
    ensures Alike(s, FeeCharged(s, ctx, body).value, ctx.proposer)
  {
    hide FeeCharged, SameStandings, SameStakes, BalanceAt;
    FeeKeys(s, ctx, body);
    FeeStanding(s, ctx, body);
    FeeKeepsRecords(s, ctx, body);
    H.FeeBooks(s, ctx, body);
    forall id
      ensures SameStakes(s, FeeCharged(s, ctx, body).value, id)
    {
      FeeMoves(s, ctx, body, id, None);
    }
  }

  lemma SameDevices(s: State, t: State, proposer: AccountId, id: AccountId, device: DeviceId)
    requires Alike(s, t, proposer)
    ensures SameStanding(AccountAt(s.accounts, id), AccountAt(t.accounts, id)) && SameStakes(s, t, id)
    ensures id in t.accounts && device in t.accounts[id].devices <==>
      id in s.accounts && device in s.accounts[id].devices
    ensures id in t.accounts && device in t.accounts[id].devices ==>
      t.accounts[id].devices[device] == s.accounts[id].devices[device]
  {
  }

  lemma SameEvidence(o: Oracle, s: State, t: State, proposer: AccountId, device: DeviceId, first: Transaction,
      second: Transaction)
    requires Alike(s, t, proposer)
    ensures Equivocates(o, t, device, first, second) <==> Equivocates(o, s, device, first, second)
  {
    SameDevices(s, t, proposer, first.body.account, device);
    hide Alike;
  }

  lemma SameHeaders(o: Oracle, s: State, t: State, proposer: AccountId, v: AccountId, first: SignedHeader,
      second: SignedHeader)
    requires Alike(s, t, proposer)
    ensures SignedTwice(o, t, v, first, second) <==> SignedTwice(o, s, v, first, second)
  {
    hide Alike;
    forall d
      ensures v in t.accounts && d in t.accounts[v].devices <==> v in s.accounts && d in s.accounts[v].devices
      ensures v in t.accounts && d in t.accounts[v].devices ==>
        t.accounts[v].devices[d] == s.accounts[v].devices[d]
    {
      SameDevices(s, t, proposer, v, d);
    }
  }

  lemma SameStakesAt(s: State, t: State, proposer: AccountId, id: AccountId)
    requires Alike(s, t, proposer)
    ensures BondAt(t, id) == BondAt(s, id) && MarginAt(t, id) == MarginAt(s, id)
  {
    assert SameStakes(s, t, id);
  }

  lemma ConvictionAlike(o: Oracle, s: State, t: State, ctx: BlockContext, body: TxBody, left: Asset -> int,
      same: Asset -> int, burned: int)
    requires Alike(s, t, ctx.proposer) && (forall b :: left(b) == same(b))
      && (body.kind.AccountEquivocation? || body.kind.ValidatorEquivocation?)
    ensures Entitled(o, t, ctx, body, left, burned) <==> Entitled(o, s, ctx, body, same, burned)
  {
    hide Entitled, Alike;
    if body.kind.AccountEquivocation? {
      AccountConvictionAlike(o, s, t, ctx, body, left, same, burned);
    } else {
      ValidatorConvictionAlike(o, s, t, ctx, body, left, same, burned);
    }
  }

  lemma AccountConvictionAlike(o: Oracle, s: State, t: State, ctx: BlockContext, body: TxBody, left: Asset -> int,
      same: Asset -> int, burned: int)
    requires Alike(s, t, ctx.proposer) && (forall b :: left(b) == same(b)) && body.kind.AccountEquivocation?
    ensures Entitled(o, t, ctx, body, left, burned) <==> Entitled(o, s, ctx, body, same, burned)
  {
    AlikeBooks(s, t, ctx.proposer);
    hide SameStandings, Equivocates, SignedTwice, Alike, BondAt, MarginAt;
    SameEvidence(o, s, t, ctx.proposer, body.kind.accused, body.kind.first, body.kind.second);
    SameStakesAt(s, t, ctx.proposer, body.kind.first.body.account);
  }

  lemma ValidatorConvictionAlike(o: Oracle, s: State, t: State, ctx: BlockContext, body: TxBody, left: Asset -> int,
      same: Asset -> int, burned: int)
    requires Alike(s, t, ctx.proposer) && (forall b :: left(b) == same(b)) && body.kind.ValidatorEquivocation?
    ensures Entitled(o, t, ctx, body, left, burned) <==> Entitled(o, s, ctx, body, same, burned)
  {
    AlikeBooks(s, t, ctx.proposer);
    hide SameStandings, Equivocates, SignedTwice, Alike, BondAt, MarginAt;
    SameHeaders(o, s, t, ctx.proposer, body.kind.validator, body.kind.firstHeader, body.kind.secondHeader);
  }

  lemma MoneyAlike(o: Oracle, s: State, t: State, ctx: BlockContext, body: TxBody, left: Asset -> int,
      same: Asset -> int, burned: int)
    requires Alike(s, t, ctx.proposer) && (forall b :: left(b) == same(b)) && IsMoneyKind(body.kind)
    ensures Entitled(o, t, ctx, body, left, burned) <==> Entitled(o, s, ctx, body, same, burned)
  {
    if body.kind.AccountEquivocation? || body.kind.ValidatorEquivocation? {
      hide Entitled, Alike;
      ConvictionAlike(o, s, t, ctx, body, left, same, burned);
    } else {
      AlikeBooks(s, t, ctx.proposer);
      if body.kind.Unbond? {
        SameStakesAt(s, t, ctx.proposer, body.account);
      }
      hide Alike, BondAt, MarginAt;
    }
  }

  lemma AlikeBooks(s: State, t: State, proposer: AccountId)
    requires Alike(s, t, proposer)
    ensures t.accounts.Keys == s.accounts.Keys + {proposer}
    ensures t.purses == s.purses && t.assets == s.assets && t.tickers == s.tickers
    ensures t.owners == s.owners && t.commitments == s.commitments && t.recoveries == s.recoveries
    ensures t.accountOffences == s.accountOffences && t.validatorOffences == s.validatorOffences
  {
  }

  lemma OtherAlike(o: Oracle, s: State, t: State, ctx: BlockContext, body: TxBody, left: Asset -> int,
      same: Asset -> int, burned: int)
    requires Alike(s, t, ctx.proposer) && (forall b :: left(b) == same(b)) && !IsMoneyKind(body.kind)
    ensures Entitled(o, t, ctx, body, left, burned) <==> Entitled(o, s, ctx, body, same, burned)
  {
    AlikeBooks(s, t, ctx.proposer);
    hide SameStandings, Reaches, Shares, Alike, SameStakes;
    SameDevices(s, t, ctx.proposer, body.account, body.device);
    match body.kind
    case RecoveryStart(target, _) => SameDevices(s, t, ctx.proposer, target, body.device);
    case RecoveryFinalise(target) => SameDevices(s, t, ctx.proposer, target, body.device);
    case _ =>
  }

  lemma EntitledAlike(o: Oracle, s: State, t: State, ctx: BlockContext, body: TxBody, left: Asset -> int,
      same: Asset -> int, burned: int)
    requires Alike(s, t, ctx.proposer) && (forall b :: left(b) == same(b))
    ensures Entitled(o, t, ctx, body, left, burned) <==> Entitled(o, s, ctx, body, same, burned)
  {
    hide Entitled, Alike;
    if IsMoneyKind(body.kind) {
      MoneyAlike(o, s, t, ctx, body, left, same, burned);
    } else {
      OtherAlike(o, s, t, ctx, body, left, same, burned);
    }
  }

  // ----- The signer is still there, in its slot

  lemma EditKeepsSigner(s: State, me: AccountId, credit: Amount, margin: Amount, device: DeviceId,
      guardians: set<AccountId>, threshold: u32)
    ensures NomadDeclared(s, me, credit, margin).Success? ==> me in NomadDeclared(s, me, credit, margin).value.accounts
    ensures DeviceDropped(s, me, device).Success? ==> me in DeviceDropped(s, me, device).value.accounts
    ensures GuardiansSet(s, me, guardians, threshold).Success? ==>
      me in GuardiansSet(s, me, guardians, threshold).value.accounts
  {
    hide AllocatedNomad;
  }

  lemma NewDeviceKeepsSigner(o: Oracle, s: State, me: AccountId, key: VerifyingKey, lane: Lane, share: Amount)
    ensures DeviceAdded(o, s, me, key, lane, share).Success? ==>
      me in DeviceAdded(o, s, me, key, lane, share).value.accounts
  {
    hide AllocatedNomad;
  }

  lemma RecoveryKeepsSigner(o: Oracle, s: State, ctx: BlockContext, me: AccountId, target: AccountId)
    requires me in s.accounts
    ensures RecoveryCompleted(o, s, ctx, target).Success? ==> me in RecoveryCompleted(o, s, ctx, target).value.accounts
  {
    hide Finalised, Recovered;
  }

  lemma SignerStays(o: Oracle, s: State, ctx: BlockContext, body: TxBody)
    requires KindApplied(o, s, ctx, body).Success? && body.account in s.accounts
    requires body.device in s.accounts[body.account].devices
    ensures body.account in KindApplied(o, s, ctx, body).value.accounts
  {
    if LeavesStanding(body.kind) {
      hide KindApplied;
      KindStanding(o, s, ctx, body);
      assert SameStanding(AccountAt(s.accounts, body.account),
          AccountAt(KindApplied(o, s, ctx, body).value.accounts, body.account));
    } else {
      hide Transferred, NomadDeclared, DeviceAdded, DeviceDropped, Bonded, Unbonded, PurseOpened, PurseClosed,
        PurseClosing, PurseContested, AssetMade, AssetMinted, AssetBurned, NameCommitted, NameRevealed, GuardiansSet,
        RecoveryApproved, RecoveryDropped, RecoveryCompleted, AccountPunished, ValidatorPunished;
      var me := body.account;
      match body.kind
      case NomadSet(credit, margin) => EditKeepsSigner(s, me, credit, margin, body.device, {}, 0);
      case DeviceAdd(key, lane, share) => NewDeviceKeepsSigner(o, s, me, key, lane, share);
      case DeviceRevoke(device) => EditKeepsSigner(s, me, 0, 0, device, {}, 0);
      case GuardianSet(guardians, threshold) => EditKeepsSigner(s, me, 0, 0, body.device, guardians, threshold);
      case RecoveryFinalise(target) => RecoveryKeepsSigner(o, s, ctx, me, target);
    }
  }

  lemma SlotIsNext(o: Oracle, s: State, ctx: BlockContext, body: TxBody)
    requires Admitted(s, ctx, body).Success? && FeeCharged(s, ctx, body).Success?
    requires KindApplied(o, FeeCharged(s, ctx, body).value, ctx, body).Success?
    ensures var changed := KindApplied(o, FeeCharged(s, ctx, body).value, ctx, body).value;
      body.account in changed.accounts && changed.accounts[body.account].Accepts(body.nonce)
  {
    hide FeeCharged, KindApplied, Admitted, SoundStep;
    var charged := FeeCharged(s, ctx, body).value;
    AdmittedSlot(s, ctx, body);
    AdmittedNomad(s, ctx, body);
    PayerStays(s, ctx, body);
    FeeStanding(s, ctx, body);
    assert SameStanding(AccountAt(s.accounts, body.account), AccountAt(charged.accounts, body.account));
    SignerStays(o, charged, ctx, body);
    KindStep(o, charged, ctx, body);
    assert SeqAt(KindApplied(o, charged, ctx, body).value, body.account, body.nonce.lane)
        == SeqAt(charged, body.account, body.nonce.lane);
  }

  /** On a solvent ledger a transaction of any kind, on either rung, is accepted exactly when it
      is admissible, its fee can be paid, its signer is entitled to what the kind asks once
      the fee is settled, and its lane is not at its end. */
  lemma AcceptedExactly(o: Oracle, s: State, ctx: BlockContext, body: TxBody)
    requires Solvent(s) && AllNomadSound(s)
    ensures TxApplied(o, s, ctx, body).Success? <==>
      && Admissible(s, ctx, body)
      && body.fee <= BalanceAt(s, body.account, None)
      && Entitled(o, s, ctx, body, b => LeftAfterFee(s, ctx, body, b), s.burned + FeeBurn(body.fee))
      && body.nonce.sequence + 1 < U64_LIMIT
  {
    hide FeeCharged, KindApplied, NonceSpent, Admitted, Admissible, Entitled, Solvent, AllNomadSound, LeftAfterFee,
      FeeBurn;
    AdmittedExactly(s, ctx, body);
    if Admitted(s, ctx, body).Success? {
      AdmittedSlot(s, ctx, body);
      FeePaidExactly(s, ctx, body);
      if FeeCharged(s, ctx, body).Success? {
        EntitledExactly(o, s, ctx, body);
        if KindApplied(o, FeeCharged(s, ctx, body).value, ctx, body).Success? {
          SlotIsNext(o, s, ctx, body);
          NonceNeverOverflows(o, s, ctx, body);
          SlotSpentExactly(KindApplied(o, FeeCharged(s, ctx, body).value, ctx, body).value, body,
              Admitted(s, ctx, body).value);
        }
      }
    }
  }

  lemma EntitledExactly(o: Oracle, s: State, ctx: BlockContext, body: TxBody)
    requires Solvent(s) && AllNomadSound(s) && FeeCharged(s, ctx, body).Success?
    ensures KindApplied(o, FeeCharged(s, ctx, body).value, ctx, body).Success? <==>
      Entitled(o, s, ctx, body, b => LeftAfterFee(s, ctx, body, b), s.burned + FeeBurn(body.fee))
  {
    hide FeeCharged, KindApplied, Entitled, Value, AllNomadSound, AsksTooMuch, SuppliesAgree, FeesAgree, WithinCap,
      LeftAfterFee, FeeBurn, Alike;
    var charged := FeeCharged(s, ctx, body).value;
    PayerStays(s, ctx, body);
    FeeKeys(s, ctx, body);
    SolventAfterFee(s, ctx, body);
    FeeStaysSound(s, ctx, body);
    FeeTotals(s, ctx, body);
    KindSucceedsExactly(o, charged, ctx, body);
    FeeLeavesAlike(s, ctx, body);
    forall b
      ensures BalanceAt(charged, body.account, b) == LeftAfterFee(s, ctx, body, b)
    {
      FeeLeaves(s, ctx, body, b);
    }
    EntitledAlike(o, s, charged, ctx, body, b => BalanceAt(charged, body.account, b),
        b => LeftAfterFee(s, ctx, body, b), charged.burned);
  }

  /** For instance a transfer of any asset: the fee, then the amount, a proposer counting its own
      share of the fee. */
  lemma TransferAcceptedExactly(o: Oracle, s: State, ctx: BlockContext, body: TxBody)
    requires Solvent(s) && AllNomadSound(s) && body.kind.Transfer?
    ensures TxApplied(o, s, ctx, body).Success? <==>
      && Admissible(s, ctx, body)
      && body.fee <= BalanceAt(s, body.account, None)
      && body.kind.amount <= LeftAfterFee(s, ctx, body, body.kind.asset)
      && body.nonce.sequence + 1 < U64_LIMIT
  {
    hide TxApplied, Admissible, Solvent, AllNomadSound, LeftAfterFee;
    AcceptedExactly(o, s, ctx, body);
  }
}
