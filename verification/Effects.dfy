/** Everything an accepted transaction changes besides balances: totals, channels, books, and
    who may act for an account. */
module Effects {
  import opened Prelude
  import opened Types
  import opened Accounts
  import opened Purses
  import opened PurseBooks
  import opened AssetRegistries
  import opened NameBooks
  import opened RecoveryBooks
  import opened SlashingBooks
  import opened LedgerSpec
  import opened LedgerInvariants
  import opened Standing
  import opened Custody
  import opened Clock
  import opened Histories
  import opened Admission
  import opened Acceptance

  // ----- Totals

  /** The pot rises by twenty hundredths of the fee, the fee counter by all of it, and the burned
      total by what is left of the fee and by half of what a conviction seizes. */
  lemma TotalsMoveExactly(o: Oracle, s: State, ctx: BlockContext, body: TxBody)
    requires TxApplied(o, s, ctx, body).Success?
    ensures var t := TxApplied(o, s, ctx, body).value;
      && t.fees == s.fees + body.fee && t.contextPot == s.contextPot + 20 * body.fee / 100
      && t.burned == s.burned + FeeBurn(body.fee)
           + (if body.kind.AccountEquivocation? then
                MarginAt(s, body.kind.first.body.account) - MarginAt(s, body.kind.first.body.account) / 2
              else if body.kind.ValidatorEquivocation? then
                BondAt(s, body.kind.validator) - BondAt(s, body.kind.validator) / 2
              else 0)
  {
    hide KindApplied, FeeCharged, NonceSpent, Admitted, FeeBurn, BalanceAt;
    var charged := FeeCharged(s, ctx, body).value;
    FeeTotals(s, ctx, body);
    if body.kind.AccountEquivocation? {
      FeeMoves(s, ctx, body, body.kind.first.body.account, None);
    }
    if body.kind.ValidatorEquivocation? {
      FeeMoves(s, ctx, body, body.kind.validator, None);
    }
    if IsAssetKind(body.kind) {
      AssetKindSupply(o, charged, ctx, body);
    } else {
      KindKeepsRecords(o, charged, ctx, body);
    }
    NonceKeepsRecords(KindApplied(o, charged, ctx, body).value, body, Admitted(s, ctx, body).value);
  }

  // ----- Channels

  /** The most tranches that the deposit covers, up to 65 536. */
  predicate IsCapacity(deposit: Amount, trancheValue: Amount, capacity: u32) {
    && capacity <= 65_536 && capacity * trancheValue <= deposit
    && (capacity < 65_536 ==> deposit < (capacity + 1) * trancheValue)
  }

  lemma CapacityExactly(deposit: Amount, trancheValue: Amount)
    requires trancheValue > 0
    ensures IsCapacity(deposit, trancheValue, CapacityOf(deposit, trancheValue))
  {
    CapacityIsFunded(deposit, trancheValue);
    var n := deposit / trancheValue;
    assert deposit < (n + 1) * trancheValue;
  }

  /** What each kind does to the channels. */
  ghost predicate ChannelsChange(o: Oracle, s: State, ctx: BlockContext, body: TxBody, after: PurseMap) {
    match body.kind
    case PurseOpen(counterparty, asset, deposit, root, trancheValue, expiry) =>
      exists capacity :: IsCapacity(deposit, trancheValue, capacity) && after == s.purses[o.txId(body) :=
        Purse(body.account, counterparty, asset, deposit, root, trancheValue, capacity, expiry, None)]
    case PurseCloseCooperative(id, _, _, _) => id in s.purses && after == s.purses - {id}
    case PurseCloseUnilateral(id, claimed, _) =>
      id in s.purses && after == s.purses[id := s.purses[id].(closing :=
        Some(PendingClosure(body.account, claimed, Window(ctx.finalizedHeight, 17_280), false)))]
    case PurseDispute(id, claimed, _) =>
      && id in s.purses && s.purses[id].closing.Some?
      && after == s.purses[id := s.purses[id].(closing :=
           Some(s.purses[id].closing.value.(claimedTranches := claimed, disputed := true)))]
    case _ => after == s.purses
  }

  lemma OpenChanges(s: State, id: PurseId, payer: AccountId, payee: AccountId, asset: Asset, deposit: Amount,
                    root: Hash, trancheValue: Amount, expiry: u64)
    requires PurseOpened(s, id, payer, payee, asset, deposit, root, trancheValue, expiry).Success?
    ensures trancheValue > 0 && IsCapacity(deposit, trancheValue, CapacityOf(deposit, trancheValue))
    ensures PurseOpened(s, id, payer, payee, asset, deposit, root, trancheValue, expiry).value.purses ==
      s.purses[id := Purse(payer, payee, asset, deposit, root, trancheValue, CapacityOf(deposit, trancheValue), expiry,
        None)]
  {
    CapacityExactly(deposit, trancheValue);
    hide Debited, CapacityOf, IsCapacity;
    DebitedKeeps(s, payer, asset, deposit);
  }

  lemma CloseChanges(s: State, id: PurseId, caller: AccountId, toPayer: Amount, toPayee: Amount)
    requires PurseClosed(s, id, caller, toPayer, toPayee).Success?
    ensures id in s.purses && PurseClosed(s, id, caller, toPayer, toPayee).value.purses == s.purses - {id}
  {
    hide PaidOut;
    var (m, payout) := ClosedCooperatively(s.purses, id, caller, toPayer, toPayee).value;
    PaidOutKeeps(s.(purses := m), payout);
  }

  lemma ClosureChanges(o: Oracle, s: State, ctx: BlockContext, id: PurseId, caller: AccountId, claimed: u32, link: Hash)
    ensures PurseClosing(o, s, ctx, id, caller, claimed, link).Success? ==>
      && id in s.purses
      && PurseClosing(o, s, ctx, id, caller, claimed, link).value.purses == s.purses[id := s.purses[id].(closing :=
           Some(PendingClosure(caller, claimed, Window(ctx.finalizedHeight, 17_280), false)))]
    ensures PurseContested(o, s, id, claimed, link).Success? ==>
      && id in s.purses && s.purses[id].closing.Some?
      && PurseContested(o, s, id, claimed, link).value.purses == s.purses[id := s.purses[id].(closing :=
           Some(s.purses[id].closing.value.(claimedTranches := claimed, disputed := true)))]
  {
    hide CheckClaim;
  }

  lemma KindChannels(o: Oracle, s: State, ctx: BlockContext, body: TxBody)
    requires KindApplied(o, s, ctx, body).Success?
    ensures ChannelsChange(o, s, ctx, body, KindApplied(o, s, ctx, body).value.purses)
  {
    if IsChannelKind(body.kind) {
      hide PurseOpened, PurseClosed, PurseClosing, PurseContested, IsCapacity, CapacityOf;
      var me := body.account;
      match body.kind
      case PurseOpen(counterparty, asset, deposit, root, trancheValue, expiry) =>
        OpenChanges(s, o.txId(body), me, counterparty, asset, deposit, root, trancheValue, expiry);
      case PurseCloseCooperative(purse, toPayer, toPayee, _) => CloseChanges(s, purse, me, toPayer, toPayee);
      case PurseCloseUnilateral(purse, claimed, link) => ClosureChanges(o, s, ctx, purse, me, claimed, link);
      case PurseDispute(purse, claimed, link) => ClosureChanges(o, s, ctx, purse, me, claimed, link);
    } else {
      hide KindApplied;
      OtherKindsKeepPurses(o, s, ctx, body);
    }
  }

  /** An accepted transaction changes at most the one channel it opens, closes or disputes, and
      that exactly as its kind says. */
  lemma ChannelsChangeExactly(o: Oracle, s: State, ctx: BlockContext, body: TxBody)
    requires TxApplied(o, s, ctx, body).Success?
    ensures ChannelsChange(o, s, ctx, body, TxApplied(o, s, ctx, body).value.purses)
  {
    hide KindApplied, FeeCharged, NonceSpent, Admitted, KeepsRecords, IsCapacity;
    var charged := FeeCharged(s, ctx, body).value;
    FeeKeepsPurses(s, ctx, body);
    KindChannels(o, charged, ctx, body);
    NonceKeepsRecords(KindApplied(o, charged, ctx, body).value, body, Admitted(s, ctx, body).value);
  }

  // ----- Assets, names, recoveries and offences

  /** What each kind writes in the books. */
  ghost predicate BooksChange(o: Oracle, s: State, ctx: BlockContext, body: TxBody, after: Books) {
    var before := BooksOf(s);
    match body.kind
    case AssetCreate(ticker, decimals, reissuable) =>
      var id := o.assetId(body.account, o.txId(body));
      after == before.(assets := s.assets[id := AssetRecord(body.account, ticker, decimals, reissuable, 0)],
                       tickers := s.tickers[ticker := id])
    case AssetMint(id, _, amount) =>
      && id in s.assets && s.assets[id].supply + amount < U64_LIMIT
      && after == before.(assets := s.assets[id := s.assets[id].(supply := s.assets[id].supply + amount)])
    case AssetBurn(id, amount) =>
      && id in s.assets && amount <= s.assets[id].supply
      && after == before.(assets := s.assets[id := s.assets[id].(supply := s.assets[id].supply - amount)])
    case NameCommit(c) =>
      after == before.(commitments := s.commitments[c := CommitmentRecord(body.account, ctx.finalizedHeight)])
    case NameReveal(name, salt) =>
      after == before.(owners := s.owners[name := body.account],
                       commitments := s.commitments - {o.nameCommitment(name, salt, body.account)})
    case RecoveryStart(target, key) =>
      after == before.(recoveries := s.recoveries[target :=
        if target in s.recoveries
        then s.recoveries[target].(approvals := s.recoveries[target].approvals + {body.account})
        else PendingRecovery(key, {body.account}, Window(ctx.finalizedHeight, 51_840))])
    case RecoveryCancel(target) => after == before.(recoveries := s.recoveries - {target})
    case RecoveryFinalise(target) => after == before.(recoveries := s.recoveries - {target})
    case AccountEquivocation(device, first, _) =>
      after == before.(accountOffences := s.accountOffences +
        {AccountOffence(first.body.account, device, first.body.nonce.lane, first.body.nonce.sequence)})
    case ValidatorEquivocation(v, first, _) =>
      after == before.(validatorOffences := s.validatorOffences + {ValidatorOffence(v, first.header.height)})
    case _ => after == before
  }

  lemma SupplyWrites(s: State, caller: AccountId, id: AssetId, to: AccountId, amount: Amount)
    ensures AssetMinted(s, caller, id, to, amount).Success? ==>
      && id in s.assets && s.assets[id].supply + amount < U64_LIMIT
      && BooksOf(AssetMinted(s, caller, id, to, amount).value) ==
           BooksOf(s).(assets := s.assets[id := s.assets[id].(supply := s.assets[id].supply + amount)])
    ensures AssetBurned(s, caller, id, amount).Success? ==>
      && id in s.assets && amount <= s.assets[id].supply
      && BooksOf(AssetBurned(s, caller, id, amount).value) ==
           BooksOf(s).(assets := s.assets[id := s.assets[id].(supply := s.assets[id].supply - amount)])
  {
    AssetBooks(s, caller, id, to, amount);
    hide Credited, Debited;
  }

  predicate IsNameOrAssetKind(kind: TxKind) {
    kind.AssetCreate? || kind.AssetMint? || kind.AssetBurn? || kind.NameCommit? || kind.NameReveal?
  }

  lemma NameOrAssetBooks(o: Oracle, s: State, ctx: BlockContext, body: TxBody)
    requires KindApplied(o, s, ctx, body).Success? && IsNameOrAssetKind(body.kind)
    ensures BooksChange(o, s, ctx, body, BooksOf(KindApplied(o, s, ctx, body).value))
  {
    hide AssetMade, AssetMinted, AssetBurned, NameCommitted, NameRevealed, RipeFor;
    var me := body.account;
    match body.kind
    case AssetCreate(ticker, decimals, reissuable) =>
      MadeBooks(s, o.assetId(me, o.txId(body)), me, ticker, decimals, reissuable);
    case AssetMint(id, to, amount) => SupplyWrites(s, me, id, to, amount);
    case AssetBurn(id, amount) => SupplyWrites(s, me, id, me, amount);
    case NameCommit(c) => NameWrites(o, s, c, "a", c, me, ctx.finalizedHeight);
    case NameReveal(name, salt) => NameWrites(o, s, salt, name, salt, me, ctx.finalizedHeight);
  }

  lemma RecoveryOrOffenceBooks(o: Oracle, s: State, ctx: BlockContext, body: TxBody)
    requires KindApplied(o, s, ctx, body).Success? && IsBookKind(body.kind) && !IsNameOrAssetKind(body.kind)
    ensures BooksChange(o, s, ctx, body, BooksOf(KindApplied(o, s, ctx, body).value))
  {
    hide RecoveryApproved, RecoveryDropped, RecoveryCompleted, AccountPunished, ValidatorPunished;
    var me := body.account;
    match body.kind
    case RecoveryStart(target, key) => RecoveryWrites(o, s, ctx, target, key, me);
    case RecoveryCancel(target) => RecoveryWrites(o, s, ctx, target, TEST_KEY, me);
    case RecoveryFinalise(target) => RecoveryWrites(o, s, ctx, target, TEST_KEY, me);
    case AccountEquivocation(device, first, second) => ConvictionBooks(o, s, device, first, second, me);
    case ValidatorEquivocation(v, first, second) => ValidatorConvictionBooks(o, s, v, first, second, me);
  }

  lemma KindBooks(o: Oracle, s: State, ctx: BlockContext, body: TxBody)
    requires KindApplied(o, s, ctx, body).Success?
    ensures BooksChange(o, s, ctx, body, BooksOf(KindApplied(o, s, ctx, body).value))
  {
    if !IsBookKind(body.kind) {
      hide KindApplied, BooksOf;
      OtherKindsBooks(o, s, ctx, body);
    } else {
      hide KindApplied, BooksOf, BooksChange;
      if IsNameOrAssetKind(body.kind) {
        NameOrAssetBooks(o, s, ctx, body);
      } else {
        RecoveryOrOffenceBooks(o, s, ctx, body);
      }
    }
  }

  /** An accepted transaction writes in the books exactly what its kind says. */
  lemma BooksChangeExactly(o: Oracle, s: State, ctx: BlockContext, body: TxBody)
    requires TxApplied(o, s, ctx, body).Success?
    ensures BooksChange(o, s, ctx, body, BooksOf(TxApplied(o, s, ctx, body).value))
  {
    hide TxApplied, KindApplied, FeeCharged;
    TransactionBooks(o, s, ctx, body);
    KindBooks(o, FeeCharged(s, ctx, body).value, ctx, body);
  }

  // ----- Who may act

  /** What a kind makes of the standing of an account: devices, lanes, credit and guardians. */
  function Reformed(o: Oracle, s: State, body: TxBody, id: AccountId): Account {
    var a := AccountAt(s.accounts, id);
    match body.kind
    case NomadSet(credit, _) => if id == body.account then a.(nomadCredit := credit) else a
    case DeviceAdd(key, lane, share) =>
      if id == body.account && lane + 1 < U32_LIMIT then
        a.(devices := a.devices[o.deviceId(key) := Device(key, lane, share, 0)], nextLane := lane + 1)
      else a
    case DeviceRevoke(d) =>
      if id == body.account then a.(devices := a.devices - {d}, revokedDevices := a.revokedDevices + {d}) else a
    case GuardianSet(guardians, threshold) =>
      if id == body.account then a.(guardians := guardians, guardianThreshold := threshold) else a
    case RecoveryFinalise(target) =>
      if id == target && target in s.recoveries && a.nextLane + 1 < U32_LIMIT then
        var key := s.recoveries[target].newRootKey;
        a.(devices := map[o.deviceId(key) := Device(key, a.nextLane, 0, 0)],
           revokedDevices := a.revokedDevices + a.devices.Keys, nextLane := a.nextLane + 1, nomadCredit := 0)
      else a
    case _ => a
  }

  /** Then the signer's lane moves on by one, and an offline outlay is booked on its device. */
  function Signed(a: Account, ctx: BlockContext, body: TxBody): Account
    requires body.nonce.sequence + 1 < U64_LIMIT
    requires ctx.rung == Rung.Provisional && body.device in a.devices ==>
      a.devices[body.device].nomadSpent + Outlay(body, None) < U64_LIMIT
  {
    var b := a.(lanes := a.lanes[body.nonce.lane := body.nonce.sequence + 1]);
    if ctx.rung == Rung.Provisional && body.device in b.devices then
      var d := b.devices[body.device];
      b.(devices := b.devices[body.device := d.(nomadSpent := d.nomadSpent + Outlay(body, None))])
    else b
  }

  lemma DeclaredStanding(s: State, me: AccountId, credit: Amount, margin: Amount, guardians: set<AccountId>,
      threshold: u32)
    ensures NomadDeclared(s, me, credit, margin).Success? ==>
      SameStanding(AccountAt(s.accounts, me).(nomadCredit := credit),
        AccountAt(NomadDeclared(s, me, credit, margin).value.accounts, me))
    ensures GuardiansSet(s, me, guardians, threshold).Success? ==>
      SameStanding(AccountAt(s.accounts, me).(guardians := guardians, guardianThreshold := threshold),
        AccountAt(GuardiansSet(s, me, guardians, threshold).value.accounts, me))
  {
    hide AllocatedNomad;
  }

  lemma DeviceStanding(o: Oracle, s: State, me: AccountId, key: VerifyingKey, lane: Lane, share: Amount, d: DeviceId)
    ensures DeviceAdded(o, s, me, key, lane, share).Success? ==>
      && lane + 1 < U32_LIMIT
      && var a := AccountAt(s.accounts, me);
        SameStanding(a.(devices := a.devices[o.deviceId(key) := Device(key, lane, share, 0)], nextLane := lane + 1),
          AccountAt(DeviceAdded(o, s, me, key, lane, share).value.accounts, me))
    ensures DeviceDropped(s, me, d).Success? ==>
      var a := AccountAt(s.accounts, me);
      SameStanding(a.(devices := a.devices - {d}, revokedDevices := a.revokedDevices + {d}),
        AccountAt(DeviceDropped(s, me, d).value.accounts, me))
  {
    hide AllocatedNomad;
  }

  lemma RecoveredStanding(o: Oracle, s: State, ctx: BlockContext, body: TxBody)
    requires body.kind.RecoveryFinalise? && RecoveryCompleted(o, s, ctx, body.kind.account).Success?
    ensures SameStanding(Reformed(o, s, body, body.kind.account),
      AccountAt(RecoveryCompleted(o, s, ctx, body.kind.account).value.accounts, body.kind.account))
  {
    CompletionRecovers(o, s, ctx, body.kind.account);
    hide RecoveryCompleted;
  }

  lemma KindReforms(o: Oracle, s: State, ctx: BlockContext, body: TxBody, id: AccountId)
    requires KindApplied(o, s, ctx, body).Success?
    ensures SameStanding(Reformed(o, s, body, id), AccountAt(KindApplied(o, s, ctx, body).value.accounts, id))
  {
    var me := body.account;
    if LeavesStanding(body.kind) {
      hide KindApplied;
      KindStanding(o, s, ctx, body);
      assert SameStanding(AccountAt(s.accounts, id), AccountAt(KindApplied(o, s, ctx, body).value.accounts, id));
    } else if id != me && body.kind != RecoveryFinalise(id) {
      hide KindApplied;
      OthersStand(o, s, ctx, body, id);
    } else {
      SettingReforms(o, s, ctx, body, id);
    }
  }

  lemma SettingReforms(o: Oracle, s: State, ctx: BlockContext, body: TxBody, id: AccountId)
    requires KindApplied(o, s, ctx, body).Success? && !LeavesStanding(body.kind)
    requires id == body.account || body.kind == RecoveryFinalise(id)
    ensures SameStanding(Reformed(o, s, body, id), AccountAt(KindApplied(o, s, ctx, body).value.accounts, id))
  {
    hide NomadDeclared, DeviceAdded, DeviceDropped, GuardiansSet, RecoveryCompleted, SameStanding;
    var me := body.account;
    match body.kind
    case NomadSet(credit, margin) => DeclaredStanding(s, me, credit, margin, {}, 0);
    case GuardianSet(guardians, threshold) => DeclaredStanding(s, me, 0, 0, guardians, threshold);
    case DeviceAdd(key, lane, share) => DeviceStanding(o, s, me, key, lane, share, body.device);
    case DeviceRevoke(d) => DeviceStanding(o, s, me, TEST_KEY, 0, 0, d);
    case RecoveryFinalise(target) =>
      if id == target {
        RecoveredStanding(o, s, ctx, body);
      } else {
        OtherRecovered(o, s, ctx, target, id);
      }
  }

  lemma OtherRecovered(o: Oracle, s: State, ctx: BlockContext, target: AccountId, id: AccountId)
    requires RecoveryCompleted(o, s, ctx, target).Success? && id != target
    ensures SameStanding(AccountAt(s.accounts, id), AccountAt(RecoveryCompleted(o, s, ctx, target).value.accounts, id))
  {
    CompletionRecovers(o, s, ctx, target);
    hide RecoveryCompleted, Recovered;
  }

  lemma SpentStanding(s: State, ctx: BlockContext, body: TxBody)
    requires var consumed := if ctx.rung == Rung.Provisional then Outlay(body, None) else 0;
      consumed < U64_LIMIT && NonceSpent(s, body, consumed).Success?
    ensures body.nonce.sequence + 1 < U64_LIMIT
    ensures var consumed := if ctx.rung == Rung.Provisional then Outlay(body, None) else 0;
      var a := AccountAt(s.accounts, body.account);
      && (ctx.rung == Rung.Provisional && body.device in a.devices ==>
           a.devices[body.device].nomadSpent + Outlay(body, None) < U64_LIMIT)
      && (forall id :: id != body.account ==>
           AccountAt(NonceSpent(s, body, consumed).value.accounts, id) == AccountAt(s.accounts, id))
      && var b := AccountAt(NonceSpent(s, body, consumed).value.accounts, body.account);
        && b.lanes == a.lanes[body.nonce.lane := body.nonce.sequence + 1]
        && b.revokedDevices == a.revokedDevices && b.nextLane == a.nextLane && b.nomadCredit == a.nomadCredit
        && b.guardians == a.guardians && b.guardianThreshold == a.guardianThreshold
        && b.devices == if ctx.rung == Rung.Provisional && body.device in a.devices then
             a.devices[body.device := a.devices[body.device].(nomadSpent :=
               a.devices[body.device].nomadSpent + Outlay(body, None))]
           else a.devices
  {
    hide Outlay;
    var a := AccountAt(s.accounts, body.account);
    if body.device in a.devices {
      assert a.devices[body.device := a.devices[body.device]] == a.devices;
    }
  }

  lemma ReformedAlike(o: Oracle, s: State, t: State, body: TxBody, id: AccountId)
    requires SameStanding(AccountAt(s.accounts, id), AccountAt(t.accounts, id)) && t.recoveries == s.recoveries
    ensures SameStanding(Reformed(o, s, body, id), Reformed(o, t, body, id))
  {
    hide AccountAt;
    match body.kind
    case DeviceAdd(key, lane, share) =>
    case RecoveryFinalise(target) =>
    case _ =>
  }

  lemma SameStandingChain(a: Account, b: Account, c: Account)
    requires SameStanding(a, b) && SameStanding(b, c)
    ensures SameStanding(a, c)
  {
  }

  /** Through fee and kind the standing of every account becomes what the kind makes of it. */
  lemma ReformedExactly(o: Oracle, s: State, ctx: BlockContext, body: TxBody, id: AccountId)
    requires FeeCharged(s, ctx, body).Success? && KindApplied(o, FeeCharged(s, ctx, body).value, ctx, body).Success?
    ensures SameStanding(Reformed(o, s, body, id),
      AccountAt(KindApplied(o, FeeCharged(s, ctx, body).value, ctx, body).value.accounts, id))
  {
    hide FeeCharged, KindApplied, Reformed, SameStanding;
    var charged := FeeCharged(s, ctx, body).value;
    FeeStanding(s, ctx, body);
    FeeBooks(s, ctx, body);
    assert SameStanding(AccountAt(s.accounts, id), AccountAt(charged.accounts, id));
    ReformedAlike(o, s, charged, body, id);
    KindReforms(o, charged, ctx, body, id);
    SameStandingChain(Reformed(o, s, body, id), Reformed(o, charged, body, id),
        AccountAt(KindApplied(o, charged, ctx, body).value.accounts, id));
  }

  ghost predicate StandingChange(o: Oracle, s: State, ctx: BlockContext, body: TxBody, id: AccountId, after: Account) {
    var a := Reformed(o, s, body, id);
    if id != body.account then SameStanding(a, after)
    else
      && body.nonce.sequence + 1 < U64_LIMIT
      && (ctx.rung == Rung.Provisional && body.device in a.devices ==>
           a.devices[body.device].nomadSpent + Outlay(body, None) < U64_LIMIT)
      && SameStanding(Signed(a, ctx, body), after)
  }

  /** An accepted transaction leaves every account's devices, lanes, credit and guardians as its
      kind says, moves the signer's lane on by one, and offline books the outlay. */
  lemma StandingChangesExactly(o: Oracle, s: State, ctx: BlockContext, body: TxBody, id: AccountId)
    requires TxApplied(o, s, ctx, body).Success?
    ensures StandingChange(o, s, ctx, body, id, AccountAt(TxApplied(o, s, ctx, body).value.accounts, id))
  {
    hide FeeCharged, KindApplied, Admitted, NonceSpent, Reformed, Admissible, Outlay;
    var changed := KindApplied(o, FeeCharged(s, ctx, body).value, ctx, body).value;
    AdmittedExactly(s, ctx, body);
    AdmittedFits(s, ctx, body);
    ReformedExactly(o, s, ctx, body, id);
    SpentStanding(changed, ctx, body);
  }

  lemma AdmittedFits(s: State, ctx: BlockContext, body: TxBody)
    requires Admissible(s, ctx, body)
    ensures Outlay(body, None) < U64_LIMIT
  {
  }
}
