/**
  The channel clock. Channels are funded and their windows last exactly 17 280 finalised
  blocks; housekeeping settles exactly the closures whose window has elapsed; and no
  closure is settled by timeout before its window has run out.
 */
module Clock {
  import opened Prelude
  import opened Types
  import opened PayWord
  import opened Purses
  import opened PurseBooks
  import opened ChannelSafety
  import opened LedgerSpec
  import opened LedgerInvariants

  /** What holds of every channel the ledger ever opened. */
  ghost predicate SoundPurse(p: LedgerPurse) {
    && p.payer != p.payee && p.trancheValue > 0 && p.capacity <= MAX_TRANCHES && Funded(p)
    && (p.closing.Some? ==>
         p.closing.value.window.duration == DISPUTE_WINDOW && p.closing.value.claimedTranches <= p.capacity)
  }

  ghost predicate SoundPurses(purses: PurseMap) {
    forall id :: id in purses ==> SoundPurse(purses[id])
  }

  /** What one transaction at a finalised height may do to a channel that stays. */
  ghost predicate Moves(p: LedgerPurse, q: LedgerPurse, finalized: u64) {
    && q == p.(closing := q.closing)
    && (p.closing.Some? ==> q.closing.Some? && Raised(p.closing.value, q.closing.value))
    && (p.closing.None? && q.closing.Some? ==>
         q.closing.value.window == Window(finalized, DISPUTE_WINDOW) && !q.closing.value.disputed)
  }

  /** What one transaction may do to the channels: those it does not close move, and new ones
      are sound and not closing. */
  ghost predicate PursesMove(s: PurseMap, t: PurseMap, finalized: u64, closed: Option<PurseId>) {
    && (forall id :: id in s && closed != Some(id) ==> id in t && Moves(s[id], t[id], finalized))
    && (forall id :: id in t && (id !in s || closed == Some(id)) ==> t[id].closing.None?)
    && (SoundPurses(s) ==> SoundPurses(t))
  }

  lemma SamePurses(purses: PurseMap, finalized: u64, closed: Option<PurseId>)
    requires closed.Some? ==> closed.value !in purses
    ensures PursesMove(purses, purses, finalized, closed)
  {
  }

  lemma CapacityIsFunded(deposit: Amount, trancheValue: Amount)
    requires trancheValue > 0
    ensures CapacityOf(deposit, trancheValue) * trancheValue <= deposit
    ensures CapacityOf(deposit, trancheValue) <= MAX_TRANCHES
  {
    var n := deposit / trancheValue;
    assert n * trancheValue <= deposit;
    ProductMonotone(CapacityOf(deposit, trancheValue), n, trancheValue);
  }

  lemma OpenMoves(s: State, id: PurseId, payer: AccountId, payee: AccountId, asset: Asset, deposit: Amount,
                  root: Hash, trancheValue: Amount, expiry: u64, finalized: u64)
    requires PurseOpened(s, id, payer, payee, asset, deposit, root, trancheValue, expiry).Success?
    ensures var t := PurseOpened(s, id, payer, payee, asset, deposit, root, trancheValue, expiry).value;
      PursesMove(s.purses, t.purses, finalized, None)
  {
    hide Debited, CapacityOf;
    DebitedKeeps(s, payer, asset, deposit);
    CapacityIsFunded(deposit, trancheValue);
  }

  lemma CloseMoves(s: State, id: PurseId, caller: AccountId, toPayer: Amount, toPayee: Amount, finalized: u64)
    requires PurseClosed(s, id, caller, toPayer, toPayee).Success?
    ensures PursesMove(s.purses, PurseClosed(s, id, caller, toPayer, toPayee).value.purses, finalized, Some(id))
  {
    hide PaidOut;
    var (m, payout) := ClosedCooperatively(s.purses, id, caller, toPayer, toPayee).value;
    PaidOutKeeps(s.(purses := m), payout);
  }

  lemma ClosingMoves(o: Oracle, s: State, ctx: BlockContext, id: PurseId, caller: AccountId, claimed: u32, link: Hash)
    ensures PurseClosing(o, s, ctx, id, caller, claimed, link).Success? ==>
      PursesMove(s.purses, PurseClosing(o, s, ctx, id, caller, claimed, link).value.purses, ctx.finalizedHeight, None)
    ensures PurseContested(o, s, id, claimed, link).Success? ==>
      PursesMove(s.purses, PurseContested(o, s, id, claimed, link).value.purses, ctx.finalizedHeight, None)
  {
    hide CheckClaim;
  }

  /** The channel a kind closes by agreement. */
  function ClosedBy(kind: TxKind): Option<PurseId> {
    if kind.PurseCloseCooperative? then Some(kind.purse) else None
  }

  predicate IsChannelKind(kind: TxKind) {
    kind.PurseOpen? || kind.PurseCloseCooperative? || kind.PurseCloseUnilateral? || kind.PurseDispute?
  }

  lemma OtherKindsKeepPurses(o: Oracle, s: State, ctx: BlockContext, body: TxBody)
    requires KindApplied(o, s, ctx, body).Success? && !IsChannelKind(body.kind)
    ensures KindApplied(o, s, ctx, body).value.purses == s.purses
  {
    hide Transferred, NomadDeclared, DeviceAdded, DeviceDropped, Bonded, Unbonded, PurseOpened, PurseClosed,
      PurseClosing, PurseContested, AssetMade, AssetMinted, AssetBurned, NameCommitted, NameRevealed, GuardiansSet,
      RecoveryApproved, RecoveryDropped, RecoveryCompleted, AccountPunished, ValidatorPunished, KeepsRecords;
    var id := body.account;
    match body.kind
    case Transfer(to, asset, amount) => TransferKeeps(s, id, to, asset, amount);
    case NomadSet(credit, margin) => DeclarationsKeep(s, id, credit, margin, {}, 0);
    case DeviceAdd(key, lane, share) => DevicesKeep(o, s, id, key, lane, share, body.device);
    case DeviceRevoke(device) => DevicesKeep(o, s, id, TEST_KEY, 0, 0, device);
    case Bond(amount, _) => BondKeeps(s, id, amount);
    case Unbond(amount) => BondKeeps(s, id, amount);
    case AssetCreate(ticker, decimals, reissuable) => MadeSupply(s, o.assetId(id, o.txId(body)), id, ticker, decimals,
        reissuable);
    case AssetMint(asset, to, amount) => MintSupply(s, id, asset, to, amount);
    case AssetBurn(asset, amount) => BurnSupply(s, id, asset, amount);
    case NameCommit(commitment) => NamesKeep(o, s, commitment, "a", commitment, id, ctx.finalizedHeight);
    case NameReveal(name, salt) => NamesKeep(o, s, salt, name, salt, id, ctx.finalizedHeight);
    case GuardianSet(guardians, threshold) => DeclarationsKeep(s, id, 0, 0, guardians, threshold);
    case RecoveryStart(target, key) => RecoveryKeeps(o, s, ctx, target, key, id);
    case RecoveryCancel(target) => RecoveryKeeps(o, s, ctx, target, TEST_KEY, id);
    case RecoveryFinalise(target) => RecoveryKeeps(o, s, ctx, target, TEST_KEY, id);
    case AccountEquivocation(device, first, second) => PunishedKeeps(o, s, device, first, second, id);
    case ValidatorEquivocation(v, first, second) => ValidatorPunishedKeeps(o, s, v, first, second, id);
  }

  lemma KindMoves(o: Oracle, s: State, ctx: BlockContext, body: TxBody)
    requires KindApplied(o, s, ctx, body).Success?
    ensures PursesMove(s.purses, KindApplied(o, s, ctx, body).value.purses, ctx.finalizedHeight, ClosedBy(body.kind))
  {
    hide Transferred, NomadDeclared, DeviceAdded, DeviceDropped, Bonded, Unbonded, PurseOpened, PurseClosed,
      PurseClosing, PurseContested, AssetMade, AssetMinted, AssetBurned, NameCommitted, NameRevealed, GuardiansSet,
      RecoveryApproved, RecoveryDropped, RecoveryCompleted, AccountPunished, ValidatorPunished, PursesMove;
    var id := body.account;
    match body.kind
    case PurseOpen(counterparty, asset, deposit, root, trancheValue, expiry) =>
      OpenMoves(s, o.txId(body), id, counterparty, asset, deposit, root, trancheValue, expiry, ctx.finalizedHeight);
    case PurseCloseCooperative(purse, toPayer, toPayee, _) => CloseMoves(s, purse, id, toPayer, toPayee,
        ctx.finalizedHeight);
    case PurseCloseUnilateral(purse, claimed, link) => ClosingMoves(o, s, ctx, purse, id, claimed, link);
    case PurseDispute(purse, claimed, link) => ClosingMoves(o, s, ctx, purse, id, claimed, link);
    case _ =>
      OtherKindsKeepPurses(o, s, ctx, body);
      SamePurses(s.purses, ctx.finalizedHeight, None);
  }

  /** Every accepted transaction keeps channels sound, moves no window, and only raises claims. */
  lemma TransactionMoves(o: Oracle, s: State, ctx: BlockContext, body: TxBody)
    requires TxApplied(o, s, ctx, body).Success?
    ensures PursesMove(s.purses, TxApplied(o, s, ctx, body).value.purses, ctx.finalizedHeight, ClosedBy(body.kind))
  {
    hide KindApplied, FeeCharged, NonceSpent, Admitted, PursesMove, KeepsRecords;
    var consumed := Admitted(s, ctx, body).value;
    var charged := FeeCharged(s, ctx, body).value;
    FeeKeepsRecords(s, ctx, body);
    KindMoves(o, charged, ctx, body);
    NonceKeepsRecords(KindApplied(o, charged, ctx, body).value, body, consumed);
  }

  // ----- Housekeeping

  /** The closures whose window has run out. */
  ghost function Elapsed(purses: PurseMap, finalized: u64): set<PurseId> {
    set id | id in purses && purses[id].closing.Some? && purses[id].closing.value.window.HasElapsed(finalized)
  }

  /** A sound channel is due exactly when its window has elapsed: none gets stuck. */
  lemma DueExactly(purses: PurseMap, finalized: u64)
    requires SoundPurses(purses)
    ensures Due(purses, finalized) == Elapsed(purses, finalized)
  {
    forall id | id in purses ensures id in Due(purses, finalized) <==> id in Elapsed(purses, finalized) {
      assert SoundPurse(purses[id]);
      if purses[id].closing.Some? {
        OwedInFull(purses[id], purses[id].closing.value.claimedTranches);
      }
    }
  }

  lemma {:induction false} PayingKeepsPurses(s: State, payouts: seq<Payout>)
    requires AllPaidOut(s, payouts).Success?
    ensures AllPaidOut(s, payouts).value.purses == s.purses
    decreases |payouts|
  {
    hide PaidOut;
    if payouts != [] {
      PaidOutKeeps(s, payouts[0]);
      PayingKeepsPurses(PaidOut(s, payouts[0]).value, payouts[1..]);
    }
  }

  /** Housekeeping removes exactly the elapsed closures and touches no other channel. */
  lemma HousekeepingRemovesElapsed(s: State, finalized: u64)
    requires SoundPurses(s.purses) && Housekept(s, finalized).Success?
    ensures Housekept(s, finalized).value.purses == s.purses - Elapsed(s.purses, finalized)
    ensures SoundPurses(Housekept(s, finalized).value.purses)
  {
    hide AllPaidOut, Due, Elapsed;
    DueExactly(s.purses, finalized);
    PayingKeepsPurses(s.(purses := s.purses - Due(s.purses, finalized)), Payouts(s.purses, finalized));
  }

  /** No closure is still waiting whose window has run out at this height. */
  ghost predicate WindowsOpen(purses: PurseMap, finalized: u64) {
    forall id :: id in purses && purses[id].closing.Some? ==> !purses[id].closing.value.window.HasElapsed(finalized)
  }

  lemma HousekeepingOpensWindows(s: State, finalized: u64)
    requires SoundPurses(s.purses) && Housekept(s, finalized).Success?
    ensures WindowsOpen(Housekept(s, finalized).value.purses, finalized)
  {
    hide Housekept, SoundPurses;
    HousekeepingRemovesElapsed(s, finalized);
  }

  /** A transaction at the height housekeeping ran at leaves every window open. */
  lemma WindowsStayOpen(s: PurseMap, t: PurseMap, finalized: u64, closed: Option<PurseId>)
    requires WindowsOpen(s, finalized) && PursesMove(s, t, finalized, closed)
    ensures WindowsOpen(t, finalized)
  {
    hide SoundPurses;
    forall id | id in t && t[id].closing.Some? ensures !t[id].closing.value.window.HasElapsed(finalized) {
      assert id in s && closed != Some(id) && Moves(s[id], t[id], finalized);
    }
  }

  /** The channel a dispute names is closing, its window is open, and less is claimed so far. */
  ghost predicate InTime(purses: PurseMap, kind: TxKind, finalized: u64)
    requires kind.PurseDispute?
  {
    && kind.purse in purses && purses[kind.purse].closing.Some?
    && !purses[kind.purse].closing.value.window.HasElapsed(finalized)
    && purses[kind.purse].closing.value.claimedTranches < kind.tranchesClaimed
  }

  /** Where windows are open, an accepted dispute is in time. */
  lemma DisputeLandsInTime(o: Oracle, s: State, ctx: BlockContext, body: TxBody)
    requires WindowsOpen(s.purses, ctx.finalizedHeight)
    requires body.kind.PurseDispute? && TxApplied(o, s, ctx, body).Success?
    ensures InTime(s.purses, body.kind, ctx.finalizedHeight)
  {
    hide FeeCharged, NonceSpent, Admitted, CheckClaim, KindApplied;
    var charged := FeeCharged(s, ctx, body).value;
    FeeKeepsRecords(s, ctx, body);
    DisputeNeedsClosure(o, charged, ctx, body);
  }

  lemma DisputeNeedsClosure(o: Oracle, s: State, ctx: BlockContext, body: TxBody)
    requires body.kind.PurseDispute? && KindApplied(o, s, ctx, body).Success?
    ensures body.kind.purse in s.purses && s.purses[body.kind.purse].closing.Some?
    ensures s.purses[body.kind.purse].closing.value.claimedTranches < body.kind.tranchesClaimed
  {
    hide CheckClaim;
  }
}
