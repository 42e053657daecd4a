/**
  The ledger as the node runs it: fields updated in place, books as objects. Every method
  leads exactly where the specification says, and `Apply` is all or nothing.
 */
module Ledgers {
  import opened Prelude
  import opened Types
  import opened Sums
  import opened Amounts
  import opened Accounts
  import opened PayWord
  import opened Purses
  import opened PurseBooks
  import opened AssetRegistries
  import opened NameBooks
  import opened RecoveryBooks
  import opened SlashingBooks
  import opened LedgerSpec
  import opened HousekeepingValue
  import opened Conservation

  /** What a method that may fail half-way promises: the state on success, the error otherwise. */
  predicate Reaches(expected: Result<State, StateError>, r: Outcome<StateError>, now: State) {
    match expected
    case Success(t) => r == Pass && now == t
    case Failure(e) => r == Fail(e)
  }

  class Ledger {
    var accounts: map<AccountId, Account>
    const purses: PurseBook
    const assets: AssetRegistry
    const names: NameBook
    const recoveries: RecoveryBook
    const offences: SlashingBook
    var burned: Amount
    var contextPot: Amount
    var fees: Amount

    ghost function Repr(): set<object> {
      {this, purses, assets, names, recoveries, offences}
    }

    ghost function View(): State
      reads this, purses, assets, names, recoveries, offences
    {
      State(accounts, purses.purses, assets.assets, assets.tickers, names.owners, names.commitments,
            recoveries.pending, offences.accounts, offences.validators, burned, contextPot, fees)
    }

    constructor (s: State)
      ensures View() == s && fresh(Repr())
    {
      accounts, burned, contextPot, fees := s.accounts, s.burned, s.contextPot, s.fees;
      purses := new PurseBook(s.purses);
      assets := new AssetRegistry(s.assets, s.tickers);
      names := new NameBook(s.owners, s.commitments);
      recoveries := new RecoveryBook(s.recoveries);
      offences := new SlashingBook(s.accountOffences, s.validatorOffences);
    }

    method Snapshot() returns (s: State)
      ensures s == View()
    {
      s := State(accounts, purses.purses, assets.assets, assets.tickers, names.owners, names.commitments,
                 recoveries.pending, offences.accounts, offences.validators, burned, contextPot, fees);
    }

    method Clone() returns (c: Ledger)
      ensures fresh(c.Repr()) && c.View() == View()
    {
      var s := Snapshot();
      c := new Ledger(s);
    }

    /** Takes over everything another ledger holds. */
    method Adopt(other: Ledger)
      modifies Repr()
      ensures View() == old(other.View())
    {
      var s := other.Snapshot();
      accounts, burned, contextPot, fees := s.accounts, s.burned, s.contextPot, s.fees;
      purses.purses := s.purses;
      assets.assets, assets.tickers := s.assets, s.tickers;
      names.owners, names.commitments := s.owners, s.commitments;
      recoveries.pending := s.recoveries;
      offences.accounts, offences.validators := s.accountOffences, s.validatorOffences;
    }

    // ----- Balances

    method CreditAccount(id: AccountId, asset: Asset, amount: Amount) returns (r: Outcome<StateError>)
      modifies this`accounts
      ensures Reaches(Credited(old(View()), id, asset, amount), r, View())
    {
      var account := if id in accounts then accounts[id] else VACANT;
      var credited := account.Credit(asset, amount);
      if credited.None? {
        return Fail(ArithmeticOverflow);
      }
      accounts := accounts[id := credited.value];
      return Pass;
    }

    method DebitAccount(id: AccountId, asset: Asset, amount: Amount) returns (r: Outcome<StateError>)
      modifies this`accounts
      ensures Reaches(Debited(old(View()), id, asset, amount), r, View())
    {
      if id !in accounts {
        return Fail(NoSuchAccount(id));
      }
      var available := accounts[id].Balance(asset);
      var debited := accounts[id].Debit(asset, amount);
      if debited.None? {
        return Fail(InsufficientBalance(asset, amount, available));
      }
      accounts := accounts[id := debited.value];
      return Pass;
    }

    method ChargeFee(ctx: BlockContext, body: TxBody, split: FeeSplit) returns (r: Outcome<StateError>)
      requires split == SplitFee(body.fee)
      modifies this
      ensures Reaches(FeeCharged(old(View()), ctx, body), r, View())
    {
      hide SplitFee, Credited, Debited;
      r := DebitAccount(body.account, None, body.fee);
      if r.Fail? {
        return;
      }
      if CheckedAdd(burned, split.burn).None? || CheckedAdd(contextPot, split.pot).None?
          || CheckedAdd(fees, body.fee).None? {
        return Fail(ArithmeticOverflow);
      }
      burned := burned + split.burn;
      contextPot := contextPot + split.pot;
      fees := fees + body.fee;
      r := CreditAccount(ctx.proposer, None, split.provider);
    }

    method CreditPayout(payout: Payout) returns (r: Outcome<StateError>)
      modifies this`accounts
      ensures Reaches(PaidOut(old(View()), payout), r, View())
    {
      hide Credited;
      if payout.settlement.toPayer != 0 {
        r := CreditAccount(payout.payer, payout.asset, payout.settlement.toPayer);
        if r.Fail? {
          return;
        }
      }
      if payout.settlement.toPayee != 0 {
        r := CreditAccount(payout.payee, payout.asset, payout.settlement.toPayee);
      } else {
        r := Pass;
      }
    }

    method PayPenalty(penalty: Penalty, denouncer: AccountId) returns (r: Outcome<StateError>)
      modifies this
      ensures Reaches(PenaltyPaid(old(View()), penalty, denouncer), r, View())
    {
      hide Credited;
      if penalty.seized == 0 {
        return Pass;
      }
      if CheckedAdd(burned, penalty.burned).None? {
        return Fail(ArithmeticOverflow);
      }
      burned := burned + penalty.burned;
      r := CreditAccount(denouncer, None, penalty.toDenouncer);
    }

    // ----- Money

    method Transfer(from: AccountId, to: AccountId, asset: Asset, amount: Amount) returns (r: Outcome<StateError>)
      modifies this
      ensures Reaches(Transferred(old(View()), from, to, asset, amount), r, View())
    {
      hide Credited, Debited;
      r := DebitAccount(from, asset, amount);
      if r.Pass? {
        r := CreditAccount(to, asset, amount);
      }
    }

    method Bond(id: AccountId, amount: Amount) returns (r: Outcome<StateError>)
      modifies this
      ensures Reaches(Bonded(old(View()), id, amount), r, View())
    {
      r := DebitAccount(id, None, amount);
      if r.Fail? {
        return;
      }
      var bonded := CheckedAdd(accounts[id].bonded, amount);
      if bonded.None? {
        return Fail(ArithmeticOverflow);
      }
      accounts := accounts[id := accounts[id].(bonded := bonded.value)];
      return Pass;
    }

    method Unbond(id: AccountId, amount: Amount) returns (r: Outcome<StateError>)
      modifies this
      ensures Reaches(Unbonded(old(View()), id, amount), r, View())
    {
      if id !in accounts {
        return Fail(NoSuchAccount(id));
      }
      if accounts[id].bonded < amount {
        return Fail(InsufficientBalance(None, amount, accounts[id].bonded));
      }
      accounts := accounts[id := accounts[id].(bonded := accounts[id].bonded - amount)];
      r := CreditAccount(id, None, amount);
    }

    // ----- Devices, declarations and recovery

    method NomadSet(id: AccountId, credit: Amount, margin: Amount) returns (r: Outcome<StateError>)
      modifies this
      ensures Reaches(NomadDeclared(old(View()), id, credit, margin), r, View())
    {
      hide AllocatedNomad;
      if id !in accounts {
        return Fail(NoSuchAccount(id));
      }
      var held := AllocateNomad(accounts[id].devices);
      if held.None? {
        return Fail(ArithmeticOverflow);
      }
      if held.value > credit {
        return Fail(NomadOverAllocated(held.value, credit));
      }
      accounts := accounts[id := accounts[id].(nomadCredit := credit, nomadMargin := margin)];
      return Pass;
    }

    method DeviceAdd(o: Oracle, id: AccountId, key: VerifyingKey, lane: Lane, share: Amount)
        returns (r: Outcome<StateError>)
      modifies this
      ensures Reaches(DeviceAdded(o, old(View()), id, key, lane, share), r, View())
    {
      hide AllocatedNomad;
      var device := o.deviceId(key);
      if id !in accounts {
        return Fail(NoSuchAccount(id));
      }
      var account := accounts[id];
      if device in account.revokedDevices {
        return Fail(DeviceWasRevoked(device));
      }
      if device in account.devices {
        return Fail(DeviceAlreadyExists(device));
      }
      if exists d :: d in account.devices && account.devices[d].lane == lane {
        return Fail(LaneAlreadyUsed(lane));
      }
      if lane < account.nextLane {
        return Fail(LaneAlreadyUsed(lane));
      }
      var held := AllocateNomad(account.devices);
      if held.None? || CheckedAdd(held.value, share).None? {
        return Fail(ArithmeticOverflow);
      }
      var total := held.value + share;
      if total > account.nomadCredit {
        return Fail(NomadOverAllocated(total, account.nomadCredit));
      }
      account := account.(devices := account.devices[device := Device(key, lane, share, 0)]);
      var next := LaneNext(lane);
      if next.Failure? {
        return Fail(next.error);
      }
      accounts := accounts[id := account.(nextLane := next.value)];
      return Pass;
    }

    method DeviceRevoke(id: AccountId, device: DeviceId) returns (r: Outcome<StateError>)
      modifies this
      ensures Reaches(DeviceDropped(old(View()), id, device), r, View())
    {
      if id !in accounts {
        return Fail(NoSuchAccount(id));
      }
      var account := accounts[id];
      if device !in account.devices {
        return Fail(NoSuchDevice(device));
      }
      accounts := accounts[id := account.(devices := account.devices - {device},
                                          revokedDevices := account.revokedDevices + {device})];
      return Pass;
    }

    method GuardianSet(id: AccountId, guardians: set<AccountId>, threshold: u32) returns (r: Outcome<StateError>)
      modifies this
      ensures Reaches(GuardiansSet(old(View()), id, guardians, threshold), r, View())
    {
      if id !in accounts {
        return Fail(NoSuchAccount(id));
      }
      accounts := accounts[id := accounts[id].(guardians := guardians, guardianThreshold := threshold)];
      return Pass;
    }

    method RecoveryApprove(ctx: BlockContext, target: AccountId, key: VerifyingKey, guardian: AccountId)
        returns (r: Outcome<StateError>)
      modifies Repr()
      ensures Reaches(RecoveryApproved(old(View()), ctx, target, key, guardian), r, View())
    {
      hide Approved;
      if target !in accounts {
        return Fail(NoSuchAccount(target));
      }
      var approved := recoveries.Approve(target, key, guardian, accounts[target].guardians,
                                         Window(ctx.finalizedHeight, RECOVERY_WINDOW));
      r := if approved.Fail? then Fail(RecoveryFault(approved.error)) else Pass;
    }

    method RecoveryCancel(target: AccountId, caller: AccountId) returns (r: Outcome<StateError>)
      modifies Repr()
      ensures Reaches(RecoveryDropped(old(View()), target, caller), r, View())
    {
      hide Cancelled;
      if target != caller {
        return Fail(RecoveryFault(NotRecovering));
      }
      var cancelled := recoveries.Cancel(target);
      r := if cancelled.Fail? then Fail(RecoveryFault(cancelled.error)) else Pass;
    }

    method RecoveryFinalise(o: Oracle, ctx: BlockContext, target: AccountId) returns (r: Outcome<StateError>)
      modifies Repr()
      ensures Reaches(RecoveryCompleted(o, old(View()), ctx, target), r, View())
    {
      hide Finalised;
      if target !in accounts {
        return Fail(NoSuchAccount(target));
      }
      var key := recoveries.Finalise(target, accounts[target].guardianThreshold, ctx.finalizedHeight);
      if key.Failure? {
        return Fail(RecoveryFault(key.error));
      }
      var account := accounts[target];
      account := account.(revokedDevices := account.revokedDevices + account.devices.Keys, devices := map[]);
      var lane := account.nextLane;
      account := account.(devices := account.devices[o.deviceId(key.value) := Device(key.value, lane, 0, 0)]);
      var next := LaneNext(lane);
      if next.Failure? {
        return Fail(next.error);
      }
      accounts := accounts[target := account.(nextLane := next.value, nomadCredit := 0)];
      return Pass;
    }

    // ----- Evidence

    method PunishAccount(o: Oracle, device: DeviceId, first: Transaction, second: Transaction, denouncer: AccountId)
      returns (r: Outcome<StateError>)
      modifies Repr()
      ensures Reaches(AccountPunished(o, old(View()), device, first, second, denouncer), r, View())
    {
      hide CheckAccountEquivocation, SplitPenalty, PenaltyPaid;
      var accused := first.body.account;
      if accused !in accounts {
        return Fail(NoSuchAccount(accused));
      }
      if device !in accounts[accused].devices {
        return Fail(UnknownAccusedDevice(device));
      }
      var checked := CheckAccountEquivocation(o, device, first, second, accounts[accused].devices[device].key);
      if checked.Fail? {
        return Fail(BadEvidence(checked.error));
      }
      var recorded := offences.RecordAccount(AccountOffence(accused, device, first.body.nonce.lane,
          first.body.nonce.sequence));
      if recorded.Fail? {
        return Fail(SlashingFault(recorded.error));
      }
      var penalty := SplitPenalty(accounts[accused].nomadMargin);
      accounts := accounts[accused := accounts[accused].(nomadMargin := 0)];
      r := PayPenalty(penalty, denouncer);
    }

    method PunishValidator(o: Oracle, v: AccountId, first: SignedHeader, second: SignedHeader, denouncer: AccountId)
      returns (r: Outcome<StateError>)
      modifies Repr()
      ensures Reaches(ValidatorPunished(o, old(View()), v, first, second, denouncer), r, View())
    {
      hide CheckValidatorEquivocation, SplitPenalty, PenaltyPaid;
      if v !in accounts {
        return Fail(NoSuchAccount(v));
      }
      var devices := accounts[v].devices;
      if !(exists d :: d in devices && CheckValidatorEquivocation(o, v, first, second, devices[d].key)) {
        return Fail(NotTheValidator(v));
      }
      var recorded := offences.RecordValidator(ValidatorOffence(v, first.header.height));
      if recorded.Fail? {
        return Fail(SlashingFault(recorded.error));
      }
      var penalty := SplitPenalty(accounts[v].bonded);
      accounts := accounts[v := accounts[v].(bonded := 0)];
      r := PayPenalty(penalty, denouncer);
    }

    // ----- Channels

    method PurseOpen(id: PurseId, payer: AccountId, payee: AccountId, asset: Asset, deposit: Amount, root: Hash,
                     trancheValue: Amount, expiry: u64) returns (r: Outcome<StateError>)
      modifies Repr()
      ensures Reaches(PurseOpened(old(View()), id, payer, payee, asset, deposit, root, trancheValue, expiry), r, View())
    {
      hide Debited, CapacityOf;
      if trancheValue == 0 {
        return Fail(ZeroTrancheValue);
      }
      var capacity := CapacityOf(deposit, trancheValue);
      r := DebitAccount(payer, asset, deposit);
      if r.Fail? {
        return;
      }
      var purse := Purses.Open(payer, payee, asset, deposit, root, trancheValue, capacity, expiry);
      if purse.Failure? {
        return Fail(PurseBookFault(PurseFault(purse.error)));
      }
      var filed := purses.Open(id, purse.value);
      r := if filed.Fail? then Fail(PurseBookFault(filed.error)) else Pass;
    }

    method PurseCloseCooperative(id: PurseId, caller: AccountId, toPayer: Amount, toPayee: Amount)
        returns (r: Outcome<StateError>)
      modifies Repr()
      ensures Reaches(PurseClosed(old(View()), id, caller, toPayer, toPayee), r, View())
    {
      hide ClosedCooperatively, PaidOut;
      var payout := purses.CloseCooperative(id, caller, toPayer, toPayee);
      if payout.Failure? {
        return Fail(PurseBookFault(payout.error));
      }
      r := CreditPayout(payout.value);
    }

    method PurseCloseUnilateral(o: Oracle, ctx: BlockContext, id: PurseId, caller: AccountId, claimed: u32, link: Hash)
      returns (r: Outcome<StateError>)
      modifies Repr()
      ensures Reaches(PurseClosing(o, old(View()), ctx, id, caller, claimed, link), r, View())
    {
      hide Closing;
      var token := if claimed > 0 then Some(Token(claimed, link)) else None;
      var closing := purses.BeginClosure(o.payword, id, caller, claimed, token,
          Window(ctx.finalizedHeight, DISPUTE_WINDOW));
      r := if closing.Fail? then Fail(PurseBookFault(closing.error)) else Pass;
    }

    method PurseDispute(o: Oracle, id: PurseId, claimed: u32, link: Hash) returns (r: Outcome<StateError>)
      modifies Repr()
      ensures Reaches(PurseContested(o, old(View()), id, claimed, link), r, View())
    {
      hide Disputed;
      var contested := purses.Contest(o.payword, id, claimed, Token(claimed, link));
      r := if contested.Fail? then Fail(PurseBookFault(contested.error)) else Pass;
    }

    // ----- Assets and names

    method AssetCreate(id: AssetId, issuer: AccountId, ticker: Name, decimals: u8, reissuable: bool)
        returns (r: Outcome<StateError>)
      modifies Repr()
      ensures Reaches(AssetMade(old(View()), id, issuer, ticker, decimals, reissuable), r, View())
    {
      hide Created;
      var created := assets.Create(id, issuer, ticker, decimals, reissuable);
      r := if created.Fail? then Fail(AssetFault(created.error)) else Pass;
    }

    method AssetMint(caller: AccountId, id: AssetId, to: AccountId, amount: Amount) returns (r: Outcome<StateError>)
      modifies Repr()
      ensures Reaches(AssetMinted(old(View()), caller, id, to, amount), r, View())
    {
      hide Minted, Credited;
      var minted := assets.AuthoriseMint(id, caller, amount);
      if minted.Fail? {
        return Fail(AssetFault(minted.error));
      }
      r := CreditAccount(to, Some(id), amount);
    }

    method AssetBurn(caller: AccountId, id: AssetId, amount: Amount) returns (r: Outcome<StateError>)
      modifies Repr()
      ensures Reaches(AssetBurned(old(View()), caller, id, amount), r, View())
    {
      hide Burned, Debited;
      r := DebitAccount(caller, Some(id), amount);
      if r.Fail? {
        return;
      }
      var burnt := assets.RecordBurn(id, amount);
      r := if burnt.Fail? then Fail(AssetFault(burnt.error)) else Pass;
    }

    method NameCommit(commitment: Hash, account: AccountId, finalized: u64) returns (r: Outcome<StateError>)
      modifies Repr()
      ensures Reaches(NameCommitted(old(View()), commitment, account, finalized), r, View())
    {
      hide Committed;
      var committed := names.Commit(commitment, account, finalized);
      r := if committed.Fail? then Fail(NameFault(committed.error)) else Pass;
    }

    method NameReveal(o: Oracle, name: Name, salt: Hash, account: AccountId, finalized: u64)
        returns (r: Outcome<StateError>)
      modifies Repr()
      ensures Reaches(NameRevealed(o, old(View()), name, salt, account, finalized), r, View())
    {
      hide Revealed;
      var revealed := names.Open(o.nameCommitment(name, salt, account), name, account, finalized);
      r := if revealed.Fail? then Fail(NameFault(revealed.error)) else Pass;
    }

    // ----- One transaction

    method ApplyKind(o: Oracle, ctx: BlockContext, body: TxBody) returns (r: Outcome<StateError>)
      modifies Repr()
      ensures Reaches(KindApplied(o, old(View()), ctx, body), r, View())
    {
      hide Transferred, NomadDeclared, DeviceAdded, DeviceDropped, Bonded, Unbonded, PurseOpened, PurseClosed,
        PurseClosing, PurseContested, AssetMade, AssetMinted, AssetBurned, NameCommitted, NameRevealed, GuardiansSet,
        RecoveryApproved, RecoveryDropped, RecoveryCompleted, AccountPunished, ValidatorPunished, View;
      var id := body.account;
      match body.kind
      case Transfer(to, asset, amount) => r := Transfer(id, to, asset, amount);
      case NomadSet(credit, margin) => r := NomadSet(id, credit, margin);
      case DeviceAdd(key, lane, share) => r := DeviceAdd(o, id, key, lane, share);
      case DeviceRevoke(device) => r := DeviceRevoke(id, device);
      case Bond(amount, _) => r := Bond(id, amount);
      case Unbond(amount) => r := Unbond(id, amount);
      case PurseOpen(counterparty, asset, deposit, root, trancheValue, expiry) =>
        r := PurseOpen(o.txId(body), id, counterparty, asset, deposit, root, trancheValue, expiry);
      case PurseCloseCooperative(purse, toPayer, toPayee, _) => r := PurseCloseCooperative(purse, id, toPayer, toPayee);
      case PurseCloseUnilateral(purse, claimed, link) => r := PurseCloseUnilateral(o, ctx, purse, id, claimed, link);
      case PurseDispute(purse, claimed, link) => r := PurseDispute(o, purse, claimed, link);
      case AssetCreate(ticker, decimals, reissuable) =>
        r := AssetCreate(o.assetId(id, o.txId(body)), id, ticker, decimals, reissuable);
      case AssetMint(asset, to, amount) => r := AssetMint(id, asset, to, amount);
      case AssetBurn(asset, amount) => r := AssetBurn(id, asset, amount);
      case NameCommit(commitment) => r := NameCommit(commitment, id, ctx.finalizedHeight);
      case NameReveal(name, salt) => r := NameReveal(o, name, salt, id, ctx.finalizedHeight);
      case GuardianSet(guardians, threshold) => r := GuardianSet(id, guardians, threshold);
      case RecoveryStart(target, key) => r := RecoveryApprove(ctx, target, key, id);
      case RecoveryCancel(target) => r := RecoveryCancel(target, id);
      case RecoveryFinalise(target) => r := RecoveryFinalise(o, ctx, target);
      case AccountEquivocation(device, first, second) => r := PunishAccount(o, device, first, second, id);
      case ValidatorEquivocation(v, first, second) => r := PunishValidator(o, v, first, second, id);
    }

    /** Uses up the nonce and books offline spending. */
    method SpendNonce(body: TxBody, consumed: Amount) returns (r: Outcome<StateError>)
      modifies this
      ensures Reaches(NonceSpent(old(View()), body, consumed), r, View())
    {
      if body.account !in accounts {
        return Fail(NoSuchAccount(body.account));
      }
      var account := accounts[body.account];
      var advanced := account.Consume(body.nonce);
      if advanced.None? {
        return Fail(BadNonce(account.NextSequence(body.nonce.lane), body.nonce.sequence));
      }
      account := advanced.value;
      if consumed != 0 && body.device in account.devices {
        var device := account.devices[body.device];
        if CheckedAdd(device.nomadSpent, consumed).None? {
          return Fail(ArithmeticOverflow);
        }
        account := account.(devices :=
            account.devices[body.device := device.(nomadSpent := device.nomadSpent + consumed)]);
      }
      accounts := accounts[body.account := account];
      return Pass;
    }

    method ApplyInPlace(o: Oracle, ctx: BlockContext, body: TxBody) returns (r: Result<Applied, StateError>)
      modifies Repr()
      ensures match TxApplied(o, old(View()), ctx, body)
        case Success(t) => r == Success(Applied(SplitFee(body.fee), Admitted(old(View()), ctx, body).value))
            && View() == t
        case Failure(e) => r == Failure(e)
    {
      hide KindApplied, FeeCharged, NonceSpent, SplitFee, CheckEnvelope, CheckAuthority, CheckNomad, NativeOutflow;
      var envelope := CheckEnvelope(ctx, body);
      if envelope.Fail? {
        return Failure(envelope.error);
      }
      var authority := CheckAuthority(accounts, body);
      if authority.Fail? {
        return Failure(authority.error);
      }
      var outflow :- NativeOutflow(body);
      var consumed: Amount := 0;
      if ctx.rung == Provisional {
        var nomad := CheckNomad(accounts, body, outflow);
        if nomad.Fail? {
          return Failure(nomad.error);
        }
        consumed := outflow;
      }
      assert Admitted(old(View()), ctx, body) == Success(consumed);
      hide Admitted, View;
      var split := SplitFee(body.fee);
      var step := ChargeFee(ctx, body, split);
      if step.Fail? {
        return Failure(step.error);
      }
      step := ApplyKind(o, ctx, body);
      if step.Fail? {
        return Failure(step.error);
      }
      step := SpendNonce(body, consumed);
      if step.Fail? {
        return Failure(step.error);
      }
      return Success(Applied(split, consumed));
    }

    /** Applies one transaction, entirely or not at all. */
    method Apply(o: Oracle, ctx: BlockContext, body: TxBody) returns (r: Result<Applied, StateError>)
      modifies Repr()
      ensures match TxApplied(o, old(View()), ctx, body)
        case Success(t) => r == Success(Applied(SplitFee(body.fee), Admitted(old(View()), ctx, body).value))
            && View() == t
        case Failure(e) => r == Failure(e) && View() == old(View())
    {
      hide TxApplied, SplitFee, Admitted, View;
      var working := Clone();
      var applied :- working.ApplyInPlace(o, ctx, body);
      Adopt(working);
      return Success(applied);
    }

    // ----- Housekeeping and totals

    method SettleElapsedPurses(finalized: u64) returns (r: Result<seq<Payout>, StateError>)
      modifies Repr()
      ensures match PursesSettled(old(View()), finalized)
        case Success(t) => r == Success(Payouts(old(View()).purses, finalized)) && View() == t
        case Failure(e) => r == Failure(e)
    {
      var payouts := purses.SettleElapsed(finalized);
      ghost var start := View();
      hide PaidOut, View;
      var i := 0;
      while i < |payouts|
        invariant 0 <= i <= |payouts|
        invariant AllPaidOut(start, payouts[..i]) == Success(View())
      {
        PaidOutPrefix(start, payouts, i);
        var step := CreditPayout(payouts[i]);
        if step.Fail? {
          return Failure(step.error);
        }
        i := i + 1;
      }
      assert payouts[..i] == payouts;
      return Success(payouts);
    }

    method PruneExpiredCommitments(finalized: u64) returns (dropped: nat)
      modifies Repr()
      ensures View() == CommitmentsPruned(old(View()), finalized)
      ensures dropped == |Stale(old(View()).commitments, finalized)|
    {
      dropped := names.PruneExpired(finalized);
    }

    /** Every VAN the ledger holds in balances, bonds and channels, unless it does not fit. */
    method TotalNativeBalance() returns (r: Option<Amount>)
      ensures r == if Held(View(), None) < U64_LIMIT then Some(Held(View(), None)) else None
    {
      SumNonNegative(accounts, AccountValue(None));
      SumNonNegative(purses.purses, DepositIn(None));
      var inAccounts := SumAccounts(accounts);
      if inAccounts.None? {
        return None;
      }
      var inChannels := SumDeposits(purses.purses);
      if inChannels.None? {
        return None;
      }
      return CheckedAdd(inAccounts.value, inChannels.value);
    }

    /** Clears every device's offline spending counter. */
    method SettleNomadCounters()
      modifies this
      ensures View() == CountersCleared(old(View()))
    {
      hide ClearedAccount;
      ghost var before := accounts;
      var left := accounts.Keys;
      while left != {}
        invariant left <= before.Keys && accounts.Keys == before.Keys
        invariant forall id :: id in before ==>
          accounts[id] == if id in left then before[id] else ClearedAccount(before[id])
        invariant View() == old(View()).(accounts := accounts)
        decreases |left|
      {
        var id :| id in left;
        accounts := accounts[id := ClearedAccount(accounts[id])];
        left := left - {id};
      }
    }
  }

  method SumAccounts(accounts: map<AccountId, Account>) returns (r: Option<Amount>)
    ensures var total := Sum(accounts, AccountValue(None)); r == if total < U64_LIMIT then Some(total) else None
  {
    var rest := accounts;
    var total: Amount := 0;
    while rest != map[]
      invariant rest.Keys <= accounts.Keys
      invariant total + Sum(rest, AccountValue(None)) == Sum(accounts, AccountValue(None))
      decreases |rest|
    {
      var id :| id in rest;
      SumRemove(rest, AccountValue(None), id);
      SumNonNegative(rest - {id}, AccountValue(None));
      var value := rest[id].Balance(None) + rest[id].bonded;
      if total + value >= U64_LIMIT {
        return None;
      }
      total := total + value;
      rest := rest - {id};
    }
    return Some(total);
  }

  method SumDeposits(purses: PurseMap) returns (r: Option<Amount>)
    ensures var total := Sum(purses, DepositIn(None)); r == if total < U64_LIMIT then Some(total) else None
  {
    var rest := purses;
    var total: Amount := 0;
    while rest != map[]
      invariant rest.Keys <= purses.Keys
      invariant total + Sum(rest, DepositIn(None)) == Sum(purses, DepositIn(None))
      decreases |rest|
    {
      var id :| id in rest;
      SumRemove(rest, DepositIn(None), id);
      SumNonNegative(rest - {id}, DepositIn(None));
      var value := if rest[id].asset == None then rest[id].deposit else 0;
      if total + value >= U64_LIMIT {
        return None;
      }
      total := total + value;
      rest := rest - {id};
    }
    return Some(total);
  }

  /** The payouts up to one point, then that one; and what a failure there means for all of them. */
  lemma {:induction false} PaidOutPrefix(s: State, payouts: seq<Payout>, i: nat)
    requires i < |payouts| && AllPaidOut(s, payouts[..i]).Success?
    ensures AllPaidOut(s, payouts[..i + 1]) == PaidOut(AllPaidOut(s, payouts[..i]).value, payouts[i])
    ensures PaidOut(AllPaidOut(s, payouts[..i]).value, payouts[i]).Failure? ==>
      AllPaidOut(s, payouts) == Failure(PaidOut(AllPaidOut(s, payouts[..i]).value, payouts[i]).error)
    decreases |payouts| - i
  {
    hide PaidOut;
    assert payouts[..i + 1] == payouts[..i] + [payouts[i]];
    PaidOutAppend(s, payouts[..i], payouts[i]);
    if PaidOut(AllPaidOut(s, payouts[..i]).value, payouts[i]).Failure? {
      FailedPayoutStays(s, payouts, i + 1);
    }
  }

  lemma {:induction false} FailedPayoutStays(s: State, payouts: seq<Payout>, i: nat)
    requires i <= |payouts| && AllPaidOut(s, payouts[..i]).Failure?
    ensures AllPaidOut(s, payouts) == AllPaidOut(s, payouts[..i])
    decreases |payouts| - i
  {
    hide PaidOut;
    if i == |payouts| {
      assert payouts[..i] == payouts;
    } else {
      assert payouts[..i + 1] == payouts[..i] + [payouts[i]];
      PaidOutAppend(s, payouts[..i], payouts[i]);
      FailedPayoutStays(s, payouts, i + 1);
    }
  }
}
