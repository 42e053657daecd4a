/** The ledger as a value, and the state each operation leads to. */
module LedgerSpec {
  import opened Prelude
  import opened Types
  import opened Amounts
  import opened Accounts
  import opened PayWord
  import opened Purses
  import opened PurseBooks
  import opened AssetRegistries
  import opened NameBooks
  import opened RecoveryBooks
  import opened SlashingBooks

  datatype BlockContext = BlockContext(
    chain: ChainId,
    height: u64,
    finalizedHeight: u64,
    rung: Rung,
    proposer: AccountId)

  datatype TxError =
    | BadSignature
    | WrongDeviceKey
    | TestAlgorithmOnLiveChain
    | EvidenceAboutEvidence
    | ForbiddenKind
    | NotEquivocation

  datatype StateError =
    | WrongChain
    | UnsupportedVersion(version: nat)
    | Expired(validUntil: u64, finalizedHeight: u64)
    | ForbiddenInProvisional
    | NoSuchAccount(account: AccountId)
    | NoSuchDevice(device: DeviceId)
    | DeviceRevoked(revoked: DeviceId)
    | WrongLane(expectedLane: Lane, gotLane: Lane)
    | BadNonce(expected: u64, got: u64)
    | InsufficientBalance(asset: Asset, needed: Amount, available: Amount)
    | NomadCreditExhausted(spender: DeviceId, outflow: Amount, remaining: Amount)
    | NomadOverAllocated(total: Amount, credit: Amount)
    | LaneAlreadyUsed(lane: Lane)
    | DeviceWasRevoked(former: DeviceId)
    | DeviceAlreadyExists(existing: DeviceId)
    | ZeroTrancheValue
    | BadEvidence(evidence: TxError)
    | UnknownAccusedDevice(accused: DeviceId)
    | NotTheValidator(validator: AccountId)
    | AssetFault(assetError: AssetError)
    | PurseBookFault(purseError: PurseBookError)
    | NameFault(nameError: NameError)
    | RecoveryFault(recoveryError: RecoveryError)
    | SlashingFault(slashingError: SlashingError)
    | ArithmeticOverflow

  datatype Applied = Applied(fee: FeeSplit, nomadConsumed: Amount)

  datatype State = State(
    accounts: map<AccountId, Account>,
    purses: PurseMap,
    assets: AssetMap,
    tickers: TickerMap,
    owners: OwnerMap,
    commitments: CommitmentMap,
    recoveries: RecoveryMap,
    accountOffences: set<AccountOffence>,
    validatorOffences: set<ValidatorOffence>,
    burned: Amount,
    contextPot: Amount,
    fees: Amount)

  const EMPTY_STATE: State := State(map[], map[], map[], map[], map[], map[], map[], {}, {}, 0, 0, 0)

  // ----- Signatures and evidence

  function CheckTransaction(o: Oracle, tx: Transaction, key: VerifyingKey): Outcome<TxError> {
    if o.deviceId(key) != tx.body.device then Fail(WrongDeviceKey)
    else if o.verifies(key, o.txDigest(tx.body.chain, o.txId(tx.body)), tx.signature) then Pass
    else Fail(BadSignature)
  }

  function CheckTransactionLive(o: Oracle, tx: Transaction, key: VerifyingKey): Outcome<TxError> {
    if !key.algorithm.ValidOnLiveChain() then Fail(TestAlgorithmOnLiveChain)
    else CheckTransaction(o, tx, key)
  }

  function CheckHeader(o: Oracle, signed: SignedHeader, key: VerifyingKey): bool {
    o.verifies(key, o.blockDigest(signed.header.chain, o.blockId(signed.header)), signed.signature)
  }

  function CheckAccountEquivocation(o: Oracle, device: DeviceId, first: Transaction, second: Transaction,
                                    key: VerifyingKey): Outcome<TxError>
  {
    if first.body.kind.IsEvidence() || second.body.kind.IsEvidence() then Fail(EvidenceAboutEvidence)
    else if first.body.chain != second.body.chain then Fail(NotEquivocation)
    else if first.body.account != second.body.account then Fail(NotEquivocation)
    else if first.body.device != device || second.body.device != device then Fail(NotEquivocation)
    else if first.body.nonce != second.body.nonce then Fail(NotEquivocation)
    else if o.txId(first.body) == o.txId(second.body) then Fail(NotEquivocation)
    else if CheckTransaction(o, first, key).Fail? then CheckTransaction(o, first, key)
    else CheckTransaction(o, second, key)
  }

  predicate CheckValidatorEquivocation(o: Oracle, validator: AccountId, first: SignedHeader, second: SignedHeader,
                                       key: VerifyingKey)
  {
    && first.header.chain == second.header.chain
    && first.header.height == second.header.height
    && first.header.proposer == validator && second.header.proposer == validator
    && o.blockId(first.header) != o.blockId(second.header)
    && CheckHeader(o, first, key) && CheckHeader(o, second, key)
  }

  // ----- Balances

  function AccountAt(accounts: map<AccountId, Account>, id: AccountId): Account {
    if id in accounts then accounts[id] else VACANT
  }

  /** Credits an account, creating it if need be. */
  function Credited(s: State, id: AccountId, asset: Asset, amount: Amount): Result<State, StateError> {
    match AccountAt(s.accounts, id).Credit(asset, amount)
    case None => Failure(ArithmeticOverflow)
    case Some(a) => Success(s.(accounts := s.accounts[id := a]))
  }

  function Debited(s: State, id: AccountId, asset: Asset, amount: Amount): Result<State, StateError> {
    if id !in s.accounts then Failure(NoSuchAccount(id))
    else
      match s.accounts[id].Debit(asset, amount)
      case None => Failure(InsufficientBalance(asset, amount, s.accounts[id].Balance(asset)))
      case Some(a) => Success(s.(accounts := s.accounts[id := a]))
  }

  function Added(a: Amount, b: Amount): Result<Amount, StateError> {
    match CheckedAdd(a, b)
    case None => Failure(ArithmeticOverflow)
    case Some(sum) => Success(sum)
  }

  // ----- Checks before a transaction

  function CheckEnvelope(ctx: BlockContext, body: TxBody): Outcome<StateError> {
    if body.version != TX_VERSION then Fail(UnsupportedVersion(body.version))
    else if body.chain != ctx.chain then Fail(WrongChain)
    else if body.validUntilFinalized.Some? && ctx.finalizedHeight > body.validUntilFinalized.value then
      Fail(Expired(body.validUntilFinalized.value, ctx.finalizedHeight))
    else if ctx.rung == Provisional && !body.kind.AllowedInProvisional() then Fail(ForbiddenInProvisional)
    else Pass
  }

  function CheckAuthority(accounts: map<AccountId, Account>, body: TxBody): Outcome<StateError> {
    if body.account !in accounts then Fail(NoSuchAccount(body.account))
    else
      var account := accounts[body.account];
      if body.device in account.revokedDevices then Fail(DeviceRevoked(body.device))
      else if body.device !in account.devices then Fail(NoSuchDevice(body.device))
      else if account.devices[body.device].lane != body.nonce.lane then
        Fail(WrongLane(account.devices[body.device].lane, body.nonce.lane))
      else if !account.Accepts(body.nonce) then
        Fail(BadNonce(account.NextSequence(body.nonce.lane), body.nonce.sequence))
      else Pass
  }

  /** What a transaction takes out of its account in VAN besides the fee. */
  function Extra(kind: TxKind): Amount {
    match kind
    case Transfer(_, None, amount) => amount
    case PurseOpen(_, None, deposit, _, _, _) => deposit
    case Bond(amount, _) => amount
    case _ => 0
  }

  function NativeOutflow(body: TxBody): Result<Amount, StateError> {
    Added(body.fee, Extra(body.kind))
  }

  function CheckNomad(accounts: map<AccountId, Account>, body: TxBody, outflow: Amount): Outcome<StateError> {
    if body.account !in accounts then Fail(NoSuchAccount(body.account))
    else if body.device !in accounts[body.account].devices then Fail(NoSuchDevice(body.device))
    else
      var remaining := accounts[body.account].devices[body.device].NomadRemaining();
      if outflow > remaining then Fail(NomadCreditExhausted(body.device, outflow, remaining)) else Pass
  }

  // ----- The fee and each kind of transaction

  function FeeCharged(s: State, ctx: BlockContext, body: TxBody): Result<State, StateError> {
    var split := SplitFee(body.fee);
    var paid :- Debited(s, body.account, None, body.fee);
    var burned :- Added(paid.burned, split.burn);
    var pot :- Added(paid.contextPot, split.pot);
    var fees :- Added(paid.fees, body.fee);
    Credited(paid.(burned := burned, contextPot := pot, fees := fees), ctx.proposer, None, split.provider)
  }

  function Transferred(s: State, from: AccountId, to: AccountId, asset: Asset, amount: Amount)
      : Result<State, StateError> {
    var paid :- Debited(s, from, asset, amount);
    Credited(paid, to, asset, amount)
  }

  ghost function NomadDeclared(s: State, id: AccountId, credit: Amount, margin: Amount): Result<State, StateError> {
    if id !in s.accounts then Failure(NoSuchAccount(id))
    else
      var a := s.accounts[id];
      match AllocatedNomad(a.devices)
      case None => Failure(ArithmeticOverflow)
      case Some(total) =>
        if total > credit then Failure(NomadOverAllocated(total, credit))
        else Success(s.(accounts := s.accounts[id := a.(nomadCredit := credit, nomadMargin := margin)]))
  }

  function LaneNext(lane: Lane): Result<Lane, StateError> {
    if lane + 1 < U32_LIMIT then Success(lane + 1) else Failure(ArithmeticOverflow)
  }

  ghost function DeviceAdded(o: Oracle, s: State, id: AccountId, key: VerifyingKey, lane: Lane, share: Amount)
    : Result<State, StateError>
  {
    var device := o.deviceId(key);
    if id !in s.accounts then Failure(NoSuchAccount(id))
    else
      var a := s.accounts[id];
      if device in a.revokedDevices then Failure(DeviceWasRevoked(device))
      else if device in a.devices then Failure(DeviceAlreadyExists(device))
      else if exists d :: d in a.devices && a.devices[d].lane == lane then Failure(LaneAlreadyUsed(lane))
      else if lane < a.nextLane then Failure(LaneAlreadyUsed(lane))
      else if AllocatedNomad(a.devices).None? then Failure(ArithmeticOverflow)
      else
        var total :- Added(AllocatedNomad(a.devices).value, share);
        if total > a.nomadCredit then Failure(NomadOverAllocated(total, a.nomadCredit))
        else
          var next :- LaneNext(lane);
          Success(s.(accounts := s.accounts[id :=
            a.(devices := a.devices[device := Device(key, lane, share, 0)], nextLane := next)]))
  }

  function DeviceDropped(s: State, id: AccountId, device: DeviceId): Result<State, StateError> {
    if id !in s.accounts then Failure(NoSuchAccount(id))
    else
      var a := s.accounts[id];
      if device !in a.devices then Failure(NoSuchDevice(device))
      else Success(s.(accounts := s.accounts[id :=
        a.(devices := a.devices - {device}, revokedDevices := a.revokedDevices + {device})]))
  }

  function Bonded(s: State, id: AccountId, amount: Amount): Result<State, StateError> {
    var paid :- Debited(s, id, None, amount);
    var bonded :- Added(paid.accounts[id].bonded, amount);
    Success(paid.(accounts := paid.accounts[id := paid.accounts[id].(bonded := bonded)]))
  }

  function Unbonded(s: State, id: AccountId, amount: Amount): Result<State, StateError> {
    if id !in s.accounts then Failure(NoSuchAccount(id))
    else
      var a := s.accounts[id];
      if a.bonded < amount then Failure(InsufficientBalance(None, amount, a.bonded))
      else Credited(s.(accounts := s.accounts[id := a.(bonded := a.bonded - amount)]), id, None, amount)
  }

  /** The capacity is derived from the deposit, never declared. */
  function CapacityOf(deposit: Amount, trancheValue: Amount): u32
    requires trancheValue != 0
  {
    var tranches := deposit / trancheValue;
    Min(if tranches < U32_LIMIT then tranches else MAX_TRANCHES, MAX_TRANCHES)
  }

  function PurseOpened(s: State, id: PurseId, payer: AccountId, payee: AccountId, asset: Asset, deposit: Amount,
                       root: Hash, trancheValue: Amount, expiry: u64): Result<State, StateError>
  {
    if trancheValue == 0 then Failure(ZeroTrancheValue)
    else
      var paid :- Debited(s, payer, asset, deposit);
      match Purses.Open(payer, payee, asset, deposit, root, trancheValue, CapacityOf(deposit, trancheValue), expiry)
      case Failure(e) => Failure(PurseBookFault(PurseFault(e)))
      case Success(purse) =>
        match Filed(paid.purses, id, purse)
        case Failure(e) => Failure(PurseBookFault(e))
        case Success(m) => Success(paid.(purses := m))
  }

  /** Pays the payer, then the payee; a party owed nothing is not touched. */
  function PaidOut(s: State, payout: Payout): Result<State, StateError> {
    var first :- if payout.settlement.toPayer == 0 then Success(s)
                 else Credited(s, payout.payer, payout.asset, payout.settlement.toPayer);
    if payout.settlement.toPayee == 0 then Success(first)
    else Credited(first, payout.payee, payout.asset, payout.settlement.toPayee)
  }

  function PurseClosed(s: State, id: PurseId, caller: AccountId, toPayer: Amount, toPayee: Amount)
      : Result<State, StateError> {
    match ClosedCooperatively(s.purses, id, caller, toPayer, toPayee)
    case Failure(e) => Failure(PurseBookFault(e))
    case Success((m, payout)) => PaidOut(s.(purses := m), payout)
  }

  function PurseClosing(o: Oracle, s: State, ctx: BlockContext, id: PurseId, caller: AccountId, claimed: u32,
      link: Hash)
    : Result<State, StateError>
  {
    var token := if claimed > 0 then Some(Token(claimed, link)) else None;
    match Closing(o.payword, s.purses, id, caller, claimed, token, Window(ctx.finalizedHeight, DISPUTE_WINDOW))
    case Failure(e) => Failure(PurseBookFault(e))
    case Success(m) => Success(s.(purses := m))
  }

  function PurseContested(o: Oracle, s: State, id: PurseId, claimed: u32, link: Hash): Result<State, StateError> {
    match Disputed(o.payword, s.purses, id, claimed, Token(claimed, link))
    case Failure(e) => Failure(PurseBookFault(e))
    case Success(m) => Success(s.(purses := m))
  }

  function AssetMade(s: State, id: AssetId, issuer: AccountId, ticker: Name, decimals: u8, reissuable: bool)
    : Result<State, StateError>
  {
    match Created(s.assets, s.tickers, id, issuer, ticker, decimals, reissuable)
    case Failure(e) => Failure(AssetFault(e))
    case Success((a, t)) => Success(s.(assets := a, tickers := t))
  }

  function AssetMinted(s: State, caller: AccountId, id: AssetId, to: AccountId, amount: Amount)
      : Result<State, StateError> {
    match Minted(s.assets, id, caller, amount)
    case Failure(e) => Failure(AssetFault(e))
    case Success(a) => Credited(s.(assets := a), to, Some(id), amount)
  }

  function AssetBurned(s: State, caller: AccountId, id: AssetId, amount: Amount): Result<State, StateError> {
    var paid :- Debited(s, caller, Some(id), amount);
    match Burned(paid.assets, id, amount)
    case Failure(e) => Failure(AssetFault(e))
    case Success(a) => Success(paid.(assets := a))
  }

  function NameCommitted(s: State, commitment: Hash, account: AccountId, finalized: u64): Result<State, StateError> {
    match Committed(s.commitments, commitment, account, finalized)
    case Failure(e) => Failure(NameFault(e))
    case Success(c) => Success(s.(commitments := c))
  }

  function NameRevealed(o: Oracle, s: State, name: Name, salt: Hash, account: AccountId, finalized: u64)
      : Result<State, StateError> {
    match Revealed(s.owners, s.commitments, o.nameCommitment(name, salt, account), name, account, finalized)
    case Failure(e) => Failure(NameFault(e))
    case Success((owners, c)) => Success(s.(owners := owners, commitments := c))
  }

  function GuardiansSet(s: State, id: AccountId, guardians: set<AccountId>, threshold: u32): Result<State, StateError> {
    if id !in s.accounts then Failure(NoSuchAccount(id))
    else Success(s.(accounts :=
        s.accounts[id := s.accounts[id].(guardians := guardians, guardianThreshold := threshold)]))
  }

  function RecoveryApproved(s: State, ctx: BlockContext, target: AccountId, key: VerifyingKey, guardian: AccountId)
    : Result<State, StateError>
  {
    if target !in s.accounts then Failure(NoSuchAccount(target))
    else
      match Approved(s.recoveries, target, key, guardian, s.accounts[target].guardians,
                     Window(ctx.finalizedHeight, RECOVERY_WINDOW))
      case Failure(e) => Failure(RecoveryFault(e))
      case Success(p) => Success(s.(recoveries := p))
  }

  function RecoveryDropped(s: State, target: AccountId, caller: AccountId): Result<State, StateError> {
    if target != caller then Failure(RecoveryFault(NotRecovering))
    else
      match Cancelled(s.recoveries, target)
      case Failure(e) => Failure(RecoveryFault(e))
      case Success(p) => Success(s.(recoveries := p))
  }

  /** Every device is revoked and one new device takes the next lane, with no offline credit. */
  function Recovered(a: Account, device: DeviceId, key: VerifyingKey): Result<Account, StateError> {
    var next :- LaneNext(a.nextLane);
    Success(a.(
      devices := map[device := Device(key, a.nextLane, 0, 0)],
      revokedDevices := a.revokedDevices + a.devices.Keys,
      nextLane := next,
      nomadCredit := 0))
  }

  function RecoveryCompleted(o: Oracle, s: State, ctx: BlockContext, target: AccountId): Result<State, StateError> {
    if target !in s.accounts then Failure(NoSuchAccount(target))
    else
      match Finalised(s.recoveries, target, s.accounts[target].guardianThreshold, ctx.finalizedHeight)
      case Failure(e) => Failure(RecoveryFault(e))
      case Success((p, key)) =>
        var a :- Recovered(s.accounts[target], o.deviceId(key), key);
        Success(s.(recoveries := p, accounts := s.accounts[target := a]))
  }

  function PenaltyPaid(s: State, penalty: Penalty, denouncer: AccountId): Result<State, StateError> {
    if penalty.seized == 0 then Success(s)
    else
      var burned :- Added(s.burned, penalty.burned);
      Credited(s.(burned := burned), denouncer, None, penalty.toDenouncer)
  }

  function AccountPunished(o: Oracle, s: State, device: DeviceId, first: Transaction, second: Transaction,
                           denouncer: AccountId): Result<State, StateError>
  {
    var accused := first.body.account;
    if accused !in s.accounts then Failure(NoSuchAccount(accused))
    else if device !in s.accounts[accused].devices then Failure(UnknownAccusedDevice(device))
    else
      match CheckAccountEquivocation(o, device, first, second, s.accounts[accused].devices[device].key)
      case Fail(e) => Failure(BadEvidence(e))
      case Pass =>
        var offence := AccountOffence(accused, device, first.body.nonce.lane, first.body.nonce.sequence);
        if offence in s.accountOffences then Failure(SlashingFault(AlreadyPunished))
        else
          var a := s.accounts[accused];
          PenaltyPaid(s.(accountOffences := s.accountOffences + {offence},
                         accounts := s.accounts[accused := a.(nomadMargin := 0)]),
                      SplitPenalty(a.nomadMargin), denouncer)
  }

  function ValidatorPunished(o: Oracle, s: State, validator: AccountId, first: SignedHeader, second: SignedHeader,
                             denouncer: AccountId): Result<State, StateError>
  {
    if validator !in s.accounts then Failure(NoSuchAccount(validator))
    else
      var a := s.accounts[validator];
      if !(exists d :: d in a.devices && CheckValidatorEquivocation(o, validator, first, second, a.devices[d].key)) then
        Failure(NotTheValidator(validator))
      else
        var offence := ValidatorOffence(validator, first.header.height);
        if offence in s.validatorOffences then Failure(SlashingFault(AlreadyPunished))
        else
          PenaltyPaid(s.(validatorOffences := s.validatorOffences + {offence},
                         accounts := s.accounts[validator := a.(bonded := 0)]),
                      SplitPenalty(a.bonded), denouncer)
  }

  ghost function KindApplied(o: Oracle, s: State, ctx: BlockContext, body: TxBody): Result<State, StateError> {
    match body.kind
    case Transfer(to, asset, amount) => Transferred(s, body.account, to, asset, amount)
    case NomadSet(credit, margin) => NomadDeclared(s, body.account, credit, margin)
    case DeviceAdd(key, lane, share) => DeviceAdded(o, s, body.account, key, lane, share)
    case DeviceRevoke(device) => DeviceDropped(s, body.account, device)
    case Bond(amount, _) => Bonded(s, body.account, amount)
    case Unbond(amount) => Unbonded(s, body.account, amount)
    case PurseOpen(counterparty, asset, deposit, root, trancheValue, expiry) =>
      PurseOpened(s, o.txId(body), body.account, counterparty, asset, deposit, root, trancheValue, expiry)
    case PurseCloseCooperative(purse, toPayer, toPayee, _) => PurseClosed(s, purse, body.account, toPayer, toPayee)
    case PurseCloseUnilateral(purse, claimed, link) => PurseClosing(o, s, ctx, purse, body.account, claimed, link)
    case PurseDispute(purse, claimed, link) => PurseContested(o, s, purse, claimed, link)
    case AssetCreate(ticker, decimals, reissuable) =>
      AssetMade(s, o.assetId(body.account, o.txId(body)), body.account, ticker, decimals, reissuable)
    case AssetMint(asset, to, amount) => AssetMinted(s, body.account, asset, to, amount)
    case AssetBurn(asset, amount) => AssetBurned(s, body.account, asset, amount)
    case NameCommit(commitment) => NameCommitted(s, commitment, body.account, ctx.finalizedHeight)
    case NameReveal(name, salt) => NameRevealed(o, s, name, salt, body.account, ctx.finalizedHeight)
    case GuardianSet(guardians, threshold) => GuardiansSet(s, body.account, guardians, threshold)
    case RecoveryStart(target, key) => RecoveryApproved(s, ctx, target, key, body.account)
    case RecoveryCancel(target) => RecoveryDropped(s, target, body.account)
    case RecoveryFinalise(target) => RecoveryCompleted(o, s, ctx, target)
    case AccountEquivocation(device, first, second) => AccountPunished(o, s, device, first, second, body.account)
    case ValidatorEquivocation(validator, first, second) => ValidatorPunished(o, s, validator, first, second,
        body.account)
  }

  // ----- One transaction

  /** The account with the nonce consumed and the offline spending booked on its device. */
  function SpentAccount(a: Account, body: TxBody, nomadConsumed: Amount): Result<Account, StateError> {
    match a.Consume(body.nonce)
    case None => Failure(BadNonce(a.NextSequence(body.nonce.lane), body.nonce.sequence))
    case Some(b) =>
      if nomadConsumed == 0 || body.device !in b.devices then Success(b)
      else
        var d := b.devices[body.device];
        var spent :- Added(d.nomadSpent, nomadConsumed);
        Success(b.(devices := b.devices[body.device := d.(nomadSpent := spent)]))
  }

  function NonceSpent(s: State, body: TxBody, nomadConsumed: Amount): Result<State, StateError> {
    if body.account !in s.accounts then Failure(NoSuchAccount(body.account))
    else
      var a :- SpentAccount(s.accounts[body.account], body, nomadConsumed);
      Success(s.(accounts := s.accounts[body.account := a]))
  }

  /** The checks that read the state without changing it. */
  function Admitted(s: State, ctx: BlockContext, body: TxBody): Result<Amount, StateError> {
    var _ :- CheckEnvelope(ctx, body).ToResult();
    var _ :- CheckAuthority(s.accounts, body).ToResult();
    var outflow :- NativeOutflow(body);
    if ctx.rung == Provisional then
      var _ :- CheckNomad(s.accounts, body, outflow).ToResult();
      Success(outflow)
    else Success(0)
  }

  /** The state one transaction leads to, or why it is refused. */
  ghost function TxApplied(o: Oracle, s: State, ctx: BlockContext, body: TxBody): Result<State, StateError> {
    var consumed :- Admitted(s, ctx, body);
    var charged :- FeeCharged(s, ctx, body);
    var changed :- KindApplied(o, charged, ctx, body);
    NonceSpent(changed, body, consumed)
  }

  // ----- Housekeeping

  function AllPaidOut(s: State, payouts: seq<Payout>): Result<State, StateError>
    decreases |payouts|
  {
    if payouts == [] then Success(s)
    else
      var first :- PaidOut(s, payouts[0]);
      AllPaidOut(first, payouts[1..])
  }

  ghost function PursesSettled(s: State, finalized: u64): Result<State, StateError> {
    AllPaidOut(s.(purses := s.purses - Due(s.purses, finalized)), Payouts(s.purses, finalized))
  }

  function CommitmentsPruned(s: State, finalized: u64): State {
    s.(commitments := s.commitments - Stale(s.commitments, finalized))
  }

  ghost function Housekept(s: State, finalized: u64): Result<State, StateError> {
    var settled :- PursesSettled(s, finalized);
    Success(CommitmentsPruned(settled, finalized))
  }

  function ClearedAccount(a: Account): Account {
    a.(devices := map d | d in a.devices :: a.devices[d].(nomadSpent := 0))
  }

  /** Clears every device's offline spending counter. */
  function CountersCleared(s: State): State {
    s.(accounts := map id | id in s.accounts :: ClearedAccount(s.accounts[id]))
  }
}
