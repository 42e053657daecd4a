/** A two-party channel and its closing state machine. */
module Purses {
  import opened Prelude
  import opened Types
  import opened PayWord

  const DISPUTE_WINDOW: u64 := 24 * EPOCH_BLOCKS

  datatype PendingClosure = PendingClosure(
    claimant: AccountId,
    claimedTranches: u32,
    window: Window,
    disputed: bool)

  datatype Settlement = Settlement(toPayer: Amount, toPayee: Amount)

  datatype PurseError =
    | NotAParty(account: AccountId)
    | SelfChannel
    | AlreadyClosing
    | NotClosing
    | WindowOpen(finalizedHeight: u64, closesAt: u64)
    | NotAnImprovement(claimed: u32, disputed: u32)
    | BadPayWord(payword: PayWordError)
    | BeyondCapacity(beyond: u32, capacity: u32)
    | UnbalancedSettlement(total: Amount, deposit: Amount)
    | ValueOverflow

  datatype Purse<H> = Purse(
    payer: AccountId,
    payee: AccountId,
    asset: Asset,
    deposit: Amount,
    paywordRoot: H,
    trancheValue: Amount,
    capacity: u32,
    expiryFinalizedHeight: u64,
    closing: Option<PendingClosure>)
  {
    predicate IsParty(account: AccountId) {
      account == payer || account == payee
    }

    /** What `tranches` are worth, capped at the deposit. */
    function OwedFor(tranches: u32): Result<Amount, PurseError> {
      var raw :- ValueOf(tranches, trancheValue).MapFailure(e => BadPayWord(e));
      Success(Min(raw, deposit))
    }

    function SettleCooperative(toPayer: Amount, toPayee: Amount): Result<Settlement, PurseError> {
      match CheckedAdd(toPayer, toPayee)
      case None => Failure(ValueOverflow)
      case Some(total) =>
        if total != deposit then Failure(UnbalancedSettlement(total, deposit))
        else Success(Settlement(toPayer, toPayee))
    }

    /** Pays out a pending closure whose window has elapsed. */
    function Settle(currentFinalized: u64): Result<Settlement, PurseError> {
      match closing
      case None => Failure(NotClosing)
      case Some(pending) =>
        if !pending.window.HasElapsed(currentFinalized) then
          Failure(WindowOpen(currentFinalized,
              SaturatingAdd(pending.window.openedAtFinalized, pending.window.duration)))
        else if pending.disputed then
          Success(Settlement(0, deposit))
        else
          var toPayee :- OwedFor(pending.claimedTranches);
          Success(Settlement(deposit - toPayee, toPayee))
    }
  }

  function Open<H>(payer: AccountId, payee: AccountId, asset: Asset, deposit: Amount, paywordRoot: H,
                   trancheValue: Amount, capacity: u32, expiry: u64): Result<Purse<H>, PurseError> {
    if payer == payee then Failure(SelfChannel)
    else Success(Purse(payer, payee, asset, deposit, paywordRoot, trancheValue, capacity, expiry, None))
  }

  function CheckClaim<H(==)>(link: H -> H, purse: Purse<H>, tranches: u32,
      token: Option<Token<H>>): Outcome<PurseError> {
    if tranches == 0 then Pass
    else if token.None? then Fail(BadPayWord(BadToken(tranches)))
    else if token.value.index != tranches then Fail(BadPayWord(IndexMismatch(tranches, token.value.index)))
    else
      match Verified(link, purse.paywordRoot, token.value)
      case Pass => Pass
      case Fail(e) => Fail(BadPayWord(e))
  }

  /** The channel after a unilateral closure is published. */
  function BeginUnilateral<H(==)>(link: H -> H, purse: Purse<H>, claimant: AccountId, claimed: u32,
                                  token: Option<Token<H>>, window: Window): Result<Purse<H>, PurseError> {
    if !purse.IsParty(claimant) then Failure(NotAParty(claimant))
    else if purse.closing.Some? then Failure(AlreadyClosing)
    else if claimed > purse.capacity then Failure(BeyondCapacity(claimed, purse.capacity))
    else
      match CheckClaim(link, purse, claimed, token)
      case Fail(e) => Failure(e)
      case Pass => Success(purse.(closing := Some(PendingClosure(claimant, claimed, window, false))))
  }

  /** The channel after a pending closure is contested with a larger token. */
  function Dispute<H(==)>(link: H -> H, purse: Purse<H>, disputed: u32, token: Token<H>): Result<Purse<H>, PurseError> {
    match purse.closing
    case None => Failure(NotClosing)
    case Some(pending) =>
      if disputed <= pending.claimedTranches then Failure(NotAnImprovement(pending.claimedTranches, disputed))
      else if disputed > purse.capacity then Failure(BeyondCapacity(disputed, purse.capacity))
      else
        match CheckClaim(link, purse, disputed, Some(token))
        case Fail(e) => Failure(e)
        case Pass => Success(purse.(closing := Some(pending.(claimedTranches := disputed, disputed := true))))
  }

  /** The capacity the ledger derives is never worth more than the deposit. */
  ghost predicate Funded<H>(purse: Purse<H>) {
    purse.capacity * purse.trancheValue <= purse.deposit
  }

  lemma ProductMonotone(a: nat, b: nat, v: nat)
    requires a <= b
    ensures a * v <= b * v
  {
  }

  /** In a funded channel, tranches within the capacity are paid in full. */
  lemma OwedInFull<H>(purse: Purse<H>, tranches: u32)
    requires Funded(purse) && tranches <= purse.capacity
    ensures purse.OwedFor(tranches) == Success(tranches * purse.trancheValue)
  {
    ProductMonotone(tranches, purse.capacity, purse.trancheValue);
    assert purse.trancheValue * tranches == tranches * purse.trancheValue;
  }

  /** A settlement divides the deposit, all of it and no more. */
  lemma SettlementIsTheDeposit<H>(purse: Purse<H>, finalized: u64)
    requires purse.Settle(finalized).Success?
    ensures purse.Settle(finalized).value.toPayer + purse.Settle(finalized).value.toPayee == purse.deposit
  {
  }
}
