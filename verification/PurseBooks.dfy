/** Where the ledger keeps its channels, and what settling them pays. */
module PurseBooks {
  import opened Prelude
  import opened Types
  import opened Orders
  import opened PayWord
  import opened Purses

  type LedgerPurse = Purse<Hash>
  type PurseMap = map<PurseId, LedgerPurse>

  datatype Payout = Payout(purse: PurseId, payer: AccountId, payee: AccountId, asset: Asset, settlement: Settlement)

  datatype PurseBookError =
    | NoSuchPurse(id: PurseId)
    | PurseExists(existing: PurseId)
    | NotAPartyHere(account: AccountId)
    | PurseFault(fault: PurseError)

  function PayoutOf(id: PurseId, purse: LedgerPurse, settlement: Settlement): Payout {
    Payout(id, purse.payer, purse.payee, purse.asset, settlement)
  }

  // ----- What each operation does to the map of channels

  function Filed(purses: PurseMap, id: PurseId, purse: LedgerPurse): Result<PurseMap, PurseBookError> {
    if id in purses then Failure(PurseExists(id)) else Success(purses[id := purse])
  }

  function ClosedCooperatively(purses: PurseMap, id: PurseId, caller: AccountId, toPayer: Amount, toPayee: Amount)
    : Result<(PurseMap, Payout), PurseBookError>
  {
    if id !in purses then Failure(NoSuchPurse(id))
    else if !purses[id].IsParty(caller) then Failure(NotAPartyHere(caller))
    else
      match purses[id].SettleCooperative(toPayer, toPayee)
      case Failure(e) => Failure(PurseFault(e))
      case Success(s) => Success((purses - {id}, PayoutOf(id, purses[id], s)))
  }

  function Closing(link: Hash -> Hash, purses: PurseMap, id: PurseId, caller: AccountId, claimed: u32,
                   token: Option<Token<Hash>>, window: Window): Result<PurseMap, PurseBookError>
  {
    if id !in purses then Failure(NoSuchPurse(id))
    else
      match BeginUnilateral(link, purses[id], caller, claimed, token, window)
      case Failure(e) => Failure(PurseFault(e))
      case Success(p) => Success(purses[id := p])
  }

  function Disputed(link: Hash -> Hash, purses: PurseMap, id: PurseId, disputed: u32, token: Token<Hash>)
    : Result<PurseMap, PurseBookError>
  {
    if id !in purses then Failure(NoSuchPurse(id))
    else
      match Dispute(link, purses[id], disputed, token)
      case Failure(e) => Failure(PurseFault(e))
      case Success(p) => Success(purses[id := p])
  }

  /** The channels a housekeeping at `finalized` settles. */
  function Due(purses: PurseMap, finalized: u64): set<PurseId> {
    set id | id in purses && purses[id].Settle(finalized).Success?
  }

  function PayoutAt(purses: PurseMap, finalized: u64, id: PurseId): Payout
    requires id in Due(purses, finalized)
  {
    PayoutOf(id, purses[id], purses[id].Settle(finalized).value)
  }

  /** The payouts of some due channels, in the order given. */
  function PayoutsFor(purses: PurseMap, finalized: u64, ids: seq<PurseId>): (payouts: seq<Payout>)
    requires forall id :: id in ids ==> id in Due(purses, finalized)
    ensures |payouts| == |ids|
  {
    if ids == [] then []
    else
      var n := |ids| - 1;
      PayoutsFor(purses, finalized, ids[..n]) + [PayoutAt(purses, finalized, ids[n])]
  }

  /** The due channels in ascending identifier order. */
  ghost function DueInOrder(purses: PurseMap, finalized: u64): (ids: seq<PurseId>)
    ensures forall id :: id in ids <==> id in Due(purses, finalized)
    ensures Ascending(RankPurse, ids)
  {
    RankPurseInjective(Due(purses, finalized));
    Sorted(RankPurse, Due(purses, finalized))
  }

  ghost function Payouts(purses: PurseMap, finalized: u64): seq<Payout> {
    PayoutsFor(purses, finalized, DueInOrder(purses, finalized))
  }

  lemma PayoutsStep(purses: PurseMap, finalized: u64, ids: seq<PurseId>, i: nat)
    requires i < |ids| && forall id :: id in ids ==> id in Due(purses, finalized)
    ensures ids[i] in Due(purses, finalized)
    ensures PayoutsFor(purses, finalized, ids[..i + 1]) ==
              PayoutsFor(purses, finalized, ids[..i]) + [PayoutAt(purses, finalized, ids[i])]
  {
    assert ids[i] in ids;
    assert ids[..i + 1][..i] == ids[..i];
  }

  ghost function Elements(ids: seq<PurseId>): set<PurseId> {
    set id | id in ids
  }

  lemma ElementsStep(ids: seq<PurseId>, i: nat)
    requires i < |ids|
    ensures Elements(ids[..i + 1]) == Elements(ids[..i]) + {ids[i]}
  {
    assert ids[..i + 1] == ids[..i] + [ids[i]];
  }

  class PurseBook {
    var purses: PurseMap

    constructor (purses: PurseMap)
      ensures this.purses == purses
    {
      this.purses := purses;
    }

    method Open(id: PurseId, purse: LedgerPurse) returns (r: Outcome<PurseBookError>)
      modifies this
      ensures match Filed(old(purses), id, purse)
        case Success(m) => r == Pass && purses == m
        case Failure(e) => r == Fail(e) && purses == old(purses)
    {
      if id in purses {
        return Fail(PurseExists(id));
      }
      purses := purses[id := purse];
      return Pass;
    }

    method CloseCooperative(id: PurseId, caller: AccountId, toPayer: Amount, toPayee: Amount)
      returns (r: Result<Payout, PurseBookError>)
      modifies this
      ensures match ClosedCooperatively(old(purses), id, caller, toPayer, toPayee)
        case Success((m, payout)) => r == Success(payout) && purses == m
        case Failure(e) => r == Failure(e) && purses == old(purses)
    {
      if id !in purses {
        return Failure(NoSuchPurse(id));
      }
      var purse := purses[id];
      if !purse.IsParty(caller) {
        return Failure(NotAPartyHere(caller));
      }
      var settlement :- purse.SettleCooperative(toPayer, toPayee).MapFailure(e => PurseFault(e));
      purses := purses - {id};
      return Success(PayoutOf(id, purse, settlement));
    }

    method BeginClosure(link: Hash -> Hash, id: PurseId, caller: AccountId, claimed: u32,
                        token: Option<Token<Hash>>, window: Window) returns (r: Outcome<PurseBookError>)
      modifies this
      ensures match Closing(link, old(purses), id, caller, claimed, token, window)
        case Success(m) => r == Pass && purses == m
        case Failure(e) => r == Fail(e) && purses == old(purses)
    {
      if id !in purses {
        return Fail(NoSuchPurse(id));
      }
      var begun := BeginUnilateral(link, purses[id], caller, claimed, token, window);
      if begun.Failure? {
        return Fail(PurseFault(begun.error));
      }
      purses := purses[id := begun.value];
      return Pass;
    }

    method Contest(link: Hash -> Hash, id: PurseId, disputed: u32, token: Token<Hash>)
      returns (r: Outcome<PurseBookError>)
      modifies this
      ensures match Disputed(link, old(purses), id, disputed, token)
        case Success(m) => r == Pass && purses == m
        case Failure(e) => r == Fail(e) && purses == old(purses)
    {
      if id !in purses {
        return Fail(NoSuchPurse(id));
      }
      var contested := Dispute(link, purses[id], disputed, token);
      if contested.Failure? {
        return Fail(PurseFault(contested.error));
      }
      purses := purses[id := contested.value];
      return Pass;
    }

    /** Removes every channel whose window has elapsed; the payouts come in ascending order. */
    method SettleElapsed(finalized: u64) returns (payouts: seq<Payout>)
      modifies this
      ensures purses == old(purses) - Due(old(purses), finalized)
      ensures payouts == Payouts(old(purses), finalized)
    {
      RankPurseInjective(Due(purses, finalized));
      var ready := Ascend(RankPurse, Due(purses, finalized));
      payouts := CollectPayouts(purses, finalized, ready);
      RemoveAll(ready);
      assert Elements(ready) == Due(old(purses), finalized);
    }

    method RemoveAll(ids: seq<PurseId>)
      modifies this
      ensures purses == old(purses) - Elements(ids)
    {
      var i := 0;
      while i < |ids|
        invariant 0 <= i <= |ids|
        invariant purses == old(purses) - Elements(ids[..i])
      {
        ElementsStep(ids, i);
        purses := purses - {ids[i]};
        i := i + 1;
      }
      assert ids[..i] == ids;
    }
  }

  method CollectPayouts(purses: PurseMap, finalized: u64, ids: seq<PurseId>) returns (payouts: seq<Payout>)
    requires forall id :: id in ids ==> id in Due(purses, finalized)
    ensures payouts == PayoutsFor(purses, finalized, ids)
  {
    payouts := [];
    var i := 0;
    while i < |ids|
      invariant 0 <= i <= |ids|
      invariant payouts == PayoutsFor(purses, finalized, ids[..i])
    {
      PayoutsStep(purses, finalized, ids, i);
      payouts := payouts + [PayoutAt(purses, finalized, ids[i])];
      i := i + 1;
    }
    assert ids[..i] == ids;
  }
}
