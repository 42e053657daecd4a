/** Housekeeping moves deposits to their owners and nothing else. */
module HousekeepingValue {
  import opened Prelude
  import opened Types
  import opened Sums
  import opened Orders
  import opened Accounts
  import opened Purses
  import opened PurseBooks
  import opened LedgerSpec
  import opened Conservation

  ghost predicate Distinct<T(!new)>(xs: seq<T>) {
    forall i, j :: 0 <= i < j < |xs| ==> xs[i] != xs[j]
  }

  /** The deposits in `asset` of some channels. */
  ghost function Deposits(purses: PurseMap, ids: seq<PurseId>, asset: Asset): int
    requires forall id :: id in ids ==> id in purses
  {
    if ids == [] then 0
    else
      var n := |ids| - 1;
      Deposits(purses, ids[..n], asset) + DepositIn(asset)(ids[n], purses[ids[n]])
  }

  /** Removing channels takes exactly their deposits out of the sum. */
  lemma {:induction false} RemovedDeposits(purses: PurseMap, ids: seq<PurseId>, asset: Asset)
    requires Distinct(ids) && forall id :: id in ids ==> id in purses
    ensures Sum(purses - Elements(ids), DepositIn(asset)) ==
      Sum(purses, DepositIn(asset)) - Deposits(purses, ids, asset)
    decreases |ids|
  {
    if ids == [] {
      assert purses - Elements(ids) == purses;
    } else {
      var n := |ids| - 1;
      RemovedDeposits(purses, ids[..n], asset);
      ElementsStep(ids, n);
      assert ids[..n + 1] == ids;
      assert ids[n] !in Elements(ids[..n]);
      SumRemove(purses - Elements(ids[..n]), DepositIn(asset), ids[n]);
      assert purses - Elements(ids) == purses - Elements(ids[..n]) - {ids[n]};
    }
  }

  lemma {:induction false} PaidOutAppend(s: State, xs: seq<Payout>, y: Payout)
    ensures AllPaidOut(s, xs + [y]) == match AllPaidOut(s, xs)
      case Success(t) => PaidOut(t, y)
      case Failure(e) => Failure(e)
    decreases |xs|
  {
    if xs == [] {
      assert xs + [y] == [y];
    } else {
      assert (xs + [y])[1..] == xs[1..] + [y];
      var first := PaidOut(s, xs[0]);
      if first.Success? {
        PaidOutAppend(first.value, xs[1..], y);
      }
    }
  }

  /** Paying out settled channels adds exactly their deposits. */
  lemma {:induction false} PayoutsValue(purses: PurseMap, finalized: u64, ids: seq<PurseId>, s: State, asset: Asset)
    requires forall id :: id in ids ==> id in Due(purses, finalized)
    requires AllPaidOut(s, PayoutsFor(purses, finalized, ids)).Success?
    ensures Value(AllPaidOut(s, PayoutsFor(purses, finalized, ids)).value, asset) ==
              Value(s, asset) + Deposits(purses, ids, asset)
    decreases |ids|
  {
    if ids != [] {
      var n := |ids| - 1;
      var before := PayoutsFor(purses, finalized, ids[..n]);
      var last := PayoutAt(purses, finalized, ids[n]);
      PaidOutAppend(s, before, last);
      PayoutsValue(purses, finalized, ids[..n], s, asset);
      PaidOutValue(AllPaidOut(s, before).value, last, asset);
      SettlementIsTheDeposit(purses[ids[n]], finalized);
    }
  }

  lemma AscendingDistinct(ids: seq<PurseId>)
    requires Ascending(RankPurse, ids)
    ensures Distinct(ids)
  {
    forall i, j | 0 <= i < j < |ids| ensures ids[i] != ids[j] {
      assert RankPurse(ids[i]) < RankPurse(ids[j]);
    }
  }

  lemma SettledValue(s: State, finalized: u64, asset: Asset)
    requires PursesSettled(s, finalized).Success?
    ensures Value(PursesSettled(s, finalized).value, asset) == Value(s, asset)
  {
    var ids := DueInOrder(s.purses, finalized);
    AscendingDistinct(ids);
    assert Elements(ids) == Due(s.purses, finalized);
    RemovedDeposits(s.purses, ids, asset);
    PayoutsValue(s.purses, finalized, ids, s.(purses := s.purses - Due(s.purses, finalized)), asset);
  }

  /** Housekeeping conserves VAN and every local asset. */
  lemma HousekeepingConserves(s: State, finalized: u64, asset: Asset)
    requires Housekept(s, finalized).Success?
    ensures Value(Housekept(s, finalized).value, asset) == Value(s, asset)
  {
    SettledValue(s, finalized, asset);
    SameEntriesValue(PursesSettled(s, finalized).value, Housekept(s, finalized).value, asset);
  }

  lemma ClearingConserves(s: State, asset: Asset)
    ensures Value(CountersCleared(s), asset) == Value(s, asset)
  {
    var s' := CountersCleared(s);
    forall id | id in s.accounts
      ensures AccountValue(asset)(id, s.accounts[id]) == AccountValue(asset)(id, s'.accounts[id])
    {
    }
    SumEqual(s.accounts, s'.accounts, AccountValue(asset));
  }

  lemma SumEqual(m: map<AccountId, Account>, n: map<AccountId, Account>, f: (AccountId, Account) -> int)
    requires m.Keys == n.Keys
    requires forall id :: id in m ==> f(id, m[id]) == f(id, n[id])
    ensures Sum(m, f) == Sum(n, f)
    decreases |m|
  {
    if m == map[] {
      assert n == map[];
    } else {
      var id :| id in m;
      SumRemove(m, f, id);
      SumRemove(n, f, id);
      SumEqual(m - {id}, n - {id}, f);
    }
  }
}
