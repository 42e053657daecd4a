/** Validator candidates, in ascending account order. */
module Validators {
  import opened Prelude
  import opened Types
  import opened Sums
  import opened Orders
  import opened Amounts
  import opened Weights

  datatype ValidatorRecord = ValidatorRecord(
    account: AccountId,
    key: VerifyingKey,
    bond: Amount,
    multiplier: Multiplier,
    commitmentRoot: Hash,
    lastReveal: Hash)
  {
    function Weight(): Weight {
      WeightOf(bond, multiplier)
    }

    predicate IsEligible() {
      Weight() != 0
    }
  }

  type ValidatorMap = map<AccountId, ValidatorRecord>

  /** Every record sits under its own account. */
  ghost predicate Filed(validators: ValidatorMap) {
    forall id :: id in validators ==> validators[id].account == id
  }

  ghost function Ordered(validators: ValidatorMap): (ids: seq<AccountId>)
    ensures Ascending(RankAccount, ids) && forall id :: id in ids <==> id in validators
  {
    RankAccountInjective(validators.Keys);
    Sorted(RankAccount, validators.Keys)
  }

  function RecordsOf(validators: ValidatorMap, ids: seq<AccountId>): (rs: seq<ValidatorRecord>)
    requires forall id :: id in ids ==> id in validators
    ensures |rs| == |ids| && forall i :: 0 <= i < |ids| ==> rs[i] == validators[ids[i]]
  {
    seq(|ids|, i requires 0 <= i < |ids| => validators[ids[i]])
  }

  function BondSum(rs: seq<ValidatorRecord>): nat {
    if rs == [] then 0 else BondSum(rs[..|rs| - 1]) + rs[|rs| - 1].bond
  }

  /** A third of the bonded stake, rounded down, unless the stake does not fit in 64 bits. */
  ghost function SecurityBudget(validators: ValidatorMap): Option<Amount> {
    var total := BondSum(RecordsOf(validators, Ordered(validators)));
    if total < U64_LIMIT then MulDivFloor(total, 1, 3) else None
  }

  ghost function BondOf(id: AccountId, v: ValidatorRecord): int { v.bond }

  lemma NothingLeft(validators: ValidatorMap, id: AccountId, ids: seq<AccountId>)
    requires Ascending(RankAccount, ids) && ids != [] && ids[|ids| - 1] == id
    requires forall k :: k in ids <==> k in validators
    ensures forall k :: k in ids[..|ids| - 1] <==> k in validators - {id}
    ensures Ascending(RankAccount, ids[..|ids| - 1])
  {
    hide RankAccount;
    var n := |ids| - 1;
    forall k ensures k in ids[..n] <==> k in validators - {id} {
      if k in validators - {id} {
        var i :| 0 <= i < |ids| && ids[i] == k;
        assert ids[..n][i] == k;
      }
      if k in ids[..n] {
        var i :| 0 <= i < n && ids[..n][i] == k;
        assert ids[i] in ids;
      }
    }
  }

  lemma SameRecords(validators: ValidatorMap, ids: seq<AccountId>, id: AccountId)
    requires ids != [] && ids[|ids| - 1] == id && id in validators
    requires forall k :: k in ids ==> k in validators
    requires forall k :: k in ids[..|ids| - 1] ==> k in validators - {id}
    ensures BondSum(RecordsOf(validators, ids)) ==
      BondSum(RecordsOf(validators - {id}, ids[..|ids| - 1])) + validators[id].bond
  {
    var n := |ids| - 1;
    assert RecordsOf(validators, ids)[..n] == RecordsOf(validators - {id}, ids[..n]);
  }

  lemma {:induction false} BondsInOrder(validators: ValidatorMap, ids: seq<AccountId>)
    requires Ascending(RankAccount, ids) && forall k :: k in ids <==> k in validators
    ensures BondSum(RecordsOf(validators, ids)) == Sum(validators, BondOf)
    decreases |ids|
  {
    hide RankAccount, BondSum;
    if ids == [] {
      NoBonds(RecordsOf(validators, ids));
      assert validators == map[];
    } else {
      var id := ids[|ids| - 1];
      assert id in ids;
      NothingLeft(validators, id, ids);
      SameRecords(validators, ids, id);
      BondsInOrder(validators - {id}, ids[..|ids| - 1]);
      SumRemove(validators, BondOf, id);
    }
  }

  lemma ThirdOf(total: nat)
    requires total < U64_LIMIT
    ensures MulDivFloor(total, 1, 3).Some?
    ensures 3 * MulDivFloor(total, 1, 3).value <= total < 3 * MulDivFloor(total, 1, 3).value + 3
  {
  }

  /** The budget every header names: a third of all bonds, rounded down, as long as they add
      up in 64 bits. */
  lemma BudgetIsAThird(validators: ValidatorMap)
    ensures SecurityBudget(validators).Some? <==> Sum(validators, BondOf) < U64_LIMIT
    ensures SecurityBudget(validators).Some? ==>
      3 * SecurityBudget(validators).value <= Sum(validators, BondOf) < 3 * SecurityBudget(validators).value + 3
  {
    hide Ordered, BondSum, MulDivFloor, RankAccount;
    BondsInOrder(validators, Ordered(validators));
    if Sum(validators, BondOf) < U64_LIMIT {
      ThirdOf(BondSum(RecordsOf(validators, Ordered(validators))));
    }
  }

  lemma {:induction false} BondPrefix(rs: seq<ValidatorRecord>, n: nat)
    requires n <= |rs|
    ensures BondSum(rs[..n]) <= BondSum(rs)
    decreases |rs|
  {
    if n == |rs| {
      assert rs[..n] == rs;
    } else {
      var m := |rs| - 1;
      assert rs[..m][..n] == rs[..n];
      BondPrefix(rs[..m], n);
    }
  }

  lemma NoBonds(rs: seq<ValidatorRecord>)
    requires rs == []
    ensures BondSum(rs) == 0
  {
  }

  lemma BondStep(rs: seq<ValidatorRecord>, n: nat)
    requires n < |rs|
    ensures BondSum(rs[..n + 1]) == BondSum(rs[..n]) + rs[n].bond
  {
    assert rs[..n + 1][..n] == rs[..n];
  }

  class ValidatorSet {
    var entries: ValidatorMap

    constructor (entries: ValidatorMap)
      ensures this.entries == entries
    {
      this.entries := entries;
    }

    method Insert(record: ValidatorRecord)
      modifies this
      ensures entries == old(entries)[record.account := record]
      ensures old(Filed(entries)) ==> Filed(entries)
    {
      entries := entries[record.account := record];
    }

    method Remove(account: AccountId) returns (removed: Option<ValidatorRecord>)
      modifies this
      ensures removed == if account in old(entries) then Some(old(entries)[account]) else None
      ensures entries == old(entries) - {account}
      ensures old(Filed(entries)) ==> Filed(entries)
    {
      removed := if account in entries then Some(entries[account]) else None;
      entries := entries - {account};
    }

    method InOrder() returns (rs: seq<ValidatorRecord>)
      ensures rs == RecordsOf(entries, Ordered(entries))
    {
      RankAccountInjective(entries.Keys);
      var ids := Ascend(RankAccount, entries.Keys);
      rs := RecordsOf(entries, ids);
    }

    method Budget() returns (r: Option<Amount>)
      ensures r == SecurityBudget(entries)
    {
      hide BondSum, MulDivFloor, Ordered;
      var rs := InOrder();
      var total: u64 := 0;
      NoBonds(rs[..0]);
      var i := 0;
      while i < |rs|
        invariant 0 <= i <= |rs|
        invariant total == BondSum(rs[..i])
      {
        BondStep(rs, i);
        if total + rs[i].bond >= U64_LIMIT {
          BondPrefix(rs, i + 1);
          return None;
        }
        total := total + rs[i].bond;
        i := i + 1;
      }
      assert rs[..i] == rs;
      return MulDivFloor(total, 1, 3);
    }
  }
}
