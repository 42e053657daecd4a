/** The account record and its balances. */
module Accounts {
  import opened Prelude
  import opened Types
  import opened Sums

  datatype Device = Device(key: VerifyingKey, lane: Lane, nomadShare: Amount, nomadSpent: Amount) {
    /** What this device may still spend while the chain is partitioned. */
    function NomadRemaining(): Amount {
      CheckedSub(nomadShare, nomadSpent).GetOr(0)
    }
  }

  datatype Account = Account(
    balances: map<Asset, Amount>,
    nomadCredit: Amount,
    nomadMargin: Amount,
    devices: map<DeviceId, Device>,
    revokedDevices: set<DeviceId>,
    nextLane: Lane,
    lanes: map<Lane, u64>,
    guardians: set<AccountId>,
    guardianThreshold: u32,
    bonded: Amount,
    name: Option<Name>)
  {
    function Balance(asset: Asset): Amount {
      if asset in balances then balances[asset] else 0
    }

    /** Adds to a balance; crediting nothing still stores the balance. */
    function Credit(asset: Asset, amount: Amount): Option<Account> {
      var updated :- CheckedAdd(Balance(asset), amount);
      Some(this.(balances := balances[asset := updated]))
    }

    /** Takes from a balance; a balance that reaches zero is removed. */
    function Debit(asset: Asset, amount: Amount): Option<Account> {
      var updated :- CheckedSub(Balance(asset), amount);
      Some(this.(balances := if updated == 0 then balances - {asset} else balances[asset := updated]))
    }

    /** The sequence the next transaction in `lane` must carry. */
    function NextSequence(lane: Lane): u64 {
      if lane in lanes then lanes[lane] else 0
    }

    predicate Accepts(nonce: Nonce) {
      nonce.sequence == NextSequence(nonce.lane)
    }

    /** Advances a lane by one slot. */
    function Consume(nonce: Nonce): Option<Account> {
      if !Accepts(nonce) then None
      else
        var next :- CheckedAdd(nonce.sequence, 1);
        Some(this.(lanes := lanes[nonce.lane := next]))
    }
  }

  const VACANT: Account := Account(map[], 0, 0, map[], {}, 0, map[], {}, 0, 0, None)

  ghost function ShareOf(id: DeviceId, d: Device): int { d.nomadShare }

  ghost function SpentOf(id: DeviceId, d: Device): int { d.nomadSpent }

  ghost function Shares(devices: map<DeviceId, Device>): nat
  {
    SumNonNegative(devices, ShareOf);
    Sum(devices, ShareOf)
  }

  /** The sum of the devices' shares, unless it does not fit. */
  ghost function AllocatedNomad(devices: map<DeviceId, Device>): Option<Amount> {
    if Shares(devices) < U64_LIMIT then Some(Shares(devices)) else None
  }

  /** The checked fold over the devices, in any order. */
  method AllocateNomad(devices: map<DeviceId, Device>) returns (r: Option<Amount>)
    ensures r == AllocatedNomad(devices)
  {
    var rest := devices;
    var total: Amount := 0;
    while rest != map[]
      invariant rest.Keys <= devices.Keys && forall d :: d in rest ==> rest[d] == devices[d]
      invariant total + Shares(rest) == Shares(devices)
      decreases |rest|
    {
      var d :| d in rest;
      SumRemove(rest, ShareOf, d);
      SumNonNegative(rest - {d}, ShareOf);
      if total + rest[d].nomadShare >= U64_LIMIT {
        return None;
      }
      total := total + rest[d].nomadShare;
      rest := rest - {d};
    }
    return Some(total);
  }

  lemma CreditBalance(a: Account, asset: Asset, amount: Amount, other: Asset)
    requires a.Credit(asset, amount).Some?
    ensures a.Credit(asset, amount).value.Balance(other) == a.Balance(other) + if other == asset then amount else 0
  {
  }

  lemma DebitBalance(a: Account, asset: Asset, amount: Amount, other: Asset)
    requires a.Debit(asset, amount).Some?
    ensures a.Debit(asset, amount).value.Balance(other) == a.Balance(other) - if other == asset then amount else 0
  {
  }

  /** What is stored after a credit or a debit: a credit of nothing still stores a balance, and
      a debit stores one exactly when some is left. */
  lemma BalancesStored(a: Account, asset: Asset, amount: Amount)
    ensures a.Credit(asset, amount).Some? <==> a.Balance(asset) + amount < U64_LIMIT
    ensures a.Credit(asset, amount).Some? ==>
      a.Credit(asset, amount).value == a.(balances := a.balances[asset := a.Balance(asset) + amount])
    ensures a.Debit(asset, amount).Some? <==> amount <= a.Balance(asset)
    ensures a.Debit(asset, amount).Some? ==>
      var left := a.Debit(asset, amount).value;
      && left == a.(balances := left.balances)
      && left.balances.Keys ==
           (if amount < a.Balance(asset) then a.balances.Keys + {asset} else a.balances.Keys - {asset})
      && (forall other :: other in left.balances ==>
            left.balances[other] == a.balances[other] - if other == asset then amount else 0)
  {
  }
}
