/**
  Spending while the chain is partitioned. Devices' shares never exceed what the account
  declared, no device spends beyond its share, and over any provisional run an account
  loses at most the shares of the devices that signed.
 */
module Nomad {
  import opened Prelude
  import opened Types
  import opened Sums
  import opened Accounts
  import opened RecoveryBooks
  import opened LedgerSpec
  import opened Runs
  import opened Standing
  import opened Custody

  ghost predicate NomadSound(a: Account) {
    && Shares(a.devices) <= a.nomadCredit
    && forall d :: d in a.devices ==> a.devices[d].nomadSpent <= a.devices[d].nomadShare
  }

  ghost predicate AllNomadSound(s: State) {
    forall id :: NomadSound(AccountAt(s.accounts, id))
  }

  // ----- Every event keeps it

  lemma EditedNomad(s: State, t: State, id: AccountId)
    requires AllNomadSound(s)
    requires t.accounts == s.accounts[id := AccountAt(t.accounts, id)]
    requires NomadSound(AccountAt(t.accounts, id))
    ensures AllNomadSound(t)
  {
    hide NomadSound;
    forall other ensures NomadSound(AccountAt(t.accounts, other)) {
      if other != id {
        assert AccountAt(t.accounts, other) == AccountAt(s.accounts, other);
      }
    }
  }

  lemma StandingNomad(s: State, t: State)
    requires AllNomadSound(s) && SameStandings(s, t)
    ensures AllNomadSound(t)
  {
    forall id ensures NomadSound(AccountAt(t.accounts, id)) {
      assert NomadSound(AccountAt(s.accounts, id));
      assert SameStanding(AccountAt(s.accounts, id), AccountAt(t.accounts, id));
    }
  }

  lemma DeclaredNomad(s: State, id: AccountId, credit: Amount, margin: Amount)
    requires AllNomadSound(s) && NomadDeclared(s, id, credit, margin).Success?
    ensures AllNomadSound(NomadDeclared(s, id, credit, margin).value)
  {
    assert NomadSound(AccountAt(s.accounts, id));
    EditedNomad(s, NomadDeclared(s, id, credit, margin).value, id);
  }

  lemma AddedNomad(o: Oracle, s: State, id: AccountId, key: VerifyingKey, lane: Lane, share: Amount)
    requires AllNomadSound(s) && DeviceAdded(o, s, id, key, lane, share).Success?
    ensures AllNomadSound(DeviceAdded(o, s, id, key, lane, share).value)
  {
    assert NomadSound(AccountAt(s.accounts, id));
    SumUpdate(s.accounts[id].devices, ShareOf, o.deviceId(key), Device(key, lane, share, 0));
    EditedNomad(s, DeviceAdded(o, s, id, key, lane, share).value, id);
  }

  lemma DroppedNomad(s: State, id: AccountId, device: DeviceId)
    requires AllNomadSound(s) && DeviceDropped(s, id, device).Success?
    ensures AllNomadSound(DeviceDropped(s, id, device).value)
  {
    assert NomadSound(AccountAt(s.accounts, id));
    SumRemove(s.accounts[id].devices, ShareOf, device);
    EditedNomad(s, DeviceDropped(s, id, device).value, id);
  }

  lemma GuardedNomad(s: State, id: AccountId, guardians: set<AccountId>, threshold: u32)
    requires AllNomadSound(s) && GuardiansSet(s, id, guardians, threshold).Success?
    ensures AllNomadSound(GuardiansSet(s, id, guardians, threshold).value)
  {
    assert NomadSound(AccountAt(s.accounts, id));
    EditedNomad(s, GuardiansSet(s, id, guardians, threshold).value, id);
  }

  lemma RecoveredNomad(o: Oracle, s: State, ctx: BlockContext, target: AccountId)
    requires AllNomadSound(s) && RecoveryCompleted(o, s, ctx, target).Success?
    ensures AllNomadSound(RecoveryCompleted(o, s, ctx, target).value)
  {
    hide Finalised;
    var t := RecoveryCompleted(o, s, ctx, target).value;
    var key := Finalised(s.recoveries, target, s.accounts[target].guardianThreshold, ctx.finalizedHeight).value.1;
    var device := Device(key, s.accounts[target].nextLane, 0, 0);
    var empty: map<DeviceId, Device> := map[];
    SumUpdate(empty, ShareOf, o.deviceId(key), device);
    assert empty[o.deviceId(key) := device] == t.accounts[target].devices;
    assert empty - {o.deviceId(key)} == empty;
    EditedNomad(s, t, target);
  }

  lemma KindNomad(o: Oracle, s: State, ctx: BlockContext, body: TxBody)
    requires AllNomadSound(s) && KindApplied(o, s, ctx, body).Success?
    ensures AllNomadSound(KindApplied(o, s, ctx, body).value)
  {
    hide Transferred, NomadDeclared, DeviceAdded, DeviceDropped, Bonded, Unbonded, PurseOpened, PurseClosed,
      PurseClosing, PurseContested, AssetMade, AssetMinted, AssetBurned, NameCommitted, NameRevealed, GuardiansSet,
      RecoveryApproved, RecoveryDropped, RecoveryCompleted, AccountPunished, ValidatorPunished, AllNomadSound;
    if LeavesStanding(body.kind) {
      KindStanding(o, s, ctx, body);
      StandingNomad(s, KindApplied(o, s, ctx, body).value);
    } else {
      match body.kind
      case NomadSet(credit, margin) => DeclaredNomad(s, body.account, credit, margin);
      case DeviceRevoke(device) => DroppedNomad(s, body.account, device);
      case DeviceAdd(key, lane, share) => AddedNomad(o, s, body.account, key, lane, share);
      case GuardianSet(guardians, threshold) => GuardedNomad(s, body.account, guardians, threshold);
      case RecoveryFinalise(target) => RecoveredNomad(o, s, ctx, target);
    }
  }

  /** What booking an offline spend does to the device that signed. */
  lemma SpentNomad(a: Account, body: TxBody, consumed: Amount)
    requires NomadSound(a) && SpentAccount(a, body, consumed).Success?
    requires consumed > 0 ==> body.device in a.devices && consumed <= a.devices[body.device].NomadRemaining()
    ensures NomadSound(SpentAccount(a, body, consumed).value)
  {
    if consumed > 0 {
      var d := a.devices[body.device];
      SumUpdate(a.devices, ShareOf, body.device, d.(nomadSpent := d.nomadSpent + consumed));
    }
  }

  /** A transaction books offline spending only in a provisional block, from a registered
      device, exactly its native outflow, and within what the device has left. */
  lemma AdmittedNomad(s: State, ctx: BlockContext, body: TxBody)
    requires Admitted(s, ctx, body).Success?
    ensures var a := AccountAt(s.accounts, body.account); var consumed := Admitted(s, ctx, body).value;
      && body.device in a.devices
      && (ctx.rung != Provisional ==> consumed == 0)
      && (ctx.rung == Provisional ==>
           && body.kind.AllowedInProvisional()
           && consumed == body.fee + Extra(body.kind)
           && consumed <= a.devices[body.device].NomadRemaining())
  {
  }

  lemma TransactionNomad(o: Oracle, s: State, ctx: BlockContext, body: TxBody)
    requires AllNomadSound(s) && TxApplied(o, s, ctx, body).Success?
    ensures AllNomadSound(TxApplied(o, s, ctx, body).value)
  {
    hide KindApplied, FeeCharged, SpentAccount, Admitted, NomadSound;
    var consumed := Admitted(s, ctx, body).value;
    var charged := FeeCharged(s, ctx, body).value;
    var changed := KindApplied(o, charged, ctx, body).value;
    AdmittedNomad(s, ctx, body);
    FeeStanding(s, ctx, body);
    StandingNomad(s, charged);
    KindNomad(o, charged, ctx, body);
    if ctx.rung == Provisional {
      KindStanding(o, charged, ctx, body);
      assert SameStanding(AccountAt(s.accounts, body.account), AccountAt(charged.accounts, body.account));
      assert SameStanding(AccountAt(charged.accounts, body.account), AccountAt(changed.accounts, body.account));
    }
    assert NomadSound(AccountAt(changed.accounts, body.account));
    SpentNomad(changed.accounts[body.account], body, consumed);
    EditedNomad(changed, TxApplied(o, s, ctx, body).value, body.account);
  }

  lemma ClearedShares(devices: map<DeviceId, Device>)
    ensures Shares(map d | d in devices :: devices[d].(nomadSpent := 0)) == Shares(devices)
  {
    var cleared := map d | d in devices :: devices[d].(nomadSpent := 0);
    SumMonotone(devices, ShareOf, cleared, ShareOf);
    SumMonotone(cleared, ShareOf, devices, ShareOf);
  }

  lemma ClearingNomad(s: State)
    requires AllNomadSound(s)
    ensures AllNomadSound(CountersCleared(s))
  {
    hide Shares;
    var t := CountersCleared(s);
    forall id ensures NomadSound(AccountAt(t.accounts, id)) {
      assert NomadSound(AccountAt(s.accounts, id));
      ClearedShares(AccountAt(s.accounts, id).devices);
    }
  }

  lemma EventNomad(o: Oracle, s: State, e: Event)
    requires AllNomadSound(s)
    ensures AllNomadSound(Next(o, s, e))
  {
    hide TxApplied, Housekept, CountersCleared, AllNomadSound;
    var r := After(o, s, e);
    if r.Success? {
      match e
      case Submit(ctx, body) => TransactionNomad(o, s, ctx, body);
      case Housekeep(finalized) =>
        HousekeepingStanding(s, finalized);
        StandingNomad(s, r.value);
      case ClearCounters => ClearingNomad(s);
    }
  }

  /** Over every run, shares stay within the declared credit and spending within the share. */
  lemma {:induction false} SharesStayCovered(o: Oracle, s: State, events: seq<Event>)
    requires AllNomadSound(s)
    ensures AllNomadSound(Run(o, s, events))
    decreases |events|
  {
    hide Next, AllNomadSound;
    if events != [] {
      var n := |events| - 1;
      SharesStayCovered(o, s, events[..n]);
      EventNomad(o, Run(o, s, events[..n]), events[n]);
    }
  }

  // ----- The ceiling

  /** A partition: provisional blocks and housekeeping, no counter reset. */
  ghost predicate IsProvisional(events: seq<Event>) {
    forall e :: e in events ==> e.Housekeep? || (e.Submit? && e.ctx.rung == Provisional)
  }

  ghost predicate Signs(o: Oracle, s: State, e: Event, id: AccountId, d: DeviceId) {
    e.Submit? && After(o, s, e).Success? && e.body.account == id && e.body.device == d
  }

  /** The devices of an account that signed an accepted transaction of a run. */
  ghost function Signers(o: Oracle, s: State, events: seq<Event>, id: AccountId): set<DeviceId>
    decreases |events|
  {
    if events == [] then {}
    else
      var n := |events| - 1;
      var e := events[n];
      Signers(o, s, events[..n], id) + if e.Submit?
          && Signs(o, Run(o, s, events[..n]), e, id, e.body.device) then {e.body.device} else {}
  }

  ghost function Spent(devices: map<DeviceId, Device>): int {
    Sum(devices, SpentOf)
  }

  /** Only `spent` counters may differ, and only upwards within the share. */
  ghost predicate SameDevices(a: map<DeviceId, Device>, b: map<DeviceId, Device>) {
    && b.Keys == a.Keys
    && forall d :: d in a ==> b[d] == a[d].(nomadSpent := b[d].nomadSpent)
  }

  lemma SpendBooked(a: Account, body: TxBody, consumed: Amount)
    requires SpentAccount(a, body, consumed).Success? && body.device in a.devices
    ensures var b := SpentAccount(a, body, consumed).value;
      && SameDevices(a.devices, b.devices)
      && Spent(b.devices) == Spent(a.devices) + consumed
      && b.balances == a.balances
      && forall d :: d in a.devices && d != body.device ==> b.devices[d] == a.devices[d]
  {
    if consumed > 0 {
      var d := a.devices[body.device];
      SumUpdate(a.devices, SpentOf, body.device, d.(nomadSpent := d.nomadSpent + consumed));
    }
  }

  /** One provisional transaction: what the signer's account loses is booked on the device. */
  lemma ProvisionalStep(o: Oracle, s: State, ctx: BlockContext, body: TxBody, id: AccountId)
    requires TxApplied(o, s, ctx, body).Success? && ctx.rung == Provisional
    ensures var a := AccountAt(s.accounts, id); var b := AccountAt(TxApplied(o, s, ctx, body).value.accounts, id);
      && SameDevices(a.devices, b.devices)
      && b.Balance(None) + Spent(b.devices) >= a.Balance(None) + Spent(a.devices)
      && forall d :: d in a.devices && !(id == body.account && d == body.device) ==> b.devices[d] == a.devices[d]
  {
    hide KindApplied, FeeCharged, SpentAccount, Admitted, Spent;
    var consumed := Admitted(s, ctx, body).value;
    var charged := FeeCharged(s, ctx, body).value;
    var changed := KindApplied(o, charged, ctx, body).value;
    AdmittedNomad(s, ctx, body);
    FeeStanding(s, ctx, body);
    KindStanding(o, charged, ctx, body);
    assert SameStanding(AccountAt(s.accounts, id), AccountAt(charged.accounts, id));
    assert SameStanding(AccountAt(charged.accounts, id), AccountAt(changed.accounts, id));
    assert SameStanding(AccountAt(s.accounts, body.account), AccountAt(charged.accounts, body.account));
    assert SameStanding(AccountAt(charged.accounts, body.account), AccountAt(changed.accounts, body.account));
    SpendBooked(changed.accounts[body.account], body, consumed);
    OnlyTheSignerPays(o, s, ctx, body);
    var t := TxApplied(o, s, ctx, body).value;
    assert BalanceAt(t, id, None) >= BalanceAt(s, id, None) - if id == body.account then Outlay(body, None) else 0;
    assert Extra(body.kind) == Declared(body.kind, None);
  }

  lemma EventCeiling(o: Oracle, s: State, e: Event, id: AccountId)
    requires e.Housekeep? || (e.Submit? && e.ctx.rung == Provisional)
    ensures var a := AccountAt(s.accounts, id); var b := AccountAt(Next(o, s, e).accounts, id);
      && SameDevices(a.devices, b.devices)
      && b.Balance(None) + Spent(b.devices) >= a.Balance(None) + Spent(a.devices)
      && forall d :: d in a.devices && !Signs(o, s, e, id, d) ==> b.devices[d] == a.devices[d]
  {
    hide TxApplied, Housekept, Spent;
    var r := After(o, s, e);
    if r.Success? {
      match e
      case Submit(ctx, body) => ProvisionalStep(o, s, ctx, body, id);
      case Housekeep(finalized) =>
        HousekeepingStanding(s, finalized);
        HousekeepingPaysExactly(s, finalized, id, None);
        assert SameStanding(AccountAt(s.accounts, id), AccountAt(r.value.accounts, id));
        assert BalanceAt(r.value, id, None) >= BalanceAt(s, id, None);
    }
  }

  lemma {:induction false} RunCeiling(o: Oracle, s: State, events: seq<Event>, id: AccountId)
    requires IsProvisional(events)
    ensures var a := AccountAt(s.accounts, id); var b := AccountAt(Run(o, s, events).accounts, id);
      && SameDevices(a.devices, b.devices)
      && b.Balance(None) + Spent(b.devices) >= a.Balance(None) + Spent(a.devices)
      && forall d :: d in a.devices && d !in Signers(o, s, events, id) ==> b.devices[d] == a.devices[d]
    decreases |events|
  {
    hide Next, After, Spent;
    if events != [] {
      var n := |events| - 1;
      assert events[n] in events;
      RunCeiling(o, s, events[..n], id);
      EventCeiling(o, Run(o, s, events[..n]), events[n], id);
    }
  }

  /** What the devices in `signers` may still spend. */
  ghost function Allowance(devices: map<DeviceId, Device>, signers: set<DeviceId>): int {
    Sum(devices, AllowanceOf(signers))
  }

  ghost function AllowanceOf(signers: set<DeviceId>): (DeviceId, Device) -> int {
    (d: DeviceId, device: Device) => if d in signers then device.nomadShare - device.nomadSpent else 0
  }

  lemma {:induction false} SpentWithinAllowance(a: map<DeviceId, Device>, b: map<DeviceId, Device>,
      signers: set<DeviceId>)
    requires SameDevices(a, b)
    requires forall d :: d in a ==> b[d].nomadSpent <= b[d].nomadShare
    requires forall d :: d in a && d !in signers ==> b[d] == a[d]
    ensures Spent(b) <= Spent(a) + Allowance(a, signers)
    decreases |a|
  {
    if a == map[] {
      assert b == map[];
    } else {
      var d :| d in a;
      SumRemove(a, SpentOf, d);
      SumRemove(b, SpentOf, d);
      SumRemove(a, AllowanceOf(signers), d);
      SpentWithinAllowance(a - {d}, b - {d}, signers);
    }
  }

  lemma AllowanceWithinShares(devices: map<DeviceId, Device>, signers: set<DeviceId>)
    ensures Allowance(devices, signers) <= Shares(devices)
  {
    SumMonotone(devices, AllowanceOf(signers), devices, ShareOf);
  }

  /** The ceiling: over any provisional run between counter resets an account's VAN balance
      falls by at most what the devices that signed had left of their shares, and so
      by at most the credit the account declared. */
  lemma OfflineCeiling(o: Oracle, s: State, events: seq<Event>, id: AccountId)
    requires AllNomadSound(s) && IsProvisional(events)
    ensures BalanceAt(s, id, None) - BalanceAt(Run(o, s, events), id, None) <=
              Allowance(AccountAt(s.accounts, id).devices, Signers(o, s, events, id))
    ensures BalanceAt(s, id, None) - BalanceAt(Run(o, s, events), id, None) <= AccountAt(s.accounts, id).nomadCredit
  {
    hide Run, Spent, Signers, Shares;
    var a := AccountAt(s.accounts, id);
    var b := AccountAt(Run(o, s, events).accounts, id);
    RunCeiling(o, s, events, id);
    SharesStayCovered(o, s, events);
    assert NomadSound(a) && NomadSound(b);
    SpentWithinAllowance(a.devices, b.devices, Signers(o, s, events, id));
    AllowanceWithinShares(a.devices, Signers(o, s, events, id));
  }
}
