/**
  Who may act for an account, over whole runs: lanes belong to one device for ever,
  sequences are consecutive and no slot is used twice, and a revoked identifier
  never acts again.
 */
module Authority {
  import opened Prelude
  import opened Types
  import opened Accounts
  import opened RecoveryBooks
  import opened LedgerSpec
  import opened Runs
  import opened Standing

  /** Every device sits on its own lane, below the high-water mark. */
  ghost predicate LanesSound(a: Account) {
    && (forall d :: d in a.devices ==> a.devices[d].lane < a.nextLane)
    && (forall d, e :: d in a.devices && e in a.devices && a.devices[d].lane == a.devices[e].lane ==> d == e)
  }

  ghost predicate AllLanesSound(s: State) {
    forall id :: LanesSound(AccountAt(s.accounts, id))
  }

  /** What can happen to an account's standing: lanes and revocations only grow, and a device
      is either on the lane it had or on a lane never used before. */
  ghost predicate Evolves(a: Account, b: Account) {
    && a.nextLane <= b.nextLane
    && a.revokedDevices <= b.revokedDevices
    && (forall d :: d in b.devices ==>
         (d in a.devices && a.devices[d].lane == b.devices[d].lane) || a.nextLane <= b.devices[d].lane)
    && (forall l: Lane :: a.NextSequence(l) <= b.NextSequence(l))
  }

  ghost predicate AllEvolve(s: State, t: State) {
    forall id :: Evolves(AccountAt(s.accounts, id), AccountAt(t.accounts, id))
  }

  lemma EvolvesChain(a: Account, b: Account, c: Account)
    requires Evolves(a, b) && Evolves(b, c)
    ensures Evolves(a, c)
  {
    forall l: Lane ensures a.NextSequence(l) <= c.NextSequence(l) {
      assert a.NextSequence(l) <= b.NextSequence(l);
    }
  }

  lemma AllEvolveChain(s: State, t: State, u: State)
    requires AllEvolve(s, t) && AllEvolve(t, u)
    ensures AllEvolve(s, u)
  {
    hide Evolves;
    forall id ensures Evolves(AccountAt(s.accounts, id), AccountAt(u.accounts, id)) {
      assert Evolves(AccountAt(s.accounts, id), AccountAt(t.accounts, id));
      EvolvesChain(AccountAt(s.accounts, id), AccountAt(t.accounts, id), AccountAt(u.accounts, id));
    }
  }

  lemma StandingEvolves(s: State, t: State)
    requires SameStandings(s, t)
    ensures AllEvolve(s, t)
    ensures AllLanesSound(s) ==> AllLanesSound(t)
    ensures forall id, l: Lane :: SeqAt(t, id, l) == SeqAt(s, id, l)
  {
    forall id
      ensures Evolves(AccountAt(s.accounts, id), AccountAt(t.accounts, id))
      ensures LanesSound(AccountAt(s.accounts, id)) ==> LanesSound(AccountAt(t.accounts, id))
    {
      assert SameStanding(AccountAt(s.accounts, id), AccountAt(t.accounts, id));
    }
    forall id, l: Lane ensures SeqAt(t, id, l) == SeqAt(s, id, l) {
      assert SameStanding(AccountAt(s.accounts, id), AccountAt(t.accounts, id));
    }
  }

  /** The sequence a lane of an account waits for. */
  ghost function SeqAt(s: State, id: AccountId, lane: Lane): u64 {
    AccountAt(s.accounts, id).NextSequence(lane)
  }

  /** A step from a sound state: it evolves every account, keeps lanes sound, and moves no
      sequence except as stated. */
  ghost predicate SoundStep(s: State, t: State) {
    AllEvolve(s, t) && (AllLanesSound(s) ==> AllLanesSound(t))
  }

  ghost predicate SameSequences(s: State, t: State) {
    forall id, l: Lane :: SeqAt(t, id, l) == SeqAt(s, id, l)
  }

  lemma EditedAccount(s: State, t: State, id: AccountId)
    requires t.accounts == s.accounts[id := AccountAt(t.accounts, id)]
    requires Evolves(AccountAt(s.accounts, id), AccountAt(t.accounts, id))
    requires LanesSound(AccountAt(s.accounts, id)) ==> LanesSound(AccountAt(t.accounts, id))
    ensures SoundStep(s, t)
    ensures AccountAt(t.accounts, id).lanes == AccountAt(s.accounts, id).lanes ==> SameSequences(s, t)
  {
    forall other
      ensures Evolves(AccountAt(s.accounts, other), AccountAt(t.accounts, other))
      ensures LanesSound(AccountAt(s.accounts, other)) ==> LanesSound(AccountAt(t.accounts, other))
      ensures other != id ==> AccountAt(t.accounts, other) == AccountAt(s.accounts, other)
    {
      if other != id {
        assert AccountAt(t.accounts, other) == AccountAt(s.accounts, other);
      }
    }
  }

  lemma DeviceAddedSound(a: Account, d: DeviceId, device: Device, next: Lane)
    requires d !in a.devices && a.nextLane <= device.lane && next == device.lane + 1
    ensures var b := a.(devices := a.devices[d := device], nextLane := next);
      Evolves(a, b) && (LanesSound(a) ==> LanesSound(b))
  {
  }

  lemma DeviceDroppedSound(a: Account, d: DeviceId)
    ensures var b := a.(devices := a.devices - {d}, revokedDevices := a.revokedDevices + {d});
      Evolves(a, b) && (LanesSound(a) ==> LanesSound(b))
  {
  }

  lemma NomadDeclaredSound(a: Account, credit: Amount, margin: Amount)
    ensures var b := a.(nomadCredit := credit, nomadMargin := margin);
      Evolves(a, b) && (LanesSound(a) ==> LanesSound(b))
  {
  }

  lemma RecoveredSound(a: Account, d: DeviceId, key: VerifyingKey)
    requires Recovered(a, d, key).Success?
    ensures var b := Recovered(a, d, key).value;
      Evolves(a, b) && LanesSound(b) && b.lanes == a.lanes
  {
  }

  lemma DeviceAddedStep(o: Oracle, s: State, id: AccountId, key: VerifyingKey, lane: Lane, share: Amount)
    requires DeviceAdded(o, s, id, key, lane, share).Success?
    ensures var t := DeviceAdded(o, s, id, key, lane, share).value; SoundStep(s, t) && SameSequences(s, t)
  {
    hide AllocatedNomad, SoundStep, SameSequences, Evolves, LanesSound;
    DeviceAddedSound(s.accounts[id], o.deviceId(key), Device(key, lane, share, 0), lane + 1);
    EditedAccount(s, DeviceAdded(o, s, id, key, lane, share).value, id);
  }

  lemma DeviceDroppedStep(s: State, id: AccountId, device: DeviceId)
    requires DeviceDropped(s, id, device).Success?
    ensures var t := DeviceDropped(s, id, device).value; SoundStep(s, t) && SameSequences(s, t)
  {
    hide SoundStep, SameSequences, Evolves, LanesSound;
    DeviceDroppedSound(s.accounts[id], device);
    EditedAccount(s, DeviceDropped(s, id, device).value, id);
  }

  lemma NomadDeclaredStep(s: State, id: AccountId, credit: Amount, margin: Amount)
    requires NomadDeclared(s, id, credit, margin).Success?
    ensures var t := NomadDeclared(s, id, credit, margin).value; SoundStep(s, t) && SameSequences(s, t)
  {
    hide AllocatedNomad, SoundStep, SameSequences, Evolves, LanesSound;
    NomadDeclaredSound(s.accounts[id], credit, margin);
    EditedAccount(s, NomadDeclared(s, id, credit, margin).value, id);
  }

  lemma GuardiansSetSound(a: Account, guardians: set<AccountId>, threshold: u32)
    ensures var b := a.(guardians := guardians, guardianThreshold := threshold);
      Evolves(a, b) && (LanesSound(a) ==> LanesSound(b))
  {
  }

  lemma GuardiansSetStep(s: State, id: AccountId, guardians: set<AccountId>, threshold: u32)
    requires GuardiansSet(s, id, guardians, threshold).Success?
    ensures var t := GuardiansSet(s, id, guardians, threshold).value; SoundStep(s, t) && SameSequences(s, t)
  {
    hide SoundStep, SameSequences, Evolves, LanesSound;
    GuardiansSetSound(s.accounts[id], guardians, threshold);
    EditedAccount(s, GuardiansSet(s, id, guardians, threshold).value, id);
  }

  lemma RecoveryStep(o: Oracle, s: State, ctx: BlockContext, target: AccountId)
    requires RecoveryCompleted(o, s, ctx, target).Success?
    ensures var t := RecoveryCompleted(o, s, ctx, target).value; SoundStep(s, t) && SameSequences(s, t)
  {
    hide Recovered, Finalised, SoundStep, SameSequences, Evolves, LanesSound;
    var (p, key) := Finalised(s.recoveries, target, s.accounts[target].guardianThreshold, ctx.finalizedHeight).value;
    RecoveredSound(s.accounts[target], o.deviceId(key), key);
    EditedAccount(s, RecoveryCompleted(o, s, ctx, target).value, target);
  }

  lemma SettingStep(o: Oracle, s: State, ctx: BlockContext, body: TxBody)
    requires KindApplied(o, s, ctx, body).Success? && !LeavesStanding(body.kind)
    ensures SoundStep(s, KindApplied(o, s, ctx, body).value)
    ensures SameSequences(s, KindApplied(o, s, ctx, body).value)
  {
    hide Transferred, NomadDeclared, DeviceAdded, DeviceDropped, Bonded, Unbonded, PurseOpened, PurseClosed,
      PurseClosing, PurseContested, AssetMade, AssetMinted, AssetBurned, NameCommitted, NameRevealed, GuardiansSet,
      RecoveryApproved, RecoveryDropped, RecoveryCompleted, AccountPunished, ValidatorPunished, SoundStep,
          SameSequences;
    match body.kind
    case NomadSet(credit, margin) => NomadDeclaredStep(s, body.account, credit, margin);
    case DeviceRevoke(device) => DeviceDroppedStep(s, body.account, device);
    case DeviceAdd(key, lane, share) => DeviceAddedStep(o, s, body.account, key, lane, share);
    case GuardianSet(guardians, threshold) => GuardiansSetStep(s, body.account, guardians, threshold);
    case RecoveryFinalise(target) => RecoveryStep(o, s, ctx, target);
  }

  lemma KindStep(o: Oracle, s: State, ctx: BlockContext, body: TxBody)
    requires KindApplied(o, s, ctx, body).Success?
    ensures SoundStep(s, KindApplied(o, s, ctx, body).value)
    ensures SameSequences(s, KindApplied(o, s, ctx, body).value)
  {
    hide KindApplied;
    if LeavesStanding(body.kind) {
      KindStanding(o, s, ctx, body);
      StandingEvolves(s, KindApplied(o, s, ctx, body).value);
    } else {
      SettingStep(o, s, ctx, body);
    }
  }

  lemma SpentAccountEvolves(a: Account, body: TxBody, consumed: Amount)
    requires SpentAccount(a, body, consumed).Success?
    ensures var b := SpentAccount(a, body, consumed).value;
      && Evolves(a, b) && (LanesSound(a) ==> LanesSound(b))
      && a.NextSequence(body.nonce.lane) == body.nonce.sequence
      && b.NextSequence(body.nonce.lane) == body.nonce.sequence + 1
      && forall l: Lane :: l != body.nonce.lane ==> b.NextSequence(l) == a.NextSequence(l)
  {
  }

  lemma NonceStep(s: State, body: TxBody, consumed: Amount)
    requires NonceSpent(s, body, consumed).Success?
    ensures var t := NonceSpent(s, body, consumed).value;
      && SoundStep(s, t)
      && SeqAt(s, body.account, body.nonce.lane) == body.nonce.sequence
      && SeqAt(t, body.account, body.nonce.lane) == body.nonce.sequence + 1
      && forall id, l: Lane :: (id, l) != (body.account, body.nonce.lane) ==> SeqAt(t, id, l) == SeqAt(s, id, l)
  {
    hide SpentAccount, SoundStep, Evolves, LanesSound;
    SpentAccountEvolves(s.accounts[body.account], body, consumed);
    EditedAccount(s, NonceSpent(s, body, consumed).value, body.account);
  }

  lemma SoundStepChain(s: State, t: State, u: State)
    requires SoundStep(s, t) && SoundStep(t, u)
    ensures SoundStep(s, u)
  {
    hide AllEvolve, AllLanesSound;
    AllEvolveChain(s, t, u);
  }

  /** What an accepted transaction shows: its device was registered, not revoked and on that
      lane; the slot was the next one; and exactly that slot is used up. */
  lemma AcceptedTransaction(o: Oracle, s: State, ctx: BlockContext, body: TxBody)
    requires TxApplied(o, s, ctx, body).Success?
    ensures var a := AccountAt(s.accounts, body.account);
      && body.device in a.devices && body.device !in a.revokedDevices
      && a.devices[body.device].lane == body.nonce.lane
    ensures var t := TxApplied(o, s, ctx, body).value;
      && SoundStep(s, t)
      && SeqAt(s, body.account, body.nonce.lane) == body.nonce.sequence
      && SeqAt(t, body.account, body.nonce.lane) == body.nonce.sequence + 1
      && forall id, l: Lane :: (id, l) != (body.account, body.nonce.lane) ==> SeqAt(t, id, l) == SeqAt(s, id, l)
  {
    hide KindApplied, FeeCharged, NonceSpent, SoundStep, CheckNomad, CheckEnvelope, NativeOutflow;
    var consumed := Admitted(s, ctx, body).value;
    var charged := FeeCharged(s, ctx, body).value;
    var changed := KindApplied(o, charged, ctx, body).value;
    FeeStanding(s, ctx, body);
    StandingEvolves(s, charged);
    assert SoundStep(s, charged) by { EvolvedIsSound(s, charged); }
    KindStep(o, charged, ctx, body);
    NonceStep(changed, body, consumed);
    SoundStepChain(s, charged, changed);
    SoundStepChain(s, changed, TxApplied(o, s, ctx, body).value);
  }

  lemma EvolvedIsSound(s: State, t: State)
    requires AllEvolve(s, t) && (AllLanesSound(s) ==> AllLanesSound(t))
    ensures SoundStep(s, t)
  {
  }

  lemma ClearingStep(s: State)
    ensures SoundStep(s, CountersCleared(s)) && SameSequences(s, CountersCleared(s))
  {
    var t := CountersCleared(s);
    forall id
      ensures Evolves(AccountAt(s.accounts, id), AccountAt(t.accounts, id))
      ensures LanesSound(AccountAt(s.accounts, id)) ==> LanesSound(AccountAt(t.accounts, id))
      ensures forall l: Lane :: SeqAt(t, id, l) == SeqAt(s, id, l)
    {
    }
  }

  lemma EventStep(o: Oracle, s: State, e: Event)
    ensures SoundStep(s, Next(o, s, e))
    ensures !(e.Submit? && After(o, s, e).Success?) ==> SameSequences(s, Next(o, s, e))
  {
    hide TxApplied, Housekept, CountersCleared;
    var r := After(o, s, e);
    if r.Success? {
      match e
      case Submit(ctx, body) => AcceptedTransaction(o, s, ctx, body);
      case Housekeep(finalized) =>
        HousekeepingStanding(s, finalized);
        StandingEvolves(s, r.value);
      case ClearCounters => ClearingStep(s);
    } else {
      SameAccountsStanding(s, s);
      StandingEvolves(s, s);
    }
  }

  lemma {:induction false} RunStep(o: Oracle, s: State, events: seq<Event>)
    ensures SoundStep(s, Run(o, s, events))
    decreases |events|
  {
    hide Next, SoundStep;
    if events == [] {
      SameAccountsStanding(s, s);
      StandingEvolves(s, s);
      EvolvedIsSound(s, s);
    } else {
      var n := |events| - 1;
      RunStep(o, s, events[..n]);
      EventStep(o, Run(o, s, events[..n]), events[n]);
      SoundStepChain(s, Run(o, s, events[..n]), Run(o, s, events));
    }
  }

  /** A run is its first part followed by its second. */
  lemma {:induction false} RunSplit(o: Oracle, s: State, first: seq<Event>, second: seq<Event>)
    ensures Run(o, s, first + second) == Run(o, Run(o, s, first), second)
    decreases |second|
  {
    hide Next;
    if second == [] {
      assert first + second == first;
    } else {
      var n := |second| - 1;
      assert (first + second)[..|first + second| - 1] == first + second[..n];
      RunSplit(o, s, first, second[..n]);
    }
  }

  /** A lane is bound to one device for ever: no two devices of an account ever held the
      same lane, at whatever two moments of a run one looks. */
  lemma LaneBoundForEver(o: Oracle, s: State, early: seq<Event>, late: seq<Event>, id: AccountId, d: DeviceId,
      e: DeviceId)
    requires AllLanesSound(s)
    requires var a := AccountAt(Run(o, s, early).accounts, id);
      var b := AccountAt(Run(o, s, early + late).accounts, id);
      d in a.devices && e in b.devices && a.devices[d].lane == b.devices[e].lane
    ensures d == e
  {
    hide Run;
    RunStep(o, s, early);
    RunSplit(o, s, early, late);
    RunStep(o, Run(o, s, early), late);
    assert LanesSound(AccountAt(Run(o, s, early).accounts, id));
    assert Evolves(AccountAt(Run(o, s, early).accounts, id), AccountAt(Run(o, s, early + late).accounts, id));
  }

  /** An identifier once revoked never acts again, whatever happened in between: no
      transaction it signs is accepted, even after a recovery that reinstalls it. */
  lemma RevokedNeverActs(o: Oracle, s: State, early: seq<Event>, late: seq<Event>, ctx: BlockContext, body: TxBody)
    requires body.device in AccountAt(Run(o, s, early).accounts, body.account).revokedDevices
    ensures TxApplied(o, Run(o, s, early + late), ctx, body).Failure?
  {
    hide Run, KindApplied, FeeCharged, NonceSpent;
    RunSplit(o, s, early, late);
    RunStep(o, Run(o, s, early), late);
    assert Evolves(AccountAt(Run(o, s, early).accounts, body.account),
        AccountAt(Run(o, s, early + late).accounts, body.account));
  }

  /** How many accepted transactions of a run used a lane. */
  ghost function Uses(o: Oracle, s: State, events: seq<Event>, id: AccountId, lane: Lane): nat
    decreases |events|
  {
    if events == [] then 0
    else
      var n := |events| - 1;
      var e := events[n];
      Uses(o, s, events[..n], id, lane) +
      if UsesLane(o, Run(o, s, events[..n]), e, id, lane) then 1 else 0
  }

  ghost predicate UsesLane(o: Oracle, s: State, e: Event, id: AccountId, lane: Lane) {
    e.Submit? && After(o, s, e).Success? && e.body.account == id && e.body.nonce.lane == lane
  }

  lemma LaneStep(o: Oracle, s: State, e: Event, id: AccountId, lane: Lane)
    ensures SeqAt(Next(o, s, e), id, lane) == SeqAt(s, id, lane) + if UsesLane(o, s, e, id, lane) then 1 else 0
    ensures UsesLane(o, s, e, id, lane) ==> e.body.nonce.sequence == SeqAt(s, id, lane)
  {
    hide TxApplied, SoundStep;
    EventStep(o, s, e);
    if e.Submit? && After(o, s, e).Success? {
      AcceptedTransaction(o, s, e.ctx, e.body);
    }
  }

  /** The accepted sequences of a lane are consecutive: after a run the lane stands exactly
      one further for each accepted transaction that used it. */
  lemma {:induction false} SequencesAreConsecutive(o: Oracle, s: State, events: seq<Event>, id: AccountId, lane: Lane)
    ensures SeqAt(Run(o, s, events), id, lane) == SeqAt(s, id, lane) + Uses(o, s, events, id, lane)
    decreases |events|
  {
    hide Next, UsesLane;
    if events != [] {
      var n := |events| - 1;
      SequencesAreConsecutive(o, s, events[..n], id, lane);
      LaneStep(o, Run(o, s, events[..n]), events[n], id, lane);
    }
  }

  /** No slot is used twice: once a slot's transaction is accepted, no later transaction
      in the same slot of the same account is. */
  lemma NoSlotTwice(o: Oracle, s: State, early: seq<Event>, ctx: BlockContext, body: TxBody,
                    late: seq<Event>, again: BlockContext, other: TxBody)
    requires TxApplied(o, Run(o, s, early), ctx, body).Success?
    requires other.account == body.account && other.nonce == body.nonce
    ensures TxApplied(o, Run(o, s, early + [Submit(ctx, body)] + late), again, other).Failure?
  {
    hide TxApplied, SoundStep;
    var first := early + [Submit(ctx, body)];
    var mid := Run(o, s, first);
    assert first[..|first| - 1] == early;
    AcceptedTransaction(o, Run(o, s, early), ctx, body);
    RunSplit(o, s, first, late);
    SequencesAreConsecutive(o, mid, late, body.account, body.nonce.lane);
    if TxApplied(o, Run(o, mid, late), again, other).Success? {
      AcceptedTransaction(o, Run(o, mid, late), again, other);
    }
  }

  /** A recovered account can act exactly when its new key was neither revoked nor displaced. */
  lemma RecoveredCanAct(a: Account, d: DeviceId, key: VerifyingKey)
    requires Recovered(a, d, key).Success?
    ensures var b := Recovered(a, d, key).value;
      b.devices.Keys == {d} &&
      ((exists e :: e in b.devices && e !in b.revokedDevices) <==> d !in a.revokedDevices && d !in a.devices)
  {
    var b := Recovered(a, d, key).value;
    assert d in b.devices;
  }
}
