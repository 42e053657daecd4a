/**
  A small ledger played out in full: two founding accounts, one of which declares margins and
  equivocates, while the other opens and closes a channel and has the first convicted.
 */
module Scenes {
  import opened Prelude
  import opened Types
  import opened Sums
  import opened Amounts
  import opened Accounts
  import opened PurseBooks
  import opened LedgerSpec
  import opened SlashingBooks
  import opened Genesis
  import opened Histories
  import opened Conservation
  import opened Acceptance
  import opened Margins

  /** Who takes part, on which devices, and at which finalised height. */
  datatype Cast = Cast(
    chain: ChainId,
    accused: AccountId,
    device: DeviceId,
    key: VerifyingKey,
    denouncer: AccountId,
    ownDevice: DeviceId,
    ownKey: VerifyingKey,
    finalized: u64)

  /** What changes: the denouncer's balance, lane and device, the accused's margin and lane,
      and the ledger's burned total, convictions and channels. */
  datatype Scene = Scene(
    balance: Amount,
    sequence: u64,
    retired: bool,
    margin: Amount,
    declared: u64,
    burned: Amount,
    offences: set<AccountOffence>,
    purses: PurseMap)

  const OPENING: Scene := Scene(100, 0, false, 0, 0, 0, {}, map[])

  function LanesAt(sequence: u64): map<Lane, u64> {
    if sequence == 0 then map[] else map[0 := sequence]
  }

  function AccusedIn(c: Cast, z: Scene): Account {
    VACANT.(balances := map[None := 100], nomadMargin := z.margin, devices := map[c.device := Device(c.key, 0, 0, 0)],
            nextLane := 1, lanes := LanesAt(z.declared))
  }

  function DenouncerIn(c: Cast, z: Scene): Account {
    VACANT.(balances := if z.balance == 0 then map[] else map[None := z.balance],
            devices := if z.retired then map[] else map[c.ownDevice := Device(c.ownKey, 0, 0, 0)],
            revokedDevices := if z.retired then {c.ownDevice} else {},
            nextLane := 1, lanes := LanesAt(z.sequence))
  }

  function Stage(c: Cast, z: Scene): State {
    EMPTY_STATE.(accounts := map[c.accused := AccusedIn(c, z), c.denouncer := DenouncerIn(c, z)],
                 purses := z.purses, accountOffences := z.offences, burned := z.burned)
  }

  function Context(c: Cast): BlockContext {
    BlockContext(c.chain, 1, c.finalized, Rung.Chain, c.accused)
  }

  /** What the accused sends next, free of charge. */
  function FromAccused(c: Cast, z: Scene, kind: TxKind): TxBody {
    TxBody(TX_VERSION, c.chain, c.accused, c.device, Nonce(0, z.declared), 0, None, kind)
  }

  function FromDenouncer(c: Cast, z: Scene, kind: TxKind): TxBody {
    TxBody(TX_VERSION, c.chain, c.denouncer, c.ownDevice, Nonce(0, z.sequence), 0, None, kind)
  }

  lemma OpeningValue(c: Cast)
    requires c.accused != c.denouncer
    ensures Value(Stage(c, OPENING), None) == 200
  {
    var accused, denouncer := AccusedIn(c, OPENING), DenouncerIn(c, OPENING);
    assert AccountValue(None)(c.accused, accused) == AccountValue(None)(c.denouncer, denouncer) == 100;
    hide AccusedIn, DenouncerIn, AccountValue;
    var one: map<AccountId, Account> := map[c.accused := accused];
    SumUpdate(map[], AccountValue(None), c.accused, accused);
    SumUpdate(one, AccountValue(None), c.denouncer, denouncer);
    assert Stage(c, OPENING).accounts == one[c.denouncer := denouncer];
    assert one - {c.denouncer} == one;
  }

  lemma OpeningAccounts(c: Cast)
    ensures Founding(AccusedIn(c, OPENING)) && Founding(DenouncerIn(c, OPENING))
  {
    NothingShared(c.device, c.key);
    NothingShared(c.ownDevice, c.ownKey);
    hide Shares;
  }

  lemma OpeningIsGenesis(c: Cast)
    requires c.accused != c.denouncer
    ensures IsGenesis(Stage(c, OPENING))
  {
    OpeningValue(c);
    OpeningAccounts(c);
    hide Value, Founding, AccusedIn, DenouncerIn;
  }

  lemma NothingShared(device: DeviceId, key: VerifyingKey)
    ensures Shares(map[device := Device(key, 0, 0, 0)]) == 0
  {
    SumOfNothing(map[device := Device(key, 0, 0, 0)], ShareOf);
  }

  // ----- One transaction

  lemma DebitNothing(a: Account)
    requires None in a.balances ==> a.balances[None] > 0
    ensures a.Debit(None, 0) == Some(a)
  {
    if None in a.balances {
      assert a.balances[None := a.balances[None]] == a.balances;
    } else {
      assert a.balances - {None} == a.balances;
    }
  }

  lemma CreditNothing(a: Account)
    requires None in a.balances
    ensures a.Credit(None, 0) == Some(a)
  {
    assert a.balances[None := a.balances[None]] == a.balances;
  }

  lemma SameAccount(s: State, id: AccountId)
    requires id in s.accounts
    ensures s.(accounts := s.accounts[id := s.accounts[id]]) == s
  {
    assert s.accounts[id := s.accounts[id]] == s.accounts;
  }

  lemma NothingIsCharged(s: State, ctx: BlockContext, body: TxBody)
    requires body.fee == 0 && body.account in s.accounts && ctx.proposer in s.accounts
    requires var paying := s.accounts[body.account].balances; None in paying ==> paying[None] > 0
    requires None in s.accounts[ctx.proposer].balances
    ensures FeeCharged(s, ctx, body) == Success(s)
  {
    assert SplitFee(0) == FeeSplit(0, 0, 0);
    hide SplitFee;
    DebitNothing(s.accounts[body.account]);
    SameAccount(s, body.account);
    CreditNothing(s.accounts[ctx.proposer]);
    SameAccount(s, ctx.proposer);
  }

  /** Editing one of the two accounts leads to the scene it is taken from. */
  lemma AccusedEdited(c: Cast, z: Scene, next: Scene)
    requires c.accused != c.denouncer && next == z.(margin := next.margin, declared := next.declared)
    ensures Stage(c, z).(accounts := Stage(c, z).accounts[c.accused := AccusedIn(c, next)]) == Stage(c, next)
  {
    assert DenouncerIn(c, z) == DenouncerIn(c, next);
    hide AccusedIn, DenouncerIn;
    assert Stage(c, z).accounts[c.accused := AccusedIn(c, next)] == Stage(c, next).accounts;
  }

  lemma DenouncerEdited(c: Cast, z: Scene, next: Scene)
    requires c.accused != c.denouncer
    requires next == z.(balance := next.balance, sequence := next.sequence, retired := next.retired)
    ensures Stage(c, z).(accounts := Stage(c, z).accounts[c.denouncer := DenouncerIn(c, next)]) == Stage(c, next)
  {
    assert AccusedIn(c, z) == AccusedIn(c, next);
    hide AccusedIn, DenouncerIn;
    assert Stage(c, z).accounts[c.denouncer := DenouncerIn(c, next)] == Stage(c, next).accounts;
  }

  lemma BooksEdited(c: Cast, z: Scene, next: Scene)
    requires next == z.(burned := next.burned, offences := next.offences, purses := next.purses)
    ensures Stage(c, z).(burned := next.burned, accountOffences := next.offences, purses := next.purses)
         == Stage(c, next)
  {
    assert AccusedIn(c, z) == AccusedIn(c, next) && DenouncerIn(c, z) == DenouncerIn(c, next);
    hide AccusedIn, DenouncerIn;
  }

  lemma SlotUsed(a: Account, sequence: u64)
    requires a.lanes == LanesAt(sequence) && sequence + 1 < U64_LIMIT
    ensures a.Consume(Nonce(0, sequence)) == Some(a.(lanes := LanesAt(sequence + 1)))
  {
    assert LanesAt(sequence)[0 := sequence + 1] == LanesAt(sequence + 1);
  }

  lemma AccusedAdmitted(c: Cast, z: Scene, kind: TxKind)
    requires c.accused != c.denouncer
    ensures Admitted(Stage(c, z), Context(c), FromAccused(c, z, kind)) == Success(0)
  {
    hide Extra;
  }

  lemma AccusedIsNotCharged(c: Cast, z: Scene, kind: TxKind)
    requires c.accused != c.denouncer
    ensures FeeCharged(Stage(c, z), Context(c), FromAccused(c, z, kind)) == Success(Stage(c, z))
  {
    hide FeeCharged;
    NothingIsCharged(Stage(c, z), Context(c), FromAccused(c, z, kind));
  }

  lemma AccusedSpendsSlot(c: Cast, z: Scene, next: Scene, kind: TxKind)
    requires c.accused != c.denouncer && z.declared + 1 < U64_LIMIT && next.declared == z.declared
    ensures NonceSpent(Stage(c, next), FromAccused(c, z, kind), 0)
         == Success(Stage(c, next.(declared := z.declared + 1)))
  {
    var done := next.(declared := z.declared + 1);
    SlotUsed(AccusedIn(c, next), z.declared);
    AccusedEdited(c, next, done);
    assert AccusedIn(c, next).(lanes := LanesAt(z.declared + 1)) == AccusedIn(c, done);
    assert Stage(c, next).accounts[c.accused] == AccusedIn(c, next);
    hide Stage, AccusedIn, LanesAt, Account.Consume;
  }

  lemma AccusedActs(o: Oracle, c: Cast, z: Scene, kind: TxKind, next: Scene)
    requires c.accused != c.denouncer && z.declared + 1 < U64_LIMIT && next.declared == z.declared
    requires KindApplied(o, Stage(c, z), Context(c), FromAccused(c, z, kind)) == Success(Stage(c, next))
    ensures TxApplied(o, Stage(c, z), Context(c), FromAccused(c, z, kind))
         == Success(Stage(c, next.(declared := z.declared + 1)))
  {
    hide KindApplied, Admitted, FeeCharged, NonceSpent, Stage;
    AccusedAdmitted(c, z, kind);
    AccusedIsNotCharged(c, z, kind);
    AccusedSpendsSlot(c, z, next, kind);
  }

  lemma DenouncerAdmitted(c: Cast, z: Scene, kind: TxKind)
    requires c.accused != c.denouncer && !z.retired
    ensures Admitted(Stage(c, z), Context(c), FromDenouncer(c, z, kind)) == Success(0)
  {
    hide Extra;
  }

  lemma DenouncerIsNotCharged(c: Cast, z: Scene, kind: TxKind)
    requires c.accused != c.denouncer
    ensures FeeCharged(Stage(c, z), Context(c), FromDenouncer(c, z, kind)) == Success(Stage(c, z))
  {
    hide FeeCharged;
    NothingIsCharged(Stage(c, z), Context(c), FromDenouncer(c, z, kind));
  }

  lemma DenouncerSpendsSlot(c: Cast, z: Scene, next: Scene, kind: TxKind)
    requires c.accused != c.denouncer && z.sequence + 1 < U64_LIMIT && next.sequence == z.sequence
    ensures NonceSpent(Stage(c, next), FromDenouncer(c, z, kind), 0)
         == Success(Stage(c, next.(sequence := z.sequence + 1)))
  {
    var done := next.(sequence := z.sequence + 1);
    SlotUsed(DenouncerIn(c, next), z.sequence);
    DenouncerEdited(c, next, done);
    assert DenouncerIn(c, next).(lanes := LanesAt(z.sequence + 1)) == DenouncerIn(c, done);
    assert Stage(c, next).accounts[c.denouncer] == DenouncerIn(c, next);
    hide Stage, DenouncerIn, LanesAt, Account.Consume;
  }

  lemma DenouncerActs(o: Oracle, c: Cast, z: Scene, kind: TxKind, next: Scene)
    requires c.accused != c.denouncer && !z.retired && z.sequence + 1 < U64_LIMIT && next.sequence == z.sequence
    requires KindApplied(o, Stage(c, z), Context(c), FromDenouncer(c, z, kind)) == Success(Stage(c, next))
    ensures TxApplied(o, Stage(c, z), Context(c), FromDenouncer(c, z, kind))
         == Success(Stage(c, next.(sequence := z.sequence + 1)))
  {
    hide KindApplied, Admitted, FeeCharged, NonceSpent, Stage;
    DenouncerAdmitted(c, z, kind);
    DenouncerIsNotCharged(c, z, kind);
    DenouncerSpendsSlot(c, z, next, kind);
  }

  // ----- A margin declared and seized

  /** Two different transactions the accused's device signed for one slot. */
  predicate Equivocated(o: Oracle, c: Cast, first: Transaction, second: Transaction) {
    first.body.account == c.accused && CheckAccountEquivocation(o, c.device, first, second, c.key).Pass?
  }

  /** Once the accused declares a margin, for which nothing is debited. */
  function Declaring(z: Scene, margin: Amount): Scene
    requires z.declared + 1 < U64_LIMIT
  {
    z.(margin := margin, declared := z.declared + 1)
  }

  lemma MarginDeclared(o: Oracle, c: Cast, z: Scene, margin: Amount)
    requires c.accused != c.denouncer
    ensures NomadDeclared(Stage(c, z), c.accused, 0, margin) == Success(Stage(c, z.(margin := margin)))
  {
    NothingShared(c.device, c.key);
    AccusedEdited(c, z, z.(margin := margin));
    hide Shares;
  }

  lemma DeclarationAccepted(o: Oracle, c: Cast, z: Scene, margin: Amount)
    requires c.accused != c.denouncer && z.declared + 1 < U64_LIMIT
    ensures TxApplied(o, Stage(c, z), Context(c), FromAccused(c, z, NomadSet(0, margin)))
         == Success(Stage(c, Declaring(z, margin)))
  {
    hide Stage, NomadDeclared, TxApplied;
    MarginDeclared(o, c, z, margin);
    AccusedActs(o, c, z, NomadSet(0, margin), z.(margin := margin));
  }

  /** What the evidence is recorded as. */
  function OffenceIn(c: Cast, first: Transaction): AccountOffence {
    OffenceOf(c.device, first)
  }

  /** Once the denouncer has the accused convicted. */
  function Convicting(c: Cast, z: Scene, first: Transaction): Scene
    requires z.sequence + 1 < U64_LIMIT && HasRoom(z.burned, z.balance, z.margin) && z.margin > 0
  {
    Seized(c, z, first).(sequence := z.sequence + 1)
  }

  function Seized(c: Cast, z: Scene, first: Transaction): Scene
    requires HasRoom(z.burned, z.balance, z.margin) && z.margin > 0
  {
    var penalty := SplitPenalty(z.margin);
    z.(offences := z.offences + {OffenceIn(c, first)}, margin := 0,
       burned := z.burned + penalty.burned, balance := z.balance + penalty.toDenouncer)
  }

  lemma PenaltyCredited(c: Cast, z: Scene, amount: Amount)
    requires c.accused != c.denouncer && 0 < z.balance + amount < U64_LIMIT
    ensures Credited(Stage(c, z), c.denouncer, None, amount) == Success(Stage(c, z.(balance := z.balance + amount)))
  {
    var next := z.(balance := z.balance + amount);
    DenouncerEdited(c, z, next);
    assert DenouncerIn(c, z).balances[None := z.balance + amount] == DenouncerIn(c, next).balances;
  }

  lemma MarginSeized(o: Oracle, c: Cast, z: Scene, first: Transaction, second: Transaction)
    requires c.accused != c.denouncer && Equivocated(o, c, first, second) && OffenceIn(c, first) !in z.offences
    requires HasRoom(z.burned, z.balance, z.margin) && z.margin > 0
    requires z.balance + SplitPenalty(z.margin).toDenouncer > 0
    ensures AccountPunished(o, Stage(c, z), c.device, first, second, c.denouncer)
         == Success(Stage(c, Seized(c, z, first)))
  {
    hide CheckAccountEquivocation, Credited, AccusedIn, DenouncerIn;
    var penalty := SplitPenalty(z.margin);
    assert penalty.seized == z.margin;
    hide SplitPenalty;
    var cleared := z.(margin := 0);
    var booked := cleared.(offences := z.offences + {OffenceIn(c, first)}, burned := z.burned + penalty.burned);
    AccusedEdited(c, z, cleared);
    AccusedFacts(c, z);
    BooksEdited(c, cleared, booked);
    PenaltyCredited(c, booked, penalty.toDenouncer);
  }

  lemma AccusedFacts(c: Cast, z: Scene)
    ensures var a := AccusedIn(c, z);
      && c.device in a.devices && a.devices[c.device].key == c.key && a.nomadMargin == z.margin
      && a.(nomadMargin := 0) == AccusedIn(c, z.(margin := 0))
  {
  }

  lemma ConvictionAccepted(o: Oracle, c: Cast, z: Scene, first: Transaction, second: Transaction)
    requires c.accused != c.denouncer && !z.retired && z.sequence + 1 < U64_LIMIT
    requires Equivocated(o, c, first, second) && OffenceIn(c, first) !in z.offences
    requires HasRoom(z.burned, z.balance, z.margin) && z.margin > 0
    requires z.balance + SplitPenalty(z.margin).toDenouncer > 0
    ensures TxApplied(o, Stage(c, z), Context(c), FromDenouncer(c, z, AccountEquivocation(c.device, first, second)))
         == Success(Stage(c, Convicting(c, z, first)))
  {
    hide Stage, AccountPunished, TxApplied, SplitPenalty, HasRoom, Equivocated;
    MarginSeized(o, c, z, first, second);
    DenouncerActs(o, c, z, AccountEquivocation(c.device, first, second), Seized(c, z, first));
  }

  /** The input on which VAN is not conserved. From a genesis, two accepted transactions leave
      more VAN than there was, by any margin the accused cared to declare. */
  lemma VanCanGrow(o: Oracle, c: Cast, margin: Amount, first: Transaction, second: Transaction)
    requires c.accused != c.denouncer && margin > 0 && Equivocated(o, c, first, second)
    ensures IsGenesis(Stage(c, OPENING))
    ensures var t := TxApplied(o, Stage(c, OPENING), Context(c), FromAccused(c, OPENING, NomadSet(0, margin)));
      && t.Success?
      && var accusation := FromDenouncer(c, OPENING, AccountEquivocation(c.device, first, second));
      && var u := TxApplied(o, t.value, Context(c), accusation);
      && u.Success? && Value(u.value, None) == Value(Stage(c, OPENING), None) + margin
  {
    hide Stage, TxApplied, Value, Equivocated, IsGenesis;
    OpeningIsGenesis(c);
    DeclarationAccepted(o, c, OPENING, margin);
    var declared := Declaring(OPENING, margin);
    PenaltyIsConserved(margin);
    hide SplitPenalty;
    ConvictionAccepted(o, c, declared, first, second);
    TransactionConserves(o, Stage(c, OPENING), Context(c), FromAccused(c, OPENING, NomadSet(0, margin)), None);
    ConvictionCreatesVan(o, Stage(c, declared), Context(c),
        FromDenouncer(c, OPENING, AccountEquivocation(c.device, first, second)));
    MarginStands(o, c, declared, first, second);
  }

  lemma MarginStands(o: Oracle, c: Cast, z: Scene, first: Transaction, second: Transaction)
    requires c.accused != c.denouncer && Equivocated(o, c, first, second)
    ensures AccountAt(Stage(c, z).accounts, first.body.account).nomadMargin == z.margin
  {
  }
}
