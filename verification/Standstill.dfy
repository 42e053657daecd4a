/**
  Finality can stop for ever: a run of seven accepted transactions from a genesis, after which
  no chain of valid blocks refers to a finalised height past a channel's window.
 */
module Standstill {
  import opened Prelude
  import opened Types
  import opened Amounts
  import opened Purses
  import opened PurseBooks
  import opened LedgerSpec
  import opened BlockRules
  import opened ChainRuns
  import opened Genesis
  import opened Scenes
  import opened Halts
  import R = Runs

  /** The cast, a payee nobody holds, the channel's other terms, and two slots' evidence. */
  datatype Story = Story(
    cast: Cast,
    nobody: AccountId,
    root: Hash,
    expiry: u64,
    first: Transaction,
    second: Transaction,
    third: Transaction,
    fourth: Transaction)

  const LENGTH: nat := 7

  ghost predicate Told(o: Oracle, y: Story) {
    && y.cast.accused != y.cast.denouncer && y.nobody != y.cast.accused && y.nobody != y.cast.denouncer
    && Equivocated(o, y.cast, y.first, y.second) && Equivocated(o, y.cast, y.third, y.fourth)
    && OffenceIn(y.cast, y.first) != OffenceIn(y.cast, y.third)
    && y.cast.finalized + DISPUTE_WINDOW < U64_LIMIT
  }

  /** A tranche dearer than the deposit, so that there is nothing to claim. */
  function Opening(y: Story): TxKind {
    PurseOpen(y.nobody, None, 100, y.root, 101, y.expiry)
  }

  function ChannelId(o: Oracle, y: Story): PurseId {
    o.txId(FromDenouncer(y.cast, OPENING, Opening(y)))
  }

  function Channel(y: Story, closing: Option<PendingClosure>): LedgerPurse {
    Purse(y.cast.denouncer, y.nobody, None, 100, y.root, 101, 0, y.expiry, closing)
  }

  function Closure(y: Story): PendingClosure {
    PendingClosure(y.cast.denouncer, 0, Window(y.cast.finalized, DISPUTE_WINDOW), false)
  }

  /** The two largest margins whose halves fit together. */
  function MarginAt(i: nat): Amount {
    if i < 4 then U64_LIMIT - 1 else U64_LIMIT - 2
  }

  function KindAt(o: Oracle, y: Story, i: nat): TxKind {
    if i == 0 then Opening(y)
    else if i == 1 then PurseCloseUnilateral(ChannelId(o, y), 0, y.root)
    else if i == 2 || i == 4 then NomadSet(0, MarginAt(i))
    else if i == 3 then AccountEquivocation(y.cast.device, y.first, y.second)
    else if i == 5 then AccountEquivocation(y.cast.device, y.third, y.fourth)
    else DeviceRevoke(y.cast.ownDevice)
  }

  /** The ledger after the first `i` transactions. */
  function SceneAt(o: Oracle, y: Story, i: nat): Scene {
    var funded := OPENING.(balance := 0, sequence := 1, purses := map[ChannelId(o, y) := Channel(y, None)]);
    var closing := funded.(sequence := 2, purses := map[ChannelId(o, y) := Channel(y, Some(Closure(y)))]);
    var half := U64_LIMIT / 2;
    var richer := closing.(sequence := 3, declared := 1, burned := half, balance := half - 1,
                           offences := {OffenceIn(y.cast, y.first)});
    var richest := closing.(sequence := 4, declared := 2, burned := U64_LIMIT - 1, balance := U64_LIMIT - 2,
                            offences := {OffenceIn(y.cast, y.first)} + {OffenceIn(y.cast, y.third)});
    if i == 0 then OPENING
    else if i == 1 then funded
    else if i == 2 then closing
    else if i == 3 then Declaring(closing, MarginAt(2))
    else if i == 4 then richer
    else if i == 5 then Declaring(richer, MarginAt(4))
    else if i == 6 then richest
    else richest.(sequence := 5, retired := true)
  }

  function BodyAt(o: Oracle, y: Story, i: nat): TxBody {
    if i == 2 || i == 4 then FromAccused(y.cast, SceneAt(o, y, i), KindAt(o, y, i))
    else FromDenouncer(y.cast, SceneAt(o, y, i), KindAt(o, y, i))
  }

  /** The first `n` of the seven transactions. */
  function Sent(o: Oracle, y: Story, n: nat): seq<R.Event> {
    if n == 0 then [] else Sent(o, y, n - 1) + [R.Submit(Context(y.cast), BodyAt(o, y, n - 1))]
  }

  // ----- Each of them is accepted

  lemma ChannelOpens(o: Oracle, y: Story)
    requires y.cast.accused != y.cast.denouncer && y.nobody != y.cast.denouncer
    ensures PurseOpened(Stage(y.cast, OPENING), ChannelId(o, y), y.cast.denouncer, y.nobody, None, 100, y.root, 101,
              y.expiry) == Success(Stage(y.cast, SceneAt(o, y, 1).(sequence := 0)))
  {
    var c := y.cast;
    var paid := OPENING.(balance := 0);
    DenouncerEdited(c, OPENING, paid);
    assert DenouncerIn(c, OPENING).balances - {None} == DenouncerIn(c, paid).balances;
    assert Debited(Stage(c, OPENING), c.denouncer, None, 100) == Success(Stage(c, paid));
    hide Debited, AccusedIn, DenouncerIn;
    BooksEdited(c, paid, paid.(purses := map[ChannelId(o, y) := Channel(y, None)]));
  }

  lemma ChannelCloses(o: Oracle, y: Story)
    ensures PurseClosing(o, Stage(y.cast, SceneAt(o, y, 1)), Context(y.cast), ChannelId(o, y), y.cast.denouncer, 0,
              y.root) == Success(Stage(y.cast, SceneAt(o, y, 2).(sequence := 1)))
  {
    var before, id := SceneAt(o, y, 1), ChannelId(o, y);
    BooksEdited(y.cast, before, SceneAt(o, y, 2).(sequence := 1));
    assert before.purses[id := Channel(y, Some(Closure(y)))] == map[id := Channel(y, Some(Closure(y)))];
    hide AccusedIn, DenouncerIn;
  }

  lemma DeviceRetires(c: Cast, z: Scene)
    requires c.accused != c.denouncer && !z.retired
    ensures DeviceDropped(Stage(c, z), c.denouncer, c.ownDevice) == Success(Stage(c, z.(retired := true)))
  {
    var a, b := DenouncerIn(c, z), DenouncerIn(c, z.(retired := true));
    DenouncerEdited(c, z, z.(retired := true));
    assert a.devices - {c.ownDevice} == b.devices && a.revokedDevices + {c.ownDevice} == b.revokedDevices;
    hide AccusedIn;
  }

  lemma MarginsHalve()
    ensures SplitPenalty(MarginAt(2)) == Penalty(MarginAt(2), U64_LIMIT / 2 - 1, U64_LIMIT / 2)
    ensures SplitPenalty(MarginAt(4)) == Penalty(MarginAt(4), U64_LIMIT / 2 - 1, U64_LIMIT / 2 - 1)
  {
  }

  lemma ConvictionsFollow(o: Oracle, y: Story)
    requires Told(o, y)
    ensures TxApplied(o, Stage(y.cast, SceneAt(o, y, 3)), Context(y.cast), BodyAt(o, y, 3))
         == Success(Stage(y.cast, SceneAt(o, y, 4)))
    ensures TxApplied(o, Stage(y.cast, SceneAt(o, y, 5)), Context(y.cast), BodyAt(o, y, 5))
         == Success(Stage(y.cast, SceneAt(o, y, 6)))
  {
    hide Stage, TxApplied, Equivocated, SplitPenalty, FromDenouncer;
    MarginsHalve();
    assert {} + {OffenceIn(y.cast, y.first)} == {OffenceIn(y.cast, y.first)};
    ConvictionAccepted(o, y.cast, SceneAt(o, y, 3), y.first, y.second);
    ConvictionAccepted(o, y.cast, SceneAt(o, y, 5), y.third, y.fourth);
  }

  lemma ChannelMovesAccepted(o: Oracle, y: Story)
    requires y.cast.accused != y.cast.denouncer && y.nobody != y.cast.denouncer
    ensures TxApplied(o, Stage(y.cast, SceneAt(o, y, 0)), Context(y.cast), BodyAt(o, y, 0))
         == Success(Stage(y.cast, SceneAt(o, y, 1)))
    ensures TxApplied(o, Stage(y.cast, SceneAt(o, y, 1)), Context(y.cast), BodyAt(o, y, 1))
         == Success(Stage(y.cast, SceneAt(o, y, 2)))
  {
    hide Stage, TxApplied, PurseOpened, PurseClosing;
    ChannelOpens(o, y);
    DenouncerActs(o, y.cast, SceneAt(o, y, 0), KindAt(o, y, 0), SceneAt(o, y, 1).(sequence := 0));
    ChannelCloses(o, y);
    DenouncerActs(o, y.cast, SceneAt(o, y, 1), KindAt(o, y, 1), SceneAt(o, y, 2).(sequence := 1));
  }

  lemma RetirementAccepted(o: Oracle, y: Story)
    requires y.cast.accused != y.cast.denouncer
    ensures TxApplied(o, Stage(y.cast, SceneAt(o, y, 6)), Context(y.cast), BodyAt(o, y, 6))
         == Success(Stage(y.cast, SceneAt(o, y, 7)))
  {
    hide Stage, TxApplied, DeviceDropped;
    DeviceRetires(y.cast, SceneAt(o, y, 6));
    DenouncerActs(o, y.cast, SceneAt(o, y, 6), KindAt(o, y, 6), SceneAt(o, y, 7).(sequence := 4));
  }

  lemma EachIsAccepted(o: Oracle, y: Story, i: nat)
    requires Told(o, y) && i < LENGTH
    ensures TxApplied(o, Stage(y.cast, SceneAt(o, y, i)), Context(y.cast), BodyAt(o, y, i))
         == Success(Stage(y.cast, SceneAt(o, y, i + 1)))
  {
    hide Stage, TxApplied, Equivocated;
    if i == 2 || i == 4 {
      DeclarationAccepted(o, y.cast, SceneAt(o, y, i), MarginAt(i));
    } else {
      hide SceneAt, BodyAt;
      ChannelMovesAccepted(o, y);
      ConvictionsFollow(o, y);
      RetirementAccepted(o, y);
    }
  }

  lemma {:induction false} SceneReached(o: Oracle, y: Story, n: nat)
    requires Told(o, y) && n <= LENGTH
    ensures R.Run(o, Stage(y.cast, OPENING), Sent(o, y, n)) == Stage(y.cast, SceneAt(o, y, n))
  {
    hide Stage, TxApplied, Told, BodyAt;
    if n > 0 {
      SceneReached(o, y, n - 1);
      EachIsAccepted(o, y, n - 1);
      var events := Sent(o, y, n);
      assert events[..|events| - 1] == Sent(o, y, n - 1);
    }
  }

  /** The run starts at a genesis, all seven transactions are accepted, and it ends with a
      closure that nobody can dispute or settle. */
  lemma RunEndsDoomed(o: Oracle, y: Story)
    requires Told(o, y)
    ensures IsGenesis(Stage(y.cast, OPENING))
    ensures forall i: nat :: i < LENGTH ==>
      TxApplied(o, R.Run(o, Stage(y.cast, OPENING), Sent(o, y, i)), Context(y.cast), BodyAt(o, y, i)).Success?
    ensures var s := R.Run(o, Stage(y.cast, OPENING), Sent(o, y, LENGTH));
      && Doomed(s, ChannelId(o, y))
      && s.purses[ChannelId(o, y)].closing == Some(Closure(y))
  {
    hide IsGenesis, R.Run, Stage, TxApplied, BodyAt, Told, Sent, Doomed, SceneAt;
    StoryStarts(o, y);
    forall i: nat | i < LENGTH
      ensures TxApplied(o, R.Run(o, Stage(y.cast, OPENING), Sent(o, y, i)), Context(y.cast), BodyAt(o, y, i)).Success?
    {
      SceneReached(o, y, i);
      EachIsAccepted(o, y, i);
    }
    SceneReached(o, y, LENGTH);
    LastIsDoomed(o, y);
  }

  lemma StoryStarts(o: Oracle, y: Story)
    requires Told(o, y)
    ensures IsGenesis(Stage(y.cast, OPENING))
  {
    hide IsGenesis;
    OpeningIsGenesis(y.cast);
  }

  lemma LastIsDoomed(o: Oracle, y: Story)
    requires Told(o, y)
    ensures var s := Stage(y.cast, SceneAt(o, y, LENGTH));
      Doomed(s, ChannelId(o, y)) && s.purses[ChannelId(o, y)].closing == Some(Closure(y))
  {
  }

  lemma StillOpen(o: Oracle, y: Story, purses: PurseMap, finalized: u64)
    requires Told(o, y) && Waits(purses, ChannelId(o, y), finalized)
    requires purses[ChannelId(o, y)].closing == Some(Closure(y))
    ensures finalized < y.cast.finalized + DISPUTE_WINDOW
  {
  }

  /** After that run no chain of valid blocks, whatever it carries and whoever signs, ever
      refers to the finalised height at which the window runs out. */
  lemma FinalityCanStop(o: Oracle, y: Story, params: ChainParameters, parent: BlockHeader, c: ChainState,
                        links: seq<Link>, tip: BlockHeader, d: ChainState)
    requires Told(o, y) && c.ledger == R.Run(o, Stage(y.cast, OPENING), Sent(o, y, LENGTH))
    requires Extends(o, params, parent, c, links, tip, d)
    ensures forall k :: 0 <= k < |links| ==>
      HeaderOf(links[k]).finalizedHeight < y.cast.finalized + DISPUTE_WINDOW
  {
    hide Extends, R.Run, Doomed, Told, Stage, Sent, Waits;
    RunEndsDoomed(o, y);
    FinalityStops(o, params, parent, c, links, tip, d, ChannelId(o, y));
    forall k | 0 <= k < |links|
      ensures HeaderOf(links[k]).finalizedHeight < y.cast.finalized + DISPUTE_WINDOW
    {
      StillOpen(o, y, c.ledger.purses, HeaderOf(links[k]).finalizedHeight);
    }
  }
}
