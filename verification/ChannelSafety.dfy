/**
  A channel under attack. The adversary publishes closures and disputes with any
  token it can compute: hashing forward, as long as it likes, from the links the payer
  has revealed and from values unrelated to the chain. The theorems hold for every run.
 */
module ChannelSafety {
  import opened Prelude
  import opened Types
  import opened Chains
  import opened PayWord
  import opened Purses
  import opened Watchtowers

  /** The sealed chain and what the adversary knows besides it. */
  datatype World<!H> = World(link: H -> H, seed: H, capacity: u32, atoms: iset<H>) {
    /** The `index`-th link; index 0 is the published root. */
    function LinkAt(index: nat): H
      requires index <= capacity
    {
      Iterate(link, capacity - index, seed)
    }
  }

  /** A free link, and values that are not on the chain and do not lead to it. */
  ghost predicate Sound<H(!new)>(w: World<H>) {
    && w.capacity <= MAX_TRANCHES
    && Free(w.link)
    && forall a, j: nat, k: nat :: a in w.atoms ==> Iterate(w.link, j, a) != Iterate(w.link, k, w.seed)
  }

  /** Everything computable once the payer has revealed `spent` links. */
  ghost predicate Known<H(!new)>(w: World<H>, spent: u32, x: H)
    requires spent <= w.capacity
  {
    exists k: nat, y :: x == Iterate(w.link, k, y) && (y in w.atoms || y == w.LinkAt(spent))
  }

  datatype Game<H> = Game(purse: Purse<H>, spent: u32, finalized: u64, settled: Option<Settlement>)

  datatype Move<H> =
    | Spend(tranches: u32)
    | Close(claimant: AccountId, claimed: u32, token: Option<Token<H>>)
    | Contest(disputed: u32, proof: Token<H>)
    | Finalise(height: u64)
    | SettleDue

  ghost predicate Step<H(!new)>(w: World<H>, g: Game<H>, m: Move<H>, g': Game<H>) {
    && g.settled.None?
    && g.spent <= w.capacity
    && match m
       case Spend(tranches) =>
         g.spent + tranches <= w.capacity && g' == g.(spent := g.spent + tranches)
       case Close(claimant, claimed, token) =>
         && (token.Some? ==> Known(w, g.spent, token.value.revealed))
         && var r := BeginUnilateral(w.link, g.purse, claimant, claimed, token, Window(g.finalized, DISPUTE_WINDOW));
            r.Success? && g' == g.(purse := r.value)
       case Contest(disputed, proof) =>
         && Known(w, g.spent, proof.revealed)
         && var r := Dispute(w.link, g.purse, disputed, proof);
            r.Success? && g' == g.(purse := r.value)
       case Finalise(height) =>
         g.finalized <= height && g' == g.(finalized := height)
       case SettleDue =>
         && var r := g.purse.Settle(g.finalized);
            r.Success? && g' == g.(settled := Some(r.value))
  }

  ghost predicate Run<H(!new)>(w: World<H>, g: Game<H>, moves: seq<Move<H>>, g': Game<H>)
    decreases |moves|
  {
    if moves == [] then g' == g
    else exists mid :: Step(w, g, moves[0], mid) && Run(w, mid, moves[1..], g')
  }

  lemma SettledIsFinal<H(!new)>(w: World<H>, g: Game<H>, moves: seq<Move<H>>, g': Game<H>)
    requires g.settled.Some? && Run(w, g, moves, g')
    ensures g' == g
  {
  }

  /** A freshly opened channel over the sealed chain. */
  ghost predicate Opened<H>(w: World<H>, g: Game<H>) {
    && g.spent == 0 && g.settled.None? && g.purse.closing.None?
    && OverChain(w, g)
  }

  ghost predicate OverChain<H>(w: World<H>, g: Game<H>) {
    && g.purse.capacity == w.capacity
    && g.purse.paywordRoot == w.LinkAt(0)
    && Funded(g.purse)
  }

  /** The claim of a pending closure never exceeds what the payer has spent. */
  ghost predicate Honest<H>(w: World<H>, g: Game<H>) {
    && OverChain(w, g)
    && g.spent <= w.capacity
    && (g.purse.closing.Some? ==> g.purse.closing.value.claimedTranches <= g.spent)
  }

  lemma AtomsMiss<H(!new)>(w: World<H>, a: H, j: nat, k: nat)
    requires Sound(w)
    ensures a in w.atoms ==> Iterate(w.link, j, a) != Iterate(w.link, k, w.seed)
  {
  }

  /** No known value sits further down the chain than the payer has revealed. */
  lemma KnownReach<H(!new)>(w: World<H>, spent: u32, x: H, index: u32)
    requires Sound(w) && spent <= w.capacity && index <= w.capacity
    requires Known(w, spent, x) && Iterate(w.link, index, x) == w.LinkAt(0)
    ensures index <= spent
  {
    var k: nat, y :| x == Iterate(w.link, k, y) && (y in w.atoms || y == w.LinkAt(spent));
    IterateAdd(w.link, index, k, y);
    AtomsMiss(w, y, index + k, w.capacity);
    var d: nat := w.capacity - spent;
    IterateAdd(w.link, index + k, d, w.seed);
    StepsUnique(w.link, index + k + d, w.capacity, w.seed);
  }

  /** A claim the channel accepts is at most what the payer has spent. */
  lemma AcceptedClaim<H(!new)>(w: World<H>, g: Game<H>, claimed: u32, token: Option<Token<H>>)
    requires Sound(w) && OverChain(w, g) && g.spent <= w.capacity && claimed <= w.capacity
    requires token.Some? ==> Known(w, g.spent, token.value.revealed)
    requires CheckClaim(w.link, g.purse, claimed, token).Pass?
    ensures claimed <= g.spent
  {
    if claimed != 0 {
      VerifiedExactly(w.link, g.purse.paywordRoot, token.value);
      KnownReach(w, g.spent, token.value.revealed, claimed);
    }
  }

  lemma HonestStep<H(!new)>(w: World<H>, g: Game<H>, m: Move<H>, g': Game<H>)
    requires Sound(w) && Honest(w, g) && Step(w, g, m, g')
    ensures Honest(w, g')
  {
    match m
    case Close(_, claimed, token) => AcceptedClaim(w, g, claimed, token);
    case Contest(disputed, proof) => AcceptedClaim(w, g, disputed, Some(proof));
    case _ =>
  }

  /** In every run of an opened channel, every accepted claim or dispute is at most what the
      payer has spent, and that is at most the capacity. */
  lemma ClaimsNeverExceedSpent<H(!new)>(w: World<H>, g: Game<H>, moves: seq<Move<H>>, g': Game<H>)
    requires Sound(w) && Opened(w, g) && Run(w, g, moves, g')
    ensures g'.spent <= g'.purse.capacity
    ensures g'.purse.closing.Some? ==> g'.purse.closing.value.claimedTranches <= g'.spent
    ensures Honest(w, g')
  {
    HonestRun(w, g, moves, g');
  }

  lemma {:induction false} HonestRun<H(!new)>(w: World<H>, g: Game<H>, moves: seq<Move<H>>, g': Game<H>)
    requires Sound(w) && Honest(w, g) && Run(w, g, moves, g')
    ensures Honest(w, g')
    decreases |moves|
  {
    if moves != [] {
      var mid :| Step(w, g, moves[0], mid) && Run(w, mid, moves[1..], g');
      HonestStep(w, g, moves[0], mid);
      HonestRun(w, mid, moves[1..], g');
    }
  }

  /** What a pending closure keeps: its window, its claimant, and a claim that only rises. */
  ghost predicate Raised(before: PendingClosure, after: PendingClosure) {
    && after.claimant == before.claimant && after.window == before.window
    && before.claimedTranches <= after.claimedTranches
    && (before.disputed ==> after.disputed)
    && (!after.disputed ==> after.claimedTranches == before.claimedTranches)
    && (after.claimedTranches == before.claimedTranches ==> after.disputed == before.disputed)
  }

  /** What one closure settles to. */
  ghost predicate PaysClosure<H>(purse: Purse<H>, closure: PendingClosure, s: Settlement) {
    && s.toPayer + s.toPayee == purse.deposit
    && s.toPayee == if closure.disputed then purse.deposit else closure.claimedTranches * purse.trancheValue
  }

  /** From a pending closure on, claims only rise, the window stands still, and a settlement
      comes after the window and pays the claim exactly, or the whole deposit once disputed. */
  lemma {:induction false} ClosureOnlyRises<H(!new)>(w: World<H>, g: Game<H>, moves: seq<Move<H>>, g': Game<H>)
    requires Sound(w) && Honest(w, g) && Run(w, g, moves, g')
    requires g.settled.None? && g.purse.closing.Some?
    ensures g'.purse.closing.Some? && Raised(g.purse.closing.value, g'.purse.closing.value)
    ensures g'.purse == g.purse.(closing := g'.purse.closing)
    ensures g'.settled.Some? ==>
      && g.purse.closing.value.window.HasElapsed(g'.finalized)
      && PaysClosure(g'.purse, g'.purse.closing.value, g'.settled.value)
    decreases |moves|
  {
    if moves != [] {
      var mid :| Step(w, g, moves[0], mid) && Run(w, mid, moves[1..], g');
      HonestStep(w, g, moves[0], mid);
      if mid.settled.Some? {
        OwedInFull(g.purse, g.purse.closing.value.claimedTranches);
        SettledIsFinal(w, mid, moves[1..], g');
      } else {
        ClosureOnlyRises(w, mid, moves[1..], g');
      }
    }
  }

  /** A closure published with the true count can never be disputed, in any run in which the
      payer spends nothing more; it settles for exactly what was spent. */
  lemma {:induction false} TrueClosureStands<H(!new)>(w: World<H>, g: Game<H>, moves: seq<Move<H>>, g': Game<H>)
    requires Sound(w) && Honest(w, g) && Run(w, g, moves, g')
    requires g.settled.None? && g.purse.closing.Some?
    requires !g.purse.closing.value.disputed && g.purse.closing.value.claimedTranches == g.spent
    requires forall m :: m in moves ==> !m.Spend?
    ensures g'.purse == g.purse && g'.spent == g.spent
    ensures g'.settled.Some? ==>
      g'.settled.value.toPayee == g.spent * g.purse.trancheValue
    decreases |moves|
  {
    ClosureOnlyRises(w, g, moves, g');
    if moves != [] {
      assert moves[0] in moves;
      var mid :| Step(w, g, moves[0], mid) && Run(w, mid, moves[1..], g');
      HonestStep(w, g, moves[0], mid);
      if mid.settled.Some? {
        SettledIsFinal(w, mid, moves[1..], g');
      } else {
        TrueClosureStands(w, mid, moves[1..], g');
      }
    }
  }

  /** The channel after one look and, if the verdict asks for it, one dispute. */
  ghost function Watched<H>(w: World<H>, g: Game<H>, best: Token<H>): Game<H> {
    match Judge(Some(best), g.purse)
    case Object(tranches, token) =>
      var r := Dispute(w.link, g.purse, tranches, token);
      if r.Success? then g.(purse := r.value) else g
    case _ => g
  }

  /** One inspect-then-dispute with the payee's best genuine token, at any moment before the
      settlement, guarantees the payee what that token is worth, whatever happens next. */
  lemma PayeeIsMadeWhole<H(!new)>(w: World<H>, g: Game<H>, best: Token<H>, moves: seq<Move<H>>, g': Game<H>)
    requires Sound(w) && Honest(w, g)
    requires g.settled.None? && g.purse.closing.Some?
    requires 1 <= best.index <= g.spent && Iterate(w.link, best.index, best.revealed) == w.LinkAt(0)
    requires Run(w, Watched(w, g, best), moves, g') && g'.settled.Some?
    ensures g'.settled.value.toPayee >= best.index * g.purse.trancheValue
    ensures g.purse.OwedFor(best.index) == Success(best.index * g.purse.trancheValue)
  {
    OwedInFull(g.purse, best.index);
    VerifiedExactly(w.link, g.purse.paywordRoot, best);
    var g1 := Watched(w, g, best);
    assert g1.purse.closing.value.claimedTranches >= best.index;
    ClosureOnlyRises(w, g1, moves, g');
    ProductMonotone(best.index, g'.purse.closing.value.claimedTranches, g.purse.trancheValue);
    ProductMonotone(best.index, g.purse.capacity, g.purse.trancheValue);
  }

  // ----- The hypotheses can be met

  const STALE_SEED: Term := Atom(0)
  const STALE_LINK: Term := Linked(STALE_SEED)
  const STALE_ROOT: Term := Linked(STALE_LINK)
  ghost const STALE_WORLD: World<Term> := World(LinkTerm, STALE_SEED, 2, iset{})

  lemma StaleWorld()
    ensures Sound(STALE_WORLD) && STALE_WORLD.LinkAt(0) == STALE_ROOT
    ensures Known(STALE_WORLD, 2, STALE_LINK) && Known(STALE_WORLD, 2, STALE_SEED)
    ensures Verified(LinkTerm, STALE_ROOT, Token(1, STALE_LINK)).Pass?
    ensures Verified(LinkTerm, STALE_ROOT, Token(2, STALE_SEED)).Pass?
  {
    TermsAreFree();
    var w := STALE_WORLD;
    assert Iterate(LinkTerm, 2, STALE_SEED) == LinkTerm(Iterate(LinkTerm, 1, STALE_SEED)) == STALE_ROOT;
    assert STALE_LINK == Iterate(LinkTerm, 1, w.LinkAt(2)) && STALE_SEED == Iterate(LinkTerm, 0, w.LinkAt(2));
    VerifiedExactly(LinkTerm, STALE_ROOT, Token(1, STALE_LINK));
    VerifiedExactly(LinkTerm, STALE_ROOT, Token(2, STALE_SEED));
  }

  /** The channel of two tranches of 5, after each of the five moves. */
  function StaleGame(payer: AccountId, payee: AccountId, n: nat): Game<Term> {
    var purse := Purse(payer, payee, None, 10, STALE_ROOT, 5, 2, 100, None);
    var closure := PendingClosure(payer, 1, Window(0, DISPUTE_WINDOW), false);
    Game(
      if n < 2 then purse
      else if n < 3 then purse.(closing := Some(closure))
      else purse.(closing := Some(closure.(claimedTranches := 2, disputed := true))),
      if n < 1 then 0 else 2,
      if n < 4 then 0 else DISPUTE_WINDOW,
      if n < 5 then None else Some(Settlement(0, 10)))
  }

  function StaleMoves(payer: AccountId): seq<Move<Term>> {
    [Spend(2), Close(payer, 1, Some(Token(1, STALE_LINK))), Contest(2, Token(2, STALE_SEED)), Finalise(DISPUTE_WINDOW),
        SettleDue]
  }

  lemma StaleStep(payer: AccountId, payee: AccountId, n: nat)
    requires n < 5
    ensures Step(STALE_WORLD, StaleGame(payer, payee, n), StaleMoves(payer)[n], StaleGame(payer, payee, n + 1))
  {
    StaleWorld();
    hide Known, World.LinkAt, Sound, Verified, Iterate;
  }

  lemma {:induction false} StaleRun(payer: AccountId, payee: AccountId, n: nat)
    requires n <= 5
    ensures Run(STALE_WORLD, StaleGame(payer, payee, n), StaleMoves(payer)[n..], StaleGame(payer, payee, 5))
    decreases 5 - n
  {
    hide Step, StaleGame, StaleMoves;
    assert |StaleMoves(payer)| == 5 by {
      StaleLength(payer);
    }
    if n == 5 {
      RunNowhere(STALE_WORLD, StaleGame(payer, payee, 5));
    } else {
      StaleStep(payer, payee, n);
      StaleRun(payer, payee, n + 1);
      OneStep(STALE_WORLD, StaleGame(payer, payee, n), StaleMoves(payer)[n..], StaleGame(payer, payee, n + 1),
          StaleGame(payer, payee, 5));
    }
  }

  lemma StaleLength(payer: AccountId)
    ensures |StaleMoves(payer)| == 5
  {
  }

  /** A payer that spent both tranches publishes a closure with one; the payee disputes it
      with its own token, and after the window the deposit is its. */
  lemma StaleClosureIsContested(payer: AccountId, payee: AccountId)
    requires payer != payee
    ensures Sound(STALE_WORLD) && Opened(STALE_WORLD, StaleGame(payer, payee, 0))
    ensures Run(STALE_WORLD, StaleGame(payer, payee, 0), StaleMoves(payer), StaleGame(payer, payee, 5))
    ensures StaleGame(payer, payee, 5).settled == Some(Settlement(0, 10))
  {
    StaleWorld();
    StaleRun(payer, payee, 0);
    assert StaleMoves(payer)[0..] == StaleMoves(payer);
    hide Run, Step, Known, Verified;
  }

  lemma RunNowhere<H(!new)>(w: World<H>, g: Game<H>)
    ensures Run(w, g, [], g)
  {
  }

  lemma OneStep<H(!new)>(w: World<H>, g: Game<H>, moves: seq<Move<H>>, mid: Game<H>, end: Game<H>)
    requires moves != [] && Step(w, g, moves[0], mid) && Run(w, mid, moves[1..], end)
    ensures Run(w, g, moves, end)
  {
  }
}
