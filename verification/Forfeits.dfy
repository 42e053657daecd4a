/**
  When a closure can be disputed, and by whom it is published. A dispute forfeits the
  payer's share whoever published the closure, so a payee may close its own channel for
  less than it holds and then dispute itself.
 */
module Forfeits {
  import opened Prelude
  import opened Types
  import opened Chains
  import opened PayWord
  import opened Purses
  import opened ChannelSafety

  /** Each revealed link is known, and verifies as the token of its index. */
  lemma LinkIsToken<H(!new)>(w: World<H>, spent: u32, index: u32)
    requires Sound(w) && 1 <= index <= spent <= w.capacity
    ensures Known(w, spent, w.LinkAt(index))
    ensures Verified(w.link, w.LinkAt(0), Token(index, w.LinkAt(index))).Pass?
  {
    IterateAdd(w.link, spent - index, w.capacity - spent, w.seed);
    assert w.LinkAt(index) == Iterate(w.link, spent - index, w.LinkAt(spent));
    IterateAdd(w.link, index, w.capacity - index, w.seed);
    VerifiedExactly(w.link, w.LinkAt(0), Token(index, w.LinkAt(index)));
  }

  function TokenAt<H>(w: World<H>, index: u32): Option<Token<H>>
    requires index <= w.capacity
  {
    if index == 0 then None else Some(Token(index, w.LinkAt(index)))
  }

  /** A pending closure can be disputed exactly when it claims less than was spent. */
  lemma ContestedExactly<H(!new)>(w: World<H>, g: Game<H>)
    requires Sound(w) && Honest(w, g) && g.settled.None? && g.purse.closing.Some?
    ensures (exists disputed, proof, g' :: Step(w, g, Contest(disputed, proof), g'))
      <==> g.purse.closing.value.claimedTranches < g.spent
  {
    if g.purse.closing.value.claimedTranches < g.spent {
      var proof := Token(g.spent, w.LinkAt(g.spent));
      LinkIsToken(w, g.spent, g.spent);
      var g' := g.(purse := Dispute(w.link, g.purse, g.spent, proof).value);
      assert Step(w, g, Contest(g.spent, proof), g');
    }
    if disputed, proof, g' :| Step(w, g, Contest(disputed, proof), g') {
      AcceptedClaim(w, g, disputed, Some(proof));
    }
  }

  /** Closing for less than was spent, disputing, and settling after the window. */
  function ForfeitMoves<H>(w: World<H>, g: Game<H>, claimant: AccountId, claimed: u32, disputed: u32): seq<Move<H>>
    requires claimed <= w.capacity && disputed <= w.capacity && g.finalized + DISPUTE_WINDOW < U64_LIMIT
  {
    [Close(claimant, claimed, TokenAt(w, claimed)), Contest(disputed, Token(disputed, w.LinkAt(disputed))),
     Finalise(g.finalized + DISPUTE_WINDOW), SettleDue]
  }

  /** The game once a closure is published, and once it is disputed. */
  function Published<H>(w: World<H>, g: Game<H>, claimant: AccountId, claimed: u32): Game<H> {
    var closing := PendingClosure(claimant, claimed, Window(g.finalized, DISPUTE_WINDOW), false);
    g.(purse := g.purse.(closing := Some(closing)))
  }

  function Disputed<H>(w: World<H>, g: Game<H>, claimant: AccountId, disputed: u32): Game<H> {
    var closing := PendingClosure(claimant, disputed, Window(g.finalized, DISPUTE_WINDOW), true);
    g.(purse := g.purse.(closing := Some(closing)))
  }

  lemma ClosureIsAccepted<H(!new)>(w: World<H>, g: Game<H>, claimant: AccountId, claimed: u32)
    requires Sound(w) && Honest(w, g) && g.settled.None? && g.purse.closing.None?
    requires g.purse.IsParty(claimant) && claimed <= g.spent
    ensures Step(w, g, Close(claimant, claimed, TokenAt(w, claimed)), Published(w, g, claimant, claimed))
  {
    if claimed > 0 {
      LinkIsToken(w, g.spent, claimed);
    }
    hide Known, Verified, Sound;
  }

  lemma DisputeIsAccepted<H(!new)>(w: World<H>, g: Game<H>, claimant: AccountId, claimed: u32, disputed: u32)
    requires Sound(w) && Honest(w, g) && g.settled.None? && claimed < disputed <= g.spent
    ensures Step(w, Published(w, g, claimant, claimed), Contest(disputed, Token(disputed, w.LinkAt(disputed))),
                 Disputed(w, g, claimant, disputed))
  {
    LinkIsToken(w, g.spent, disputed);
    hide Known, Verified, Sound;
  }

  /** The window runs out, and the disputed closure settles. */
  lemma DisputeIsSettled<H(!new)>(w: World<H>, g: Game<H>, claimant: AccountId, claim: u32,
                                  later: Game<H>, end: Game<H>)
    requires Sound(w) && Honest(w, g) && g.settled.None? && claim <= g.spent
    requires g.finalized + DISPUTE_WINDOW < U64_LIMIT
    requires later == Disputed(w, g, claimant, claim).(finalized := g.finalized + DISPUTE_WINDOW)
    requires end == later.(settled := Some(Settlement(0, g.purse.deposit)))
    ensures Step(w, Disputed(w, g, claimant, claim), Finalise(g.finalized + DISPUTE_WINDOW), later)
    ensures Step(w, later, SettleDue, end)
  {
    hide Known, Sound;
  }

  /** Whoever publishes the closure, one that claims less than a later dispute proves gives
      the payee the whole deposit. */
  lemma UnderstatedClosureForfeits<H(!new)>(w: World<H>, g: Game<H>, claimant: AccountId, claimed: u32, disputed: u32)
    requires Sound(w) && Honest(w, g) && g.settled.None? && g.purse.closing.None?
    requires g.purse.IsParty(claimant) && claimed < disputed <= g.spent
    requires g.finalized + DISPUTE_WINDOW < U64_LIMIT
    ensures exists end ::
      && Run(w, g, ForfeitMoves(w, g, claimant, claimed, disputed), end)
      && end.settled == Some(Settlement(0, g.purse.deposit))
  {
    var moves := ForfeitMoves(w, g, claimant, claimed, disputed);
    var g1, g2 := Published(w, g, claimant, claimed), Disputed(w, g, claimant, disputed);
    ClosureIsAccepted(w, g, claimant, claimed);
    DisputeIsAccepted(w, g, claimant, claimed, disputed);
    var g3 := g2.(finalized := g.finalized + DISPUTE_WINDOW);
    var end := g3.(settled := Some(Settlement(0, g.purse.deposit)));
    DisputeIsSettled(w, g, claimant, disputed, g3, end);
    hide Step, Run, Sound, Honest;
    RunNowhere(w, end);
    assert moves[1..][1..] == moves[2..] && moves[2..][1..] == moves[3..] && moves[3..][1..] == [];
    OneStep(w, g3, moves[3..], end, end);
    OneStep(w, g2, moves[2..], g3, end);
    OneStep(w, g1, moves[1..], g2, end);
    OneStep(w, g, moves, g1, end);
  }

  /** With nothing spent there is nothing to dispute: every settlement pays the payee nothing. */
  lemma {:induction false} NothingSpentNothingPaid<H(!new)>(w: World<H>, g: Game<H>, moves: seq<Move<H>>, end: Game<H>)
    requires Sound(w) && Honest(w, g) && g.settled.None? && g.spent == 0
    requires g.purse.closing.Some? ==> !g.purse.closing.value.disputed
    requires Run(w, g, moves, end) && forall m :: m in moves ==> !m.Spend?
    ensures end.settled.Some? ==> end.settled.value == Settlement(g.purse.deposit, 0)
    decreases |moves|
  {
    if moves != [] {
      assert moves[0] in moves;
      var mid :| Step(w, g, moves[0], mid) && Run(w, mid, moves[1..], end);
      HonestStep(w, g, moves[0], mid);
      if moves[0].SettleDue? {
        OwedInFull(g.purse, 0);
        SettledIsFinal(w, mid, moves[1..], end);
      } else {
        if moves[0].Contest? {
          AcceptedClaim(w, g, moves[0].disputed, Some(moves[0].proof));
        }
        NothingSpentNothingPaid(w, mid, moves[1..], end);
      }
    }
  }

  /** So in an open channel with a deposit the payee alone, by closing for nothing, disputing
      with the first tranche and waiting, is left with the whole deposit exactly when a
      tranche was spent; and otherwise no run without a payment leaves it that. */
  lemma WholeDepositExactly<H(!new)>(w: World<H>, g: Game<H>)
    requires Sound(w) && Honest(w, g) && g.settled.None? && g.purse.closing.None?
    requires g.purse.deposit > 0 && g.finalized + DISPUTE_WINDOW < U64_LIMIT
    ensures g.spent >= 1 ==> exists end ::
      && Run(w, g, ForfeitMoves(w, g, g.purse.payee, 0, 1), end)
      && end.settled == Some(Settlement(0, g.purse.deposit))
    ensures g.spent == 0 ==> forall moves, end ::
      Run(w, g, moves, end) && (forall m: Move<H> :: m in moves ==> !m.Spend?) ==>
        end.settled != Some(Settlement(0, g.purse.deposit))
  {
    if g.spent >= 1 {
      UnderstatedClosureForfeits(w, g, g.purse.payee, 0, 1);
    } else {
      forall moves, end | Run(w, g, moves, end) && (forall m: Move<H> :: m in moves ==> !m.Spend?)
        ensures end.settled != Some(Settlement(0, g.purse.deposit))
      {
        NothingSpentNothingPaid(w, g, moves, end);
      }
    }
  }
}
