/** The best token seen per channel, and what to do about a closure. */
module Watchtowers {
  import opened Prelude
  import opened Types
  import opened PayWord
  import opened Purses

  datatype Verdict<H> =
    | Quiet
    | Object(tranches: u32, token: Token<H>)
    | NothingBetter(claimed: u32, held: u32)

  /** What a holder of `best` should do about a channel. */
  function Judge<H>(best: Option<Token<H>>, purse: Purse<H>): Verdict<H> {
    match purse.closing
    case None => Quiet
    case Some(pending) =>
      match best
      case None => NothingBetter(pending.claimedTranches, 0)
      case Some(held) =>
        if held.index > pending.claimedTranches then Object(held.index, held)
        else NothingBetter(pending.claimedTranches, held.index)
  }

  /** Silence while nothing is pending; and, of a token that verifies within the capacity, an
      objection exactly when the ledger would take it as a dispute. */
  lemma AdviceIsRight<H>(link: H -> H, held: Token<H>, purse: Purse<H>)
    requires Verified(link, purse.paywordRoot, held).Pass? && 1 <= held.index <= purse.capacity
    ensures Judge(Some(held), purse).Quiet? <==> purse.closing.None?
    ensures Judge(Some(held), purse) == Object(held.index, held) <==>
      Dispute(link, purse, held.index, held).Success?
    ensures Judge(Some(held), purse).Object? ==> Judge(Some(held), purse) == Object(held.index, held)
    ensures !Judge(None, purse).Object?
  {
    hide Verified;
  }

  class Watchtower<H(==)> {
    const owner: Option<AccountId>
    var best: map<PurseId, Token<H>>

    constructor (owner: Option<AccountId>)
      ensures this.owner == owner && best == map[]
    {
      this.owner := owner;
      best := map[];
    }

    function Best(purse: PurseId): Option<Token<H>>
      reads this
    {
      if purse in best then Some(best[purse]) else None
    }

    /** Keeps a token only if it beats what is held; the held index never falls. */
    method Observe(purse: PurseId, token: Token<H>) returns (moved: bool)
      modifies this
      ensures moved <==>
        && 1 <= token.index <= MAX_TRANCHES
        && (old(Best(purse)).Some? ==> old(Best(purse)).value.index < token.index)
      ensures best == if moved then old(best)[purse := token] else old(best)
    {
      if token.index == 0 || token.index > MAX_TRANCHES {
        return false;
      }
      if purse in best && best[purse].index >= token.index {
        return false;
      }
      best := best[purse := token];
      return true;
    }

    method Forget(purse: PurseId) returns (held: Option<Token<H>>)
      modifies this
      ensures held == old(Best(purse))
      ensures best == old(best) - {purse}
    {
      held := Best(purse);
      best := best - {purse};
    }

    /** Decides what to do about a channel as the ledger holds it. */
    method Inspect(id: PurseId, purse: Purse<H>) returns (verdict: Verdict<H>)
      ensures verdict == Judge(Best(id), purse)
    {
      if purse.closing.None? {
        return Quiet;
      }
      var claimed := purse.closing.value.claimedTranches;
      if id !in best {
        return NothingBetter(claimed, 0);
      }
      var held := best[id];
      if held.index > claimed {
        return Object(held.index, held);
      }
      return NothingBetter(claimed, held.index);
    }
  }
}
