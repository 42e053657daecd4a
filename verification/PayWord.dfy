/** PayWord: paying tranche by tranche with the links of a sealed chain. */
module PayWord {
  import opened Prelude
  import opened Chains

  const MAX_TRANCHES: u32 := MAX_CHAIN_LEN

  datatype Token<H> = Token(index: u32, revealed: H)

  datatype PayWordError =
    | ChainTooLong(length: u32)
    | Exhausted(capacity: u32, spent: u32)
    | BadToken(index: u32)
    | IndexMismatch(claimed: u32, actual: u32)
    | Overflow

  function ValueOf(tranches: u32, trancheValue: u64): Result<u64, PayWordError> {
    match CheckedMul(trancheValue, tranches)
    case Some(v) => Success(v)
    case None => Failure(Overflow)
  }

  /** What verifying a token against a committed root decides. */
  function Verified<H(==)>(link: H -> H, root: H, token: Token<H>): Outcome<PayWordError> {
    if token.index == 0 || token.index > MAX_TRANCHES then Fail(BadToken(token.index))
    else
      match Distance(link, token.revealed, root, MAX_TRANCHES)
      case None => Fail(BadToken(token.index))
      case Some(steps) =>
        if steps != token.index then Fail(IndexMismatch(token.index, steps)) else Pass
  }

  /** Walks the token forward with a cursor, as a node does. */
  method VerifyAgainstRoot<H(==)>(link: H -> H, root: H, token: Token<H>) returns (r: Outcome<PayWordError>)
    ensures r == Verified(link, root, token)
  {
    if token.index == 0 || token.index > MAX_TRANCHES {
      return Fail(BadToken(token.index));
    }
    var cursor := new ChainCursor(link, root, MAX_TRANCHES);
    var steps := cursor.Advance(token.revealed);
    match steps
    case Failure(_) => return Fail(BadToken(token.index));
    case Success(n) =>
      if n != token.index {
        return Fail(IndexMismatch(token.index, n));
      }
      return Pass;
  }

  /** On a free link a token verifies exactly when it is `index` links before the root. */
  lemma VerifiedExactly<H(!new)>(link: H -> H, root: H, token: Token<H>)
    requires Free(link)
    ensures Verified(link, root, token).Pass? <==>
              1 <= token.index <= MAX_TRANCHES && Iterate(link, token.index, token.revealed) == root
  {
    if 1 <= token.index <= MAX_TRANCHES && Iterate(link, token.index, token.revealed) == root {
      DistanceExact(link, token.revealed, root, MAX_TRANCHES, token.index);
    }
  }

  /** The payer's half. */
  class PayWordPayer<H(==)> {
    const chain: HashChain<H>
    const trancheValue: u64
    var spent: u32

    ghost predicate Valid()
      reads this, chain, chain.links
    {
      chain.Valid() && spent <= chain.Len()
    }

    constructor (chain: HashChain<H>, trancheValue: u64)
      requires chain.Valid()
      ensures Valid() && this.chain == chain && this.trancheValue == trancheValue && spent == 0
    {
      this.chain := chain;
      this.trancheValue := trancheValue;
      spent := 0;
    }

    static method Open(link: H -> H, seed: H, zero: H, tranches: u32, trancheValue: u64)
      returns (r: Result<PayWordPayer<H>, PayWordError>)
      ensures r.Success? <==> tranches <= MAX_TRANCHES
      ensures r.Failure? ==> r.error == ChainTooLong(tranches)
      ensures r.Success? ==>
        && fresh(r.value) && r.value.Valid() && r.value.spent == 0
        && r.value.chain.link == link && r.value.chain.Len() == tranches
        && r.value.chain.Root() == Iterate(link, tranches, seed)
    {
      if tranches > MAX_TRANCHES {
        return Failure(ChainTooLong(tranches));
      }
      var chain := HashChain<H>.Generate(link, seed, zero, tranches);
      var payer := new PayWordPayer(chain.value, trancheValue);
      return Success(payer);
    }

    /** One token pays for every tranche up to its index. */
    method Spend(tranches: u32) returns (r: Result<Token<H>, PayWordError>)
      requires Valid()
      modifies this
      ensures Valid()
      ensures r.Success? <==> 1 <= old(spent) + tranches <= chain.Len()
      ensures r.Success? ==>
        && spent == old(spent) + tranches
        && r.value.index == spent
        && Iterate(chain.link, spent, r.value.revealed) == chain.Root()
      ensures r.Failure? ==> spent == old(spent)
      ensures r.Failure? ==>
        r.error == if old(spent) + tranches >= U32_LIMIT then Overflow else Exhausted(chain.Len(), spent)
    {
      if spent + tranches >= U32_LIMIT {
        return Failure(Overflow);
      }
      var next: u32 := spent + tranches;
      if next > chain.Len() {
        return Failure(Exhausted(chain.Len(), spent));
      }
      var revealed := chain.Reveal(next);
      if revealed.None? {
        return Failure(Exhausted(chain.Len(), spent));
      }
      spent := next;
      return Success(Token(next, revealed.value));
    }
  }

  /** The payee's half: what has been received, and what it is worth. */
  class PayWordPayee<H(==,!new)> {
    const root: H
    const cursor: ChainCursor<H>
    const capacity: u32
    const trancheValue: u64
    var accepted: u32
    var best: Option<Token<H>>

    /** The best token is `accepted` links before the root, whatever was offered. */
    ghost predicate Valid()
      reads this, cursor
    {
      && capacity <= MAX_TRANCHES && cursor.maxSteps == capacity && accepted <= capacity
      && Iterate(cursor.link, accepted, cursor.committed) == root
      && (best.None? ==> accepted == 0)
      && (best.Some? ==> accepted != 0 && best.value == Token(accepted, cursor.committed))
    }

    constructor (link: H -> H, root: H, capacity: u32, trancheValue: u64)
      ensures Valid() && fresh(cursor) && cursor.link == link && this.root == root
      ensures this.capacity == Min(capacity, MAX_TRANCHES) && this.trancheValue == trancheValue
      ensures accepted == 0 && best == None
    {
      this.root := root;
      cursor := new ChainCursor(link, root, Min(capacity, MAX_TRANCHES));
      this.capacity := Min(capacity, MAX_TRANCHES);
      this.trancheValue := trancheValue;
      accepted := 0;
      best := None;
    }

    /** Accepts a token. The token moves the payee exactly when its index is new and within
        the capacity and it is that many links before the root; it is then kept even if its
        value does not fit in 64 bits, and only then does an error come with a move. */
    method Accept(token: Token<H>) returns (r: Result<u64, PayWordError>)
      requires Valid()
      modifies this, cursor
      ensures Valid()
      ensures r == Received(cursor.link, old(accepted), old(cursor.committed), capacity, trancheValue, token)
      ensures
        if Moves(cursor.link, old(accepted), old(cursor.committed), capacity, token)
        then best == Some(token) && accepted == token.index
        else best == old(best) && accepted == old(accepted) && cursor.committed == old(cursor.committed)
      ensures Free(cursor.link) ==>
        (accepted != old(accepted) <==>
          old(accepted) < token.index <= capacity && Iterate(cursor.link, token.index, token.revealed) == root)
    {
      if token.index == 0 || token.index > capacity {
        return Failure(BadToken(token.index));
      }
      var probed := cursor.WouldAdvance(token.revealed);
      AcceptsIfFree(cursor.link, root, accepted, cursor.committed, capacity, token);
      hide Free;
      match probed
      case Failure(_) => return Failure(BadToken(token.index));
      case Success(steps) =>
        if token.index < accepted {
          return Failure(BadToken(token.index));
        }
        if steps != token.index - accepted {
          return Failure(IndexMismatch(token.index, steps));
        }
        IterateAdd(cursor.link, accepted, steps, token.revealed);
        hide Iterate;
        var _ := cursor.Advance(token.revealed);
        accepted := token.index;
        best := Some(token);
        return ValueOf(steps, trancheValue);
    }
  }

  /** Why a token that does not move the payee is refused: how far it is from the best link,
      if it is new, within capacity and leads there at all. */
  function Refusal<H(==)>(link: H -> H, accepted: u32, committed: H, capacity: u32, token: Token<H>): PayWordError {
    var steps := Distance(link, token.revealed, committed, capacity);
    if token.index == 0 || token.index > capacity || steps.None? || token.index < accepted then BadToken(token.index)
    else IndexMismatch(token.index, steps.value)
  }

  /** What a payee answers to a token: what its new tranches are worth, if it moves. */
  function Received<H(==)>(link: H -> H, accepted: u32, committed: H, capacity: u32, trancheValue: u64, token: Token<H>)
    : (r: Result<u64, PayWordError>)
    ensures r.Success? ==> r.value == (token.index - accepted) * trancheValue
    ensures r.Success? <==>
      Moves(link, accepted, committed, capacity, token) && (token.index - accepted) * trancheValue < U64_LIMIT
  {
    if Moves(link, accepted, committed, capacity, token) then ValueOf(token.index - accepted, trancheValue)
    else Failure(Refusal(link, accepted, committed, capacity, token))
  }

  /** When a payee at `accepted` links moves to a token. */
  predicate Moves<H(==)>(link: H -> H, accepted: u32, committed: H, capacity: u32, token: Token<H>) {
    && accepted < token.index <= capacity
    && Distance(link, token.revealed, committed, capacity) == Some(token.index - accepted)
  }

  lemma AcceptsExactly<H(!new)>(link: H -> H, root: H, accepted: u32, committed: H, capacity: u32, token: Token<H>)
    requires Free(link) && Iterate(link, accepted, committed) == root
    ensures Moves(link, accepted, committed, capacity, token) <==>
              accepted < token.index <= capacity && Iterate(link, token.index, token.revealed) == root
  {
    if accepted < token.index <= capacity {
      var n := token.index - accepted;
      IterateAdd(link, accepted, n, token.revealed);
      if Iterate(link, token.index, token.revealed) == root {
        Peel(link, accepted, committed, token.index, token.revealed);
        DistanceExact(link, token.revealed, committed, capacity, n);
      }
    }
  }

  lemma AcceptsIfFree<H(!new)>(link: H -> H, root: H, accepted: u32, committed: H, capacity: u32, token: Token<H>)
    requires Iterate(link, accepted, committed) == root
    ensures Free(link) ==>
      (Moves(link, accepted, committed, capacity, token) <==>
        accepted < token.index <= capacity && Iterate(link, token.index, token.revealed) == root)
  {
    if Free(link) {
      AcceptsExactly(link, root, accepted, committed, capacity, token);
    }
  }
}
