/** Sealed hash chains and the cursor that follows their reveals. */
module Chains {
  import opened Prelude

  const MAX_CHAIN_LEN: u32 := 65_536

  /** `x` hashed forward `k` times. */
  function Iterate<H>(link: H -> H, k: nat, x: H): H {
    if k == 0 then x else link(Iterate(link, k - 1, x))
  }

  lemma {:induction false} IterateAdd<H>(link: H -> H, j: nat, k: nat, x: H)
    ensures Iterate(link, j + k, x) == Iterate(link, j, Iterate(link, k, x))
  {
    if j != 0 {
      IterateAdd(link, j - 1, k, x);
    }
  }

  /** The walk of a cursor: the first hit within `max` steps. */
  function Distance<H(==)>(link: H -> H, presented: H, target: H, max: nat): (r: Option<nat>)
    ensures r.Some? ==> 1 <= r.value <= max && Iterate(link, r.value, presented) == target
    ensures r.Some? ==> forall j :: 1 <= j < r.value ==> Iterate(link, j, presented) != target
    ensures r.None? ==> forall j :: 1 <= j <= max ==> Iterate(link, j, presented) != target
  {
    if max == 0 then None
    else
      match Distance(link, presented, target, max - 1)
      case Some(steps) => Some(steps)
      case None => if Iterate(link, max, presented) == target then Some(max) else None
  }

  /** A link function nobody can run backwards by collision or by going round. */
  ghost predicate Free<H(!new)>(link: H -> H) {
    && (forall x, y :: link(x) == link(y) ==> x == y)
    && (forall k: nat, x :: Iterate(link, k, x) == x ==> k == 0)
  }

  /** Equal iterates peel down to the shorter walk. */
  lemma {:induction false} Peel<H(!new)>(link: H -> H, j: nat, x: H, k: nat, y: H)
    requires Free(link) && j <= k
    requires Iterate(link, j, x) == Iterate(link, k, y)
    ensures x == Iterate(link, k - j, y)
  {
    if j != 0 {
      Peel(link, j - 1, x, k - 1, y);
    }
  }

  /** On a free link the distance between two values is unique. */
  lemma StepsUnique<H(!new)>(link: H -> H, j: nat, k: nat, x: H)
    requires Free(link)
    requires Iterate(link, j, x) == Iterate(link, k, x)
    ensures j == k
  {
    if j <= k {
      Peel(link, j, x, k, x);
    } else {
      Peel(link, k, x, j, x);
    }
  }

  /** On a free link a cursor finds any link within reach, at its exact distance. */
  lemma DistanceExact<H(!new)>(link: H -> H, presented: H, target: H, max: nat, k: nat)
    requires Free(link)
    requires 1 <= k <= max && Iterate(link, k, presented) == target
    ensures Distance(link, presented, target, max) == Some(k)
  {
    var d := Distance(link, presented, target, max);
    StepsUnique(link, d.value, k, presented);
  }

  /** From some place on, every link is the last one hashed forward to it. */
  ghost predicate LinkedFrom<H>(link: H -> H, links: seq<H>, from: nat) {
    && from < |links|
    && forall i :: from <= i < |links| ==> links[i] == Iterate(link, |links| - 1 - i, links[|links| - 1])
  }

  lemma LinkedBefore<H>(link: H -> H, before: seq<H>, after: seq<H>, index: nat)
    requires index + 1 < |before| && LinkedFrom(link, before, index + 1)
    requires after == before[index := link(before[index + 1])]
    ensures LinkedFrom(link, after, index)
  {
    assert after[index] == link(Iterate(link, |before| - 2 - index, before[|before| - 1]));
  }

  lemma LinkedLast<H>(link: H -> H, links: seq<H>)
    requires links != []
    ensures LinkedFrom(link, links, |links| - 1)
  {
  }

  lemma LinkedAt<H>(link: H -> H, links: seq<H>)
    requires LinkedFrom(link, links, 0)
    ensures forall i :: 0 <= i < |links| ==> links[i] == Iterate(link, |links| - 1 - i, links[|links| - 1])
  {
  }

  /** A sealed chain, held by the party that generated it; index 0 is the root. */
  class HashChain<H(==)> {
    const link: H -> H
    const links: array<H>

    ghost predicate Valid()
      reads this, links
    {
      && 1 <= links.Length <= MAX_CHAIN_LEN + 1
      && forall i :: 0 <= i < links.Length ==>
           links[i] == Iterate(link, links.Length - 1 - i, links[links.Length - 1])
    }

    constructor (link: H -> H, links: array<H>)
      ensures this.link == link && this.links == links
    {
      this.link := link;
      this.links := links;
    }

    static method Generate(link: H -> H, seed: H, zero: H, length: u32) returns (r: Result<HashChain<H>, u32>)
      ensures r.Success? <==> length <= MAX_CHAIN_LEN
      ensures r.Failure? ==> r.error == MAX_CHAIN_LEN
      ensures r.Success? ==>
        && fresh(r.value) && fresh(r.value.links)
        && r.value.Valid() && r.value.link == link
        && r.value.Len() == length && r.value.links[length] == seed
    {
      if length > MAX_CHAIN_LEN {
        return Failure(MAX_CHAIN_LEN);
      }
      var links := new H[length + 1](_ => zero);
      links[length] := seed;
      var index := length;
      LinkedLast(link, links[..]);
      hide LinkedFrom;
      while index > 0
        invariant 0 <= index <= length
        invariant links[length] == seed
        invariant LinkedFrom(link, links[..], index)
      {
        index := index - 1;
        ghost var before := links[..];
        links[index] := link(links[index + 1]);
        LinkedBefore(link, before, links[..], index);
      }
      LinkedAt(link, links[..]);
      var chain := new HashChain(link, links);
      return Success(chain);
    }

    function Root(): H
      requires Valid()
      reads this, links
    {
      links[0]
    }

    function Len(): u32
      requires Valid()
      reads this, links
    {
      links.Length - 1
    }

    /** The `index`-th presented; the root itself is not one. */
    function Reveal(index: u32): (r: Option<H>)
      requires Valid()
      reads this, links
      ensures r.Some? <==> 1 <= index <= Len()
      ensures r.Some? ==> Iterate(link, index, r.value) == Root()
    {
      if index == 0 || index >= links.Length then None
      else
        IterateAdd(link, index, links.Length - 1 - index, links[links.Length - 1]);
        Some(links[index])
    }
  }

  /** The verifier's half: the last value seen, and how far it will walk. */
  class ChainCursor<H(==)> {
    const link: H -> H
    const maxSteps: u32
    var committed: H
    var consumed: u32

    constructor (link: H -> H, root: H, maxSteps: u32)
      ensures this.link == link && this.maxSteps == maxSteps
      ensures committed == root && consumed == 0
    {
      this.link := link;
      this.maxSteps := maxSteps;
      committed := root;
      consumed := 0;
    }

    method Advance(presented: H) returns (r: Result<u32, u32>)
      modifies this
      ensures match Distance(link, presented, old(committed), maxSteps)
        case Some(steps) =>
          && r == Success(steps)
          && committed == presented
          && consumed == Min(old(consumed) + steps, U32_LIMIT - 1)
        case None =>
          r == Failure(maxSteps) && committed == old(committed) && consumed == old(consumed)
    {
      var current := presented;
      var steps: u32 := 0;
      while steps < maxSteps
        invariant steps <= maxSteps
        invariant current == Iterate(link, steps, presented)
        invariant committed == old(committed) && consumed == old(consumed)
        invariant forall j :: 1 <= j <= steps ==> Iterate(link, j, presented) != committed
      {
        current := link(current);
        steps := steps + 1;
        if current == committed {
          assert Iterate(link, steps, presented) == committed;
          assert Distance(link, presented, committed, maxSteps) == Some(steps);
          committed := presented;
          consumed := Min(consumed + steps, U32_LIMIT - 1);
          return Success(steps);
        }
      }
      return Failure(maxSteps);
    }

    /** Checks a presented on a copy. */
    method WouldAdvance(presented: H) returns (r: Result<u32, u32>)
      ensures match Distance(link, presented, committed, maxSteps)
        case Some(steps) => r == Success(steps)
        case None => r == Failure(maxSteps)
    {
      var probe := new ChainCursor(link, committed, maxSteps);
      r := probe.Advance(presented);
    }
  }

  /** Terms built by hashing, the free link every symbolic analysis uses. */
  datatype Term = Atom(name: nat) | Linked(inner: Term) {
    function Depth(): nat {
      if Atom? then 0 else 1 + inner.Depth()
    }
  }

  function LinkTerm(t: Term): Term {
    Linked(t)
  }

  lemma {:induction false} TermDepth(k: nat, x: Term)
    ensures Iterate(LinkTerm, k, x).Depth() == k + x.Depth()
  {
    if k != 0 {
      TermDepth(k - 1, x);
    }
  }

  /** `Free` is satisfiable. */
  lemma TermsAreFree()
    ensures Free(LinkTerm)
  {
    var link := LinkTerm;
    forall k: nat, x | Iterate(link, k, x) == x ensures k == 0 {
      TermDepth(k, x);
    }
    forall x, y | link(x) == link(y) ensures x == y {
    }
  }
}
