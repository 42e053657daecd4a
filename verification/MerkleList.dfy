/** The Merkle tree over a list: an odd node is promoted, never duplicated. */
module MerkleList {
  import opened Prelude
  import opened Types

  datatype ProofStep = Left(left: Digest) | Right(right: Digest) | Promoted
  datatype InclusionProof = InclusionProof(index: nat, steps: seq<ProofStep>)

  function LeafHash(item: Digest): Digest { ListLeaf(item) }

  function LeafLevel(items: seq<Digest>): (level: seq<Digest>)
    ensures |level| == |items| && forall i :: 0 <= i < |items| ==> level[i] == LeafHash(items[i])
  {
    seq(|items|, i requires 0 <= i < |items| => LeafHash(items[i]))
  }

  /** One level up: neighbours are paired and an odd last node is promoted. */
  function Folded(level: seq<Digest>): (next: seq<Digest>)
    ensures |next| == (|level| + 1) / 2
  {
    if |level| <= 1 then level else [Node(level[0], level[1])] + Folded(level[2..])
  }

  function Top(level: seq<Digest>): Digest
    decreases |level|
  {
    if |level| == 0 then Zero else if |level| == 1 then level[0] else Top(Folded(level))
  }

  function ListRoot(items: seq<Digest>): Digest {
    Top(LeafLevel(items))
  }

  /** The items below a digest, left to right. */
  function Items(d: Digest): seq<Digest> {
    match d
    case ListLeaf(item) => [item]
    case Node(left, right) => Items(left) + Items(right)
    case _ => []
  }

  function ItemsOf(level: seq<Digest>): seq<Digest> {
    if level == [] then [] else Items(level[0]) + ItemsOf(level[1..])
  }

  /** Folding a level keeps what is below it, in order. */
  lemma {:induction false} FoldingKeepsItems(level: seq<Digest>)
    ensures ItemsOf(Folded(level)) == ItemsOf(level)
    decreases |level|
  {
    if |level| > 1 {
      FoldingKeepsItems(level[2..]);
      assert level[1..][1..] == level[2..];
      assert ItemsOf(level) == Items(level[0]) + (Items(level[1]) + ItemsOf(level[2..]));
      assert Folded(level)[1..] == Folded(level[2..]);
    }
  }

  lemma {:induction false} TopKeepsItems(level: seq<Digest>)
    ensures Items(Top(level)) == ItemsOf(level)
    decreases |level|
  {
    if |level| == 1 {
      assert level[1..] == [];
    } else if |level| > 1 {
      TopKeepsItems(Folded(level));
      FoldingKeepsItems(level);
    }
  }

  lemma {:induction false} LeavesAreItems(items: seq<Digest>)
    ensures ItemsOf(LeafLevel(items)) == items
    decreases |items|
  {
    if items != [] {
      LeavesAreItems(items[1..]);
      assert LeafLevel(items)[1..] == LeafLevel(items[1..]);
    }
  }

  /** A root determines its list, whatever the two lengths. */
  lemma RootDeterminesList(xs: seq<Digest>, ys: seq<Digest>)
    requires ListRoot(xs) == ListRoot(ys)
    ensures xs == ys
  {
    TopKeepsItems(LeafLevel(xs));
    TopKeepsItems(LeafLevel(ys));
    LeavesAreItems(xs);
    LeavesAreItems(ys);
  }

  method FoldLevel(level: seq<Digest>) returns (next: seq<Digest>)
    ensures next == Folded(level)
  {
    next := [];
    var index := 0;
    while index + 1 < |level|
      invariant 0 <= index <= |level|
      invariant next + Folded(level[index..]) == Folded(level)
    {
      assert level[index..][2..] == level[index + 2..];
      next := next + [Node(level[index], level[index + 1])];
      index := index + 2;
    }
    if index < |level| {
      next := next + [level[index]];
    }
  }

  method ComputeListRoot(items: seq<Digest>) returns (root: Digest)
    ensures root == ListRoot(items)
  {
    if items == [] {
      return Zero;
    }
    var level := LeafLevel(items);
    while |level| > 1
      invariant |level| >= 1 && Top(level) == ListRoot(items)
      decreases |level|
    {
      level := FoldLevel(level);
    }
    return level[0];
  }

  // ----- Proofs

  function StepUp(running: Digest, step: ProofStep): Digest {
    match step
    case Left(sibling) => Node(sibling, running)
    case Right(sibling) => Node(running, sibling)
    case Promoted => running
  }

  function Climbed(running: Digest, steps: seq<ProofStep>): Digest {
    if steps == [] then running
    else StepUp(Climbed(running, steps[..|steps| - 1]), steps[|steps| - 1])
  }

  method RootFromProof(item: Digest, proof: InclusionProof) returns (root: Digest)
    ensures root == Climbed(LeafHash(item), proof.steps)
  {
    root := LeafHash(item);
    var i := 0;
    while i < |proof.steps|
      invariant 0 <= i <= |proof.steps|
      invariant root == Climbed(LeafHash(item), proof.steps[..i])
    {
      assert proof.steps[..i + 1][..i] == proof.steps[..i];
      root := match proof.steps[i]
        case Left(sibling) => Node(sibling, root)
        case Right(sibling) => Node(root, sibling)
        case Promoted => root;
      i := i + 1;
    }
    assert proof.steps[..i] == proof.steps;
  }

  predicate IsPromoted(level: seq<Digest>, position: nat) {
    position == |level| - 1 && |level| % 2 == 1
  }

  /** Where a node of one level lands on the next. */
  lemma {:induction false} FoldedAt(level: seq<Digest>, position: nat)
    requires position < |level| && |level| > 1
    ensures position / 2 < |Folded(level)|
    ensures IsPromoted(level, position) ==> Folded(level)[position / 2] == level[position]
    ensures !IsPromoted(level, position) && position % 2 == 0 ==>
      position + 1 < |level| && Folded(level)[position / 2] == Node(level[position], level[position + 1])
    ensures position % 2 == 1 ==> Folded(level)[position / 2] == Node(level[position - 1], level[position])
    decreases |level|
  {
    if position >= 2 {
      var rest := level[2..];
      assert Folded(level)[position / 2] == Folded(rest)[(position - 2) / 2];
      assert rest[position - 2] == level[position];
      if |rest| > 1 {
        FoldedAt(rest, position - 2);
        assert IsPromoted(rest, position - 2) <==> IsPromoted(level, position);
      }
    }
  }

  /** A proof for each position of a list, and for no other; it recomputes the list's root
      through every promoted level. */
  method ListProof(items: seq<Digest>, index: nat) returns (r: Option<InclusionProof>)
    ensures r.Some? <==> index < |items|
    ensures r.Some? ==> r.value.index == index && Climbed(LeafHash(items[index]), r.value.steps) == ListRoot(items)
  {
    if index >= |items| {
      return None;
    }
    var level := LeafLevel(items);
    var position := index;
    var steps: seq<ProofStep> := [];
    while |level| > 1
      invariant |level| >= 1 && Top(level) == ListRoot(items)
      invariant 0 <= position < |level|
      invariant Climbed(LeafHash(items[index]), steps) == level[position]
      decreases |level|
    {
      FoldedAt(level, position);
      var step := if IsPromoted(level, position) then Promoted
                  else if position % 2 == 0 then Right(level[position + 1])
                  else Left(level[position - 1]);
      assert (steps + [step])[..|steps|] == steps;
      steps := steps + [step];
      position := position / 2;
      level := FoldLevel(level);
    }
    return Some(InclusionProof(index, steps));
  }

  lemma {:induction false} ClimbingKeepsItem(running: Digest, steps: seq<ProofStep>, item: Digest)
    requires item in Items(running)
    ensures item in Items(Climbed(running, steps))
    decreases |steps|
  {
    if steps != [] {
      ClimbingKeepsItem(running, steps[..|steps| - 1], item);
    }
  }

  /** Whatever proof reaches a list's root starts from an item of that list. */
  lemma ProofStartsInTheList(items: seq<Digest>, item: Digest, proof: InclusionProof)
    requires Climbed(LeafHash(item), proof.steps) == ListRoot(items)
    ensures item in items
  {
    ClimbingKeepsItem(LeafHash(item), proof.steps, item);
    TopKeepsItems(LeafLevel(items));
    LeavesAreItems(items);
  }
}
