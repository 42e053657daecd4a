/**
  The sparse Merkle tree that holds state. An empty subtree is `Zero` at every depth and a
  subtree with one key collapses to its leaf. A proof verifies exactly when it says what
  the map says, present or absent, and equal roots mean equal maps.
 */
module Smt {
  import opened Prelude
  import opened Types
  import opened Orders
  import opened Bits

  type Entries = seq<(Hash, Digest)>

  datatype SmtLeaf = SmtLeaf(key: Hash, value: Digest)
  datatype SmtProof = SmtProof(siblings: seq<Digest>, terminal: Option<SmtLeaf>)

  /** Two empty children make an empty parent. */
  function Combine(left: Digest, right: Digest): Digest {
    if left == Zero && right == Zero then Zero else Node(left, right)
  }

  // ----- The tree over a sorted slice

  /** Index of the first entry whose bit at `depth` is set. */
  function PartitionPoint(entries: Entries, depth: nat): (split: nat)
    ensures split <= |entries|
    ensures forall i :: 0 <= i < split ==> !Bit(entries[i].0, depth)
    ensures split < |entries| ==> Bit(entries[split].0, depth)
  {
    if entries == [] || Bit(entries[0].0, depth) then 0
    else 1 + PartitionPoint(entries[1..], depth)
  }

  function Left(entries: Entries, depth: nat): Entries {
    entries[..PartitionPoint(entries, depth)]
  }

  function Right(entries: Entries, depth: nat): Entries {
    entries[PartitionPoint(entries, depth)..]
  }

  function SubtreeRoot(entries: Entries, depth: nat): Digest
    decreases DEPTH - depth
  {
    if |entries| == 0 then Zero
    else if |entries| == 1 then Leaf(entries[0].0, entries[0].1)
    else if depth >= DEPTH then Zero
    else Combine(SubtreeRoot(Left(entries, depth), depth + 1), SubtreeRoot(Right(entries, depth), depth + 1))
  }

  /** The half of a slice a key's next bit selects, and the other one. */
  function Near(entries: Entries, key: Hash, depth: nat): Entries {
    if Bit(key, depth) then Right(entries, depth) else Left(entries, depth)
  }

  function Far(entries: Entries, key: Hash, depth: nat): Entries {
    if Bit(key, depth) then Left(entries, depth) else Right(entries, depth)
  }

  /** The siblings passed on the way towards `key`, and what is found at the end. */
  function Walked(entries: Entries, key: Hash, depth: nat): SmtProof
    decreases DEPTH - depth
  {
    if |entries| == 0 then SmtProof([], None)
    else if |entries| == 1 then SmtProof([], Some(SmtLeaf(entries[0].0, entries[0].1)))
    else if depth >= DEPTH then SmtProof([], None)
    else
      var below := Walked(Near(entries, key, depth), key, depth + 1);
      SmtProof([SubtreeRoot(Far(entries, key, depth), depth + 1)] + below.siblings, below.terminal)
  }

  ghost predicate Sorted(entries: Entries) {
    forall i, j :: 0 <= i < j < |entries| ==> RankHash(entries[i].0) < RankHash(entries[j].0)
  }

  /** Ascending keys whose first `depth` bits spell `prefix`. */
  ghost predicate Slice(entries: Entries, depth: nat, prefix: nat) {
    && depth <= DEPTH
    && Sorted(entries)
    && forall i :: 0 <= i < |entries| ==> Prefix(entries[i].0, depth) == prefix
  }

  lemma SliceIsShallow(entries: Entries, depth: nat, prefix: nat)
    requires Slice(entries, depth, prefix) && |entries| >= 2
    ensures depth < DEPTH
  {
    hide Prefix, RankHash;
    if depth == DEPTH {
      AllBits(entries[0].0);
      AllBits(entries[1].0);
    }
  }

  /** All entries whose bit is unset precede all those whose bit is set. */
  lemma SplitIsRight(entries: Entries, depth: nat, prefix: nat, i: nat)
    requires Slice(entries, depth, prefix) && |entries| >= 2 && i < |entries|
    ensures Bit(entries[i].0, depth) <==> PartitionPoint(entries, depth) <= i
  {
    hide Bit, Prefix, RankHash;
    SliceIsShallow(entries, depth, prefix);
    var split := PartitionPoint(entries, depth);
    if split < i {
      BitsFollowOrder(entries[split].0, entries[i].0, depth);
    }
  }

  /** Both halves are slices one level down. */
  lemma HalvesAreSlices(entries: Entries, depth: nat, prefix: nat)
    requires Slice(entries, depth, prefix) && |entries| >= 2
    ensures depth < DEPTH
    ensures Slice(Left(entries, depth), depth + 1, 2 * prefix)
      && Slice(Right(entries, depth), depth + 1, 2 * prefix + 1)
  {
    hide Bit, RankHash;
    SliceIsShallow(entries, depth, prefix);
    forall i | 0 <= i < |entries|
      ensures Prefix(entries[i].0, depth + 1) == 2 * prefix + if PartitionPoint(entries, depth) <= i then 1 else 0
    {
      SplitIsRight(entries, depth, prefix, i);
    }
    hide Prefix, PartitionPoint;
  }

  lemma NearWithin(entries: Entries, depth: nat, prefix: nat, key: Hash, j: nat)
    requires Slice(entries, depth, prefix) && |entries| >= 2 && j < |Near(entries, key, depth)|
    ensures Near(entries, key, depth)[j] in entries
    ensures Bit(Near(entries, key, depth)[j].0, depth) <==> Bit(key, depth)
  {
    hide Bit, Prefix, Slice;
    var split := PartitionPoint(entries, depth);
    var i := if Bit(key, depth) then split + j else j;
    SplitIsRight(entries, depth, prefix, i);
    hide PartitionPoint;
    assert Near(entries, key, depth)[j] == entries[i];
  }

  lemma NearReaches(entries: Entries, depth: nat, prefix: nat, key: Hash, i: nat)
    requires Slice(entries, depth, prefix) && |entries| >= 2 && i < |entries| && entries[i].0 == key
    ensures entries[i] in Near(entries, key, depth)
  {
    hide Bit, Prefix, Slice;
    SplitIsRight(entries, depth, prefix, i);
    var split := PartitionPoint(entries, depth);
    hide PartitionPoint;
    assert Near(entries, key, depth)[if split <= i then i - split else i] == entries[i];
  }

  /** The halves together are the slice, and a key's entry is in the half its bit selects. */
  lemma NearKeeps(entries: Entries, depth: nat, prefix: nat, key: Hash)
    requires Slice(entries, depth, prefix) && |entries| >= 2
    ensures entries == Left(entries, depth) + Right(entries, depth)
    ensures forall e :: e in Near(entries, key, depth) ==> e in entries && (Bit(e.0, depth) <==> Bit(key, depth))
    ensures forall e :: e in entries && e.0 == key ==> e in Near(entries, key, depth)
  {
    assert entries == Left(entries, depth) + Right(entries, depth);
    hide Bit, Slice, Near, Left, Right;
    forall e | e in Near(entries, key, depth) ensures e in entries && (Bit(e.0, depth) <==> Bit(key, depth)) {
      var j :| 0 <= j < |Near(entries, key, depth)| && Near(entries, key, depth)[j] == e;
      NearWithin(entries, depth, prefix, key, j);
    }
    forall e | e in entries && e.0 == key ensures e in Near(entries, key, depth) {
      var i :| 0 <= i < |entries| && entries[i] == e;
      NearReaches(entries, depth, prefix, key, i);
    }
  }

  /** A slice with a key in it has a root that is not `Zero`. */
  lemma {:induction false} NonEmptyRoot(entries: Entries, depth: nat, prefix: nat)
    requires Slice(entries, depth, prefix) && entries != []
    ensures SubtreeRoot(entries, depth) != Zero
    ensures |entries| >= 2 ==> SubtreeRoot(entries, depth).Node?
    decreases DEPTH - depth
  {
    hide Slice, Left, Right, Bit;
    if |entries| >= 2 {
      HalvesAreSlices(entries, depth, prefix);
      NearKeeps(entries, depth, prefix, entries[0].0);
      if Left(entries, depth) != [] {
        NonEmptyRoot(Left(entries, depth), depth + 1, 2 * prefix);
      } else {
        NonEmptyRoot(Right(entries, depth), depth + 1, 2 * prefix + 1);
      }
    }
  }

  /** Two slices with the same root hold the same entries. */
  lemma {:induction false} RootDeterminesSlice(a: Entries, b: Entries, depth: nat, prefix: nat)
    requires Slice(a, depth, prefix) && Slice(b, depth, prefix)
    requires SubtreeRoot(a, depth) == SubtreeRoot(b, depth)
    ensures a == b
    decreases DEPTH - depth
  {
    hide Slice, Left, Right, Bit;
    if a != [] {
      NonEmptyRoot(a, depth, prefix);
    }
    if b != [] {
      NonEmptyRoot(b, depth, prefix);
    }
    if |a| >= 2 && |b| >= 2 {
      HalvesAreSlices(a, depth, prefix);
      HalvesAreSlices(b, depth, prefix);
      RootDeterminesSlice(Left(a, depth), Left(b, depth), depth + 1, 2 * prefix);
      RootDeterminesSlice(Right(a, depth), Right(b, depth), depth + 1, 2 * prefix + 1);
      NearKeeps(a, depth, prefix, a[0].0);
      NearKeeps(b, depth, prefix, a[0].0);
    }
  }

  // ----- Proofs

  /** Whether two keys agree on their first bits. */
  predicate SharesPrefix(a: Hash, b: Hash, bits: nat) {
    forall index :: 0 <= index < Min(bits, DEPTH) ==> (Bit(a, index) <==> Bit(b, index))
  }

  /** Where the recomputation starts, if the proof is about this key and value at all. */
  function Start(proof: SmtProof, key: Hash, value: Option<Digest>): Option<Digest> {
    match (proof.terminal, value)
    case (Some(leaf), Some(expected)) =>
      if leaf.key != key || leaf.value != expected then None else Some(Leaf(leaf.key, leaf.value))
    case (Some(leaf), None) =>
      if leaf.key == key || !SharesPrefix(leaf.key, key, |proof.siblings|) then None
      else Some(Leaf(leaf.key, leaf.value))
    case (None, None) => Some(Zero)
    case (None, Some(_)) => None
  }

  /** From the bottom back up along the bits of `key`; `siblings` starts at `depth`. */
  function Climbed(key: Hash, siblings: seq<Digest>, depth: nat, start: Digest): Digest
    decreases |siblings|
  {
    if siblings == [] then start
    else
      var below := Climbed(key, siblings[1..], depth + 1, start);
      if Bit(key, depth) then Combine(siblings[0], below) else Combine(below, siblings[0])
  }

  function Computed(proof: SmtProof, key: Hash, value: Option<Digest>): Option<Digest> {
    if |proof.siblings| > DEPTH then None
    else
      match Start(proof, key, value)
      case None => None
      case Some(start) => Some(Climbed(key, proof.siblings, 0, start))
  }

  predicate Verifies(proof: SmtProof, root: Digest, key: Hash, value: Option<Digest>) {
    Computed(proof, key, value) == Some(root)
  }

  /** Recomputes the root a proof implies, deepest sibling first. */
  method ComputeRoot(proof: SmtProof, key: Hash, value: Option<Digest>) returns (r: Option<Digest>)
    ensures r == Computed(proof, key, value)
  {
    if |proof.siblings| > DEPTH {
      return None;
    }
    var current: Digest;
    match (proof.terminal, value) {
      case (Some(leaf), Some(expected)) =>
        if leaf.key != key || leaf.value != expected {
          return None;
        }
        current := Leaf(leaf.key, leaf.value);
      case (Some(leaf), None) =>
        if leaf.key == key {
          return None;
        }
        if !SharesPrefix(leaf.key, key, |proof.siblings|) {
          return None;
        }
        current := Leaf(leaf.key, leaf.value);
      case (None, None) => current := Zero;
      case (None, Some(_)) => return None;
    }
    ghost var start := current;
    var depth := |proof.siblings|;
    while depth > 0
      invariant 0 <= depth <= |proof.siblings|
      invariant current == Climbed(key, proof.siblings[depth..], depth, start)
    {
      depth := depth - 1;
      assert proof.siblings[depth..][1..] == proof.siblings[depth + 1..];
      var sibling := proof.siblings[depth];
      current := if Bit(key, depth) then Combine(sibling, current) else Combine(current, sibling);
    }
    return Some(current);
  }

  lemma {:induction false} ClimbedLeaf(key: Hash, siblings: seq<Digest>, depth: nat, start: Digest)
    requires start.Leaf?
    ensures siblings == [] ==> Climbed(key, siblings, depth, start) == start
    ensures siblings != [] ==> Climbed(key, siblings, depth, start).Node?
    decreases |siblings|
  {
    if siblings != [] {
      ClimbedLeaf(key, siblings[1..], depth + 1, start);
    }
  }

  lemma {:induction false} ClimbedZero(key: Hash, siblings: seq<Digest>, depth: nat)
    ensures var r := Climbed(key, siblings, depth, Zero);
      r == Zero || r.Node?
    decreases |siblings|
  {
    if siblings != [] {
      ClimbedZero(key, siblings[1..], depth + 1);
    }
  }

  /** The prefix a key's half of a slice has. */
  ghost function NearPrefix(key: Hash, depth: nat, prefix: nat): nat {
    2 * prefix + if Bit(key, depth) then 1 else 0
  }

  lemma ClimbStep(entries: Entries, depth: nat, prefix: nat, key: Hash, siblings: seq<Digest>, start: Digest)
    requires Slice(entries, depth, prefix) && |entries| >= 2 && siblings != []
    requires Climbed(key, siblings, depth, start) == SubtreeRoot(entries, depth)
    ensures Slice(Near(entries, key, depth), depth + 1, NearPrefix(key, depth, prefix))
    ensures Climbed(key, siblings[1..], depth + 1, start) == SubtreeRoot(Near(entries, key, depth), depth + 1)
  {
    hide Slice, Left, Right, Bit;
    HalvesAreSlices(entries, depth, prefix);
  }

  /** Climbing to a slice's root from a leaf finds the slice's own entry at the end of the
      key's path: the leaf is in the slice, and it is alone there. */
  lemma {:induction false} LeafAtTheEnd(entries: Entries, depth: nat, prefix: nat, key: Hash, siblings: seq<Digest>,
      leaf: SmtLeaf)
    requires Slice(entries, depth, prefix)
    requires Climbed(key, siblings, depth, Leaf(leaf.key, leaf.value)) == SubtreeRoot(entries, depth)
    ensures (leaf.key, leaf.value) in entries
    ensures forall e :: e in entries && e.0 == key ==> e == (leaf.key, leaf.value)
    ensures Agree(key, leaf.key, depth, |siblings|)
    decreases |siblings|
  {
    hide Slice, Near, Left, Right, Bit;
    ClimbedLeaf(key, siblings, depth, Leaf(leaf.key, leaf.value));
    if |entries| >= 2 {
      NonEmptyRoot(entries, depth, prefix);
      ClimbStep(entries, depth, prefix, key, siblings, Leaf(leaf.key, leaf.value));
      NearKeeps(entries, depth, prefix, key);
      LeafAtTheEnd(Near(entries, key, depth), depth + 1, NearPrefix(key, depth, prefix), key, siblings[1..], leaf);
    }
  }

  /** Two keys agree on `count` bits from `depth` on. */
  ghost predicate Agree(a: Hash, b: Hash, depth: nat, count: nat) {
    forall i: nat :: depth <= i < depth + count ==> (Bit(a, i) <==> Bit(b, i))
  }

  /** Climbing to a slice's root from `Zero` means the key's place in the slice is empty. */
  lemma {:induction false} NothingAtTheEnd(entries: Entries, depth: nat, prefix: nat, key: Hash, siblings: seq<Digest>)
    requires Slice(entries, depth, prefix)
    requires Climbed(key, siblings, depth, Zero) == SubtreeRoot(entries, depth)
    ensures forall e :: e in entries ==> e.0 != key
    decreases |siblings|
  {
    hide Slice, Near, Left, Right, Bit;
    ClimbedZero(key, siblings, depth);
    if |entries| >= 2 {
      NonEmptyRoot(entries, depth, prefix);
      ClimbStep(entries, depth, prefix, key, siblings, Zero);
      NearKeeps(entries, depth, prefix, key);
      NothingAtTheEnd(Near(entries, key, depth), depth + 1, NearPrefix(key, depth, prefix), key, siblings[1..]);
    }
  }

  /** Where a proof's recomputation starts, its own checks aside. */
  function End(terminal: Option<SmtLeaf>): Digest {
    if terminal.Some? then Leaf(terminal.value.key, terminal.value.value) else Zero
  }

  /** The proof of a walk leads back to the root. */
  lemma {:induction false} WalkLeadsBack(entries: Entries, depth: nat, prefix: nat, key: Hash)
    requires Slice(entries, depth, prefix)
    ensures |Walked(entries, key, depth).siblings| <= DEPTH - depth
    ensures Climbed(key, Walked(entries, key, depth).siblings, depth, End(Walked(entries, key, depth).terminal))
              == SubtreeRoot(entries, depth)
    decreases DEPTH - depth
  {
    hide Slice, Left, Right, Bit;
    if |entries| >= 2 {
      HalvesAreSlices(entries, depth, prefix);
      WalkLeadsBack(Near(entries, key, depth), depth + 1, NearPrefix(key, depth, prefix), key);
      assert Walked(entries, key, depth).siblings[1..] == Walked(Near(entries, key, depth), key, depth + 1).siblings;
    } else {
      assert depth <= DEPTH by { SliceDepth(entries, depth, prefix); }
    }
  }

  lemma SliceDepth(entries: Entries, depth: nat, prefix: nat)
    requires Slice(entries, depth, prefix)
    ensures depth <= DEPTH
  {
  }

  // ----- Whole maps

  lemma HashesRankInjective(s: set<Hash>)
    ensures RankInjective(RankHash, s)
  {
    forall a, b | a in s && b in s && RankHash(a) == RankHash(b) ensures a == b {
      RankHashInjective(a, b);
    }
  }

  function Listed(m: map<Hash, Digest>, keys: seq<Hash>): (entries: Entries)
    requires forall k :: k in keys ==> k in m
    ensures |entries| == |keys|
    ensures forall i :: 0 <= i < |keys| ==> entries[i] == (keys[i], m[keys[i]])
  {
    seq(|keys|, i requires 0 <= i < |keys| => (keys[i], m[keys[i]]))
  }

  /** The entries of a map in ascending key order. */
  ghost function EntriesOf(m: map<Hash, Digest>): Entries {
    HashesRankInjective(m.Keys);
    Listed(m, Orders.Sorted(RankHash, m.Keys))
  }

  lemma EntryListed(m: map<Hash, Digest>, keys: seq<Hash>, k: Hash, v: Digest)
    requires forall k :: k in keys ==> k in m
    ensures (k, v) in Listed(m, keys) <==> k in keys && m[k] == v
  {
    var entries := Listed(m, keys);
    if k in keys {
      var i :| 0 <= i < |keys| && keys[i] == k;
      assert entries[i] == (k, m[k]);
    }
    if (k, v) in entries {
      var i :| 0 <= i < |entries| && entries[i] == (k, v);
      assert keys[i] in keys;
    }
  }

  lemma EntriesAreTheMap(m: map<Hash, Digest>)
    ensures Slice(EntriesOf(m), 0, 0)
    ensures forall k, v :: (k, v) in EntriesOf(m) <==> k in m && m[k] == v
  {
    EntriesAreASlice(m);
    hide RankHash, Slice, Listed;
    HashesRankInjective(m.Keys);
    var keys := Orders.Sorted(RankHash, m.Keys);
    forall k, v ensures (k, v) in EntriesOf(m) <==> k in m && m[k] == v {
      EntryListed(m, keys, k, v);
    }
  }

  lemma EntriesAreASlice(m: map<Hash, Digest>)
    ensures Slice(EntriesOf(m), 0, 0)
  {
    hide RankHash;
    HashesRankInjective(m.Keys);
  }

  ghost function TreeRoot(m: map<Hash, Digest>): Digest {
    SubtreeRoot(EntriesOf(m), 0)
  }

  function Lookup<K, V>(m: map<K, V>, key: K): Option<V> {
    if key in m then Some(m[key]) else None
  }

  ghost function ProofFor(m: map<Hash, Digest>, key: Hash): SmtProof {
    Walked(EntriesOf(m), key, 0)
  }

  /** Equal roots mean equal maps. */
  lemma EqualRoots(m: map<Hash, Digest>, n: map<Hash, Digest>)
    requires TreeRoot(m) == TreeRoot(n)
    ensures m == n
  {
    hide EntriesOf, Slice;
    EntriesAreTheMap(m);
    EntriesAreTheMap(n);
    RootDeterminesSlice(EntriesOf(m), EntriesOf(n), 0, 0);
    forall k | k in m ensures k in n && m[k] == n[k] {
      assert (k, m[k]) in EntriesOf(m);
    }
    forall k | k in n ensures k in m {
      assert (k, n[k]) in EntriesOf(n);
    }
  }

  /** Soundness: whatever verifies against a tree's root is what the tree says. */
  lemma NothingElseVerifies(m: map<Hash, Digest>, proof: SmtProof, key: Hash, value: Option<Digest>)
    requires Verifies(proof, TreeRoot(m), key, value)
    ensures value == Lookup(m, key)
  {
    hide EntriesOf, Slice, SubtreeRoot, Climbed, SharesPrefix;
    var entries := EntriesOf(m);
    EntriesAreTheMap(m);
    if proof.terminal.Some? {
      LeafAtTheEnd(entries, 0, 0, key, proof.siblings, proof.terminal.value);
    } else {
      NothingAtTheEnd(entries, 0, 0, key, proof.siblings);
    }
    if key in m {
      assert (key, m[key]) in entries;
    }
  }

  lemma AgreeingSharesPrefix(a: Hash, b: Hash, bits: nat)
    requires Agree(b, a, 0, bits)
    ensures SharesPrefix(a, b, bits)
  {
    hide Bit;
  }

  /** Completeness: the proof the tree makes verifies with what the tree says. */
  lemma ProofVerifies(m: map<Hash, Digest>, key: Hash)
    ensures Verifies(ProofFor(m, key), TreeRoot(m), key, Lookup(m, key))
  {
    hide EntriesOf, Slice, SubtreeRoot, Climbed, SharesPrefix, Walked, Agree;
    var entries := EntriesOf(m);
    var p := ProofFor(m, key);
    EntriesAreTheMap(m);
    WalkLeadsBack(entries, 0, 0, key);
    if p.terminal.Some? {
      LeafAtTheEnd(entries, 0, 0, key, p.siblings, p.terminal.value);
      AgreeingSharesPrefix(p.terminal.value.key, key, |p.siblings|);
    } else {
      NothingAtTheEnd(entries, 0, 0, key, p.siblings);
    }
    if key in m {
      assert (key, m[key]) in entries;
    }
  }

  /** Against the root of a tree some proof verifies a statement exactly when the map makes it. */
  lemma ProvableExactly(m: map<Hash, Digest>, key: Hash, value: Option<Digest>)
    ensures (exists proof :: Verifies(proof, TreeRoot(m), key, value)) <==> value == Lookup(m, key)
  {
    hide Verifies, TreeRoot, ProofFor;
    ProofVerifies(m, key);
    forall proof | Verifies(proof, TreeRoot(m), key, value) ensures value == Lookup(m, key) {
      NothingElseVerifies(m, proof, key, value);
    }
  }

  /** A leaf that climbs to a tree's root along a key's bits lies on that key's path: with
      digests that do not collide, no genuine root ever relies on the prefix check. */
  lemma PrefixComesFree(m: map<Hash, Digest>, proof: SmtProof, key: Hash)
    requires proof.terminal.Some?
    requires Climbed(key, proof.siblings, 0, Leaf(proof.terminal.value.key, proof.terminal.value.value)) == TreeRoot(m)
    ensures SharesPrefix(proof.terminal.value.key, key, |proof.siblings|)
  {
    hide EntriesOf, Slice, SubtreeRoot, Climbed, SharesPrefix, Agree;
    EntriesAreTheMap(m);
    LeafAtTheEnd(EntriesOf(m), 0, 0, key, proof.siblings, proof.terminal.value);
    AgreeingSharesPrefix(proof.terminal.value.key, key, |proof.siblings|);
  }

  // ----- The tree as an object

  class SparseMerkleTree {
    var entries: map<Hash, Digest>

    constructor ()
      ensures entries == map[]
    {
      entries := map[];
    }

    method Insert(key: Hash, value: Digest)
      modifies this
      ensures entries == old(entries)[key := value]
    {
      entries := entries[key := value];
    }

    method Remove(key: Hash) returns (held: Option<Digest>)
      modifies this
      ensures held == Lookup(old(entries), key)
      ensures entries == old(entries) - {key}
    {
      held := Lookup(entries, key);
      entries := entries - {key};
    }

    method InOrder() returns (r: Entries)
      ensures r == EntriesOf(entries)
    {
      hide RankHash;
      HashesRankInjective(entries.Keys);
      var keys := Ascend(RankHash, entries.Keys);
      r := Listed(entries, keys);
    }

    method Root() returns (root: Digest)
      ensures root == TreeRoot(entries)
    {
      var list := InOrder();
      root := SubtreeRoot(list, 0);
    }

    /** A proof about `key`, whether it is present or absent; it verifies. */
    method Prove(key: Hash) returns (proof: SmtProof)
      ensures Verifies(proof, TreeRoot(entries), key, Lookup(entries, key))
    {
      hide EntriesOf, Verifies, Walked;
      var list := InOrder();
      var siblings, terminal := Walk(list, key, 0, []);
      proof := SmtProof(siblings, terminal);
      assert siblings == Walked(list, key, 0).siblings;
      assert proof == ProofFor(entries, key);
      ProofVerifies(entries, key);
    }
  }

  /** Walks down towards `key`, pushing siblings. */
  method Walk(entries: Entries, key: Hash, depth: nat, pushed: seq<Digest>)
      returns (siblings: seq<Digest>, terminal: Option<SmtLeaf>)
    ensures siblings == pushed + Walked(entries, key, depth).siblings
    ensures terminal == Walked(entries, key, depth).terminal
    decreases DEPTH - depth
  {
    WalkedEnds(entries, key, depth, pushed);
    hide PartitionPoint, SubtreeRoot, Bit, Walked;
    if |entries| == 0 {
      return pushed, None;
    }
    if |entries| == 1 {
      return pushed, Some(SmtLeaf(entries[0].0, entries[0].1));
    }
    if depth >= DEPTH {
      return pushed, None;
    }
    WalkedStep(entries, key, depth, pushed);
    hide Left, Right;
    var left := Left(entries, depth);
    var right := Right(entries, depth);
    if Bit(key, depth) {
      siblings, terminal := Walk(right, key, depth + 1, pushed + [SubtreeRoot(left, depth + 1)]);
    } else {
      siblings, terminal := Walk(left, key, depth + 1, pushed + [SubtreeRoot(right, depth + 1)]);
    }
  }

  lemma WalkedEnds(entries: Entries, key: Hash, depth: nat, pushed: seq<Digest>)
    ensures |entries| < 2 || depth >= DEPTH ==> pushed + Walked(entries, key, depth).siblings == pushed
    ensures |entries| == 0 || (|entries| >= 2 && depth >= DEPTH) ==> Walked(entries, key, depth).terminal == None
    ensures |entries| == 1 ==> Walked(entries, key, depth).terminal == Some(SmtLeaf(entries[0].0, entries[0].1))
  {
    hide SubtreeRoot, PartitionPoint;
    if |entries| < 2 || depth >= DEPTH {
      assert Walked(entries, key, depth).siblings == [];
    }
  }

  lemma WalkedStep(entries: Entries, key: Hash, depth: nat, pushed: seq<Digest>)
    requires |entries| >= 2 && depth < DEPTH
    ensures var p := Walked(entries, key, depth); var below := Walked(Near(entries, key, depth), key, depth + 1);
      && p.terminal == below.terminal
      && pushed + p.siblings == pushed + [SubtreeRoot(Far(entries, key, depth), depth + 1)] + below.siblings
  {
    hide Near, Far, SubtreeRoot;
  }
}
