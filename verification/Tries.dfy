/** The root a map has by the bits of its keys alone, with no order, no slices and no search. */
module Tries {
  import opened Types
  import opened Bits
  import opened Smt

  /** The part of a map whose keys have the bit at `depth` set, or unset. */
  ghost function Half(m: map<Hash, Digest>, depth: nat, on: bool): map<Hash, Digest> {
    map k | k in m && Bit(k, depth) == on :: m[k]
  }

  /** Nothing is `Zero`, one key is its leaf, and several are a node over the keys whose next
      bit is unset, on the left, and those whose next bit is set, on the right. */
  ghost function Trie(m: map<Hash, Digest>, depth: nat): Digest
    decreases DEPTH - depth
  {
    if m == map[] || (depth >= DEPTH && |m| > 1) then Zero
    else if |m| == 1 then
      var k :| k in m;
      Digest.Leaf(k, m[k])
    else Digest.Node(Trie(Half(m, depth, false), depth + 1), Trie(Half(m, depth, true), depth + 1))
  }

  ghost predicate Lists(entries: Entries, m: map<Hash, Digest>) {
    forall k, v :: (k, v) in entries <==> k in m && m[k] == v
  }

  lemma NothingListed(entries: Entries, m: map<Hash, Digest>)
    requires Lists(entries, m)
    ensures entries == [] <==> m == map[]
  {
    if entries != [] {
      assert (entries[0].0, entries[0].1) in entries;
    }
    if k :| k in m {
      assert (k, m[k]) in entries;
    }
  }

  lemma OneListed(k: Hash, v: Digest, m: map<Hash, Digest>)
    requires Lists([(k, v)], m)
    ensures m == map[k := v]
  {
    assert (k, v) in [(k, v)];
    forall other | other in m
      ensures other == k
    {
      assert (other, m[other]) in [(k, v)];
    }
  }

  lemma SeveralListed(entries: Entries, m: map<Hash, Digest>)
    requires Lists(entries, m) && Smt.Sorted(entries) && |entries| >= 2
    ensures |m| >= 2
  {
    hide RankHash;
    var a, b := entries[0].0, entries[1].0;
    assert (a, entries[0].1) in entries && (b, entries[1].1) in entries;
    assert a != b;
    var rest := m.Keys - {a};
    assert b in rest;
    assert |m.Keys| == |rest| + 1;
  }

  lemma HalvesListed(entries: Entries, m: map<Hash, Digest>, depth: nat, prefix: nat)
    requires Slice(entries, depth, prefix) && |entries| >= 2 && Lists(entries, m)
    ensures Lists(Left(entries, depth), Half(m, depth, false)) && Lists(Right(entries, depth), Half(m, depth, true))
  {
    hide Bit, Slice, Left, Right;
    forall k, v
      ensures (k, v) in Left(entries, depth) <==> k in Half(m, depth, false) && Half(m, depth, false)[k] == v
      ensures (k, v) in Right(entries, depth) <==> k in Half(m, depth, true) && Half(m, depth, true)[k] == v
    {
      NearKeeps(entries, depth, prefix, k);
      if (k, v) in Left(entries, depth) {
        LeftIsUnset(entries, depth, prefix, (k, v));
      }
      if (k, v) in Right(entries, depth) {
        RightIsSet(entries, depth, prefix, (k, v));
      }
    }
  }

  lemma LeftIsUnset(entries: Entries, depth: nat, prefix: nat, e: (Hash, Digest))
    requires Slice(entries, depth, prefix) && |entries| >= 2 && e in Left(entries, depth)
    ensures e in entries && !Bit(e.0, depth)
  {
    hide Bit, Slice;
    var i :| 0 <= i < |Left(entries, depth)| && Left(entries, depth)[i] == e;
    SplitIsRight(entries, depth, prefix, i);
  }

  lemma RightIsSet(entries: Entries, depth: nat, prefix: nat, e: (Hash, Digest))
    requires Slice(entries, depth, prefix) && |entries| >= 2 && e in Right(entries, depth)
    ensures e in entries && Bit(e.0, depth)
  {
    hide Bit, Slice;
    var i :| 0 <= i < |Right(entries, depth)| && Right(entries, depth)[i] == e;
    SplitIsRight(entries, depth, prefix, PartitionPoint(entries, depth) + i);
  }

  lemma {:induction false} SliceIsTrie(entries: Entries, m: map<Hash, Digest>, depth: nat, prefix: nat)
    requires Slice(entries, depth, prefix) && Lists(entries, m)
    ensures SubtreeRoot(entries, depth) == Trie(m, depth)
    decreases DEPTH - depth
  {
    hide Lists, Left, Right, Half, Bit, Prefix, RankHash;
    NothingListed(entries, m);
    if |entries| == 1 {
      assert entries == [(entries[0].0, entries[0].1)];
      OneListed(entries[0].0, entries[0].1, m);
    } else if |entries| >= 2 {
      SeveralListed(entries, m);
      HalvesAreSlices(entries, depth, prefix);
      HalvesListed(entries, m, depth, prefix);
      NonEmptyRoot(entries, depth, prefix);
      hide Slice;
      SliceIsTrie(Left(entries, depth), Half(m, depth, false), depth + 1, 2 * prefix);
      SliceIsTrie(Right(entries, depth), Half(m, depth, true), depth + 1, 2 * prefix + 1);
    }
  }

  /** The tree's root is the trie's. */
  lemma RootIsTrie(m: map<Hash, Digest>)
    ensures TreeRoot(m) == Trie(m, 0)
  {
    hide Slice, SubtreeRoot, Trie, EntriesOf;
    EntriesAreTheMap(m);
    SliceIsTrie(EntriesOf(m), m, 0, 0);
  }
}
