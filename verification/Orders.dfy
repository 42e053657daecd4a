/** Ascending enumerations of finite sets, the iteration order of a `BTreeMap`. */
module Orders {
  import opened Prelude

  ghost predicate RankInjective<K(!new)>(rank: K -> nat, s: set<K>) {
    forall a, b :: a in s && b in s && rank(a) == rank(b) ==> a == b
  }

  ghost predicate Ascending<K>(rank: K -> nat, xs: seq<K>) {
    forall i, j :: 0 <= i < j < |xs| ==> rank(xs[i]) < rank(xs[j])
  }

  ghost predicate IsLeast<K(!new)>(rank: K -> nat, s: set<K>, k: K) {
    k in s && forall j :: j in s ==> rank(k) <= rank(j)
  }

  lemma {:induction false} LeastExists<K(!new)>(rank: K -> nat, s: set<K>)
    requires s != {}
    ensures exists k :: IsLeast(rank, s, k)
  {
    var k :| k in s;
    if s == {k} {
      assert IsLeast(rank, s, k);
    } else {
      LeastExists(rank, s - {k});
      var l :| IsLeast(rank, s - {k}, l);
      assert IsLeast(rank, s, if rank(k) <= rank(l) then k else l);
    }
  }

  /** The elements of `s` in ascending rank. */
  ghost function Sorted<K(!new)>(rank: K -> nat, s: set<K>): (xs: seq<K>)
    requires RankInjective(rank, s)
    ensures Ascending(rank, xs)
    ensures |xs| == |s|
    ensures forall k :: k in xs <==> k in s
    decreases |s|
  {
    if s == {} then []
    else
      LeastExists(rank, s);
      var k :| IsLeast(rank, s, k);
      [k] + Sorted(rank, s - {k})
  }

  lemma SortedFromLeast<K(!new)>(rank: K -> nat, s: set<K>, k: K, xs: seq<K>)
    requires RankInjective(rank, s) && IsLeast(rank, s, k)
    ensures xs + Sorted(rank, s) == xs + [k] + Sorted(rank, s - {k})
  {
    assert Sorted(rank, s) == [k] + Sorted(rank, s - {k});
  }

  /** Taking the least element out, again and again. */
  method Ascend<K(==,!new)>(rank: K -> nat, s: set<K>) returns (xs: seq<K>)
    requires RankInjective(rank, s)
    ensures xs == Sorted(rank, s)
  {
    xs := [];
    var left := s;
    while left != {}
      invariant left <= s
      invariant xs + Sorted(rank, left) == Sorted(rank, s)
      decreases |left|
    {
      LeastExists(rank, left);
      ghost var least :| IsLeast(rank, left, least);
      var k :| k in left && forall j :: j in left ==> rank(k) <= rank(j);
      SortedFromLeast(rank, left, k, xs);
      xs := xs + [k];
      left := left - {k};
    }
  }

  lemma TailMembers<K>(rank: K -> nat, xs: seq<K>, k: K)
    requires xs != [] && Ascending(rank, xs)
    ensures k in xs[1..] <==> k in xs && k != xs[0]
  {
    if k in xs[1..] {
      var a :| 0 <= a < |xs| - 1 && xs[1..][a] == k;
      assert xs[a + 1] == k;
    }
    if k in xs && k != xs[0] {
      var b :| 0 <= b < |xs| && xs[b] == k;
      assert xs[1..][b - 1] == k;
    }
  }

  lemma HeadIsLeast<K>(rank: K -> nat, xs: seq<K>, k: K)
    requires xs != [] && Ascending(rank, xs) && k in xs
    ensures rank(xs[0]) <= rank(k)
  {
    var b :| 0 <= b < |xs| && xs[b] == k;
  }

  /** There is only one ascending enumeration of a set. */
  lemma {:induction false} AscendingUnique<K(!new)>(rank: K -> nat, xs: seq<K>, ys: seq<K>)
    requires Ascending(rank, xs) && Ascending(rank, ys) && |xs| == |ys|
    requires forall k :: k in xs <==> k in ys
    requires RankInjective(rank, set k | k in xs)
    ensures xs == ys
    decreases |xs|
  {
    if xs != [] {
      assert xs[0] in xs;
      assert ys[0] in ys;
      HeadIsLeast(rank, xs, ys[0]);
      HeadIsLeast(rank, ys, xs[0]);
      assert xs[0] == ys[0];
      forall k ensures k in xs[1..] <==> k in ys[1..] {
        TailMembers(rank, xs, k);
        TailMembers(rank, ys, k);
      }
      forall k | k in xs[1..] ensures k in xs {
        TailMembers(rank, xs, k);
      }
      AscendingUnique(rank, xs[1..], ys[1..]);
      assert xs == [xs[0]] + xs[1..] && ys == [ys[0]] + ys[1..];
    }
  }

  /** The big-endian number a byte string spells. */
  function Spelled(b: seq<u8>): nat {
    if b == [] then 0 else Spelled(b[..|b| - 1]) * 256 + b[|b| - 1]
  }

  lemma {:induction false} SpelledInjective(a: seq<u8>, b: seq<u8>)
    requires |a| == |b|
    requires Spelled(a) == Spelled(b)
    ensures a == b
  {
    if a != [] {
      var n := |a| - 1;
      assert a[n] == Spelled(a) % 256 && b[n] == Spelled(b) % 256;
      SpelledInjective(a[..n], b[..n]);
      assert a == a[..n] + [a[n]] && b == b[..n] + [b[n]];
    }
  }
}
