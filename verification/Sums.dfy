/** Sums over finite maps and sets, and how one update changes them. */
module Sums {

  /** The sum of `f` over the entries of `m`, in no particular order. */
  ghost function Sum<K(!new), V(!new)>(m: map<K, V>, f: (K, V) -> int): int
    decreases |m|
  {
    if m == map[] then 0
    else
      var k :| k in m;
      f(k, m[k]) + Sum(m - {k}, f)
  }

  /** Any entry may be taken out first. */
  lemma {:induction false} SumRemove<K(!new), V(!new)>(m: map<K, V>, f: (K, V) -> int, k: K)
    requires k in m
    ensures Sum(m, f) == f(k, m[k]) + Sum(m - {k}, f)
    decreases |m|
  {
    var j :| j in m && Sum(m, f) == f(j, m[j]) + Sum(m - {j}, f);
    if j != k {
      SumRemove(m - {j}, f, k);
      SumRemove(m - {k}, f, j);
      assert m - {j} - {k} == m - {k} - {j};
    }
  }

  /** Replacing or adding one entry. */
  lemma {:induction false} SumUpdate<K(!new), V(!new)>(m: map<K, V>, f: (K, V) -> int, k: K, v: V)
    ensures Sum(m[k := v], f) == Sum(m - {k}, f) + f(k, v)
    ensures k in m ==> Sum(m, f) == Sum(m - {k}, f) + f(k, m[k])
    ensures k !in m ==> Sum(m, f) == Sum(m - {k}, f)
  {
    SumRemove(m[k := v], f, k);
    assert m[k := v] - {k} == m - {k};
    if k in m {
      SumRemove(m, f, k);
    } else {
      assert m - {k} == m;
    }
  }

  /** Over the same keys, a sum that is nowhere smaller is not smaller. */
  lemma {:induction false} SumMonotone<K(!new), V(!new),
      W(!new)>(m: map<K, V>, f: (K, V) -> int, n: map<K, W>, g: (K, W) -> int)
    requires m.Keys <= n.Keys
    requires forall k :: k in m ==> f(k, m[k]) <= g(k, n[k])
    requires forall k :: k in n && k !in m ==> 0 <= g(k, n[k])
    ensures Sum(m, f) <= Sum(n, g)
    decreases |n|
  {
    if n == map[] {
      assert m == map[];
    } else {
      var k :| k in n;
      SumRemove(n, g, k);
      if k in m {
        SumRemove(m, f, k);
        SumMonotone(m - {k}, f, n - {k}, g);
      } else {
        SumMonotone(m, f, n - {k}, g);
      }
    }
  }

  lemma SumNonNegative<K(!new), V(!new)>(m: map<K, V>, f: (K, V) -> int)
    requires forall k :: k in m ==> 0 <= f(k, m[k])
    ensures 0 <= Sum(m, f)
  {
    assert Sum(map[], f) == 0;
    SumMonotone(map[], f, m, f);
  }

  /** One entry of a non-negative sum is at most the sum. */
  lemma SumBoundsEntry<K(!new), V(!new)>(m: map<K, V>, f: (K, V) -> int, k: K)
    requires k in m
    requires forall j :: j in m ==> 0 <= f(j, m[j])
    ensures f(k, m[k]) <= Sum(m, f)
  {
    SumRemove(m, f, k);
    SumNonNegative(m - {k}, f);
  }
}
