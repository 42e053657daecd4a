/** Consensus weight, in integers, and the strict two-thirds test. */
module Weights {
  import opened Prelude
  import opened Types
  import opened Arithmetic

  const MULTIPLIER_ONE: u32 := 1_000
  const MULTIPLIER_MAX: u32 := 2_000

  type Multiplier = m: u32 | MULTIPLIER_ONE <= m <= MULTIPLIER_MAX witness 1_000
  type Weight = u128

  const MAX_WEIGHT: nat := 2 * U64_LIMIT

  /** Bond times multiplier over a thousand, rounded down. */
  function WeightOf(bond: Amount, multiplier: Multiplier): (w: Weight)
    ensures bond <= w < MAX_WEIGHT
  {
    ProductGrows(bond, 1_000, multiplier);
    ProductGrows(bond, multiplier, 2_000);
    bond * multiplier / 1_000
  }

  /** The multiplier counts in thousandths, from one to two, and the weight is rounded down. */
  lemma WeightExactly(bond: Amount, multiplier: Multiplier)
    ensures 1_000 <= multiplier <= 2_000
    ensures 1_000 * WeightOf(bond, multiplier) <= bond * multiplier < 1_000 * (WeightOf(bond, multiplier) + 1)
  {
  }

  function WeightAdd(a: Weight, b: Weight): Option<Weight> {
    if a + b < U128_LIMIT then Some(a + b) else None
  }

  /** The product saturates at 128 bits; the quotient is rounded down. */
  function ScaledWeight(w: Weight, numerator: u64, denominator: u64): (r: Weight)
    ensures numerator <= denominator ==> r <= w
  {
    if denominator == 0 then 0
    else
      ScaleBound(w, numerator, denominator);
      Min(w * numerator, U128_LIMIT - 1) / denominator
  }

  lemma ScaleBound(w: Weight, numerator: u64, denominator: u64)
    requires denominator > 0
    ensures 0 <= w * numerator
    ensures 0 <= Min(w * numerator, U128_LIMIT - 1) / denominator < U128_LIMIT
    ensures numerator <= denominator ==> Min(w * numerator, U128_LIMIT - 1) / denominator <= w
  {
    ProductGrows(w, 0, numerator);
    var p := Min(w * numerator, U128_LIMIT - 1);
    ProductGrows(p, 1, denominator);
    QuotientAtMost(p, p, denominator);
    if numerator <= denominator {
      ProductGrows(w, numerator, denominator);
      QuotientAtMost(p, w, denominator);
    }
    Quotient(p, denominator);
  }

  /** Strictly more than two thirds, by cross-multiplication; refuses what does not fit. */
  predicate ExceedsTwoThirds(signed: Weight, total: Weight) {
    3 * signed < U128_LIMIT && 2 * total < U128_LIMIT && 3 * signed > 2 * total
  }

  function WeightSum(ws: seq<Weight>): nat {
    if ws == [] then 0 else WeightSum(ws[..|ws| - 1]) + ws[|ws| - 1]
  }

  /** The checked fold: the sum, unless some part of it does not fit. */
  function CheckedWeightSum(ws: seq<Weight>): (r: Option<Weight>)
    ensures r == if WeightSum(ws) < U128_LIMIT then Some(WeightSum(ws)) else None
  {
    if ws == [] then Some(0)
    else
      var sum :- CheckedWeightSum(ws[..|ws| - 1]);
      WeightAdd(sum, ws[|ws| - 1])
  }

  method SumWeights(ws: seq<Weight>) returns (r: Option<Weight>)
    ensures r == if WeightSum(ws) < U128_LIMIT then Some(WeightSum(ws)) else None
  {
    var total: Weight := 0;
    var i := 0;
    while i < |ws|
      invariant 0 <= i <= |ws|
      invariant total == WeightSum(ws[..i])
    {
      assert ws[..i + 1][..i] == ws[..i];
      var sum := WeightAdd(total, ws[i]);
      if sum.None? {
        PrefixSumBelow(ws, i + 1);
        return None;
      }
      total := sum.value;
      i := i + 1;
    }
    assert ws[..i] == ws;
    return Some(total);
  }

  lemma {:induction false} PrefixSumBelow(ws: seq<Weight>, n: nat)
    requires n <= |ws|
    ensures WeightSum(ws[..n]) <= WeightSum(ws)
    decreases |ws|
  {
    if n == |ws| {
      assert ws[..n] == ws;
    } else {
      var m := |ws| - 1;
      assert ws[..m][..n] == ws[..n];
      PrefixSumBelow(ws[..m], n);
    }
  }

  lemma {:induction false} WeightSumAppend(xs: seq<Weight>, ys: seq<Weight>)
    ensures WeightSum(xs + ys) == WeightSum(xs) + WeightSum(ys)
    decreases |ys|
  {
    if ys == [] {
      assert xs + ys == xs;
    } else {
      assert (xs + ys)[..|xs + ys| - 1] == xs + ys[..|ys| - 1];
      WeightSumAppend(xs, ys[..|ys| - 1]);
    }
  }

  /** On weights three times which fit in 128 bits the test is exactly the strict bound. */
  lemma TwoThirdsExactly(signed: Weight, total: Weight)
    requires 3 * signed < U128_LIMIT && 3 * total < U128_LIMIT
    ensures ExceedsTwoThirds(signed, total) <==> 3 * signed > 2 * total
  {
  }
}
