/**
  The shuffle behind the duty roster is fair: the draws decide the order and the order the
  draws, one to one, so draws that are uniform make every order equally likely.
 */
module Shuffles {
  import opened Committees

  /** One place to swap with for each index from 1 to `index`, none beyond it. */
  ghost predicate Draws(targets: seq<nat>, index: nat) {
    |targets| == index + 1 && targets[0] == 0 && forall i :: 1 <= i <= index ==> targets[i] <= i
  }

  /** The places this source of numbers draws. */
  ghost function DrawsOf(rng: Rng, index: nat): (targets: seq<nat>)
    ensures Draws(targets, index)
  {
    if index == 0 then [0] else DrawsOf(rng, index - 1) + [rng("activate", index) % (index + 1)]
  }

  /** The shuffle those draws make. */
  ghost function Arranged(order: seq<nat>, targets: seq<nat>, index: nat): seq<nat>
    requires Draws(targets, index) && (index < |order| || index == 0)
    decreases index
  {
    if index == 0 then order
    else Arranged(Swapped(order, index, targets[index]), targets[..index], index - 1)
  }

  lemma {:induction false} ShuffledIsArranged(rng: Rng, order: seq<nat>, index: nat)
    requires index < |order| || index == 0
    ensures Shuffled(rng, order, index) == Arranged(order, DrawsOf(rng, index), index)
    decreases index
  {
    if index != 0 {
      var targets := DrawsOf(rng, index);
      assert targets[..index] == DrawsOf(rng, index - 1);
      ShuffledIsArranged(rng, Swapped(order, index, targets[index]), index - 1);
    }
  }

  ghost predicate Distinct(order: seq<nat>) {
    forall i, j :: 0 <= i < j < |order| ==> order[i] != order[j]
  }

  /** What lies past the index is left alone. */
  lemma {:induction false} ArrangedBeyond(order: seq<nat>, targets: seq<nat>, index: nat, i: nat)
    requires Draws(targets, index) && (index < |order| || index == 0) && index < i < |order|
    ensures |Arranged(order, targets, index)| == |order| && Arranged(order, targets, index)[i] == order[i]
    decreases index
  {
    if index != 0 {
      ArrangedBeyond(Swapped(order, index, targets[index]), targets[..index], index - 1, i);
    }
  }

  /** Two sequences of draws that end in one order are the same draws. */
  lemma {:induction false} OrderDeterminesDraws(order: seq<nat>, targets: seq<nat>, others: seq<nat>, index: nat)
    requires Draws(targets, index) && Draws(others, index) && index < |order| && Distinct(order)
    requires Arranged(order, targets, index) == Arranged(order, others, index)
    ensures targets == others
    decreases index
  {
    if index != 0 {
      var t, u := targets[index], others[index];
      var first, second := Swapped(order, index, t), Swapped(order, index, u);
      ArrangedBeyond(first, targets[..index], index - 1, index);
      ArrangedBeyond(second, others[..index], index - 1, index);
      assert order[t] == first[index] == second[index] == order[u];
      assert t == u;
      OrderDeterminesDraws(first, targets[..index], others[..index], index - 1);
      assert targets == targets[..index] + [t] && others == others[..index] + [u];
    }
  }

  /** Every rearrangement of the places up to the index is reached by some draws. */
  lemma {:induction false} EveryOrderIsDrawn(order: seq<nat>, goal: seq<nat>, index: nat) returns (targets: seq<nat>)
    requires index < |order| == |goal| && multiset(goal[..index + 1]) == multiset(order[..index + 1])
    requires goal[index + 1..] == order[index + 1..]
    ensures Draws(targets, index) && Arranged(order, targets, index) == goal
    decreases index
  {
    if index == 0 {
      targets := [0];
      assert goal[..1] == [goal[0]] && order[..1] == [order[0]];
      assert goal[0] in multiset(order[..1]);
      assert goal == goal[..1] + goal[1..] && order == order[..1] + order[1..];
    } else {
      assert goal[..index + 1][index] == goal[index];
      assert goal[index] in multiset(order[..index + 1]);
      var t: nat :| t <= index && order[..index + 1][t] == goal[index];
      var swapped := Swapped(order, index, t);
      SwappedFront(order, goal, index, t);
      var earlier := EveryOrderIsDrawn(swapped, goal, index - 1);
      targets := earlier + [t];
      assert targets[..index] == earlier;
    }
  }

  lemma SwappedFront(order: seq<nat>, goal: seq<nat>, index: nat, t: nat)
    requires 0 < index < |order| == |goal| && t <= index && order[t] == goal[index]
    requires multiset(goal[..index + 1]) == multiset(order[..index + 1]) && goal[index + 1..] == order[index + 1..]
    ensures |Swapped(order, index, t)| == |order|
    ensures multiset(goal[..index]) == multiset(Swapped(order, index, t)[..index])
    ensures goal[index..] == Swapped(order, index, t)[index..]
  {
    var swapped, x := Swapped(order, index, t), goal[index];
    SwapKeepsMultiset(order[..index + 1], swapped[..index + 1], index, t);
    LastApart(goal, index);
    LastApart(swapped, index);
    assert multiset(goal[..index]) + multiset{x} == multiset(swapped[..index]) + multiset{x};
    SameBeside(multiset(goal[..index]), multiset(swapped[..index]), x);
    assert goal[index..] == [x] + goal[index + 1..] && swapped[index..] == [x] + order[index + 1..];
  }

  lemma LastApart(a: seq<nat>, n: nat)
    requires n < |a|
    ensures multiset(a[..n + 1]) == multiset(a[..n]) + multiset{a[n]}
  {
    assert a[..n + 1] == a[..n] + [a[n]];
  }

  lemma SameBeside(a: multiset<nat>, b: multiset<nat>, x: nat)
    requires a + multiset{x} == b + multiset{x}
    ensures a == b
  {
    assert a == (a + multiset{x}) - multiset{x};
    assert b == (b + multiset{x}) - multiset{x};
  }

  lemma SwapKeepsMultiset(a: seq<nat>, b: seq<nat>, i: nat, j: nat)
    requires i < |a| && j < |a| && b == a[i := a[j]][j := a[i]]
    ensures multiset(b) == multiset(a)
  {
  }

  lemma ActivationIsArranged(rng: Rng, size: nat)
    requires size >= 2
    ensures ActivationOrder(rng, size) == Arranged(Identity(size), DrawsOf(rng, size - 1), size - 1)
  {
    ShuffledIsArranged(rng, Identity(size), size - 1);
  }

  lemma IdentityDistinct(size: nat)
    ensures |Identity(size)| == size && Distinct(Identity(size))
  {
  }

  lemma ActivationDeterminesDraws(size: nat, targets: seq<nat>, others: seq<nat>)
    requires size >= 2 && Draws(targets, size - 1) && Draws(others, size - 1)
    requires |Identity(size)| == size
    requires Arranged(Identity(size), targets, size - 1) == Arranged(Identity(size), others, size - 1)
    ensures targets == others
  {
    IdentityDistinct(size);
    hide Identity, Distinct, Arranged, Draws;
    OrderDeterminesDraws(Identity(size), targets, others, size - 1);
  }

  lemma EveryActivationIsDrawn(size: nat, goal: seq<nat>) returns (targets: seq<nat>)
    requires size >= 2 && |goal| == size == |Identity(size)| && multiset(goal) == multiset(Identity(size))
    ensures Draws(targets, size - 1) && Arranged(Identity(size), targets, size - 1) == goal
  {
    hide Identity, Arranged, Draws;
    var order := Identity(size);
    assert goal[..size] == goal && order[..size] == order;
    assert goal[size..] == order[size..];
    targets := EveryOrderIsDrawn(order, goal, size - 1);
  }

  /** The duty roster's order: two seeds give one order exactly when they draw the same places,
      and every order of the seats is the one that some draws give. */
  lemma ActivationIsFair(rng: Rng, other: Rng, size: nat, goal: seq<nat>) returns (targets: seq<nat>)
    requires size >= 2 && |goal| == size && multiset(goal) == multiset(Identity(size))
    ensures ActivationOrder(rng, size) == ActivationOrder(other, size) <==>
      DrawsOf(rng, size - 1) == DrawsOf(other, size - 1)
    ensures Draws(targets, size - 1)
    ensures DrawsOf(rng, size - 1) == targets <==> ActivationOrder(rng, size) == goal
  {
    IdentityDistinct(size);
    hide Identity, Distinct, Arranged, DrawsOf, ActivationOrder, Draws;
    ActivationIsArranged(rng, size);
    ActivationIsArranged(other, size);
    if ActivationOrder(rng, size) == ActivationOrder(other, size) {
      ActivationDeterminesDraws(size, DrawsOf(rng, size - 1), DrawsOf(other, size - 1));
    }
    targets := EveryActivationIsDrawn(size, goal);
    if ActivationOrder(rng, size) == goal {
      ActivationDeterminesDraws(size, DrawsOf(rng, size - 1), targets);
    }
  }
}
