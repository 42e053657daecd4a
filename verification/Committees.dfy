/** Drawing a committee by weight without replacement, and the sliding duty roster. */
module Committees {
  import opened Prelude
  import opened Types
  import opened Arithmetic
  import opened Weights
  import opened Validators

  const SAMPLED: nat := 192
  const ACTIVE: nat := 64

  datatype CommitteeMember = CommitteeMember(account: AccountId, weight: Weight)

  datatype Committee = Committee(members: seq<CommitteeMember>, permutation: seq<nat>, totalWeight: Weight) {
    /** The members on duty at a block: a window sliding one place per block. */
    function ActiveAt(block: nat): (active: seq<CommitteeMember>)
      requires WellFormed()
    {
      var size := |members|;
      if size == 0 then []
      else seq(Min(ACTIVE, size), step requires 0 <= step < Min(ACTIVE, size) =>
             members[permutation[(block % size + step) % size]])
    }

    predicate WellFormed() {
      && |permutation| == |members|
      && forall i :: 0 <= i < |permutation| ==> permutation[i] < |members|
    }

    function ActiveWeightAt(block: nat): Weight
      requires WellFormed()
    {
      CheckedWeightSum(WeightsOf(ActiveAt(block))).GetOr(0)
    }

    predicate IsActiveAt(account: AccountId, block: nat)
      requires WellFormed()
    {
      exists m :: m in ActiveAt(block) && m.account == account
    }

    /** The weight of the first seat an account holds. */
    function WeightOfMember(account: AccountId): Option<Weight> {
      Find(members, account)
    }
  }

  function Find(members: seq<CommitteeMember>, account: AccountId): Option<Weight> {
    if members == [] then None
    else if members[0].account == account then Some(members[0].weight)
    else Find(members[1..], account)
  }

  function WeightsOf(ms: seq<CommitteeMember>): (ws: seq<Weight>)
    ensures |ws| == |ms| && forall i :: 0 <= i < |ms| ==> ws[i] == ms[i].weight
  {
    seq(|ms|, i requires 0 <= i < |ms| => ms[i].weight)
  }

  function Total(ms: seq<CommitteeMember>): nat {
    if ms == [] then 0 else Total(ms[..|ms| - 1]) + ms[|ms| - 1].weight
  }

  lemma {:induction false} TotalIsSum(ms: seq<CommitteeMember>)
    ensures WeightSum(WeightsOf(ms)) == Total(ms)
  {
    if ms != [] {
      TotalIsSum(ms[..|ms| - 1]);
      assert WeightsOf(ms)[..|ms| - 1] == WeightsOf(ms[..|ms| - 1]);
    }
  }

  lemma {:induction false} TotalAppend(xs: seq<CommitteeMember>, ys: seq<CommitteeMember>)
    ensures Total(xs + ys) == Total(xs) + Total(ys)
    decreases |ys|
  {
    if ys == [] {
      assert xs + ys == xs;
    } else {
      assert (xs + ys)[..|xs + ys| - 1] == xs + ys[..|ys| - 1];
      TotalAppend(xs, ys[..|ys| - 1]);
    }
  }

  // ----- One round

  /** The candidate whose cumulative weight first exceeds `point`; the last one if none does. */
  function Pick(candidates: seq<CommitteeMember>, point: nat): (index: nat)
    requires candidates != []
    ensures index < |candidates|
  {
    if |candidates| == 1 || candidates[0].weight > point then 0
    else 1 + Pick(candidates[1..], point - candidates[0].weight)
  }

  /** The weight before the `i`-th candidate. */
  function Before(candidates: seq<CommitteeMember>, i: nat): nat
    requires i <= |candidates|
  {
    Total(candidates[..i])
  }

  lemma BeforeStep(candidates: seq<CommitteeMember>, i: nat)
    requires i < |candidates|
    ensures Before(candidates, i + 1) == Before(candidates, i) + candidates[i].weight
  {
    assert candidates[..i + 1][..i] == candidates[..i];
  }

  lemma TotalFront(ms: seq<CommitteeMember>)
    requires ms != []
    ensures Total(ms) == ms[0].weight + Total(ms[1..])
  {
    assert ms == [ms[0]] + ms[1..];
    assert [ms[0]][..0] == [];
    TotalAppend([ms[0]], ms[1..]);
  }

  /** A point below the total lands on the one candidate whose interval holds it, and the
      fallback to the last candidate is never what decides. */
  lemma {:induction false} PickExactly(candidates: seq<CommitteeMember>, point: nat, i: nat)
    requires point < Total(candidates) && i < |candidates|
    ensures Pick(candidates, point) == i <==> Before(candidates, i) <= point < Before(candidates, i + 1)
    decreases |candidates|
  {
    TotalFront(candidates);
    var first := candidates[0];
    if |candidates| == 1 {
      assert candidates[..0] == [] && candidates[..1] == candidates;
      assert candidates[1..] == [];
    } else if i == 0 {
      assert candidates[..0] == [];
      BeforeStep(candidates, 0);
    } else {
      assert candidates[..i] == [first] + candidates[1..][..i - 1];
      assert candidates[..i + 1] == [first] + candidates[1..][..i];
      TotalAppend([first], candidates[1..][..i - 1]);
      TotalAppend([first], candidates[1..][..i]);
      assert [first][..0] == [];
      if first.weight <= point {
        PickExactly(candidates[1..], point - first.weight, i - 1);
      }
    }
  }

  ghost function Points(candidates: seq<CommitteeMember>, i: nat): set<nat>
    requires candidates != []
  {
    set p: nat | p < Total(candidates) && Pick(candidates, p) == i
  }

  predicate Reaches(low: nat, p: nat) {
    low <= p
  }

  ghost function Interval(low: nat, high: nat): set<nat> {
    set p: nat | p < high && Reaches(low, p)
  }

  lemma {:induction false} IntervalSize(low: nat, high: nat)
    requires low <= high
    ensures |Interval(low, high)| == high - low
    decreases high - low
  {
    if low == high {
      assert Interval(low, high) == {};
    } else {
      IntervalSize(low, high - 1);
      assert Interval(low, high) == Interval(low, high - 1) + {high - 1};
    }
  }

  lemma {:induction false} BeforeGrows(candidates: seq<CommitteeMember>, i: nat)
    requires i <= |candidates|
    ensures Before(candidates, i) <= Total(candidates)
  {
    assert candidates == candidates[..i] + candidates[i..];
    TotalAppend(candidates[..i], candidates[i..]);
  }

  /** Of the points below the remaining total, exactly its weight many select a candidate. */
  lemma DrawnByWeight(candidates: seq<CommitteeMember>, i: nat)
    requires i < |candidates|
    ensures |Points(candidates, i)| == candidates[i].weight
  {
    BeforeStep(candidates, i);
    BeforeGrows(candidates, i + 1);
    forall p: nat ensures p in Points(candidates, i) <==>
        p in Interval(Before(candidates, i), Before(candidates, i + 1)) {
      if p < Total(candidates) {
        PickExactly(candidates, p, i);
      }
    }
    assert Points(candidates, i) == Interval(Before(candidates, i), Before(candidates, i + 1));
    IntervalSize(Before(candidates, i), Before(candidates, i + 1));
  }

  /** The cumulative walk of the draw. */
  method PickByCumulativeWeight(candidates: seq<CommitteeMember>, point: nat) returns (index: nat)
    requires candidates != [] && Total(candidates) < U128_LIMIT && point < Total(candidates)
    ensures index == Pick(candidates, point)
  {
    var cumulative: u128 := 0;
    index := 0;
    assert candidates[..|candidates|] == candidates;
    while index < |candidates|
      invariant 0 <= index <= |candidates|
      invariant cumulative == Before(candidates, index)
      invariant cumulative <= point
    {
      BeforeStep(candidates, index);
      BeforeGrows(candidates, index + 1);
      cumulative := Min(cumulative + candidates[index].weight, U128_LIMIT - 1);
      if cumulative > point {
        PickExactly(candidates, point, index);
        return;
      }
      index := index + 1;
    }
    assert false;
  }

  // ----- The draw

  type Rng = (string, nat) -> u128

  function Without<T>(xs: seq<T>, i: nat): seq<T>
    requires i < |xs|
  {
    xs[..i] + xs[i + 1..]
  }

  /** The seat one round of the draw fills. */
  function Chosen(rng: Rng, round: nat, candidates: seq<CommitteeMember>): (index: nat)
    requires candidates != [] && Total(candidates) != 0
    ensures index < |candidates|
  {
    Pick(candidates, rng("draw", round) % Total(candidates))
  }

  /** The members drawn from `round` on. */
  function Drawn(rng: Rng, round: nat, candidates: seq<CommitteeMember>, seats: nat): seq<CommitteeMember>
    decreases seats
  {
    if seats == 0 || candidates == [] || Total(candidates) == 0 then []
    else
      var index := Chosen(rng, round, candidates);
      [candidates[index]] + Drawn(rng, round + 1, Without(candidates, index), seats - 1)
  }

  lemma WithoutTotal(candidates: seq<CommitteeMember>, i: nat)
    requires i < |candidates|
    ensures Total(Without(candidates, i)) == Total(candidates) - candidates[i].weight
  {
    assert candidates == candidates[..i] + candidates[i..];
    TotalAppend(candidates[..i], candidates[i..]);
    assert candidates[i..][1..] == candidates[i + 1..];
    TotalFront(candidates[i..]);
    TotalAppend(candidates[..i], candidates[i + 1..]);
  }

  ghost predicate AllWeigh(ms: seq<CommitteeMember>) {
    forall m :: m in ms ==> m.weight > 0
  }

  ghost predicate DistinctAccounts(ms: seq<CommitteeMember>) {
    forall i, j :: 0 <= i < j < |ms| ==> ms[i].account != ms[j].account
  }

  lemma WithoutKeeps(candidates: seq<CommitteeMember>, i: nat)
    requires i < |candidates| && DistinctAccounts(candidates)
    ensures DistinctAccounts(Without(candidates, i)) && |Without(candidates, i)| == |candidates| - 1
    ensures forall m :: m in Without(candidates, i) ==> m in candidates && m.account != candidates[i].account
    ensures AllWeigh(candidates) ==> AllWeigh(Without(candidates, i))
  {
    var rest := Without(candidates, i);
    forall j | 0 <= j < |rest| ensures rest[j] == candidates[if j < i then j else j + 1] {
    }
  }

  lemma DistinctCons(m: CommitteeMember, ms: seq<CommitteeMember>)
    requires DistinctAccounts(ms) && forall x :: x in ms ==> x.account != m.account
    ensures DistinctAccounts([m] + ms)
  {
  }

  /** Some of `all`, each once. */
  ghost predicate Among(ms: seq<CommitteeMember>, all: seq<CommitteeMember>) {
    DistinctAccounts(ms) && forall m :: m in ms ==> m in all
  }

  lemma AmongCons(candidates: seq<CommitteeMember>, i: nat, ms: seq<CommitteeMember>)
    requires i < |candidates| && DistinctAccounts(candidates)
    requires Among(ms, Without(candidates, i))
    ensures Among([candidates[i]] + ms, candidates)
  {
    WithoutKeeps(candidates, i);
    DistinctCons(candidates[i], ms);
    hide Without, DistinctAccounts;
  }

  lemma SomeWeight(candidates: seq<CommitteeMember>)
    requires candidates != [] && AllWeigh(candidates)
    ensures Total(candidates) > 0
  {
    TotalFront(candidates);
    assert candidates[0] in candidates;
  }

  /** The draw takes as many seats as there are, from the candidates, never one twice. */
  lemma {:induction false} DrawFillsSeats(rng: Rng, round: nat, candidates: seq<CommitteeMember>, seats: nat)
    requires AllWeigh(candidates) && DistinctAccounts(candidates)
    ensures |Drawn(rng, round, candidates, seats)| == Min(seats, |candidates|)
    ensures Among(Drawn(rng, round, candidates, seats), candidates)
    decreases seats
  {
    hide Drawn, Total, Chosen, AllWeigh, DistinctAccounts, Without, Among;
    if seats == 0 || candidates == [] {
      NothingDrawn(rng, round, candidates, seats);
    } else {
      SomeWeight(candidates);
      var rest := Without(candidates, Chosen(rng, round, candidates));
      DrawnStep(rng, round, candidates, seats, []);
      WithoutKeeps(candidates, Chosen(rng, round, candidates));
      DrawFillsSeats(rng, round + 1, rest, seats - 1);
      AmongCons(candidates, Chosen(rng, round, candidates), Drawn(rng, round + 1, rest, seats - 1));
    }
  }

  lemma NothingDrawn(rng: Rng, round: nat, candidates: seq<CommitteeMember>, seats: nat)
    requires seats == 0 || candidates == []
    ensures Drawn(rng, round, candidates, seats) == [] && Among([], candidates)
  {
  }

  /** The candidates not among some accounts, in their order. */
  function Undrawn(candidates: seq<CommitteeMember>, drawn: set<AccountId>): seq<CommitteeMember> {
    if candidates == [] then []
    else (if candidates[0].account in drawn then [] else [candidates[0]]) + Undrawn(candidates[1..], drawn)
  }

  function AccountsOf(ms: seq<CommitteeMember>): set<AccountId> {
    if ms == [] then {} else {ms[0].account} + AccountsOf(ms[1..])
  }

  lemma {:induction false} NobodyDrawn(candidates: seq<CommitteeMember>)
    ensures Undrawn(candidates, {}) == candidates
  {
    if candidates != [] {
      NobodyDrawn(candidates[1..]);
    }
  }

  /** Leaving one candidate out is the same as counting it among the drawn. */
  lemma {:induction false} WithoutIsUndrawn(candidates: seq<CommitteeMember>, i: nat, drawn: set<AccountId>)
    requires i < |candidates| && DistinctAccounts(candidates)
    ensures Undrawn(Without(candidates, i), drawn) == Undrawn(candidates, {candidates[i].account} + drawn)
    decreases |candidates|
  {
    var rest, id := candidates[1..], candidates[i].account;
    if i == 0 {
      assert Without(candidates, 0) == rest;
      AbsentIsUndrawn(rest, id, drawn);
    } else {
      var left := Without(candidates, i);
      assert left[1..] == Without(rest, i - 1) && left[0] == candidates[0] && rest[i - 1] == candidates[i];
      WithoutIsUndrawn(rest, i - 1, drawn);
    }
  }

  lemma {:induction false} AbsentIsUndrawn(candidates: seq<CommitteeMember>, id: AccountId, drawn: set<AccountId>)
    requires forall m :: m in candidates ==> m.account != id
    ensures Undrawn(candidates, {id} + drawn) == Undrawn(candidates, drawn)
  {
    if candidates != [] {
      assert candidates[0] in candidates;
      AbsentIsUndrawn(candidates[1..], id, drawn);
    }
  }

  /** Whom a point falls on: the candidate whose stretch of the cumulative weights holds it. */
  ghost predicate FallsOn(candidates: seq<CommitteeMember>, point: nat, m: CommitteeMember) {
    exists i :: 0 <= i < |candidates| && candidates[i] == m
      && Before(candidates, i) <= point < Before(candidates, i + 1)
  }

  lemma ChosenFallsOn(rng: Rng, round: nat, candidates: seq<CommitteeMember>)
    requires candidates != [] && Total(candidates) != 0
    ensures FallsOn(candidates, rng("draw", round) % Total(candidates), candidates[Chosen(rng, round, candidates)])
  {
    hide Total, Pick, Before;
    PickExactly(candidates, rng("draw", round) % Total(candidates), Chosen(rng, round, candidates));
  }

  /** Round by round, the draw takes the one whom the round's random number, reduced by the
      weight still undrawn, falls on among those still undrawn. */
  lemma {:induction false} RoundIsDrawn(rng: Rng, round: nat, candidates: seq<CommitteeMember>, seats: nat, k: nat)
    requires DistinctAccounts(candidates) && k < |Drawn(rng, round, candidates, seats)|
    ensures var drawn := Drawn(rng, round, candidates, seats);
      var left := Undrawn(candidates, AccountsOf(drawn[..k]));
      Total(left) != 0 && FallsOn(left, rng("draw", round + k) % Total(left), drawn[k])
    decreases seats
  {
    hide Total, Pick, Before, Undrawn, Without, DistinctAccounts, FallsOn;
    var drawn, index := Drawn(rng, round, candidates, seats), Chosen(rng, round, candidates);
    if k == 0 {
      NobodyDrawn(candidates);
      ChosenFallsOn(rng, round, candidates);
    } else {
      var later := Drawn(rng, round + 1, Without(candidates, index), seats - 1);
      assert drawn == [candidates[index]] + later && drawn[..k][1..] == later[..k - 1];
      WithoutKeeps(candidates, index);
      RoundIsDrawn(rng, round + 1, Without(candidates, index), seats - 1, k - 1);
      WithoutIsUndrawn(candidates, index, AccountsOf(later[..k - 1]));
    }
  }

  // ----- Fisher-Yates

  ghost predicate IsPermutation(order: seq<nat>) {
    && (forall i :: 0 <= i < |order| ==> order[i] < |order|)
    && (forall i, j :: 0 <= i < j < |order| ==> order[i] != order[j])
  }

  function Swapped(order: seq<nat>, i: nat, j: nat): seq<nat>
    requires i < |order| && j < |order|
  {
    order[i := order[j]][j := order[i]]
  }

  lemma SwapPermutes(order: seq<nat>, i: nat, j: nat)
    requires IsPermutation(order) && i < |order| && j < |order|
    ensures IsPermutation(Swapped(order, i, j))
  {
  }

  function Shuffled(rng: Rng, order: seq<nat>, index: nat): seq<nat>
    requires index < |order| || index == 0
    decreases index
  {
    if index == 0 then order
    else Shuffled(rng, Swapped(order, index, rng("activate", index) % (index + 1)), index - 1)
  }

  lemma {:induction false} ShufflePermutes(rng: Rng, order: seq<nat>, index: nat)
    requires IsPermutation(order) && (index < |order| || index == 0)
    ensures IsPermutation(Shuffled(rng, order, index)) && |Shuffled(rng, order, index)| == |order|
    decreases index
  {
    if index != 0 {
      var target := rng("activate", index) % (index + 1);
      SwapPermutes(order, index, target);
      ShufflePermutes(rng, Swapped(order, index, target), index - 1);
    }
  }

  function Identity(size: nat): seq<nat> {
    seq(size, i => i)
  }

  function ActivationOrder(rng: Rng, size: nat): seq<nat> {
    if size < 2 then Identity(size) else Shuffled(rng, Identity(size), size - 1)
  }

  /** The activation order is a permutation of the seats, whatever the seed. */
  lemma ActivationPermutes(rng: Rng, size: nat)
    ensures IsPermutation(ActivationOrder(rng, size)) && |ActivationOrder(rng, size)| == size
  {
    if size >= 2 {
      ShufflePermutes(rng, Identity(size), size - 1);
    }
  }

  method Swap(seats: array<nat>, i: nat, j: nat)
    requires i < seats.Length && j < seats.Length
    modifies seats
    ensures seats[..] == Swapped(old(seats[..]), i, j)
  {
    seats[i], seats[j] := seats[j], seats[i];
  }

  method ActivationPermutation(rng: Rng, size: nat) returns (order: seq<nat>)
    ensures order == ActivationOrder(rng, size)
  {
    var seats := new nat[size](i => i);
    assert seats[..] == Identity(size);
    if size < 2 {
      return seats[..];
    }
    hide Swapped, Identity;
    var index := size - 1;
    while index >= 1
      invariant 0 <= index < size
      invariant Shuffled(rng, seats[..], index) == ActivationOrder(rng, size)
    {
      Swap(seats, index, rng("activate", index) % (index + 1));
      index := index - 1;
    }
    return seats[..];
  }

  // ----- Whole committees

  function MemberOf(record: ValidatorRecord): CommitteeMember {
    CommitteeMember(record.account, record.Weight())
  }

  /** The eligible ones among some records, in their order. */
  function EligibleOf(rs: seq<ValidatorRecord>): seq<CommitteeMember> {
    if rs == [] then []
    else
      var n := |rs| - 1;
      EligibleOf(rs[..n]) + if rs[n].IsEligible() then [MemberOf(rs[n])] else []
  }

  ghost function Candidates(validators: ValidatorMap): seq<CommitteeMember> {
    EligibleOf(RecordsOf(validators, Ordered(validators)))
  }

  /** The committee of an epoch; nobody is drawn if the weights do not fit in 128 bits. */
  ghost function CommitteeFor(validators: ValidatorMap, rng: Rng): Committee {
    var candidates := Candidates(validators);
    var members := if Total(candidates) < U128_LIMIT then Drawn(rng, 0, candidates, Min(SAMPLED, |candidates|)) else [];
    Committee(members, ActivationOrder(rng, |members|), CheckedWeightSum(WeightsOf(members)).GetOr(0))
  }

  lemma {:induction false} EligibleExactly(rs: seq<ValidatorRecord>, m: CommitteeMember)
    ensures m in EligibleOf(rs) <==>
      exists v :: v in rs && v.Weight() > 0 && m == CommitteeMember(v.account, v.Weight())
  {
    if rs != [] {
      var n := |rs| - 1;
      EligibleExactly(rs[..n], m);
      assert rs == rs[..n] + [rs[n]];
      hide ValidatorRecord.Weight;
      assert forall v :: v in rs <==> v in rs[..n] || v == rs[n];
    }
  }

  lemma RecordsListed(validators: ValidatorMap, id: AccountId, v: ValidatorRecord)
    requires Filed(validators) && v.account == id
    ensures v in RecordsOf(validators, Ordered(validators)) <==> id in validators && validators[id] == v
  {
    hide Ordered;
    var ids := Ordered(validators);
    var rs := RecordsOf(validators, ids);
    if v in rs {
      var i :| 0 <= i < |rs| && rs[i] == v;
      assert ids[i] in validators;
    }
    if id in validators && validators[id] == v {
      var i :| 0 <= i < |ids| && ids[i] == id;
      assert rs[i] == v;
    }
  }

  /** The candidates are the validators of some weight, each with its weight. */
  lemma CandidatesExactly(validators: ValidatorMap, m: CommitteeMember)
    requires Filed(validators)
    ensures m in Candidates(validators) <==>
      m.account in validators && validators[m.account].Weight() > 0 && m.weight == validators[m.account].Weight()
  {
    hide ValidatorRecord.Weight, EligibleOf, Ordered, RecordsOf;
    var rs := RecordsOf(validators, Ordered(validators));
    EligibleExactly(rs, m);
    if v :| v in rs && v.Weight() > 0 && m == CommitteeMember(v.account, v.Weight()) {
      RecordsListed(validators, m.account, v);
    }
    if m.account in validators {
      RecordsListed(validators, m.account, validators[m.account]);
    }
  }

  /** The draw, as a node runs it. */
  method Draw(validators: ValidatorSet, rng: Rng) returns (committee: Committee)
    ensures committee == CommitteeFor(validators.entries, rng)
  {
    var records := validators.InOrder();
    var candidates := CollectEligible(records);
    TotalIsSum(candidates);
    var total := SumWeights(WeightsOf(candidates));
    var members := DrawMembers(rng, candidates, total.GetOr(0), Min(SAMPLED, |candidates|));
    var permutation := ActivationPermutation(rng, |members|);
    var weight := SumWeights(WeightsOf(members));
    committee := Committee(members, permutation, weight.GetOr(0));
  }

  /** Rounds of the draw; with no weight to draw against, nobody is drawn. */
  method DrawMembers(rng: Rng, all: seq<CommitteeMember>, weight: Weight, seats: nat)
      returns (members: seq<CommitteeMember>)
    requires weight == Total(all) || weight == 0
    ensures members == if weight == Total(all) then Drawn(rng, 0, all, seats) else []
  {
    hide Total, Pick, Without;
    var candidates := all;
    var remaining := weight;
    members := [];
    var round: nat := 0;
    while |members| < seats && candidates != [] && remaining != 0
      invariant |members| <= seats && round == |members| && remaining < U128_LIMIT
      invariant weight == Total(all) ==>
        && remaining == Total(candidates)
        && members + Drawn(rng, round, candidates, seats - |members|) == Drawn(rng, 0, all, seats)
      invariant weight != Total(all) ==> remaining == 0 && members == []
      decreases seats - |members|
    {
      var point := rng("draw", round) % remaining;
      var index := PickByCumulativeWeight(candidates, point);
      WithoutTotal(candidates, index);
      DrawnStep(rng, round, candidates, seats - |members|, members);
      remaining := remaining - candidates[index].weight;
      members := members + [candidates[index]];
      candidates := Without(candidates, index);
      round := round + 1;
    }
  }

  lemma DrawnStep(rng: Rng, round: nat, candidates: seq<CommitteeMember>, seats: nat, before: seq<CommitteeMember>)
    requires seats > 0 && candidates != [] && Total(candidates) != 0
    ensures var index := Chosen(rng, round, candidates);
      && Drawn(rng, round, candidates, seats) == [candidates[index]]
           + Drawn(rng, round + 1, Without(candidates, index), seats - 1)
      && before + Drawn(rng, round, candidates, seats) ==
           before + [candidates[index]] + Drawn(rng, round + 1, Without(candidates, index), seats - 1)
  {
    hide Total, Chosen, Without;
  }

  method CollectEligible(rs: seq<ValidatorRecord>) returns (candidates: seq<CommitteeMember>)
    ensures candidates == EligibleOf(rs)
  {
    candidates := [];
    var i := 0;
    while i < |rs|
      invariant 0 <= i <= |rs|
      invariant candidates == EligibleOf(rs[..i])
    {
      assert rs[..i + 1][..i] == rs[..i];
      if rs[i].IsEligible() {
        candidates := candidates + [MemberOf(rs[i])];
      }
      i := i + 1;
    }
    assert rs[..i] == rs;
  }

  lemma {:induction false} EligibleFrom(rs: seq<ValidatorRecord>, m: CommitteeMember)
    ensures m in EligibleOf(rs) <==> exists i :: 0 <= i < |rs| && rs[i].IsEligible() && m == MemberOf(rs[i])
    decreases |rs|
  {
    hide MemberOf, ValidatorRecord.IsEligible;
    if rs != [] {
      var n := |rs| - 1;
      EligibleFrom(rs[..n], m);
      if i :| 0 <= i < |rs| && rs[i].IsEligible() && m == MemberOf(rs[i]) {
        if i < n {
          assert rs[..n][i] == rs[i];
        }
      }
      if i :| 0 <= i < n && rs[..n][i].IsEligible() && m == MemberOf(rs[..n][i]) {
        assert rs[i] == rs[..n][i];
      }
    }
  }

  /** The eligible candidates: each once, and each with a weight that fits. */
  lemma {:induction false} EligibleDistinct(rs: seq<ValidatorRecord>)
    requires forall i, j :: 0 <= i < j < |rs| ==> rs[i].account != rs[j].account
    ensures DistinctAccounts(EligibleOf(rs))
    ensures forall m :: m in EligibleOf(rs) ==> 0 < m.weight < MAX_WEIGHT
    decreases |rs|
  {
    if rs != [] {
      var n := |rs| - 1;
      EligibleDistinct(rs[..n]);
      forall m | m in EligibleOf(rs[..n]) ensures m.account != rs[n].account {
        EligibleFrom(rs[..n], m);
      }
      hide WeightOf;
    }
  }

  lemma OrderedDistinct(validators: ValidatorMap)
    requires Filed(validators)
    ensures var rs := RecordsOf(validators, Ordered(validators));
      forall i, j :: 0 <= i < j < |rs| ==> rs[i].account != rs[j].account
  {
    hide RankAccount;
    RankAccountInjective(validators.Keys);
    var ids := Ordered(validators);
    forall i, j | 0 <= i < j < |ids| ensures validators[ids[i]].account != validators[ids[j]].account {
      assert ids[i] in ids && ids[j] in ids;
      assert RankAccount(ids[i]) < RankAccount(ids[j]);
    }
  }

  lemma {:induction false} SubtotalBound(ms: seq<CommitteeMember>)
    requires forall m :: m in ms ==> m.weight < MAX_WEIGHT
    ensures Total(ms) <= |ms| * MAX_WEIGHT
    decreases |ms|
  {
    if ms != [] {
      SubtotalBound(ms[..|ms| - 1]);
      assert ms[|ms| - 1] in ms;
      OneMore(|ms| - 1, MAX_WEIGHT);
    }
  }

  /** Members drawn from a validator set: distinct, eligible, weighed, in a permutation. */
  ghost predicate WellDrawn(c: Committee) {
    && c.WellFormed() && IsPermutation(c.permutation)
    && DistinctAccounts(c.members) && |c.members| <= SAMPLED
    && forall m :: m in c.members ==> 0 < m.weight < MAX_WEIGHT
  }

  /** The committee: exactly min(192, eligible) members when the eligible weight fits in 128
      bits and none when it does not, all distinct and eligible, whatever the seed. */
  lemma CommitteeIsDrawn(validators: ValidatorMap, rng: Rng)
    requires Filed(validators)
    ensures var c := CommitteeFor(validators, rng); var candidates := Candidates(validators);
      && WellDrawn(c)
      && |c.members| == (if Total(candidates) < U128_LIMIT then Min(192, |candidates|) else 0)
      && (forall m :: m in c.members ==> m in candidates)
      && c.totalWeight == Total(c.members)
  {
    hide Total, Drawn, EligibleOf, ActivationOrder, DistinctAccounts;
    OrderedDistinct(validators);
    var candidates := Candidates(validators);
    EligibleDistinct(RecordsOf(validators, Ordered(validators)));
    DrawFillsSeats(rng, 0, candidates, Min(SAMPLED, |candidates|));
    var c := CommitteeFor(validators, rng);
    NothingIsDistinct();
    ActivationPermutes(rng, |c.members|);
    forall m | m in c.members ensures m in candidates {
    }
    SubtotalBound(c.members);
    TotalIsSum(c.members);
    ProductGrows(MAX_WEIGHT, |c.members|, SAMPLED);
  }

  lemma NothingIsDistinct()
    ensures DistinctAccounts([])
  {
  }

  // ----- The duty roster

  /** Whether the seat sits in the window of a block. */
  ghost predicate OnDuty(c: Committee, seat: nat, block: nat)
    requires WellDrawn(c) && seat < |c.members|
  {
    exists step :: InWindow(c, seat, block, step)
  }

  ghost predicate InWindow(c: Committee, seat: nat, block: nat, step: nat)
    requires WellDrawn(c) && seat < |c.members|
  {
    step < Min(ACTIVE, |c.members|) && c.permutation[(block % |c.members| + step) % |c.members|] == seat
  }

  /** How far past a block's offset a position lies, going round. */
  function Ahead(position: nat, offset: nat, size: nat): nat
    requires position < size && offset < size
  {
    if position >= offset then position - offset else position + size - offset
  }

  ghost function Image(order: seq<nat>, n: nat): set<nat>
    requires n <= |order|
  {
    if n == 0 then {} else Image(order, n - 1) + {order[n - 1]}
  }

  lemma {:induction false} ImageIndex(order: seq<nat>, n: nat, x: nat) returns (i: nat)
    requires n <= |order| && x in Image(order, n)
    ensures i < n && order[i] == x
  {
    i := n - 1;
    if order[n - 1] != x {
      i := ImageIndex(order, n - 1, x);
    }
  }

  lemma {:induction false} ImageSize(order: seq<nat>, n: nat)
    requires IsPermutation(order) && n <= |order|
    ensures |Image(order, n)| == n
  {
    if n != 0 {
      ImageSize(order, n - 1);
      if order[n - 1] in Image(order, n - 1) {
        var i := ImageIndex(order, n - 1, order[n - 1]);
      }
    }
  }

  lemma EverySeatHasAPosition(order: seq<nat>, seat: nat)
    requires IsPermutation(order) && seat < |order|
    ensures exists p :: 0 <= p < |order| && order[p] == seat
  {
    var n := |order|;
    ImageSize(order, n);
    IntervalSize(0, n);
    forall x | x in Image(order, n) ensures x in Interval(0, n) {
      var i := ImageIndex(order, n, x);
    }
    SubsetOfSameSize(Image(order, n), Interval(0, n));
    assert seat in Interval(0, n);
    var p := ImageIndex(order, n, seat);
  }

  lemma SubsetOfSameSize<T>(a: set<T>, b: set<T>)
    requires a <= b && |a| == |b|
    ensures a == b
  {
    assert |b - a| == |b| - |a|;
  }

  /** A seat is on duty exactly when its position is less than 64 places ahead of the offset. */
  lemma OnDutyExactly(c: Committee, seat: nat, block: nat, position: nat)
    requires WellDrawn(c) && seat < |c.members|
    requires position < |c.members| && c.permutation[position] == seat
    ensures block % |c.members| < |c.members|
    ensures OnDuty(c, seat, block) <==> Ahead(position, block % |c.members|, |c.members|) < Min(64, |c.members|)
  {
    var size := |c.members|;
    RemainderRepeats(block, size);
    var offset := block % size;
    var ahead := Ahead(position, offset, size);
    RemainderWraps(offset + ahead, size);
    assert (offset + ahead) % size == position;
    if ahead < Min(ACTIVE, size) {
      assert InWindow(c, seat, block, ahead);
    }
    if step :| InWindow(c, seat, block, step) {
      RemainderWraps(offset + step, size);
      assert (offset + step) % size == position;
    }
  }

  /** How many of `length` consecutive blocks a seat is on duty for. */
  ghost function Duties(c: Committee, seat: nat, first: nat, length: nat): nat
    requires WellDrawn(c) && seat < |c.members|
  {
    if length == 0 then 0
    else Duties(c, seat, first, length - 1) + if OnDuty(c, seat, first + length - 1) then 1 else 0
  }

  lemma {:induction false} DutiesFront(c: Committee, seat: nat, first: nat, length: nat)
    requires WellDrawn(c) && seat < |c.members| && length > 0
    ensures Duties(c, seat, first, length) == Duties(c, seat, first + 1, length - 1) + if OnDuty(c, seat, first) then
      1 else 0
  {
    hide OnDuty, WellDrawn;
    if length > 1 {
      DutiesFront(c, seat, first, length - 1);
    }
  }

  /** Sliding the window by one block changes nothing: what leaves comes back. */
  lemma {:induction false} DutiesSlide(c: Committee, seat: nat, first: nat)
    requires WellDrawn(c) && seat < |c.members|
    ensures Duties(c, seat, first, |c.members|) == Duties(c, seat, 0, |c.members|)
  {
    if first > 0 {
      var size := |c.members|;
      DutiesSlide(c, seat, first - 1);
      DutiesFront(c, seat, first - 1, size);
      EverySeatHasAPosition(c.permutation, seat);
      var position :| 0 <= position < size && c.permutation[position] == seat;
      OnDutyExactly(c, seat, first - 1, position);
      OnDutyExactly(c, seat, first - 1 + size, position);
      RemainderRepeats(first - 1, size);
      hide OnDuty, WellDrawn;
    }
  }

  /** The first `length` blocks of a round, counted. */
  lemma {:induction false} DutiesCounted(c: Committee, seat: nat, position: nat, length: nat)
    requires WellDrawn(c) && seat < |c.members| && length <= |c.members|
    requires position < |c.members| && c.permutation[position] == seat
    ensures var size := |c.members|; var count := Min(ACTIVE, size);
      Duties(c, seat, 0, length) ==
        (if length <= position then Max(0, length - Max(0, position - count + 1))
         else Min(count, position + 1) + Max(0, length - Max(position + 1, position + size - count + 1)))
  {
    if length > 0 {
      DutiesCounted(c, seat, position, length - 1);
      OnDutyExactly(c, seat, length - 1, position);
      RemainderWraps(length - 1, |c.members|);
      hide OnDuty, WellDrawn;
    }
  }

  function Max(a: int, b: int): int {
    if a >= b then a else b
  }

  /** In any n consecutive blocks each of n members is on duty exactly min(64, n) times. */
  lemma RosterIsFair(c: Committee, seat: nat, first: nat)
    requires WellDrawn(c) && seat < |c.members|
    ensures Duties(c, seat, first, |c.members|) == Min(64, |c.members|)
  {
    DutiesSlide(c, seat, first);
    EverySeatHasAPosition(c.permutation, seat);
    var position :| 0 <= position < |c.members| && c.permutation[position] == seat;
    DutiesCounted(c, seat, position, |c.members|);
  }
}
