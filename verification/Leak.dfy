/**
  The inactivity leak: silent members' weight decays until those who keep signing carry two
  thirds of what is left.
 */
module Leak {
  import opened Prelude
  import opened Types
  import opened Arithmetic
  import opened Weights
  import opened Committees
  import opened Certificates

  const LEAK_GRACE: u64 := 2 * EPOCH_BLOCKS
  const LEAK_PERIOD: u64 := 12 * EPOCH_BLOCKS

  type Missed = map<AccountId, u64>

  function MissedBy(missed: Missed, account: AccountId): u64 {
    if account in missed then missed[account] else 0
  }

  /** One member observed: a signer's counter goes, a silent one's rises, saturating. */
  function ObservedOne(missed: Missed, account: AccountId, signed: bool): Missed {
    if signed then missed - {account} else missed[account := SaturatingAdd(MissedBy(missed, account), 1)]
  }

  function Observed(missed: Missed, onDuty: seq<CommitteeMember>, signers: set<AccountId>): Missed {
    if onDuty == [] then missed
    else
      var n := |onDuty| - 1;
      ObservedOne(Observed(missed, onDuty[..n], signers), onDuty[n].account, onDuty[n].account in signers)
  }

  function RemainingFraction(missed: u64): u64 {
    var beyondGrace := if missed >= LEAK_GRACE then missed - LEAK_GRACE else 0;
    if LEAK_PERIOD >= beyondGrace then LEAK_PERIOD - beyondGrace else 0
  }

  function Effective(missed: Missed, m: CommitteeMember): Weight {
    ScaledWeight(m.weight, RemainingFraction(MissedBy(missed, m.account)), LEAK_PERIOD)
  }

  /** What silence costs: nothing for the first 1440 observations, then a part in 8640 for each
      one more, and everything from 10 080 on. */
  lemma SilenceCosts(missed: u64)
    ensures RemainingFraction(missed) ==
      if missed <= 1_440 then 8_640 else if missed <= 10_080 then 10_080 - missed else 0
  {
  }

  /** The weight left is that part of the weight, rounded down. */
  lemma EffectiveExactly(missed: Missed, m: CommitteeMember)
    requires m.weight < MAX_WEIGHT
    ensures var left := RemainingFraction(MissedBy(missed, m.account));
      8_640 * Effective(missed, m) <= m.weight * left < 8_640 * (Effective(missed, m) + 1)
  {
    var left := RemainingFraction(MissedBy(missed, m.account));
    ProductGrows(m.weight, left, LEAK_PERIOD);
    Quotient(m.weight * left, LEAK_PERIOD);
  }

  function EffectiveActive(missed: Missed, active: seq<CommitteeMember>): seq<Weight> {
    if active == [] then []
    else EffectiveActive(missed, active[..|active| - 1]) + [Effective(missed, active[|active| - 1])]
  }

  function EffectiveSigned(missed: Missed, active: seq<CommitteeMember>, signers: set<AccountId>): seq<Weight> {
    if active == [] then []
    else
      var n := |active| - 1;
      EffectiveSigned(missed, active[..n], signers) + if active[n].account in signers then
          [Effective(missed, active[n])] else []
  }

  /** Whether the signers carry more than two thirds of what is left of the weight on duty. */
  predicate RestoresFinality(missed: Missed, active: seq<CommitteeMember>, signers: set<AccountId>) {
    ExceedsTwoThirds(CheckedWeightSum(EffectiveSigned(missed, active, signers)).GetOr(0),
                     CheckedWeightSum(EffectiveActive(missed, active)).GetOr(0))
  }

  class LeakState {
    var missed: Missed

    constructor ()
      ensures missed == map[]
    {
      missed := map[];
    }

    /** Records one block that did not finalise. */
    method Observe(onDuty: seq<CommitteeMember>, signers: set<AccountId>)
      modifies this
      ensures missed == Observed(old(missed), onDuty, signers)
    {
      ghost var before := missed;
      var i := 0;
      while i < |onDuty|
        invariant 0 <= i <= |onDuty|
        invariant missed == Observed(before, onDuty[..i], signers)
      {
        assert onDuty[..i + 1][..i] == onDuty[..i];
        var account := onDuty[i].account;
        if account in signers {
          missed := missed - {account};
        } else {
          missed := missed[account := SaturatingAdd(MissedBy(missed, account), 1)];
        }
        i := i + 1;
      }
      assert onDuty[..i] == onDuty;
    }

    method Reset(account: AccountId)
      modifies this
      ensures missed == old(missed) - {account}
      ensures MissedBy(missed, account) == 0
    {
      missed := missed - {account};
    }

    method Clear()
      modifies this
      ensures missed == map[]
    {
      missed := map[];
    }
  }

  // ----- What observing does

  lemma {:induction false} ObservedElsewhere(missed: Missed, onDuty: seq<CommitteeMember>, signers: set<AccountId>,
      account: AccountId)
    requires forall m :: m in onDuty ==> m.account != account
    ensures MissedBy(Observed(missed, onDuty, signers), account) == MissedBy(missed, account)
    decreases |onDuty|
  {
    if onDuty != [] {
      ObservedElsewhere(missed, onDuty[..|onDuty| - 1], signers, account);
      assert onDuty[|onDuty| - 1] in onDuty;
    }
  }

  /** A signer's counter is reset at once and in full; a silent member's rises by one. */
  lemma {:induction false} ObservedMember(missed: Missed, onDuty: seq<CommitteeMember>, signers: set<AccountId>,
      m: CommitteeMember)
    requires DistinctAccounts(onDuty) && m in onDuty
    ensures MissedBy(Observed(missed, onDuty, signers), m.account) ==
              if m.account in signers then 0 else SaturatingAdd(MissedBy(missed, m.account), 1)
    decreases |onDuty|
  {
    var n := |onDuty| - 1;
    DistinctFront(onDuty);
    if onDuty[n] == m {
      ObservedElsewhere(missed, onDuty[..n], signers, m.account);
    } else {
      assert onDuty == onDuty[..n] + [onDuty[n]];
      ObservedMember(missed, onDuty[..n], signers, m);
    }
  }

  /** `count` observations of one roster and one set of signers. */
  function After(missed: Missed, roster: seq<CommitteeMember>, signers: set<AccountId>, count: nat): Missed {
    if count == 0 then missed else Observed(After(missed, roster, signers, count - 1), roster, signers)
  }

  lemma {:induction false} SilenceCounts(missed: Missed, roster: seq<CommitteeMember>, signers: set<AccountId>,
      count: nat, m: CommitteeMember)
    requires DistinctAccounts(roster) && m in roster && m.account !in signers
    ensures MissedBy(After(missed, roster, signers, count), m.account) >= Min(count, U64_LIMIT - 1)
  {
    if count > 0 {
      SilenceCounts(missed, roster, signers, count - 1, m);
      ObservedMember(After(missed, roster, signers, count - 1), roster, signers, m);
    }
  }

  lemma SigningKeepsFull(missed: Missed, roster: seq<CommitteeMember>, signers: set<AccountId>, count: nat,
      m: CommitteeMember)
    requires DistinctAccounts(roster) && m in roster && m.account in signers && count > 0
    ensures MissedBy(After(missed, roster, signers, count), m.account) == 0
  {
    ObservedMember(After(missed, roster, signers, count - 1), roster, signers, m);
  }

  // ----- Weights

  lemma FullWeight(w: Weight)
    requires w < MAX_WEIGHT
    ensures ScaledWeight(w, LEAK_PERIOD, LEAK_PERIOD) == w && ScaledWeight(w, 0, LEAK_PERIOD) == 0
  {
    assert w * 8_640 < U128_LIMIT;
    assert LEAK_PERIOD == 8_640;
  }

  lemma ScaledMonotone(w: Weight, a: u64, b: u64, d: u64)
    requires a <= b && d > 0
    ensures ScaledWeight(w, a, d) <= ScaledWeight(w, b, d)
  {
    ProductGrows(w, a, b);
    ProductGrows(w, 0, a);
    var p := Min(w * a, U128_LIMIT - 1);
    var q := Min(w * b, U128_LIMIT - 1);
    Quotient(p, d);
    QuotientAtLeast(q, p / d, d);
  }

  /** Effective weight only falls as silence grows, and never exceeds the weight itself. */
  lemma SilenceOnlyLowers(m: CommitteeMember, before: Missed, after: Missed)
    requires MissedBy(before, m.account) <= MissedBy(after, m.account)
    ensures Effective(after, m) <= Effective(before, m) <= m.weight
  {
    ScaledMonotone(m.weight, RemainingFraction(MissedBy(after, m.account)),
        RemainingFraction(MissedBy(before, m.account)), LEAK_PERIOD);
  }

  /** The weight on duty that some accounts carry once decay is counted. */
  lemma {:induction false} SignedSum(missed: Missed, active: seq<CommitteeMember>, signers: set<AccountId>)
    requires forall m :: m in active && m.account in signers ==> MissedBy(missed, m.account) == 0
    requires forall m :: m in active ==> m.weight < MAX_WEIGHT
    ensures WeightSum(EffectiveSigned(missed, active, signers)) == Carried(active, signers)
    decreases |active|
  {
    hide ScaledWeight;
    if active != [] {
      var n := |active| - 1;
      SignedSum(missed, active[..n], signers);
      assert active[n] in active;
      FullWeight(active[n].weight);
      WeightSumAppend(EffectiveSigned(missed, active[..n], signers), [Effective(missed, active[n])]);
      OneWeight(Effective(missed, active[n]));
      var none: seq<Weight> := [];
      assert EffectiveSigned(missed, active[..n], signers) + none == EffectiveSigned(missed, active[..n], signers);
    }
  }

  lemma OneWeight(w: Weight)
    ensures WeightSum([w]) == w
  {
    assert [w][..0] == [];
  }

  lemma {:induction false} ActiveSum(missed: Missed, active: seq<CommitteeMember>, signers: set<AccountId>)
    requires forall m :: m in active && m.account in signers ==> MissedBy(missed, m.account) == 0
    requires forall m :: m in active && m.account !in signers ==>
      MissedBy(missed, m.account) >= LEAK_GRACE + LEAK_PERIOD
    requires forall m :: m in active ==> m.weight < MAX_WEIGHT
    ensures WeightSum(EffectiveActive(missed, active)) == Carried(active, signers)
    decreases |active|
  {
    hide ScaledWeight;
    if active != [] {
      var n := |active| - 1;
      ActiveSum(missed, active[..n], signers);
      assert active[n] in active;
      FullWeight(active[n].weight);
      WeightSumAppend(EffectiveActive(missed, active[..n]), [Effective(missed, active[n])]);
      OneWeight(Effective(missed, active[n]));
    }
  }

  lemma {:induction false} ActiveFalls(before: Missed, after: Missed, active: seq<CommitteeMember>)
    requires forall m :: m in active ==> MissedBy(before, m.account) <= MissedBy(after, m.account)
    ensures WeightSum(EffectiveActive(after, active)) <= WeightSum(EffectiveActive(before, active)) <= Total(active)
    decreases |active|
  {
    hide Effective;
    if active != [] {
      var n := |active| - 1;
      ActiveFalls(before, after, active[..n]);
      assert active[n] in active;
      SilenceOnlyLowers(active[n], before, after);
      WeightSumAppend(EffectiveActive(after, active[..n]), [Effective(after, active[n])]);
      WeightSumAppend(EffectiveActive(before, active[..n]), [Effective(before, active[n])]);
      OneWeight(Effective(after, active[n]));
      OneWeight(Effective(before, active[n]));
    }
  }

  /** A roster a committee can have: distinct members whose weights fit. */
  ghost predicate Roster(active: seq<CommitteeMember>) {
    && DistinctAccounts(active) && |active| <= ACTIVE
    && forall m :: m in active ==> 0 < m.weight < MAX_WEIGHT
  }

  /** The members on duty of any drawn committee, at any block, are such a roster. */
  lemma CommitteesHaveRosters(c: Committee, block: nat)
    requires WellDrawn(c)
    ensures Roster(c.ActiveAt(block))
  {
    hide DistinctAccounts;
    ActiveFacts(c, block);
  }

  lemma RosterFits(active: seq<CommitteeMember>)
    requires Roster(active)
    ensures 3 * Total(active) < U128_LIMIT
  {
    SubtotalBound(active);
    ProductGrows(MAX_WEIGHT, |active|, ACTIVE);
  }

  /** The test on a roster, without overflow: three times what the signers carry against twice
      what is left. */
  lemma RestoresExactly(missed: Missed, active: seq<CommitteeMember>, signers: set<AccountId>)
    requires Roster(active)
    requires forall m :: m in active && m.account in signers ==> MissedBy(missed, m.account) == 0
    ensures RestoresFinality(missed, active, signers) <==>
              3 * Carried(active, signers) > 2 * WeightSum(EffectiveActive(missed, active))
  {
    hide Effective, Total, Carried, WeightSum, EffectiveActive, EffectiveSigned, ExceedsTwoThirds;
    RosterFits(active);
    SignedSum(missed, active, signers);
    ActiveFalls(missed, missed, active);
    CarriedUnion(active, signers, {});
    TwoThirdsExactly(Carried(active, signers), WeightSum(EffectiveActive(missed, active)));
  }

  /** Liveness: from any state of the leak, if one set of signers carrying any weight keeps
      signing a fixed roster, finality is restored after at most 10 080 observations, and
      once restored it stays so. */
  lemma LeakRestoresFinality(missed: Missed, roster: seq<CommitteeMember>, signers: set<AccountId>, count: nat)
    requires Roster(roster) && Carried(roster, signers) > 0
    ensures count >= LEAK_GRACE + LEAK_PERIOD ==>
      RestoresFinality(After(missed, roster, signers, count), roster, signers)
    ensures count > 0 && RestoresFinality(After(missed, roster, signers, count), roster, signers) ==>
              RestoresFinality(After(missed, roster, signers, count + 1), roster, signers)
  {
    hide After, RestoresFinality, Carried, WeightSum, EffectiveActive, DistinctAccounts;
    if count > 0 {
      var now := After(missed, roster, signers, count);
      var next := After(missed, roster, signers, count + 1);
      forall m | m in roster
        ensures m.account in signers ==> MissedBy(now, m.account) == 0 && MissedBy(next, m.account) == 0
        ensures m.account !in signers ==> MissedBy(now, m.account) >= Min(count, U64_LIMIT - 1)
        ensures MissedBy(now, m.account) <= MissedBy(next, m.account)
      {
        OneMember(missed, roster, signers, count, m);
      }
      RestoresExactly(now, roster, signers);
      RestoresExactly(next, roster, signers);
      ActiveFalls(now, next, roster);
      if count >= LEAK_GRACE + LEAK_PERIOD {
        ActiveSum(now, roster, signers);
      }
    }
  }

  lemma OneMember(missed: Missed, roster: seq<CommitteeMember>, signers: set<AccountId>, count: nat, m: CommitteeMember)
    requires DistinctAccounts(roster) && m in roster && count > 0
    ensures var now := After(missed, roster, signers, count); var next := After(missed, roster, signers, count + 1);
      && (m.account in signers ==> MissedBy(now, m.account) == 0 && MissedBy(next, m.account) == 0)
      && (m.account !in signers ==> MissedBy(now, m.account) >= Min(count, U64_LIMIT - 1))
      && MissedBy(now, m.account) <= MissedBy(next, m.account)
  {
    hide DistinctAccounts, MissedBy;
    if m.account in signers {
      SigningKeepsFull(missed, roster, signers, count, m);
      SigningKeepsFull(missed, roster, signers, count + 1, m);
    } else {
      SilenceCounts(missed, roster, signers, count, m);
      ObservedMember(After(missed, roster, signers, count), roster, signers, m);
    }
  }

  lemma {:induction false} NobodySigned(missed: Missed, active: seq<CommitteeMember>)
    ensures EffectiveSigned(missed, active, {}) == []
    decreases |active|
  {
    if active != [] {
      NobodySigned(missed, active[..|active| - 1]);
    }
  }

  /** Safety: an empty set of signers never finalises, whatever the leak has done. */
  lemma SilenceNeverFinalises(missed: Missed, active: seq<CommitteeMember>)
    ensures !RestoresFinality(missed, active, {})
  {
    NobodySigned(missed, active);
  }
}
