/**
  Finality certificates. Two certificates that finalise different blocks under one committee
  and slot share voters carrying strictly more than a third of the weight on duty,
  each with a valid signature on both.
 */
module Certificates {
  import opened Prelude
  import opened Types
  import opened Arithmetic
  import opened Weights
  import opened Validators
  import opened Committees

  datatype Vote = Vote(member: AccountId, signature: Signature)
  datatype Certificate = Certificate(block: BlockId, votes: seq<Vote>)

  datatype CertificateError =
    | WrongBlock(certified: BlockId, header: BlockId)
    | Unordered(index: nat)
    | NotOnDuty(offDuty: AccountId)
    | UnknownValidator(unknown: AccountId)
    | BadVoteSignature(forger: AccountId)
    | TestAlgorithmVote(tester: AccountId)
    | WeightOverflow

  /** What a certificate is checked against. */
  datatype Slot = Slot(committee: Committee, block: nat, validators: ValidatorMap, allowTest: bool)

  function SigningDigest(o: Oracle, header: BlockHeader): Hash {
    o.blockDigest(header.chain, o.blockId(header))
  }

  /** The verdict on one vote, its order aside. */
  function VoteChecked(o: Oracle, header: BlockHeader, slot: Slot, vote: Vote): Result<Weight, CertificateError>
    requires slot.committee.WellFormed()
  {
    if !slot.committee.IsActiveAt(vote.member, slot.block) then Failure(NotOnDuty(vote.member))
    else if vote.member !in slot.validators then Failure(UnknownValidator(vote.member))
    else if !slot.allowTest && !slot.validators[vote.member].key.algorithm.ValidOnLiveChain() then
      Failure(TestAlgorithmVote(vote.member))
    else if !o.verifies(slot.validators[vote.member].key, SigningDigest(o, header), vote.signature) then
      Failure(BadVoteSignature(vote.member))
    else
      match slot.committee.WeightOfMember(vote.member)
      case None => Failure(NotOnDuty(vote.member))
      case Some(weight) => Success(weight)
  }

  predicate InOrder(votes: seq<Vote>, i: nat)
    requires i < |votes|
  {
    i > 0 ==> RankAccount(votes[i - 1].member) < RankAccount(votes[i].member)
  }

  /** The weight of the first `n` votes, or the first fault among them. */
  function VotesChecked(o: Oracle, header: BlockHeader, slot: Slot, votes: seq<Vote>, n: nat)
      : Result<Weight, CertificateError>
    requires slot.committee.WellFormed() && n <= |votes|
  {
    if n == 0 then Success(0)
    else
      var signed :- VotesChecked(o, header, slot, votes, n - 1);
      if !InOrder(votes, n - 1) then Failure(Unordered(n - 1))
      else
        var weight :- VoteChecked(o, header, slot, votes[n - 1]);
        match WeightAdd(signed, weight)
        case None => Failure(WeightOverflow)
        case Some(sum) => Success(sum)
  }

  function CertificateChecked(o: Oracle, c: Certificate, header: BlockHeader, slot: Slot)
      : Result<Weight, CertificateError>
    requires slot.committee.WellFormed()
  {
    if c.block != o.blockId(header) then Failure(WrongBlock(c.block, o.blockId(header)))
    else VotesChecked(o, header, slot, c.votes, |c.votes|)
  }

  lemma {:induction false} FaultStays(o: Oracle, header: BlockHeader, slot: Slot, votes: seq<Vote>, m: nat, n: nat)
    requires slot.committee.WellFormed() && m <= n <= |votes|
    requires VotesChecked(o, header, slot, votes, m).Failure?
    ensures VotesChecked(o, header, slot, votes, n) == VotesChecked(o, header, slot, votes, m)
    decreases n
  {
    hide VoteChecked, InOrder;
    if m < n {
      FaultStays(o, header, slot, votes, m, n - 1);
    }
  }

  /** One vote more: its order, its own verdict, then the sum. */
  function NextVote(o: Oracle, header: BlockHeader, slot: Slot, votes: seq<Vote>, index: nat, signed: Weight)
    : Result<Weight, CertificateError>
    requires slot.committee.WellFormed() && index < |votes|
  {
    if !InOrder(votes, index) then Failure(Unordered(index))
    else
      var weight :- VoteChecked(o, header, slot, votes[index]);
      match WeightAdd(signed, weight)
      case None => Failure(WeightOverflow)
      case Some(sum) => Success(sum)
  }

  lemma OneVote(o: Oracle, header: BlockHeader, slot: Slot, votes: seq<Vote>, index: nat, signed: Weight)
    requires slot.committee.WellFormed() && index < |votes|
    requires VotesChecked(o, header, slot, votes, index) == Success(signed)
    ensures VotesChecked(o, header, slot, votes, index + 1) == NextVote(o, header, slot, votes, index, signed)
    ensures NextVote(o, header, slot, votes, index, signed).Failure? ==>
      VotesChecked(o, header, slot, votes, |votes|) == NextVote(o, header, slot, votes, index, signed)
  {
    hide VoteChecked, InOrder, WeightAdd;
    if NextVote(o, header, slot, votes, index, signed).Failure? {
      FaultStays(o, header, slot, votes, index + 1, |votes|);
    }
  }

  method Verify(o: Oracle, c: Certificate, header: BlockHeader, slot: Slot)
      returns (r: Result<Weight, CertificateError>)
    requires slot.committee.WellFormed()
    ensures r == CertificateChecked(o, c, header, slot)
  {
    hide VotesChecked, Committee.WellFormed;
    if c.block != o.blockId(header) {
      return Failure(WrongBlock(c.block, o.blockId(header)));
    }
    r := CountVotes(o, header, slot, c.votes);
  }

  lemma NoVotes(o: Oracle, header: BlockHeader, slot: Slot, votes: seq<Vote>)
    requires slot.committee.WellFormed()
    ensures VotesChecked(o, header, slot, votes, 0) == Success(0)
  {
  }

  /** One pass over the votes. */
  method CountVotes(o: Oracle, header: BlockHeader, slot: Slot, votes: seq<Vote>)
      returns (r: Result<Weight, CertificateError>)
    requires slot.committee.WellFormed()
    ensures r == VotesChecked(o, header, slot, votes, |votes|)
  {
    hide VoteChecked, VotesChecked, NextVote, InOrder, Committee.WellFormed, WeightAdd;
    var signed: Weight := 0;
    NoVotes(o, header, slot, votes);
    for index := 0 to |votes|
      invariant VotesChecked(o, header, slot, votes, index) == Success(signed)
    {
      OneVote(o, header, slot, votes, index, signed);
      var next := CountVote(o, header, slot, votes, index, signed);
      if next.Failure? {
        return next;
      }
      signed := next.value;
    }
    return Success(signed);
  }

  method CountVote(o: Oracle, header: BlockHeader, slot: Slot, votes: seq<Vote>, index: nat, signed: Weight)
    returns (r: Result<Weight, CertificateError>)
    requires slot.committee.WellFormed() && index < |votes|
    ensures r == NextVote(o, header, slot, votes, index, signed)
  {
    hide VoteChecked, InOrder;
    if !InOrder(votes, index) {
      return Failure(Unordered(index));
    }
    var weight := VoteChecked(o, header, slot, votes[index]);
    if weight.Failure? {
      return weight;
    }
    var sum := WeightAdd(signed, weight.value);
    if sum.None? {
      return Failure(WeightOverflow);
    }
    return Success(sum.value);
  }

  predicate Finalises(signed: Weight, active: Weight) {
    ExceedsTwoThirds(signed, active)
  }

  // ----- Weights of sets of voters

  /** The weight on duty that a set of accounts carries. */
  ghost function Carried(active: seq<CommitteeMember>, accounts: set<AccountId>): nat {
    if active == [] then 0
    else
      var n := |active| - 1;
      Carried(active[..n], accounts) + if active[n].account in accounts then active[n].weight else 0
  }

  lemma {:induction false} CarriedUnion(active: seq<CommitteeMember>, a: set<AccountId>, b: set<AccountId>)
    ensures Carried(active, a) + Carried(active, b) == Carried(active, a + b) + Carried(active, a * b)
    ensures Carried(active, a) <= Total(active)
    decreases |active|
  {
    if active != [] {
      CarriedUnion(active[..|active| - 1], a, b);
    }
  }

  lemma {:induction false} CarriedNothing(active: seq<CommitteeMember>)
    ensures Carried(active, {}) == 0
    decreases |active|
  {
    if active != [] {
      CarriedNothing(active[..|active| - 1]);
    }
  }

  lemma DistinctFront(active: seq<CommitteeMember>)
    requires active != [] && DistinctAccounts(active)
    ensures DistinctAccounts(active[..|active| - 1])
    ensures forall m :: m in active[..|active| - 1] ==> m.account != active[|active| - 1].account
  {
  }

  /** One more voter adds its weight, once. */
  lemma {:induction false} CarriedOneMore(active: seq<CommitteeMember>, accounts: set<AccountId>, m: CommitteeMember)
    requires DistinctAccounts(active) && m.account !in accounts
    ensures Carried(active, accounts + {m.account}) ==
              Carried(active, accounts) + if m in active then m.weight else Carried(active, {m.account})
    ensures m in active ==> Carried(active, {m.account}) == m.weight
    ensures (forall x :: x in active ==> x.account != m.account) ==> Carried(active, {m.account}) == 0
    decreases |active|
  {
    if active != [] {
      DistinctFront(active);
      hide DistinctAccounts;
      var n := |active| - 1;
      CarriedOneMore(active[..n], accounts, m);
      assert active == active[..n] + [active[n]];
    }
  }

  ghost function Voters(votes: seq<Vote>, n: nat): set<AccountId>
    requires n <= |votes|
  {
    set i | 0 <= i < n :: votes[i].member
  }

  // ----- Who is on duty

  lemma ActiveFacts(c: Committee, block: nat)
    requires WellDrawn(c)
    ensures var active := c.ActiveAt(block);
      && |active| == Min(ACTIVE, |c.members|)
      && (forall m :: m in active ==> m in c.members && 0 < m.weight < MAX_WEIGHT)
      && DistinctAccounts(active)
  {
    var active := c.ActiveAt(block);
    var size := |c.members|;
    if size > 0 {
      RemainderRepeats(block, size);
      var offset := block % size;
      forall i: nat, j: nat | i < j < |active| ensures active[i].account != active[j].account {
        RemainderWraps(offset + i, size);
        RemainderWraps(offset + j, size);
      }
      forall m | m in active ensures m in c.members {
        var i :| 0 <= i < |active| && active[i] == m;
        RemainderWraps(offset + i, size);
      }
    }
  }

  lemma {:induction false} FindFirst(members: seq<CommitteeMember>, m: CommitteeMember)
    requires DistinctAccounts(members) && m in members
    ensures Find(members, m.account) == Some(m.weight)
  {
    if members[0] != m {
      assert m in members[1..] by {
        var i :| 0 <= i < |members| && members[i] == m;
        assert members[1..][i - 1] == m;
      }
      FindFirst(members[1..], m);
    }
  }

  /** The weight on duty never overflows, and is what the roster carries. */
  lemma ActiveWeight(c: Committee, block: nat)
    requires WellDrawn(c)
    ensures c.ActiveWeightAt(block) == Total(c.ActiveAt(block))
    ensures Total(c.ActiveAt(block)) <= ACTIVE * MAX_WEIGHT
  {
    assert c.WellFormed();
    hide Total, WellDrawn, Committee.ActiveAt, Committee.WellFormed;
    ActiveFacts(c, block);
    var active := c.ActiveAt(block);
    SubtotalBound(active);
    TotalIsSum(active);
    ProductGrows(MAX_WEIGHT, |active|, ACTIVE);
  }

  lemma VoteWeight(o: Oracle, header: BlockHeader, slot: Slot, vote: Vote)
    requires WellDrawn(slot.committee) && VoteChecked(o, header, slot, vote).Success?
    ensures CommitteeMember(vote.member,
      VoteChecked(o, header, slot, vote).value) in slot.committee.ActiveAt(slot.block)
  {
    ActiveFacts(slot.committee, slot.block);
    var m :| m in slot.committee.ActiveAt(slot.block) && m.account == vote.member;
    FindFirst(slot.committee.members, m);
  }

  lemma {:induction false} AscendingVotes(votes: seq<Vote>, i: nat, n: nat)
    requires i < n < |votes| && forall j :: 0 <= j <= n ==> InOrder(votes, j)
    ensures RankAccount(votes[i].member) < RankAccount(votes[n].member)
    decreases n
  {
    assert InOrder(votes, n);
    if i < n - 1 {
      AscendingVotes(votes, i, n - 1);
    }
  }

  lemma {:induction false} CheckedVotesAscend(o: Oracle, header: BlockHeader, slot: Slot, votes: seq<Vote>, n: nat)
    requires slot.committee.WellFormed() && n <= |votes| && VotesChecked(o, header, slot, votes, n).Success?
    ensures forall j :: 0 <= j < n ==> InOrder(votes, j) && VoteChecked(o, header, slot, votes[j]).Success?
  {
    hide VoteChecked, InOrder;
    if n > 0 {
      CheckedVotesAscend(o, header, slot, votes, n - 1);
    }
  }

  lemma VotersGrow(votes: seq<Vote>, n: nat)
    requires 0 < n <= |votes|
    ensures Voters(votes, n) == Voters(votes, n - 1) + {votes[n - 1].member}
  {
  }

  /** The last of the votes checked comes from nobody who voted before. */
  lemma OneMoreVoter(o: Oracle, header: BlockHeader, slot: Slot, votes: seq<Vote>, n: nat)
    requires slot.committee.WellFormed() && 0 < n <= |votes| && VotesChecked(o, header, slot, votes, n).Success?
    ensures votes[n - 1].member !in Voters(votes, n - 1)
  {
    hide VotesChecked, VoteChecked, Committee.WellFormed, InOrder;
    CheckedVotesAscend(o, header, slot, votes, n);
    if votes[n - 1].member in Voters(votes, n - 1) {
      var i :| 0 <= i < n - 1 && votes[i].member == votes[n - 1].member;
      AscendingVotes(votes, i, n - 1);
    }
  }

  /** The signed weight is what the voters carry on duty: nobody counts twice. */
  lemma {:induction false} SignedIsCarried(o: Oracle, header: BlockHeader, slot: Slot, votes: seq<Vote>, n: nat)
    requires WellDrawn(slot.committee) && n <= |votes| && VotesChecked(o, header, slot, votes, n).Success?
    ensures VotesChecked(o, header, slot, votes, n).value ==
      Carried(slot.committee.ActiveAt(slot.block), Voters(votes, n))
  {
    assert slot.committee.WellFormed();
    hide WellDrawn, VoteChecked, InOrder, Committee.ActiveAt, Committee.WellFormed, DistinctAccounts, Carried;
    var active := slot.committee.ActiveAt(slot.block);
    if n == 0 {
      CarriedNothing(active);
      assert Voters(votes, 0) == {};
    } else {
      SignedIsCarried(o, header, slot, votes, n - 1);
      VoteWeight(o, header, slot, votes[n - 1]);
      ActiveFacts(slot.committee, slot.block);
      OneMoreVoter(o, header, slot, votes, n);
      VotersGrow(votes, n);
      hide Voters;
      CarriedOneMore(active, Voters(votes, n - 1),
          CommitteeMember(votes[n - 1].member, VoteChecked(o, header, slot, votes[n - 1]).value));
    }
  }

  ghost function AllVoters(c: Certificate): set<AccountId> {
    Voters(c.votes, |c.votes|)
  }

  /** A certificate that verifies: its weight is its voters' and at most the weight on duty. */
  lemma SignedWithinActive(o: Oracle, c: Certificate, header: BlockHeader, slot: Slot)
    requires WellDrawn(slot.committee) && CertificateChecked(o, c, header, slot).Success?
    ensures CertificateChecked(o, c, header, slot).value == Carried(slot.committee.ActiveAt(slot.block), AllVoters(c))
    ensures CertificateChecked(o, c, header, slot).value <= slot.committee.ActiveWeightAt(slot.block)
  {
    assert slot.committee.WellFormed();
    hide WellDrawn, VotesChecked, Committee.ActiveAt, Committee.WellFormed, Carried;
    SignedIsCarried(o, header, slot, c.votes, |c.votes|);
    CarriedUnion(slot.committee.ActiveAt(slot.block), AllVoters(c), {});
    ActiveWeight(slot.committee, slot.block);
  }

  ghost predicate SignedBlock(o: Oracle, slot: Slot, c: Certificate, header: BlockHeader, member: AccountId) {
    exists i :: 0 <= i < |c.votes| && c.votes[i].member == member && member in slot.validators
      && o.verifies(slot.validators[member].key, SigningDigest(o, header), c.votes[i].signature)
  }

  lemma VoterSigned(o: Oracle, slot: Slot, c: Certificate, header: BlockHeader, member: AccountId)
    requires slot.committee.WellFormed() && CertificateChecked(o, c, header, slot).Success? && member in AllVoters(c)
    ensures SignedBlock(o, slot, c, header, member)
  {
    hide VotesChecked, InOrder;
    var i :| 0 <= i < |c.votes| && c.votes[i].member == member;
    CheckedVotesAscend(o, header, slot, c.votes, |c.votes|);
  }

  /** Quorum intersection: certificates finalising two headers under one committee and slot
      share voters with strictly more than a third of the weight on duty, and each of
      them validly signed both. */
  lemma QuorumsIntersect(o: Oracle, slot: Slot, c: Certificate, header: BlockHeader, d: Certificate, other: BlockHeader)
    requires WellDrawn(slot.committee)
    requires CertificateChecked(o, c, header, slot).Success? && CertificateChecked(o, d, other, slot).Success?
    requires Finalises(CertificateChecked(o, c, header, slot).value, slot.committee.ActiveWeightAt(slot.block))
    requires Finalises(CertificateChecked(o, d, other, slot).value, slot.committee.ActiveWeightAt(slot.block))
    ensures 3 * Carried(slot.committee.ActiveAt(slot.block),
      AllVoters(c) * AllVoters(d)) > slot.committee.ActiveWeightAt(slot.block)
    ensures forall m :: m in AllVoters(c) * AllVoters(d) ==>
      SignedBlock(o, slot, c, header, m) && SignedBlock(o, slot, d, other, m)
  {
    assert slot.committee.WellFormed();
    hide WellDrawn, CertificateChecked, SignedBlock, Committee.ActiveAt, Committee.WellFormed,
        Committee.ActiveWeightAt, Carried, AllVoters;
    SignedWithinActive(o, c, header, slot);
    SignedWithinActive(o, d, other, slot);
    var active := slot.committee.ActiveAt(slot.block);
    CarriedUnion(active, AllVoters(c), AllVoters(d));
    CarriedUnion(active, AllVoters(c) + AllVoters(d), {});
    ActiveWeight(slot.committee, slot.block);
    forall m | m in AllVoters(c) * AllVoters(d)
      ensures SignedBlock(o, slot, c, header, m) && SignedBlock(o, slot, d, other, m)
    {
      VoterSigned(o, slot, c, header, m);
      VoterSigned(o, slot, d, other, m);
    }
  }

  /** For any drawn committee the finality test is exactly the strict two-thirds bound. */
  lemma FinalityIsExact(o: Oracle, slot: Slot, c: Certificate, header: BlockHeader)
    requires WellDrawn(slot.committee) && CertificateChecked(o, c, header, slot).Success?
    ensures var signed := CertificateChecked(o, c, header, slot).value;
      var active := slot.committee.ActiveWeightAt(slot.block);
      Finalises(signed, active) <==> 3 * signed > 2 * active
  {
    assert slot.committee.WellFormed();
    hide WellDrawn, CertificateChecked, Committee.ActiveAt, Committee.WellFormed, Committee.ActiveWeightAt,
        ExceedsTwoThirds;
    SignedWithinActive(o, c, header, slot);
    ActiveWeight(slot.committee, slot.block);
    TwoThirdsExactly(CertificateChecked(o, c, header, slot).value, slot.committee.ActiveWeightAt(slot.block));
  }

  // ----- Exactly which certificates verify

  /** What a vote needs: a seat on duty, a registered validator, a key that may be used here,
      and its signature over the header's digest. */
  predicate Qualifies(o: Oracle, header: BlockHeader, slot: Slot, vote: Vote)
    requires slot.committee.WellFormed()
  {
    && (exists m :: m in slot.committee.ActiveAt(slot.block) && m.account == vote.member)
    && vote.member in slot.validators
    && var key := slot.validators[vote.member].key;
      && (slot.allowTest || key.algorithm != InsecureTest)
      && o.verifies(key, o.blockDigest(header.chain, o.blockId(header)), vote.signature)
  }

  /** A vote counts exactly when it qualifies, and then for the weight its seat carries. */
  lemma VoteCountsExactly(o: Oracle, header: BlockHeader, slot: Slot, vote: Vote)
    requires WellDrawn(slot.committee)
    ensures VoteChecked(o, header, slot, vote).Success? <==> Qualifies(o, header, slot, vote)
    ensures VoteChecked(o, header, slot, vote).Success? ==>
      CommitteeMember(vote.member, VoteChecked(o, header, slot, vote).value) in slot.committee.ActiveAt(slot.block)
  {
    ActiveFacts(slot.committee, slot.block);
    hide DistinctAccounts, Find;
    if m :| m in slot.committee.ActiveAt(slot.block) && m.account == vote.member {
      FindFirst(slot.committee.members, m);
    }
    if VoteChecked(o, header, slot, vote).Success? {
      VoteWeight(o, header, slot, vote);
    }
  }

  /** The first `n` votes come from members in strictly ascending order, and all qualify. */
  predicate AllQualify(o: Oracle, header: BlockHeader, slot: Slot, votes: seq<Vote>, n: nat)
    requires slot.committee.WellFormed() && n <= |votes|
  {
    && (forall i :: 0 < i < n ==> RankAccount(votes[i - 1].member) < RankAccount(votes[i].member))
    && (forall i :: 0 <= i < n ==> Qualifies(o, header, slot, votes[i]))
  }

  lemma OneMoreQualifies(o: Oracle, header: BlockHeader, slot: Slot, votes: seq<Vote>, n: nat)
    requires slot.committee.WellFormed() && 0 < n <= |votes|
    ensures AllQualify(o, header, slot, votes, n) <==>
      AllQualify(o, header, slot, votes, n - 1) && InOrder(votes, n - 1) && Qualifies(o, header, slot, votes[n - 1])
  {
    hide Qualifies, Committee.WellFormed;
  }

  lemma NextCountsExactly(o: Oracle, header: BlockHeader, slot: Slot, votes: seq<Vote>, n: nat)
    requires WellDrawn(slot.committee) && n < |votes|
    ensures VotesChecked(o, header, slot, votes, n + 1).Success? <==>
      && VotesChecked(o, header, slot, votes, n).Success?
      && InOrder(votes, n) && Qualifies(o, header, slot, votes[n])
  {
    VoteCountsExactly(o, header, slot, votes[n]);
    if VotesChecked(o, header, slot, votes, n).Success? && VoteChecked(o, header, slot, votes[n]).Success? {
      VotesFit(o, header, slot, votes, n);
    }
    hide VoteChecked, Qualifies, InOrder, WellDrawn, Committee.WellFormed;
  }

  /** The sum of weights cannot overflow, so nothing else can refuse them. */
  lemma {:induction false} VotesCountExactly(o: Oracle, header: BlockHeader, slot: Slot, votes: seq<Vote>, n: nat)
    requires WellDrawn(slot.committee) && n <= |votes|
    ensures VotesChecked(o, header, slot, votes, n).Success? <==> AllQualify(o, header, slot, votes, n)
  {
    assert slot.committee.WellFormed();
    hide WellDrawn, VoteChecked, Qualifies, Committee.WellFormed;
    if n > 0 {
      VotesCountExactly(o, header, slot, votes, n - 1);
      NextCountsExactly(o, header, slot, votes, n - 1);
      OneMoreQualifies(o, header, slot, votes, n);
      hide AllQualify, VotesChecked;
    }
  }

  /** Whatever the first votes weigh, one more seat on duty still fits. */
  lemma VotesFit(o: Oracle, header: BlockHeader, slot: Slot, votes: seq<Vote>, n: nat)
    requires WellDrawn(slot.committee) && n < |votes| && VotesChecked(o, header, slot, votes, n).Success?
    requires VoteChecked(o, header, slot, votes[n]).Success?
    ensures VotesChecked(o, header, slot, votes, n).value + VoteChecked(o, header, slot, votes[n]).value < U128_LIMIT
  {
    assert slot.committee.WellFormed();
    VoteWeight(o, header, slot, votes[n]);
    ActiveFacts(slot.committee, slot.block);
    hide WellDrawn, VoteChecked, VotesChecked, Committee.ActiveAt, Committee.WellFormed, Carried, DistinctAccounts;
    SignedIsCarried(o, header, slot, votes, n);
    CarriedUnion(slot.committee.ActiveAt(slot.block), Voters(votes, n), {});
    ActiveWeight(slot.committee, slot.block);
  }

  /** For any drawn committee a certificate verifies exactly when it names the header, its
      voters strictly ascend, and every vote qualifies. */
  lemma CertificateVerifiesExactly(o: Oracle, c: Certificate, header: BlockHeader, slot: Slot)
    requires WellDrawn(slot.committee)
    ensures CertificateChecked(o, c, header, slot).Success? <==>
      c.block == o.blockId(header) && AllQualify(o, header, slot, c.votes, |c.votes|)
  {
    assert slot.committee.WellFormed();
    hide WellDrawn, VotesChecked, AllQualify, Committee.WellFormed;
    VotesCountExactly(o, header, slot, c.votes, |c.votes|);
  }
}
