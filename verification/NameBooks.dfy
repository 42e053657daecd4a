/** Commit-and-reveal name registration. */
module NameBooks {
  import opened Prelude
  import opened Types

  const MIN_REVEAL_DELAY: u64 := 10
  const COMMITMENT_EXPIRY: u64 := 12 * EPOCH_BLOCKS
  const PREMIUM_NAME_LEN: nat := 6

  datatype CommitmentRecord = CommitmentRecord(account: AccountId, committedAtFinalized: u64)

  datatype NameError =
    | CommitmentExists
    | NoSuchCommitment
    | TooSoon(committedAt: u64, now: u64)
    | CommitmentExpired(committedThen: u64, expiredNow: u64)
    | NameTaken(owner: AccountId)
    | PremiumNotAuctioned(name: Name)

  type OwnerMap = map<Name, AccountId>
  type CommitmentMap = map<Hash, CommitmentRecord>

  function Committed(commitments: CommitmentMap, commitment: Hash, account: AccountId, finalized: u64)
    : Result<CommitmentMap, NameError>
  {
    if commitment in commitments then Failure(CommitmentExists)
    else Success(commitments[commitment := CommitmentRecord(account, finalized)])
  }

  function Revealed(owners: OwnerMap, commitments: CommitmentMap, commitment: Hash, name: Name, account: AccountId,
                    finalized: u64): Result<(OwnerMap, CommitmentMap), NameError>
  {
    if |name| < PREMIUM_NAME_LEN then Failure(PremiumNotAuctioned(name))
    else if commitment !in commitments then Failure(NoSuchCommitment)
    else
      var record := commitments[commitment];
      if record.account != account then Failure(NoSuchCommitment)
      else if finalized < SaturatingAdd(record.committedAtFinalized, MIN_REVEAL_DELAY) then
        Failure(TooSoon(record.committedAtFinalized, finalized))
      else if finalized > SaturatingAdd(record.committedAtFinalized, COMMITMENT_EXPIRY) then
        Failure(CommitmentExpired(record.committedAtFinalized, finalized))
      else if name in owners then Failure(NameTaken(owners[name]))
      else Success((owners[name := account], commitments - {commitment}))
  }

  /** The commitments a housekeeping at `finalized` drops. */
  function Stale(commitments: CommitmentMap, finalized: u64): set<Hash> {
    set c | c in commitments && finalized > SaturatingAdd(commitments[c].committedAtFinalized, COMMITMENT_EXPIRY)
  }

  class NameBook {
    var owners: OwnerMap
    var commitments: CommitmentMap

    constructor (owners: OwnerMap, commitments: CommitmentMap)
      ensures this.owners == owners && this.commitments == commitments
    {
      this.owners := owners;
      this.commitments := commitments;
    }

    method Commit(commitment: Hash, account: AccountId, finalized: u64) returns (r: Outcome<NameError>)
      modifies this
      ensures owners == old(owners)
      ensures match Committed(old(commitments), commitment, account, finalized)
        case Success(c) => r == Pass && commitments == c
        case Failure(e) => r == Fail(e) && commitments == old(commitments)
    {
      if commitment in commitments {
        return Fail(CommitmentExists);
      }
      commitments := commitments[commitment := CommitmentRecord(account, finalized)];
      return Pass;
    }

    method Open(commitment: Hash, name: Name, account: AccountId, finalized: u64) returns (r: Outcome<NameError>)
      modifies this
      ensures match Revealed(old(owners), old(commitments), commitment, name, account, finalized)
        case Success((o, c)) => r == Pass && owners == o && commitments == c
        case Failure(e) => r == Fail(e) && owners == old(owners) && commitments == old(commitments)
    {
      if |name| < PREMIUM_NAME_LEN {
        return Fail(PremiumNotAuctioned(name));
      }
      if commitment !in commitments || commitments[commitment].account != account {
        return Fail(NoSuchCommitment);
      }
      var committedAt := commitments[commitment].committedAtFinalized;
      if finalized < SaturatingAdd(committedAt, MIN_REVEAL_DELAY) {
        return Fail(TooSoon(committedAt, finalized));
      }
      if finalized > SaturatingAdd(committedAt, COMMITMENT_EXPIRY) {
        return Fail(CommitmentExpired(committedAt, finalized));
      }
      if name in owners {
        return Fail(NameTaken(owners[name]));
      }
      commitments := commitments - {commitment};
      owners := owners[name := account];
      return Pass;
    }

    method PruneExpired(finalized: u64) returns (dropped: nat)
      modifies this
      ensures owners == old(owners)
      ensures commitments == old(commitments) - Stale(old(commitments), finalized)
      ensures dropped == |Stale(old(commitments), finalized)|
    {
      ghost var before := commitments;
      var stale := Stale(commitments, finalized);
      var left := stale;
      while left != {}
        invariant left <= stale && owners == old(owners)
        invariant commitments == before - (stale - left)
        decreases |left|
      {
        var c :| c in left;
        commitments := commitments - {c};
        left := left - {c};
      }
      dropped := |stale|;
    }
  }
}
