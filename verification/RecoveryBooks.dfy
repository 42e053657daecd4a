/** Guardian approvals waiting out their contestation window. */
module RecoveryBooks {
  import opened Prelude
  import opened Types

  const RECOVERY_WINDOW: u64 := 72 * EPOCH_BLOCKS

  datatype PendingRecovery = PendingRecovery(newRootKey: VerifyingKey, approvals: set<AccountId>, window: Window) {
    function ApprovalCount(): u32 {
      if |approvals| < U32_LIMIT then |approvals| else U32_LIMIT - 1
    }
  }

  datatype RecoveryError =
    | NotAGuardian(guardian: AccountId)
    | NoGuardians
    | AlreadyApproved(approver: AccountId)
    | ConflictingKey
    | NotRecovering
    | RecoveryWindowOpen(finalizedHeight: u64, closesAt: u64)
    | BelowThreshold(approvals: u32, threshold: u32)

  type RecoveryMap = map<AccountId, PendingRecovery>

  function Approved(pending: RecoveryMap, target: AccountId, key: VerifyingKey, guardian: AccountId,
                    guardians: set<AccountId>, window: Window): Result<RecoveryMap, RecoveryError>
  {
    if guardians == {} then Failure(NoGuardians)
    else if guardian !in guardians then Failure(NotAGuardian(guardian))
    else if target in pending then
      var existing := pending[target];
      if existing.newRootKey != key then Failure(ConflictingKey)
      else if guardian in existing.approvals then Failure(AlreadyApproved(guardian))
      else Success(pending[target := existing.(approvals := existing.approvals + {guardian})])
    else Success(pending[target := PendingRecovery(key, {guardian}, window)])
  }

  function Cancelled(pending: RecoveryMap, target: AccountId): Result<RecoveryMap, RecoveryError> {
    if target in pending then Success(pending - {target}) else Failure(NotRecovering)
  }

  function Finalised(pending: RecoveryMap, target: AccountId, threshold: u32, finalized: u64)
    : Result<(RecoveryMap, VerifyingKey), RecoveryError>
  {
    if target !in pending then Failure(NotRecovering)
    else
      var p := pending[target];
      if p.ApprovalCount() < threshold then Failure(BelowThreshold(p.ApprovalCount(), threshold))
      else if !p.window.HasElapsed(finalized) then
        Failure(RecoveryWindowOpen(finalized, SaturatingAdd(p.window.openedAtFinalized, p.window.duration)))
      else Success((pending - {target}, p.newRootKey))
  }

  class RecoveryBook {
    var pending: RecoveryMap

    constructor (pending: RecoveryMap)
      ensures this.pending == pending
    {
      this.pending := pending;
    }

    method Approve(target: AccountId, key: VerifyingKey, guardian: AccountId, guardians: set<AccountId>, window: Window)
      returns (r: Outcome<RecoveryError>)
      modifies this
      ensures match Approved(old(pending), target, key, guardian, guardians, window)
        case Success(p) => r == Pass && pending == p
        case Failure(e) => r == Fail(e) && pending == old(pending)
    {
      if guardians == {} {
        return Fail(NoGuardians);
      }
      if guardian !in guardians {
        return Fail(NotAGuardian(guardian));
      }
      if target in pending {
        var existing := pending[target];
        if existing.newRootKey != key {
          return Fail(ConflictingKey);
        }
        if guardian in existing.approvals {
          return Fail(AlreadyApproved(guardian));
        }
        pending := pending[target := existing.(approvals := existing.approvals + {guardian})];
      } else {
        pending := pending[target := PendingRecovery(key, {guardian}, window)];
      }
      return Pass;
    }

    method Cancel(target: AccountId) returns (r: Outcome<RecoveryError>)
      modifies this
      ensures match Cancelled(old(pending), target)
        case Success(p) => r == Pass && pending == p
        case Failure(e) => r == Fail(e) && pending == old(pending)
    {
      if target !in pending {
        return Fail(NotRecovering);
      }
      pending := pending - {target};
      return Pass;
    }

    method Finalise(target: AccountId, threshold: u32, finalized: u64) returns (r: Result<VerifyingKey, RecoveryError>)
      modifies this
      ensures match Finalised(old(pending), target, threshold, finalized)
        case Success((p, key)) => r == Success(key) && pending == p
        case Failure(e) => r == Failure(e) && pending == old(pending)
    {
      if target !in pending {
        return Failure(NotRecovering);
      }
      var p := pending[target];
      if p.ApprovalCount() < threshold {
        return Failure(BelowThreshold(p.ApprovalCount(), threshold));
      }
      if !p.window.HasElapsed(finalized) {
        return Failure(RecoveryWindowOpen(finalized, SaturatingAdd(p.window.openedAtFinalized, p.window.duration)));
      }
      pending := pending - {target};
      return Success(p.newRootKey);
    }
  }
}
