/** Equivocations already punished. */
module SlashingBooks {
  import opened Prelude
  import opened Types

  datatype AccountOffence = AccountOffence(account: AccountId, device: DeviceId, lane: Lane, sequence: u64)
  datatype ValidatorOffence = ValidatorOffence(validator: AccountId, height: u64)
  datatype SlashingError = AlreadyPunished

  class SlashingBook {
    var accounts: set<AccountOffence>
    var validators: set<ValidatorOffence>

    constructor (accounts: set<AccountOffence>, validators: set<ValidatorOffence>)
      ensures this.accounts == accounts && this.validators == validators
    {
      this.accounts := accounts;
      this.validators := validators;
    }

    method RecordAccount(offence: AccountOffence) returns (r: Outcome<SlashingError>)
      modifies this
      ensures r == if offence in old(accounts) then Fail(AlreadyPunished) else Pass
      ensures accounts == old(accounts) + {offence} && validators == old(validators)
    {
      if offence in accounts {
        return Fail(AlreadyPunished);
      }
      accounts := accounts + {offence};
      return Pass;
    }

    method RecordValidator(offence: ValidatorOffence) returns (r: Outcome<SlashingError>)
      modifies this
      ensures r == if offence in old(validators) then Fail(AlreadyPunished) else Pass
      ensures validators == old(validators) + {offence} && accounts == old(accounts)
    {
      if offence in validators {
        return Fail(AlreadyPunished);
      }
      validators := validators + {offence};
      return Pass;
    }
  }
}
