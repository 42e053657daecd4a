/** The only ways a transaction on a solvent ledger can be refused for overflow. */
module Overflow {
  import opened Prelude
  import opened Types
  import opened Amounts
  import opened Accounts
  import opened PurseBooks
  import opened AssetRegistries
  import opened RecoveryBooks
  import opened SlashingBooks
  import opened LedgerSpec
  import opened Conservation
  import opened LedgerInvariants
  import opened Standing
  import opened Nomad

  /** Numbers the sender chose too large, a lane counter at its end, or a margin so large that
      paying it out beside the whole supply does not fit. */
  ghost predicate AsksTooMuch(s: State, body: TxBody) {
    || body.fee + Extra(body.kind) >= U64_LIMIT
    || (body.kind.DeviceAdd? &&
         (body.kind.lane + 1 >= U32_LIMIT
          || Shares(AccountAt(s.accounts, body.account).devices) + body.kind.nomadShare >= U64_LIMIT))
    || (body.kind.RecoveryFinalise? && AccountAt(s.accounts, body.kind.account).nextLane + 1 >= U32_LIMIT)
    || (body.kind.AccountEquivocation? &&
         AccountAt(s.accounts, body.kind.first.body.account).nomadMargin + MAX_SUPPLY >= U64_LIMIT)
  }

  lemma PunishmentFits(o: Oracle, s: State, device: DeviceId, first: Transaction, second: Transaction,
      denouncer: AccountId)
    requires Value(s, None) + AccountAt(s.accounts, first.body.account).nomadMargin < U64_LIMIT
    ensures AccountPunished(o, s, device, first, second, denouncer) != Failure(ArithmeticOverflow)
  {
    var accused := first.body.account;
    if accused in s.accounts {
      hide CheckAccountEquivocation, PenaltyPaid, SplitPenalty, Value;
      var a := s.accounts[accused];
      var offence := AccountOffence(accused, device, first.body.nonce.lane, first.body.nonce.sequence);
      EditedValue(s, accused, a.(nomadMargin := 0), None);
      var seized := s.(accountOffences := s.accountOffences + {offence},
          accounts := s.accounts[accused := a.(nomadMargin := 0)]);
      SameEntriesValue(s.(accounts := s.accounts[accused := a.(nomadMargin := 0)]), seized, None);
      PenaltyFits(seized, a.nomadMargin, denouncer);
    }
  }

  lemma ValidatorPunishmentFits(o: Oracle, s: State, v: AccountId, first: SignedHeader, second: SignedHeader,
      denouncer: AccountId)
    requires Value(s, None) < U64_LIMIT
    ensures ValidatorPunished(o, s, v, first, second, denouncer) != Failure(ArithmeticOverflow)
  {
    if v in s.accounts {
      hide CheckValidatorEquivocation, PenaltyPaid, SplitPenalty, Value;
      var a := s.accounts[v];
      var offence := ValidatorOffence(v, first.header.height);
      ReplacedValue(s, v, a.(bonded := 0), None);
      var seized := s.(validatorOffences := s.validatorOffences + {offence},
          accounts := s.accounts[v := a.(bonded := 0)]);
      SameEntriesValue(s.(accounts := s.accounts[v := a.(bonded := 0)]), seized, None);
      PenaltyFits(seized, a.bonded, denouncer);
    }
  }

  lemma OpenNeverOverflows(s: State, id: PurseId, payer: AccountId, payee: AccountId, asset: Asset, deposit: Amount,
                           root: Hash, trancheValue: Amount, expiry: u64)
    ensures PurseOpened(s, id, payer, payee, asset, deposit, root, trancheValue, expiry) != Failure(ArithmeticOverflow)
  {
  }

  lemma BooksNeverOverflow(o: Oracle, s: State, ctx: BlockContext, body: TxBody)
    requires IsRecordKind(body.kind) || body.kind.PurseCloseUnilateral? || body.kind.PurseDispute?
      || body.kind.AssetBurn?
    ensures KindApplied(o, s, ctx, body) != Failure(ArithmeticOverflow)
  {
    hide Created, Burned, Closing, Disputed;
  }

  lemma SettingsNeverOverflow(o: Oracle, s: State, ctx: BlockContext, body: TxBody)
    requires body.kind.NomadSet? || body.kind.DeviceAdd? || body.kind.DeviceRevoke? || body.kind.GuardianSet?
      || body.kind.RecoveryFinalise?
    requires AllNomadSound(s) && !AsksTooMuch(s, body)
    ensures KindApplied(o, s, ctx, body) != Failure(ArithmeticOverflow)
  {
    hide Finalised, Shares;
    assert NomadSound(AccountAt(s.accounts, body.account));
  }

  lemma KindNeverOverflows(o: Oracle, s: State, ctx: BlockContext, body: TxBody)
    requires SuppliesAgree(s) && WithinCap(s) && AllNomadSound(s) && !AsksTooMuch(s, body)
    ensures KindApplied(o, s, ctx, body) != Failure(ArithmeticOverflow)
  {
    hide Transferred, NomadDeclared, DeviceAdded, DeviceDropped, Bonded, Unbonded, PurseOpened, PurseClosed,
      PurseClosing, PurseContested, AssetMade, AssetMinted, AssetBurned, NameCommitted, NameRevealed, GuardiansSet,
      RecoveryApproved, RecoveryDropped, RecoveryCompleted, AccountPunished, ValidatorPunished, Value, AllNomadSound;
    forall asset ensures Value(s, asset) < U64_LIMIT {
      if asset.Some? {
        assert Value(s, Some(asset.value)) == SupplyOf(s, asset.value);
      }
    }
    var id := body.account;
    match body.kind
    case Transfer(to, asset, amount) => TransferNeverOverflows(s, id, to, asset, amount);
    case Bond(amount, _) => BondNeverOverflows(s, id, amount);
    case Unbond(amount) => BondNeverOverflows(s, id, amount);
    case PurseOpen(counterparty, asset, deposit, root, trancheValue, expiry) =>
      OpenNeverOverflows(s, o.txId(body), id, counterparty, asset, deposit, root, trancheValue, expiry);
    case PurseCloseCooperative(purse, toPayer, toPayee, _) => CloseNeverOverflows(s, purse, id, toPayer, toPayee);
    case AssetMint(asset, to, amount) => MintNeverOverflows(s, id, asset, to, amount);
    case AccountEquivocation(device, first, second) => PunishmentFits(o, s, device, first, second, id);
    case ValidatorEquivocation(v, first, second) => ValidatorPunishmentFits(o, s, v, first, second, id);
    case NomadSet(_, _) => SettingsNeverOverflow(o, s, ctx, body);
    case DeviceAdd(_, _, _) => SettingsNeverOverflow(o, s, ctx, body);
    case DeviceRevoke(_) => SettingsNeverOverflow(o, s, ctx, body);
    case GuardianSet(_, _) => SettingsNeverOverflow(o, s, ctx, body);
    case RecoveryFinalise(_) => SettingsNeverOverflow(o, s, ctx, body);
    case _ => BooksNeverOverflow(o, s, ctx, body);
  }

  /** The state after the fee is as sound as before, and asks no more. */
  lemma FeeStaysSound(s: State, ctx: BlockContext, body: TxBody)
    requires SuppliesAgree(s) && WithinCap(s) && AllNomadSound(s) && FeeCharged(s, ctx, body).Success?
    ensures var t := FeeCharged(s, ctx, body).value;
      && SuppliesAgree(t) && WithinCap(t) && AllNomadSound(t)
      && (AsksTooMuch(t, body) <==> AsksTooMuch(s, body))
  {
    var t := FeeCharged(s, ctx, body).value;
    assert AllNomadSound(t) && (AsksTooMuch(t, body) <==> AsksTooMuch(s, body)) by {
      hide FeeCharged, AllNomadSound, SuppliesAgree, WithinCap;
      FeeStanding(s, ctx, body);
      StandingNomad(s, t);
      if body.kind.AccountEquivocation? {
        FeeKeepsMargins(s, ctx, body, body.kind.first.body.account);
      }
      assert SameStanding(AccountAt(s.accounts, body.account), AccountAt(t.accounts, body.account));
      if body.kind.RecoveryFinalise? {
        assert SameStanding(AccountAt(s.accounts, body.kind.account), AccountAt(t.accounts, body.kind.account));
      }
    }
    assert SuppliesAgree(t) && WithinCap(t) by {
      hide FeeCharged, Value, AllNomadSound, AsksTooMuch;
      FeeKeepsRecords(s, ctx, body);
      FeeValue(s, ctx, body, None);
      forall id: AssetId ensures Value(t, Some(id)) == SupplyOf(t, id) {
        FeeValue(s, ctx, body, Some(id));
      }
    }
  }

  /** Booking an offline spend never overflows: the counter stays within the share. */
  lemma NonceNeverOverflows(o: Oracle, s: State, ctx: BlockContext, body: TxBody)
    requires AllNomadSound(s) && Admitted(s, ctx, body).Success?
    requires FeeCharged(s, ctx, body).Success? && KindApplied(o, FeeCharged(s, ctx, body).value, ctx, body).Success?
    ensures NonceSpent(KindApplied(o, FeeCharged(s, ctx, body).value, ctx, body).value, body,
      Admitted(s, ctx, body).value)
              != Failure(ArithmeticOverflow)
  {
    hide KindApplied, FeeCharged, Admitted;
    var charged := FeeCharged(s, ctx, body).value;
    var changed := KindApplied(o, charged, ctx, body).value;
    AdmittedNomad(s, ctx, body);
    if ctx.rung == Provisional {
      FeeStanding(s, ctx, body);
      KindStanding(o, charged, ctx, body);
      assert SameStanding(AccountAt(s.accounts, body.account), AccountAt(charged.accounts, body.account));
      assert SameStanding(AccountAt(charged.accounts, body.account), AccountAt(changed.accounts, body.account));
      assert NomadSound(AccountAt(s.accounts, body.account));
    }
  }

  lemma ChecksNeverOverflow(s: State, ctx: BlockContext, body: TxBody)
    ensures Admitted(s, ctx, body) == Failure(ArithmeticOverflow) ==> body.fee + Extra(body.kind) >= U64_LIMIT
  {
  }

  /** No balance and no counter of a solvent ledger overflows: a transaction refused for
      overflow asked for too much by itself. */
  lemma NothingOverflows(o: Oracle, s: State, ctx: BlockContext, body: TxBody)
    requires Solvent(s) && AllNomadSound(s)
    requires TxApplied(o, s, ctx, body) == Failure(ArithmeticOverflow)
    ensures AsksTooMuch(s, body)
  {
    hide KindApplied, FeeCharged, NonceSpent, Admitted, Value, AllNomadSound;
    FeeNeverOverflows(s, ctx, body);
    ChecksNeverOverflow(s, ctx, body);
    if !AsksTooMuch(s, body) && FeeCharged(s, ctx, body).Success? {
      FeeStaysSound(s, ctx, body);
      KindNeverOverflows(o, FeeCharged(s, ctx, body).value, ctx, body);
      if Admitted(s, ctx, body).Success? && KindApplied(o, FeeCharged(s, ctx, body).value, ctx, body).Success? {
        NonceNeverOverflows(o, s, ctx, body);
      }
    }
  }
}
