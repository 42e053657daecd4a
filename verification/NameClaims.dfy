/** Exactly when a name is revealed, and what a digest filed by somebody else prevents. */
module NameClaims {
  import opened Prelude
  import opened Types
  import opened NameBooks
  import opened LedgerSpec
  import opened LedgerInvariants
  import opened Nomad
  import opened Custody
  import opened Liveness
  import opened Admission
  import opened Acceptance
  import opened Runs
  import opened Histories

  /** The digest is filed, but by another account: the branch of a reveal that its comment
      calls unreachable. */
  predicate FiledByAnother(commitments: CommitmentMap, c: Hash, account: AccountId) {
    c in commitments && commitments[c].account != account
  }

  /** A reveal of the book succeeds exactly for a ripe commitment of one's own to a long enough
      name that is free, and is refused as uncommitted exactly when the digest is not filed
      or is filed by another. */
  lemma RevealedExactly(o: Oracle, s: State, name: Name, salt: Hash, account: AccountId, finalized: u64)
    ensures var c, r := o.nameCommitment(name, salt, account), NameRevealed(o, s, name, salt, account, finalized);
      && (r.Success? <==>
            && |name| >= PREMIUM_NAME_LEN && name !in s.owners
            && c in s.commitments && RipeFor(s.commitments[c], account, finalized))
      && (r == Failure(NameFault(NoSuchCommitment)) <==>
            |name| >= PREMIUM_NAME_LEN && (c !in s.commitments || FiledByAnother(s.commitments, c, account)))
  {
  }

  /** On a solvent ledger a reveal is accepted exactly when the transaction is admissible, its fee
      can be paid, the name is long enough and free, its own commitment is between 10 and 8640
      finalised blocks old, and the lane is not at its end. */
  lemma RevealAcceptedExactly(o: Oracle, s: State, ctx: BlockContext, body: TxBody)
    requires Solvent(s) && AllNomadSound(s) && body.kind.NameReveal?
    ensures var c := o.nameCommitment(body.kind.name, body.kind.salt, body.account);
      TxApplied(o, s, ctx, body).Success? <==>
        && Admissible(s, ctx, body)
        && body.fee <= BalanceAt(s, body.account, None)
        && |body.kind.name| >= 6 && body.kind.name !in s.owners
        && c in s.commitments && RipeFor(s.commitments[c], body.account, ctx.finalizedHeight)
        && body.nonce.sequence + 1 < U64_LIMIT
  {
    hide TxApplied, Admissible, Solvent, AllNomadSound, LeftAfterFee;
    AcceptedExactly(o, s, ctx, body);
  }

  // ----- A commitment stays filed until it expires

  /** Not a reveal by this account that opens this digest. */
  predicate LeavesFiled(o: Oracle, c: Hash, account: AccountId, body: TxBody) {
    body.account == account && body.kind.NameReveal? ==>
      o.nameCommitment(body.kind.name, body.kind.salt, account) != c
  }

  lemma KindKeepsFiled(o: Oracle, s: State, ctx: BlockContext, body: TxBody, c: Hash)
    requires KindApplied(o, s, ctx, body).Success?
    requires c in s.commitments && LeavesFiled(o, c, s.commitments[c].account, body)
    ensures var t := KindApplied(o, s, ctx, body).value; c in t.commitments && t.commitments[c] == s.commitments[c]
  {
    if body.kind.NameCommit? || body.kind.NameReveal? {
      hide NameCommitted, NameRevealed;
      match body.kind {
        case NameCommit(d) => NameWrites(o, s, d, "a", d, body.account, ctx.finalizedHeight);
        case NameReveal(name, salt) => NameWrites(o, s, c, name, salt, body.account, ctx.finalizedHeight);
      }
    } else {
      hide KindApplied;
      KindLasts(o, s, ctx, body);
    }
  }

  /** Not its owner's reveal, and no housekeeping past its expiry. */
  predicate Spares(o: Oracle, e: Event, c: Hash, filed: CommitmentRecord) {
    && (e.Submit? ==> LeavesFiled(o, c, filed.account, e.body))
    && (e.Housekeep? ==> e.finalized <= SaturatingAdd(filed.committedAtFinalized, COMMITMENT_EXPIRY))
  }

  lemma EventKeepsFiled(o: Oracle, s: State, e: Event, c: Hash)
    requires c in s.commitments && Spares(o, e, c, s.commitments[c])
    ensures c in Next(o, s, e).commitments && Next(o, s, e).commitments[c] == s.commitments[c]
  {
    hide TxApplied, KindApplied, FeeCharged, Housekept, LeavesFiled;
    if After(o, s, e).Success? {
      match e
      case Submit(ctx, body) =>
        TransactionBooks(o, s, ctx, body);
        KindKeepsFiled(o, FeeCharged(s, ctx, body).value, ctx, body, c);
      case Housekeep(finalized) => HousekeepingBooks(s, finalized);
      case ClearCounters =>
    }
  }

  lemma {:induction false} FiledStays(o: Oracle, s: State, events: seq<Event>, c: Hash)
    requires c in s.commitments && forall e :: e in events ==> Spares(o, e, c, s.commitments[c])
    ensures c in Run(o, s, events).commitments && Run(o, s, events).commitments[c] == s.commitments[c]
    decreases |events|
  {
    hide Next, Spares;
    if events != [] {
      var n := |events| - 1;
      assert forall e :: e in events[..n] ==> e in events;
      FiledStays(o, s, events[..n], c);
      assert events[n] in events;
      EventKeepsFiled(o, Run(o, s, events[..n]), events[n], c);
    }
  }

  /** Once another account has filed a name's digest, its rightful claimant can neither reveal
      nor commit, whatever happens before the digest expires or its filer opens it as a name of
      its own: the ledger answers that there is no commitment, and that there is one. */
  lemma FiledDigestBlocks(o: Oracle, s: State, ctx: BlockContext, filing: TxBody, events: seq<Event>,
                          later: BlockContext, body: TxBody, name: Name, salt: Hash)
    requires filing.kind == NameCommit(o.nameCommitment(name, salt, body.account)) && filing.account != body.account
    requires TxApplied(o, s, ctx, filing).Success?
    requires forall e :: e in events ==>
      Spares(o, e, filing.kind.commitment, CommitmentRecord(filing.account, ctx.finalizedHeight))
    requires body.kind == NameReveal(name, salt) || body.kind == filing.kind
    ensures var u := Run(o, TxApplied(o, s, ctx, filing).value, events);
      && TxApplied(o, u, later, body).Failure?
      && (Admitted(u, later, body).Success? && FeeCharged(u, later, body).Success? ==>
           TxApplied(o, u, later, body) == Failure(NameFault(
             if body.kind.NameCommit? then CommitmentExists
             else if |name| >= PREMIUM_NAME_LEN then NoSuchCommitment
             else PremiumNotAuctioned(name))))
  {
    hide Run, FeeCharged, Admitted, NonceSpent, NameCommitted, NameRevealed, Spares;
    var c := filing.kind.commitment;
    var t := TxApplied(o, s, ctx, filing).value;
    TransactionBooks(o, s, ctx, filing);
    NameWrites(o, FeeCharged(s, ctx, filing).value, c, name, salt, filing.account, ctx.finalizedHeight);
    assert t.commitments[c] == CommitmentRecord(filing.account, ctx.finalizedHeight);
    FiledStays(o, t, events, c);
    var u := Run(o, t, events);
    if FeeCharged(u, later, body).Success? {
      FeeBooks(u, later, body);
      BlockedByDigest(o, FeeCharged(u, later, body).value, name, salt, body.account, later.finalizedHeight);
    }
  }

  lemma BlockedByDigest(o: Oracle, s: State, name: Name, salt: Hash, account: AccountId, finalized: u64)
    requires FiledByAnother(s.commitments, o.nameCommitment(name, salt, account), account)
    ensures NameRevealed(o, s, name, salt, account, finalized) == Failure(NameFault(
      if |name| >= PREMIUM_NAME_LEN then NoSuchCommitment else PremiumNotAuctioned(name)))
    ensures NameCommitted(s, o.nameCommitment(name, salt, account), account, finalized) ==
      Failure(NameFault(CommitmentExists))
  {
  }

  /** Pruning past the expiry frees the digest again. */
  lemma PruningFrees(s: State, finalized: u64, c: Hash)
    requires Housekept(s, finalized).Success? && c in s.commitments
    ensures c !in Housekept(s, finalized).value.commitments
      <==> finalized > SaturatingAdd(s.commitments[c].committedAtFinalized, COMMITMENT_EXPIRY)
  {
    hide Housekept;
    HousekeepingBooks(s, finalized);
  }
}
