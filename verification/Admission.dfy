/** Which transactions are admitted, before any fee is charged or anything changed. */
module Admission {
  import opened Prelude
  import opened Types
  import opened LedgerSpec
  import opened Custody

  /** The envelope: version 1, this chain, not expired, and on the provisional rung one of the
      three kinds a partition allows. */
  predicate Current(ctx: BlockContext, body: TxBody) {
    && body.version == 1 && body.chain == ctx.chain
    && (body.validUntilFinalized.Some? ==> ctx.finalizedHeight <= body.validUntilFinalized.value)
    && (ctx.rung == Rung.Provisional ==>
         body.kind.Transfer? || body.kind.PurseOpen? || body.kind.PurseCloseCooperative?)
  }

  /** The authority: an unrevoked device of the account, on its own lane, in the lane's next slot. */
  predicate MayAct(s: State, body: TxBody) {
    && body.account in s.accounts
    && var a := s.accounts[body.account];
      && body.device in a.devices && body.device !in a.revokedDevices
      && body.nonce.lane == a.devices[body.device].lane
      && body.nonce.sequence == if body.nonce.lane in a.lanes then a.lanes[body.nonce.lane] else 0
  }

  /** Offline, all the VAN the transaction takes fits in what the device has left of its share. */
  predicate WithinShare(s: State, ctx: BlockContext, body: TxBody) {
    ctx.rung == Rung.Provisional && Outlay(body, None) > 0 ==>
      && body.account in s.accounts && body.device in s.accounts[body.account].devices
      && var d := s.accounts[body.account].devices[body.device];
        d.nomadSpent + Outlay(body, None) <= d.nomadShare
  }

  predicate Admissible(s: State, ctx: BlockContext, body: TxBody) {
    Current(ctx, body) && MayAct(s, body) && Outlay(body, None) < U64_LIMIT && WithinShare(s, ctx, body)
  }

  lemma ExtraIsDeclared(kind: TxKind)
    ensures Extra(kind) == Declared(kind, None)
  {
  }

  /** A transaction is admitted exactly when it is current, may act, and takes no more VAN than
      fits in 64 bits and, offline, in its device's share; what is booked is what it takes. */
  lemma AdmittedExactly(s: State, ctx: BlockContext, body: TxBody)
    ensures Admitted(s, ctx, body).Success? <==> Admissible(s, ctx, body)
    ensures Admitted(s, ctx, body).Success? ==>
      Admitted(s, ctx, body).value == if ctx.rung == Rung.Provisional then Outlay(body, None) else 0
  {
    ExtraIsDeclared(body.kind);
    hide Extra, Declared;
  }

  /** So whatever is applied was admissible. */
  lemma AppliedWasAdmissible(o: Oracle, s: State, ctx: BlockContext, body: TxBody)
    requires TxApplied(o, s, ctx, body).Success?
    ensures Admissible(s, ctx, body)
  {
    hide Admitted, FeeCharged, KindApplied, NonceSpent, Admissible;
    AdmittedExactly(s, ctx, body);
  }
}
