/** What an accepted block's transactions were signed with, and what a producer leaves out. */
module Vouchers {
  import opened Types
  import opened LedgerSpec
  import opened BlockRules
  import opened Committees
  import opened ChainRuns
  import opened Proposals

  // ----- Every transaction of an accepted block is signed

  /** The account has this device registered, whose key may be used here and signed this. */
  predicate Vouched(g: Setting, s: State, tx: Transaction) {
    && tx.body.account in s.accounts && tx.body.device in s.accounts[tx.body.account].devices
    && var key := s.accounts[tx.body.account].devices[tx.body.device].key;
      && (g.params.allowTest || key.algorithm != InsecureTest)
      && g.o.deviceId(key) == tx.body.device
      && g.o.verifies(key, g.o.txDigest(tx.body.chain, g.o.txId(tx.body)), tx.signature)
  }

  /** The validator's step succeeds exactly for a vouched transaction that the ledger accepts. */
  lemma StepExactly(g: Setting, s: State, ctx: BlockContext, tx: Transaction, index: nat)
    ensures TransactionStep(g, s, ctx, tx, index).Success? <==>
      Vouched(g, s, tx) && TxApplied(g.o, s, ctx, tx.body).Success?
    ensures TransactionStep(g, s, ctx, tx, index).Success? ==>
      TransactionStep(g, s, ctx, tx, index).value == TxApplied(g.o, s, ctx, tx.body).value
  {
    hide TxApplied;
  }

  ghost predicate VouchedThroughout(g: Setting, s: State, ctx: BlockContext, txs: seq<Transaction>, n: nat)
    requires n <= |txs|
  {
    forall i: nat :: i < n ==>
      && TransactionsApplied(g, s, ctx, txs, i).Success?
      && Vouched(g, TransactionsApplied(g, s, ctx, txs, i).value, txs[i])
      && TxApplied(g.o, TransactionsApplied(g, s, ctx, txs, i).value, ctx, txs[i].body).Success?
  }

  /** Transactions apply in a row exactly when each is vouched for, and accepted, in the state
      that those before it lead to. */
  lemma {:induction false} RowExactly(g: Setting, s: State, ctx: BlockContext, txs: seq<Transaction>, n: nat)
    requires n <= |txs|
    ensures TransactionsApplied(g, s, ctx, txs, n).Success? <==> VouchedThroughout(g, s, ctx, txs, n)
  {
    hide TransactionStep, Vouched, TxApplied;
    if n > 0 {
      RowExactly(g, s, ctx, txs, n - 1);
      assert VouchedThroughout(g, s, ctx, txs, n) ==> VouchedThroughout(g, s, ctx, txs, n - 1);
      if TransactionsApplied(g, s, ctx, txs, n - 1).Success? {
        StepExactly(g, TransactionsApplied(g, s, ctx, txs, n - 1).value, ctx, txs[n - 1], n - 1);
      }
    }
  }

  /** In an accepted block every transaction is signed by a key that the account has registered
      for the device it names, in the very ledger the transaction runs on. */
  lemma BlocksAreSigned(g: Setting, block: Block, parent: BlockHeader, c: ChainState, i: nat)
    requires g.committee.WellFormed() && BlockChecked(g, block, parent, c).Success? && i < |block.transactions|
    ensures Midway(g, block, c, i).Success? && Vouched(g, Midway(g, block, c, i).value, block.transactions[i])
  {
    hide Examined, SealChecked, CertificateWeighed, TransactionsApplied, Housekept, Vouched, TxApplied;
    var h := block.header.header;
    var prepared := Prepared(c.ledger, h.finalizedHeight).value;
    RowExactly(g, prepared, ContextOf(h), block.transactions, |block.transactions|);
  }

  lemma {:induction false} EachIsAccepted(o: Oracle, params: ChainParameters, parent: BlockHeader, c: ChainState,
                                          links: seq<Link>, tip: BlockHeader, d: ChainState, k: nat)
    requires Extends(o, params, parent, c, links, tip, d) && k < |links|
    ensures links[k].committee.WellFormed()
    ensures BlockChecked(SettingOf(o, params, links[k]), links[k].block, HeaderBefore(parent, links, k),
              StateBefore(o, params, parent, c, links, k)).Success?
    decreases k
  {
    hide BlockChecked, Committee.WellFormed;
    if k > 0 {
      var next := BlockChecked(SettingOf(o, params, links[0]), links[0].block, parent, c).value.0;
      EachIsAccepted(o, params, HeaderOf(links[0]), next, links[1..], tip, d, k - 1);
    }
  }

  /** And so it is everywhere along a chain. */
  lemma ChainsAreSigned(o: Oracle, params: ChainParameters, parent: BlockHeader, c: ChainState,
                        links: seq<Link>, tip: BlockHeader, d: ChainState, k: nat, i: nat)
    requires Extends(o, params, parent, c, links, tip, d)
    requires k < |links| && i < |links[k].block.transactions|
    ensures var g, s := SettingOf(o, params, links[k]), StateBefore(o, params, parent, c, links, k);
      && Midway(g, links[k].block, s, i).Success?
      && Vouched(g, Midway(g, links[k].block, s, i).value, links[k].block.transactions[i])
  {
    hide BlockChecked, Extends, StateBefore, Midway, Vouched, Committee.WellFormed;
    EachIsAccepted(o, params, parent, c, links, tip, d, k);
    BlocksAreSigned(SettingOf(o, params, links[k]), links[k].block, HeaderBefore(parent, links, k),
                    StateBefore(o, params, parent, c, links, k), i);
  }

  // ----- What a producer leaves out

  /** A candidate belongs in the block: its kind is allowed on this rung, it is vouched for, and
      the ledger accepts it. */
  ghost predicate Includable(g: Setting, s: State, ctx: BlockContext, tx: Transaction) {
    && (ctx.rung == Rung.Provisional ==>
         tx.body.kind.Transfer? || tx.body.kind.PurseOpen? || tx.body.kind.PurseCloseCooperative?)
    && Vouched(g, s, tx) && TxApplied(g.o, s, ctx, tx.body).Success?
  }

  /** The reason given is the first thing wrong with the candidate. */
  ghost predicate Fits(g: Setting, s: State, ctx: BlockContext, tx: Transaction, reason: DeclineReason) {
    var grammatical := ctx.rung == Rung.Provisional ==>
      tx.body.kind.Transfer? || tx.body.kind.PurseOpen? || tx.body.kind.PurseCloseCooperative?;
    if !grammatical then reason == Forbidden
    else if tx.body.account !in s.accounts then reason == NoAccount
    else if tx.body.device !in s.accounts[tx.body.account].devices then reason == NoDevice
    else if !Vouched(g, s, tx) then reason == Unsigned
    else TxApplied(g.o, s, ctx, tx.body).Failure? && reason == Rejected(TxApplied(g.o, s, ctx, tx.body).error)
  }

  /** One candidate is included exactly when it belongs there, and otherwise declined for the
      first thing wrong with it. */
  lemma IncludedExactly(g: Setting, d: Draft, ctx: BlockContext, tx: Transaction, index: nat)
    ensures var e := Considered(g, d, ctx, tx, index);
      if Includable(g, d.working, ctx, tx) then
        e == Draft(TxApplied(g.o, d.working, ctx, tx.body).value, d.included + [tx], d.declined)
      else
        && e.working == d.working && e.included == d.included
        && |e.declined| == |d.declined| + 1 && e.declined[..|d.declined|] == d.declined
        && e.declined[|d.declined|].index == index
        && Fits(g, d.working, ctx, tx, e.declined[|d.declined|].reason)
  {
    hide TxApplied;
  }

  ghost predicate DeclinedAt(declined: seq<Declined>, position: nat) {
    exists i :: 0 <= i < |declined| && declined[i].index == position
  }

  /** Over the whole list: a position is declined exactly when its candidate did not belong in
      the block at that point, on the ledger that those included before it led to. */
  lemma {:induction false} DeclinedExactly(g: Setting, s: State, ctx: BlockContext, candidates: seq<Transaction>,
      n: nat, position: nat)
    requires position < n <= |candidates|
    ensures DeclinedAt(Drafted(g, s, ctx, candidates, n).declined, position) <==>
      !Includable(g, Drafted(g, s, ctx, candidates, position).working, ctx, candidates[position])
    ensures var declined := Drafted(g, s, ctx, candidates, n).declined;
      forall i :: 0 <= i < |declined| && declined[i].index == position ==>
        Fits(g, Drafted(g, s, ctx, candidates, position).working, ctx, candidates[position], declined[i].reason)
  {
    hide Considered, Includable, Partitioned, Fits;
    var before, after := Drafted(g, s, ctx, candidates, n - 1), Drafted(g, s, ctx, candidates, n);
    IncludedExactly(g, before, ctx, candidates[n - 1], n - 1);
    if position < n - 1 {
      DeclinedExactly(g, s, ctx, candidates, n - 1, position);
      if i :| 0 <= i < |before.declined| && before.declined[i].index == position {
        assert after.declined[i] == before.declined[i];
      }
    } else {
      NotYetDeclined(g, s, ctx, candidates, n - 1);
    }
  }

  lemma NotYetDeclined(g: Setting, s: State, ctx: BlockContext, candidates: seq<Transaction>, n: nat)
    requires n <= |candidates|
    ensures !DeclinedAt(Drafted(g, s, ctx, candidates, n).declined, n)
  {
    hide Drafted;
    CandidatesArePartitioned(g, s, ctx, candidates, n);
  }

  /** A block that was built declines exactly the candidates that did not belong in it. */
  lemma BuiltDeclinesExactly(g: Setting, inputs: ProposalInputs, candidates: seq<Transaction>, c: ChainState,
      signer: Signer, position: nat)
    requires g.committee.WellFormed() && Built(g, inputs, candidates, c, signer).Success? && position < |candidates|
    ensures Housekept(c.ledger, TipOf(inputs)).Success?
    ensures var s, ctx := Housekept(c.ledger, TipOf(inputs)).value, ContextFor(g, inputs);
      DeclinedAt(Built(g, inputs, candidates, c, signer).value.0.declined, position) <==>
        !Includable(g, Drafted(g, s, ctx, candidates, position).working, ctx, candidates[position])
    ensures var s, ctx := Housekept(c.ledger, TipOf(inputs)).value, ContextFor(g, inputs);
      forall d :: d in Built(g, inputs, candidates, c, signer).value.0.declined && d.index == position ==>
        Fits(g, Drafted(g, s, ctx, candidates, position).working, ctx, candidates[position], d.reason)
  {
    hide InputsChecked, HeaderFor, Drafted, Housekept, Includable, DeclinedAt, Fits;
    var s, ctx := Housekept(c.ledger, TipOf(inputs)).value, ContextFor(g, inputs);
    DeclinedExactly(g, s, ctx, candidates, |candidates|, position);
  }
}
