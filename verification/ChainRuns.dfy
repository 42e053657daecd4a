/** Chains of valid blocks: what holds from any block to any later one. */
module ChainRuns {
  import opened Prelude
  import opened Types
  import opened Amounts
  import opened Purses
  import opened PurseBooks
  import opened ChannelSafety
  import opened LedgerSpec
  import opened Committees
  import opened Emission
  import opened BlockRules
  import opened Clock
  import L = Runs

  /** A block with the committee of its epoch. */
  datatype Link = Link(committee: Committee, block: Block)

  function HeaderOf(link: Link): BlockHeader {
    link.block.header.header
  }

  function SettingOf(o: Oracle, params: ChainParameters, link: Link): Setting {
    Setting(o, params, link.committee)
  }

  /** Each block is accepted on top of the one before, from `parent` and `c` to `tip` and `d`. */
  ghost predicate Extends(o: Oracle, params: ChainParameters, parent: BlockHeader, c: ChainState, links: seq<Link>,
                          tip: BlockHeader, d: ChainState)
    decreases |links|
  {
    if links == [] then tip == parent && d == c
    else
      && links[0].committee.WellFormed()
      && BlockChecked(SettingOf(o, params, links[0]), links[0].block, parent, c).Success?
      && Extends(o, params, HeaderOf(links[0]),
           BlockChecked(SettingOf(o, params, links[0]), links[0].block, parent, c).value.0,
                 links[1..], tip, d)
  }

  // ----- Headers

  lemma AcceptedHeader(g: Setting, block: Block, parent: BlockHeader, c: ChainState)
    requires g.committee.WellFormed() && BlockChecked(g, block, parent, c).Success?
    ensures var h := block.header.header;
      && h.parent == g.o.blockId(parent)
      && h.height == SaturatingAdd(parent.height, 1)
      && parent.finalizedHeight <= h.finalizedHeight <= h.height
      && parent.emittedSupply <= h.emittedSupply <= Emitted(EpochOf(h.height))
      && (h.rung == Rung.Chain ==> h.finalizedHeight == h.height)
  {
    hide ProposerChecked, BodyChecked, Executed, SealChecked, CertificateWeighed, Emitted, Committee.WellFormed;
  }

  /** Along any chain the finalised tip and the emission counter never fall, and the counter
      stays within the formula at its height. */
  lemma {:induction false} HeadersAdvance(o: Oracle, params: ChainParameters, parent: BlockHeader, c: ChainState,
                                          links: seq<Link>, tip: BlockHeader, d: ChainState)
    requires Extends(o, params, parent, c, links, tip, d)
    ensures parent.finalizedHeight <= tip.finalizedHeight
    ensures parent.emittedSupply <= tip.emittedSupply
    ensures parent.height + |links| < U64_LIMIT ==> tip.height == parent.height + |links|
    ensures links != [] ==>
      tip.finalizedHeight <= tip.height && tip.emittedSupply <= Emitted(EpochOf(tip.height)) <= MAX_SUPPLY
    decreases |links|
  {
    hide BlockChecked, Emitted, Committee.WellFormed;
    if links != [] {
      AcceptedHeader(SettingOf(o, params, links[0]), links[0].block, parent, c);
      HeadersAdvance(o, params, HeaderOf(links[0]),
                     BlockChecked(SettingOf(o, params, links[0]), links[0].block, parent, c).value.0, links[1..], tip,
                         d);
      EmittedWithinCap(EpochOf(tip.height));
    }
  }

  // ----- A chain is a run of the ledger

  function Submissions(ctx: BlockContext, txs: seq<Transaction>, n: nat): (events: seq<L.Event>)
    requires n <= |txs|
    ensures |events| == n
  {
    if n == 0 then [] else Submissions(ctx, txs, n - 1) + [L.Submit(ctx, txs[n - 1].body)]
  }

  lemma {:induction false} TransactionsAreARun(g: Setting, s: State, ctx: BlockContext, txs: seq<Transaction>, n: nat)
    requires n <= |txs| && TransactionsApplied(g, s, ctx, txs, n).Success?
    ensures TransactionsApplied(g, s, ctx, txs, n).value == L.Run(g.o, s, Submissions(ctx, txs, n))
  {
    hide TxApplied, SignatureChecked;
    if n > 0 {
      TransactionsAreARun(g, s, ctx, txs, n - 1);
      var events := Submissions(ctx, txs, n);
      assert events[..n - 1] == Submissions(ctx, txs, n - 1);
    }
  }

  /** A block's effect is housekeeping and then its transactions, as events of a run. */
  function EventsOf(block: Block): seq<L.Event> {
    [L.Housekeep(block.header.header.finalizedHeight)]
    + Submissions(ContextOf(block.header.header), block.transactions, |block.transactions|)
  }

  lemma {:induction false} RunFrom(o: Oracle, s: State, first: L.Event, rest: seq<L.Event>)
    ensures L.Run(o, s, [first] + rest) == L.Run(o, L.Next(o, s, first), rest)
    decreases |rest|
  {
    hide L.Next;
    if rest == [] {
      assert [first] + rest == [first];
      assert [first][..0] == [];
    } else {
      var n := |rest| - 1;
      assert ([first] + rest)[..n + 1] == [first] + rest[..n];
      RunFrom(o, s, first, rest[..n]);
    }
  }

  lemma BlockIsARun(g: Setting, block: Block, parent: BlockHeader, c: ChainState)
    requires g.committee.WellFormed() && BlockChecked(g, block, parent, c).Success?
    ensures BlockChecked(g, block, parent, c).value.0.ledger == L.Run(g.o, c.ledger, EventsOf(block))
  {
    hide Examined, SealChecked, CertificateWeighed, TransactionsApplied, Housekept, L.Run, Committee.WellFormed;
    var h := block.header.header;
    var prepared := Prepared(c.ledger, h.finalizedHeight).value;
    TransactionsAreARun(g, prepared, ContextOf(h), block.transactions, |block.transactions|);
    RunFrom(g.o, c.ledger, L.Housekeep(h.finalizedHeight),
        Submissions(ContextOf(h), block.transactions, |block.transactions|));
  }

  function ChainEvents(links: seq<Link>): seq<L.Event> {
    if links == [] then [] else EventsOf(links[0].block) + ChainEvents(links[1..])
  }

  lemma {:induction false} RunJoin(o: Oracle, s: State, first: seq<L.Event>, second: seq<L.Event>)
    ensures L.Run(o, s, first + second) == L.Run(o, L.Run(o, s, first), second)
    decreases |second|
  {
    hide L.Next;
    if second == [] {
      assert first + second == first;
    } else {
      var n := |second| - 1;
      assert (first + second)[..|first + second| - 1] == first + second[..n];
      RunJoin(o, s, first, second[..n]);
    }
  }

  /** A chain of valid blocks is a run of the ledger, so every theorem about runs holds of it. */
  lemma {:induction false} ChainIsARun(o: Oracle, params: ChainParameters, parent: BlockHeader, c: ChainState,
                                       links: seq<Link>, tip: BlockHeader, d: ChainState)
    requires Extends(o, params, parent, c, links, tip, d)
    ensures d.ledger == L.Run(o, c.ledger, ChainEvents(links))
    decreases |links|
  {
    hide BlockChecked, L.Run, EventsOf, Committee.WellFormed;
    if links == [] {
      NoEvents(o, c.ledger);
    } else {
      BlockIsARun(SettingOf(o, params, links[0]), links[0].block, parent, c);
      var next := BlockChecked(SettingOf(o, params, links[0]), links[0].block, parent, c).value.0;
      ChainIsARun(o, params, HeaderOf(links[0]), next, links[1..], tip, d);
      RunJoin(o, c.ledger, EventsOf(links[0].block), ChainEvents(links[1..]));
    }
  }

  lemma NoEvents(o: Oracle, s: State)
    ensures L.Run(o, s, []) == s
  {
  }

  // ----- The channel clock

  /** The same closure later on: its window stands and its claim has only risen. */
  ghost predicate Later(p: LedgerPurse, q: LedgerPurse) {
    q == p.(closing := q.closing) && p.closing.Some? && q.closing.Some? && Raised(p.closing.value, q.closing.value)
  }

  predicate ClosedIn(txs: seq<Transaction>, n: nat, id: PurseId)
    requires n <= |txs|
  {
    exists i :: 0 <= i < n && ClosedBy(txs[i].body.kind) == Some(id)
  }

  lemma {:induction false} TransactionsKeepClosures(g: Setting, s: State, ctx: BlockContext, txs: seq<Transaction>,
      n: nat)
    requires n <= |txs| && TransactionsApplied(g, s, ctx, txs, n).Success?
    requires SoundPurses(s.purses) && WindowsOpen(s.purses, ctx.finalizedHeight)
    ensures var t := TransactionsApplied(g, s, ctx, txs, n).value;
      && SoundPurses(t.purses) && WindowsOpen(t.purses, ctx.finalizedHeight)
      && forall id :: id in s.purses && s.purses[id].closing.Some? && !ClosedIn(txs, n, id) ==>
           id in t.purses && Later(s.purses[id], t.purses[id])
  {
    hide SoundPurses, WindowsOpen, TxApplied, SignatureChecked;
    if n > 0 {
      TransactionsKeepClosures(g, s, ctx, txs, n - 1);
      var before := TransactionsApplied(g, s, ctx, txs, n - 1).value;
      var body := txs[n - 1].body;
      TransactionMoves(g.o, before, ctx, body);
      var t := TxApplied(g.o, before, ctx, body).value;
      WindowsStayOpen(before.purses, t.purses, ctx.finalizedHeight, ClosedBy(body.kind));
      forall id | id in s.purses && s.purses[id].closing.Some? && !ClosedIn(txs, n, id)
        ensures id in t.purses && Later(s.purses[id], t.purses[id])
      {
        assert !ClosedIn(txs, n - 1, id);
        assert ClosedBy(body.kind) != Some(id);
        assert Moves(before.purses[id], t.purses[id], ctx.finalizedHeight);
      }
    }
  }

  /** The ledger before transaction `i` of a block built on `c`. */
  ghost function Midway(g: Setting, block: Block, c: ChainState, i: nat): Result<State, BlockError>
    requires i <= |block.transactions|
  {
    var prepared :- Prepared(c.ledger, block.header.header.finalizedHeight);
    TransactionsApplied(g, prepared, ContextOf(block.header.header), block.transactions, i)
  }

  /** Inside an accepted block every window is open whenever a transaction runs. */
  lemma WindowsOpenMidway(g: Setting, block: Block, parent: BlockHeader, c: ChainState, i: nat)
    requires g.committee.WellFormed() && BlockChecked(g, block, parent, c).Success? && SoundPurses(c.ledger.purses)
    requires i <= |block.transactions|
    ensures Midway(g, block, c, i).Success?
    ensures SoundPurses(Midway(g, block, c, i).value.purses)
    ensures WindowsOpen(Midway(g, block, c, i).value.purses, block.header.header.finalizedHeight)
  {
    hide Examined, SealChecked, CertificateWeighed, TransactionsApplied, Housekept, SoundPurses, WindowsOpen,
        Committee.WellFormed;
    var h, txs := block.header.header, block.transactions;
    HousekeepingRemovesElapsed(c.ledger, h.finalizedHeight);
    HousekeepingOpensWindows(c.ledger, h.finalizedHeight);
    var prepared := Prepared(c.ledger, h.finalizedHeight).value;
    if TransactionsApplied(g, prepared, ContextOf(h), txs, i).Failure? {
      FailedTransactionStays(g, prepared, ContextOf(h), txs, i, |txs|);
    }
    TransactionsKeepClosures(g, prepared, ContextOf(h), txs, i);
  }

  lemma MidwayStep(g: Setting, block: Block, c: ChainState, i: nat)
    requires i < |block.transactions| && Midway(g, block, c, i).Success? && Midway(g, block, c, i + 1).Success?
    ensures TxApplied(g.o, Midway(g, block, c, i).value, ContextOf(block.header.header),
      block.transactions[i].body).Success?
  {
    hide TxApplied, SignatureChecked, Housekept;
  }

  /** Every dispute in an accepted block finds its channel closing, its window open, and a
      claim smaller than its own. */
  lemma BlockDisputeLandsInTime(g: Setting, block: Block, parent: BlockHeader, c: ChainState, i: nat)
    requires g.committee.WellFormed() && BlockChecked(g, block, parent, c).Success? && SoundPurses(c.ledger.purses)
    requires i < |block.transactions| && block.transactions[i].body.kind.PurseDispute?
    ensures Midway(g, block, c, i).Success?
    ensures InTime(Midway(g, block, c, i).value.purses, block.transactions[i].body.kind,
      block.header.header.finalizedHeight)
  {
    WindowsOpenMidway(g, block, parent, c, i);
    WindowsOpenMidway(g, block, parent, c, i + 1);
    hide BlockChecked, SoundPurses, TxApplied, Midway, Committee.WellFormed, WindowsOpen, InTime;
    MidwayStep(g, block, c, i);
    DisputeLandsInTime(g.o, Midway(g, block, c, i).value, ContextOf(block.header.header), block.transactions[i].body);
  }

  // ----- Along a chain

  function HeaderBefore(parent: BlockHeader, links: seq<Link>, k: nat): BlockHeader
    requires k <= |links|
  {
    if k == 0 then parent else HeaderOf(links[k - 1])
  }

  /** The state block `k` of a chain is checked against. */
  ghost function StateBefore(o: Oracle, params: ChainParameters, parent: BlockHeader, c: ChainState, links: seq<Link>,
      k: nat): ChainState
    requires k <= |links|
    decreases k
  {
    if k == 0 || !links[0].committee.WellFormed() then c
    else
      match BlockChecked(SettingOf(o, params, links[0]), links[0].block, parent, c)
      case Failure(_) => c
      case Success((next, _)) => StateBefore(o, params, HeaderOf(links[0]), next, links[1..], k - 1)
  }

  /** Along any chain every block is accepted on a ledger whose channels are sound. */
  lemma {:induction false} ChainStaysSound(o: Oracle, params: ChainParameters, parent: BlockHeader, c: ChainState,
                                           links: seq<Link>, tip: BlockHeader, d: ChainState, k: nat)
    requires Extends(o, params, parent, c, links, tip, d) && SoundPurses(c.ledger.purses) && k <= |links|
    ensures var s := StateBefore(o, params, parent, c, links, k);
      && SoundPurses(s.ledger.purses)
      && (k == |links| ==> s == d)
      && (k < |links| ==>
           && links[k].committee.WellFormed()
           && BlockChecked(SettingOf(o, params, links[k]), links[k].block, HeaderBefore(parent, links, k), s).Success?)
    decreases k
  {
    hide BlockChecked, SoundPurses, Committee.WellFormed;
    if k > 0 {
      var g := SettingOf(o, params, links[0]);
      var next := BlockChecked(g, links[0].block, parent, c).value.0;
      BlockKeepsClosures(g, links[0].block, parent, c);
      ChainStaysSound(o, params, HeaderOf(links[0]), next, links[1..], tip, d, k - 1);
    }
  }

  lemma ChainEndsSound(o: Oracle, params: ChainParameters, parent: BlockHeader, c: ChainState,
                       links: seq<Link>, tip: BlockHeader, d: ChainState)
    requires Extends(o, params, parent, c, links, tip, d) && SoundPurses(c.ledger.purses)
    ensures SoundPurses(d.ledger.purses)
  {
    hide BlockChecked, SoundPurses, Committee.WellFormed, Extends, StateBefore;
    ChainStaysSound(o, params, parent, c, links, tip, d, |links|);
  }

  /** Every dispute accepted anywhere along a chain of valid blocks lands inside an open window. */
  lemma DisputesLandInTime(o: Oracle, params: ChainParameters, parent: BlockHeader, c: ChainState,
                           links: seq<Link>, tip: BlockHeader, d: ChainState, k: nat, i: nat)
    requires Extends(o, params, parent, c, links, tip, d) && SoundPurses(c.ledger.purses)
    requires k < |links| && i < |links[k].block.transactions| && links[k].block.transactions[i].body.kind.PurseDispute?
    ensures var g, s := SettingOf(o, params, links[k]), StateBefore(o, params, parent, c, links, k);
      && Midway(g, links[k].block, s, i).Success?
      && InTime(Midway(g, links[k].block, s, i).value.purses, links[k].block.transactions[i].body.kind,
                HeaderOf(links[k]).finalizedHeight)
  {
    hide BlockChecked, SoundPurses, Committee.WellFormed, Extends, StateBefore, Midway;
    ChainStaysSound(o, params, parent, c, links, tip, d, k);
    BlockDisputeLandsInTime(SettingOf(o, params, links[k]), links[k].block, HeaderBefore(parent, links, k),
                            StateBefore(o, params, parent, c, links, k), i);
  }

  /** One accepted block: afterwards every window left is open, and a pending closure is
      still pending unless its window had run out or the block closes it by agreement. */
  lemma BlockKeepsClosures(g: Setting, block: Block, parent: BlockHeader, c: ChainState)
    requires g.committee.WellFormed() && BlockChecked(g, block, parent, c).Success? && SoundPurses(c.ledger.purses)
    ensures var d := BlockChecked(g, block, parent, c).value.0; var tip := block.header.header.finalizedHeight;
      && SoundPurses(d.ledger.purses) && WindowsOpen(d.ledger.purses, tip)
      && forall id :: id in c.ledger.purses && c.ledger.purses[id].closing.Some? ==>
           || c.ledger.purses[id].closing.value.window.HasElapsed(tip)
           || ClosedIn(block.transactions, |block.transactions|, id)
           || (id in d.ledger.purses && Later(c.ledger.purses[id], d.ledger.purses[id]))
  {
    hide Examined, SealChecked, CertificateWeighed, TransactionsApplied, Housekept, SoundPurses, WindowsOpen, ClosedIn,
        Later,
      Committee.WellFormed;
    var h := block.header.header;
    HousekeepingRemovesElapsed(c.ledger, h.finalizedHeight);
    HousekeepingOpensWindows(c.ledger, h.finalizedHeight);
    var prepared := Prepared(c.ledger, h.finalizedHeight).value;
    TransactionsKeepClosures(g, prepared, ContextOf(h), block.transactions, |block.transactions|);
  }

  predicate ClosedAlong(links: seq<Link>, id: PurseId) {
    exists i :: 0 <= i < |links| && ClosedIn(links[i].block.transactions, |links[i].block.transactions|, id)
  }

  /** No closure settles early: along any chain a pending closure keeps its window and its
      claim only rises, until the finalised tip has moved 17 280 blocks past its opening or
      both parties' closure of it was accepted. */
  lemma {:induction false} NoEarlySettlement(o: Oracle, params: ChainParameters, parent: BlockHeader, c: ChainState,
                                             links: seq<Link>, tip: BlockHeader, d: ChainState, id: PurseId)
    requires Extends(o, params, parent, c, links, tip, d) && SoundPurses(c.ledger.purses)
    requires id in c.ledger.purses && c.ledger.purses[id].closing.Some? && !ClosedAlong(links, id)
    requires tip.finalizedHeight < c.ledger.purses[id].closing.value.window.openedAtFinalized + DISPUTE_WINDOW
    ensures id in d.ledger.purses && Later(c.ledger.purses[id], d.ledger.purses[id])
    decreases |links|
  {
    hide BlockChecked, ClosedIn, SoundPurses, WindowsOpen, Committee.WellFormed;
    if links != [] {
      var g := SettingOf(o, params, links[0]);
      var next := BlockChecked(g, links[0].block, parent, c).value.0;
      BlockKeepsClosures(g, links[0].block, parent, c);
      HeadersAdvance(o, params, HeaderOf(links[0]), next, links[1..], tip, d);
      SoundWindow(c.ledger.purses, id);
      assert !ClosedIn(links[0].block.transactions, |links[0].block.transactions|, id);
      assert !ClosedAlong(links[1..], id) by {
        forall i | 0 <= i < |links[1..]| ensures !ClosedIn(links[1..][i].block.transactions,
            |links[1..][i].block.transactions|, id) {
          assert links[1..][i] == links[i + 1];
        }
      }
      NoEarlySettlement(o, params, HeaderOf(links[0]), next, links[1..], tip, d, id);
    }
  }

  lemma SoundWindow(purses: PurseMap, id: PurseId)
    requires SoundPurses(purses) && id in purses && purses[id].closing.Some?
    ensures purses[id].closing.value.window.duration == DISPUTE_WINDOW
  {
  }
}
