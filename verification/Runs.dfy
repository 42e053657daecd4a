/**
  Whole runs of a ledger. An event that is refused leaves the ledger as it was, so a run
  is any sequence of attempted events.
 */
module Runs {
  import opened Prelude
  import opened Types
  import opened LedgerSpec
  import opened Conservation
  import opened HousekeepingValue

  datatype Event =
    | Submit(ctx: BlockContext, body: TxBody)
    | Housekeep(finalized: u64)
    | ClearCounters

  ghost function After(o: Oracle, s: State, e: Event): Result<State, StateError> {
    match e
    case Submit(ctx, body) => TxApplied(o, s, ctx, body)
    case Housekeep(finalized) => Housekept(s, finalized)
    case ClearCounters => Success(CountersCleared(s))
  }

  ghost function Next(o: Oracle, s: State, e: Event): State {
    match After(o, s, e)
    case Success(t) => t
    case Failure(_) => s
  }

  ghost function Run(o: Oracle, s: State, events: seq<Event>): State
    decreases |events|
  {
    if events == [] then s
    else Next(o, Run(o, s, events[..|events| - 1]), events[|events| - 1])
  }

  /** What one event adds to the value of an asset. */
  ghost function EventFlow(o: Oracle, s: State, e: Event, asset: Asset): int {
    if e.Submit? && After(o, s, e).Success? then Flow(s, e.body, asset) else 0
  }

  ghost function RunFlow(o: Oracle, s: State, events: seq<Event>, asset: Asset): int
    decreases |events|
  {
    if events == [] then 0
    else
      var n := |events| - 1;
      RunFlow(o, s, events[..n], asset) + EventFlow(o, Run(o, s, events[..n]), events[n], asset)
  }

  lemma EventConserves(o: Oracle, s: State, e: Event, asset: Asset)
    ensures Value(Next(o, s, e), asset) == Value(s, asset) + EventFlow(o, s, e, asset)
  {
    hide TxApplied, Housekept, CountersCleared, Value;
    if After(o, s, e).Success? {
      match e
      case Submit(ctx, body) => TransactionConserves(o, s, ctx, body, asset);
      case Housekeep(finalized) => HousekeepingConserves(s, finalized, asset);
      case ClearCounters => ClearingConserves(s, asset);
    }
  }

  /** Over any run, the value of every asset changes by the mints, burns and seized margins
      of the accepted transactions, and by nothing else. */
  lemma {:induction false} RunConserves(o: Oracle, s: State, events: seq<Event>, asset: Asset)
    ensures Value(Run(o, s, events), asset) == Value(s, asset) + RunFlow(o, s, events, asset)
    decreases |events|
  {
    hide Next, EventFlow, Value;
    if events != [] {
      var n := |events| - 1;
      RunConserves(o, s, events[..n], asset);
      EventConserves(o, Run(o, s, events[..n]), events[n], asset);
    }
  }

  /** No accepted conviction of the run pays out a margin. */
  ghost predicate SeizesNoMargin(o: Oracle, s: State, events: seq<Event>)
    decreases |events|
  {
    events != [] ==>
      var n := |events| - 1;
      SeizesNoMargin(o, s, events[..n]) && EventFlow(o, Run(o, s, events[..n]), events[n], None) == 0
  }

  /** VAN is conserved over every run in which no conviction seizes a margin. */
  lemma {:induction false} VanIsConserved(o: Oracle, s: State, events: seq<Event>)
    requires SeizesNoMargin(o, s, events)
    ensures Value(Run(o, s, events), None) == Value(s, None)
    decreases |events|
  {
    hide Next, EventFlow, Value;
    if events != [] {
      var n := |events| - 1;
      VanIsConserved(o, s, events[..n]);
      EventConserves(o, Run(o, s, events[..n]), events[n], None);
    }
  }

  /** One transaction conserves VAN exactly when it does not pay out a margin: the condition a
      caller can check is the accused account's `nomadMargin`. */
  lemma ConservesVanExactly(o: Oracle, s: State, ctx: BlockContext, body: TxBody)
    requires TxApplied(o, s, ctx, body).Success?
    ensures Value(TxApplied(o, s, ctx, body).value, None) == Value(s, None) <==>
              !(body.kind.AccountEquivocation? && AccountAt(s.accounts, body.kind.first.body.account).nomadMargin > 0)
  {
    hide TxApplied, Value;
    TransactionConserves(o, s, ctx, body, None);
  }
}
