/** Fee and penalty splits: where every unit goes. */
module Amounts {
  import opened Prelude
  import opened Types

  const ULF_PER_VAN: u64 := 1_000_000_000
  const MAX_SUPPLY: u64 := 100_000_000 * ULF_PER_VAN

  const PROVIDER_WEIGHT: u64 := 70
  const POT_WEIGHT: u64 := 20
  const BURN_WEIGHT: u64 := 10
  const TOTAL_WEIGHT: u64 := PROVIDER_WEIGHT + POT_WEIGHT + BURN_WEIGHT

  /** `amount * numerator / denominator` rounded down; the product is 128 bits wide. */
  function MulDivFloor(amount: Amount, numerator: u64, denominator: u64): Option<Amount> {
    if denominator == 0 then None
    else
      var quotient := amount * numerator / denominator;
      if 0 <= quotient < U64_LIMIT then Some(quotient) else None
  }

  datatype FeeSplit = FeeSplit(provider: Amount, pot: Amount, burn: Amount)

  /** Provider and pot are rounded down; the burn takes the remainder. */
  function SplitFee(fee: Amount): FeeSplit {
    var provider := MulDivFloor(fee, PROVIDER_WEIGHT, TOTAL_WEIGHT).GetOr(0);
    var pot := MulDivFloor(fee, POT_WEIGHT, TOTAL_WEIGHT).GetOr(0);
    var paid := CheckedAdd(provider, pot).GetOr(0);
    FeeSplit(provider, pot, CheckedSub(fee, paid).GetOr(0))
  }

  /** The three parts are the fee, and burn and pot together are at least 30% of it. */
  lemma FeeIsConserved(fee: Amount)
    ensures SplitFee(fee).provider + SplitFee(fee).pot + SplitFee(fee).burn == fee
    ensures 3 * fee <= 10 * (SplitFee(fee).burn + SplitFee(fee).pot)
    ensures fee <= 10 * SplitFee(fee).burn
  {
    var s := SplitFee(fee);
    assert s.provider == fee * 70 / 100 && s.pot == fee * 20 / 100;
  }

  /** Seventy hundredths go to the provider and twenty to the pot, each rounded down. */
  lemma FeeShares(fee: Amount)
    ensures 100 * SplitFee(fee).provider <= 70 * fee < 100 * (SplitFee(fee).provider + 1)
    ensures 100 * SplitFee(fee).pot <= 20 * fee < 100 * (SplitFee(fee).pot + 1)
    ensures SplitFee(fee).provider == 70 * fee / 100 && SplitFee(fee).pot == 20 * fee / 100
    ensures SplitFee(fee).burn == fee - SplitFee(fee).provider - SplitFee(fee).pot
  {
  }

  datatype Penalty = Penalty(seized: Amount, toDenouncer: Amount, burned: Amount)

  /** Half to the denouncer, rounded down; the rest to the fire. */
  function SplitPenalty(seized: Amount): Penalty {
    var toDenouncer := MulDivFloor(seized, 1, 2).GetOr(0);
    Penalty(seized, toDenouncer, CheckedSub(seized, toDenouncer).GetOr(0))
  }

  lemma PenaltyIsConserved(seized: Amount)
    ensures SplitPenalty(seized) == Penalty(seized, seized / 2, seized - seized / 2)
    ensures SplitPenalty(seized).toDenouncer + SplitPenalty(seized).burned == seized
    ensures SplitPenalty(seized).toDenouncer <= SplitPenalty(seized).burned <= SplitPenalty(seized).toDenouncer + 1
  {
    assert SplitPenalty(seized).toDenouncer == seized / 2;
  }
}
