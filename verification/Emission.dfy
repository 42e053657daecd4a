/** The halving schedule, its closed form, and the counter check every header must pass. */
module Emission {
  import opened Prelude
  import opened Types
  import opened Amounts
  import opened Bits
  import opened Arithmetic

  const EPOCHS_PER_PERIOD: u64 := 35_064
  const FIRST_PERIOD_EMISSION: u64 := 50_000_000_000_000_000

  datatype EmissionError =
    | OverFormula(claimed: Amount, permitted: Amount)
    | WentBackwards(parent: Amount, backTo: Amount)
    | OverCap(amount: Amount)

  function PeriodOf(epoch: u64): u64 {
    epoch / EPOCHS_PER_PERIOD
  }

  /** What a whole period emits: half of the one before, and nothing from the 64th on. */
  function PeriodEmission(period: u64): u64 {
    ShiftedFits(FIRST_PERIOD_EMISSION, period);
    if period >= 64 then 0 else Shifted(FIRST_PERIOD_EMISSION, period)
  }

  lemma {:induction false} ShiftedFits(b: nat, places: nat)
    ensures 0 <= Shifted(b, places) <= b
  {
    if places != 0 {
      ShiftedFits(b, places - 1);
    }
  }

  function PerEpoch(period: u64): u64 {
    PeriodEmission(period) / EPOCHS_PER_PERIOD
  }

  function EmissionForEpoch(epoch: u64): Amount {
    PerEpoch(PeriodOf(epoch))
  }

  /** Everything emitted from epoch 0 through `epoch`, epoch by epoch. */
  ghost function Emitted(epoch: u64): nat {
    EmissionForEpoch(epoch) + if epoch == 0 then 0 else Emitted(epoch - 1)
  }

  /** What `epochs` epochs of a period emit. */
  ghost function Part(period: u64, epochs: nat): nat {
    PerEpoch(period) * epochs
  }

  /** What the first periods emit when complete. */
  ghost function Complete(periods: nat): nat
    requires periods < U64_LIMIT
  {
    if periods == 0 then 0 else Complete(periods - 1) + Part(periods - 1, EPOCHS_PER_PERIOD)
  }

  /** The sum over epochs, period by period: `period` whole ones and `beyond + 1` epochs more. */
  lemma {:induction false} EmittedByPeriods(period: nat, beyond: nat)
    requires beyond < EPOCHS_PER_PERIOD && period * EPOCHS_PER_PERIOD + beyond < U64_LIMIT
    ensures Emitted(period * EPOCHS_PER_PERIOD + beyond) == Complete(period) + Part(period, beyond + 1)
    decreases period, beyond
  {
    hide PerEpoch, Part;
    var epoch := period * EPOCHS_PER_PERIOD + beyond;
    assert PeriodOf(epoch) == period;
    if beyond > 0 {
      EmittedByPeriods(period, beyond - 1);
      OneEpochMore(period, beyond);
    } else {
      OneEpochMore(period, 0);
      if period > 0 {
        EmittedByPeriods(period - 1, EPOCHS_PER_PERIOD - 1);
      }
    }
  }

  lemma OneEpochMore(period: u64, epochs: nat)
    ensures Part(period, epochs + 1) == Part(period, epochs) + PerEpoch(period)
    ensures Part(period, 0) == 0
  {
    hide PerEpoch;
  }

  lemma Halves(period: nat)
    requires 0 < period < U64_LIMIT
    ensures 2 * PeriodEmission(period) <= PeriodEmission(period - 1)
  {
  }

  /** The schedule: fifty million VAN in the first period, and in each later one half of what
      the one before emitted, rounded down. */
  lemma HalvesExactly(period: nat)
    requires period + 1 < U64_LIMIT
    ensures PeriodEmission(0) == 50_000_000 * ULF_PER_VAN
    ensures PeriodEmission(period + 1) == PeriodEmission(period) / 2
  {
    assert Shifted(FIRST_PERIOD_EMISSION, 0) == FIRST_PERIOD_EMISSION;
    if period == 63 {
      LastPeriods();
    }
  }

  lemma {:induction false} EightHalvings(b: nat, places: nat)
    ensures Shifted(b, places + 8) == Shifted(b, places) / 256
  {
    assert Shifted(b, places + 4) == Shifted(b, places) / 16 by {
      assert Shifted(b, places + 2) == Shifted(b, places + 1) / 2;
      assert Shifted(b, places + 4) == Shifted(b, places + 3) / 2;
    }
    assert Shifted(b, places + 6) == Shifted(b, places + 5) / 2;
    assert Shifted(b, places + 8) == Shifted(b, places + 7) / 2;
  }

  /** By the 64th period nothing is left to halve. */
  lemma LastPeriods()
    ensures PeriodEmission(63) == 0
  {
    var b := FIRST_PERIOD_EMISSION;
    EightHalvings(b, 55);
    EightHalvings(b, 47);
    EightHalvings(b, 39);
    EightHalvings(b, 31);
    EightHalvings(b, 23);
    EightHalvings(b, 15);
    EightHalvings(b, 7);
    ShiftedFits(b, 7);
  }

  /** Part of a period never emits more than the period, so the multiplication is exact. */
  lemma PartPeriod(period: u64, elapsed: nat)
    requires elapsed <= EPOCHS_PER_PERIOD
    ensures Part(period, elapsed) <= PeriodEmission(period)
    ensures SaturatingMul(PerEpoch(period), elapsed) == Part(period, elapsed)
  {
    hide PeriodEmission;
    Quotient(PeriodEmission(period), EPOCHS_PER_PERIOD);
    hide PerEpoch;
    ProductGrows(PerEpoch(period), elapsed, EPOCHS_PER_PERIOD);
  }

  /** Each period emits at most half of what was left, so all of them stay under the cap. */
  lemma {:induction false} CompleteFits(periods: nat)
    requires periods < U64_LIMIT
    ensures Complete(periods) + 2 * PeriodEmission(periods) <= MAX_SUPPLY
  {
    if periods == 0 {
      assert PeriodEmission(0) == FIRST_PERIOD_EMISSION;
    } else {
      CompleteFits(periods - 1);
      Halves(periods);
      PartPeriod(periods - 1, EPOCHS_PER_PERIOD);
      hide PeriodEmission, PerEpoch, Part;
    }
  }

  /** And what is lost in rounding is less than one unit an epoch and one a period. */
  lemma {:induction false} CompleteNearlyAll(periods: nat)
    requires periods < U64_LIMIT
    ensures Complete(periods) + 2 * PeriodEmission(periods) + periods * EPOCHS_PER_PERIOD >= MAX_SUPPLY
  {
    if periods == 0 {
      HalvesExactly(0);
    } else {
      CompleteNearlyAll(periods - 1);
      HalvesExactly(periods - 1);
      Quotient(PeriodEmission(periods - 1), EPOCHS_PER_PERIOD);
      hide PeriodEmission;
    }
  }

  /** All that is ever emitted stays within the cap. */
  lemma EmittedWithinCap(epoch: u64)
    ensures Emitted(epoch) <= MAX_SUPPLY
  {
    hide PerEpoch, PeriodEmission, Complete, Emitted, Part;
    EmittedByPeriods(PeriodOf(epoch), epoch % EPOCHS_PER_PERIOD);
    CompleteFits(PeriodOf(epoch));
    PartPeriod(PeriodOf(epoch), epoch % EPOCHS_PER_PERIOD + 1);
  }

  /** Nothing is emitted past the 64th period. */
  lemma {:induction false} CompleteStops(last: nat, periods: nat)
    requires 64 <= last <= periods < U64_LIMIT
    ensures Complete(periods) == Complete(last)
    decreases periods - last
  {
    hide PerEpoch, PeriodEmission, Part;
    if periods > last {
      NothingLate(last, EPOCHS_PER_PERIOD);
      assert Complete(last + 1) == Complete(last);
      CompleteStops(last + 1, periods);
    }
  }

  lemma NothingLate(period: u64, epochs: nat)
    requires period >= 64
    ensures Part(period, epochs) == 0
  {
    hide Shifted;
  }

  /** From the end of the 64th period on, all of the cap has been emitted but a remainder of
      rounding, less than three thousandths of a VAN. */
  lemma EmittedEventually(epoch: u64)
    requires epoch >= 64 * 35_064
    ensures MAX_SUPPLY - 64 * 35_064 <= Emitted(epoch) <= MAX_SUPPLY
    ensures 64 * 35_064 < 3 * ULF_PER_VAN / 1_000
  {
    hide PerEpoch, Complete, Emitted, Part;
    EmittedWithinCap(epoch);
    EmittedByPeriods(PeriodOf(epoch), epoch % EPOCHS_PER_PERIOD);
    CompleteStops(64, PeriodOf(epoch));
    CompleteNearlyAll(64);
    NothingLate(PeriodOf(epoch), epoch % EPOCHS_PER_PERIOD + 1);
  }

  /** The closed form: for every epoch it is exactly the sum of what each epoch emits, and the
      saturating arithmetic and the final clamp never act. */
  method PermittedThrough(epoch: u64) returns (r: Amount)
    ensures r == Emitted(epoch)
  {
    hide PerEpoch, PeriodEmission, Part, SaturatingMul, Emitted;
    var period := PeriodOf(epoch);
    var total: u64 := 0;
    var index: u64 := 0;
    while index < period && index < 64
      invariant index <= period && index <= 64
      invariant total == Complete(index)
    {
      var perEpoch := PerEpoch(index);
      PartPeriod(index, EPOCHS_PER_PERIOD);
      CompleteFits(index + 1);
      total := SaturatingAdd(total, SaturatingMul(perEpoch, EPOCHS_PER_PERIOD));
      index := index + 1;
    }
    if index < period {
      CompleteStops(index, period);
    }
    var elapsed := epoch % EPOCHS_PER_PERIOD + 1;
    var perEpoch := PerEpoch(period);
    PartPeriod(period, elapsed);
    CompleteFits(period);
    EmittedByPeriods(period, epoch % EPOCHS_PER_PERIOD);
    total := SaturatingAdd(total, SaturatingMul(perEpoch, elapsed));
    r := Min(total, MAX_SUPPLY);
  }

  ghost function CounterChecked(parent: Amount, claimed: Amount, epoch: u64): Outcome<EmissionError> {
    EmittedWithinCap(epoch);
    if claimed < parent then Fail(WentBackwards(parent, claimed))
    else if claimed > MAX_SUPPLY then Fail(OverCap(claimed))
    else if claimed > Emitted(epoch) then Fail(OverFormula(claimed, Emitted(epoch)))
    else Pass
  }

  method CheckCounter(parent: Amount, claimed: Amount, epoch: u64) returns (r: Outcome<EmissionError>)
    ensures r == CounterChecked(parent, claimed, epoch)
  {
    EmittedWithinCap(epoch);
    if claimed < parent {
      return Fail(WentBackwards(parent, claimed));
    }
    if claimed > MAX_SUPPLY {
      return Fail(OverCap(claimed));
    }
    var permitted := PermittedThrough(epoch);
    if claimed > permitted {
      return Fail(OverFormula(claimed, permitted));
    }
    return Pass;
  }

  /** The cap check never decides: whatever exceeds the cap exceeds the formula, so a counter
      passes exactly when it did not fall and the formula permits it. */
  lemma CounterPassesExactly(parent: Amount, claimed: Amount, epoch: u64)
    ensures CounterChecked(parent, claimed, epoch).Pass? <==> parent <= claimed <= Emitted(epoch)
  {
    EmittedWithinCap(epoch);
  }
}
