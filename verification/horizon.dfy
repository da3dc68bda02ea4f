/**
 * The model horizon as the cost rules see it. Each model year `y` stands for
 * a period of TimeStep(y) years centred on it: the period starts at
 * y - TimeStep(y)/2 + 1, and the horizon ends at max(YEAR) + TimeStep(max(YEAR))/2.
 * Discount exponents and the salvage-value branches of every variant are
 * written in these terms.
 */
module Horizon {
  import opened Basics
  import opened ModelData

  /** The whole number of years from the first model year to `y`. */
  function YearsSinceStart(I: Instance, y: Year): nat
    requires y in I.sets.year
  {
    y - Min(I.sets.year)
  }

  /** The last year of the horizon: max(YEAR) + TimeStep(max(YEAR)) / 2. */
  function HorizonEnd(I: Instance): real
    requires |I.sets.year| > 0
  {
    var last := Max(I.sets.year);
    last as real + (I.params.timeStep.Get(last) as real) / 2.0
  }

  /** The first year of the period model year `y` stands for: y - TimeStep(y) / 2 + 1. */
  function PeriodStart(I: Instance, y: Year): real
  {
    y as real - (I.params.timeStep.Get(y) as real) / 2.0 + 1.0
  }

  /** The years from the start of y's period to the end of the horizon, both counted. */
  function ServedYears(I: Instance, y: Year): real
    requires |I.sets.year| > 0
  {
    HorizonEnd(I) - PeriodStart(I, y) + 1.0
  }

  /** The test SV1 applies for "capacity built in `y` is still alive after the horizon". */
  predicate OutlivesHorizon(I: Instance, r: Region, t: Tech, y: Year)
    requires |I.sets.year| > 0
  {
    y as real + (I.params.timeStep.Get(y) as real) / 2.0 + I.params.operationalLife.Get((r, t)) - 1.0 > HorizonEnd(I)
  }

  /** How SV1 values what is left of an investment at the end of the horizon. */
  datatype Depreciation = Annuity | StraightLine | NoSalvage

  /**
   * SV1's branch: sinking-fund depreciation (method 1 at a positive rate),
   * straight-line depreciation (method 1 at rate 0, or method 2), or no
   * salvage value at all.
   */
  function SalvageBranch(I: Instance, r: Region, t: Tech, y: Year, alive: bool): (d: Depreciation)
    ensures d == Annuity <==> alive && I.params.depreciationMethod.Get(r) == 1.0 && I.params.discountRate.Get(r) > 0.0
    ensures d == NoSalvage <==>
      || !alive
      || (I.params.depreciationMethod.Get(r) != 1.0 && I.params.depreciationMethod.Get(r) != 2.0)
      || (I.params.depreciationMethod.Get(r) == 1.0 && I.params.discountRate.Get(r) < 0.0)
  {
    var dm, dr := I.params.depreciationMethod.Get(r), I.params.discountRate.Get(r);
    if dm == 1.0 && alive && dr > 0.0 then Annuity
    else if (dm == 1.0 && alive && dr == 0.0) || (dm == 2.0 && alive) then StraightLine
    else NoSalvage
  }

  /** The share of the investment still to be recovered under sinking-fund depreciation. */
  function AnnuityFraction(rpow: (real, real) -> real, rate: real, served: real, life: real): real
    requires rpow(1.0 + rate, life) - 1.0 != 0.0
  {
    1.0 - (rpow(1.0 + rate, served) - 1.0) / (rpow(1.0 + rate, life) - 1.0)
  }

  /** The share of the investment still to be recovered under straight-line depreciation. */
  function StraightLineFraction(served: real, life: real): real
    requires life != 0.0
  {
    1.0 - served / life
  }

  /** Part of a life served, and not all of it, leaves a fraction in (0, 1] to recover. */
  lemma StraightLineFractionRange(served: real, life: real)
    requires 0.0 <= served < life
    ensures 0.0 < StraightLineFraction(served, life) <= 1.0
  {
    assert served / life * life == served;
  }

  /** A non-negative investment scaled by that fraction stays between zero and itself. */
  lemma StraightLineShare(cc: real, n: real, served: real, life: real)
    requires cc >= 0.0 && n >= 0.0 && 0.0 <= served < life
    ensures 0.0 <= cc * n * StraightLineFraction(served, life) <= cc * n
  {
    StraightLineFractionRange(served, life);
    var a, f := cc * n, StraightLineFraction(served, life);
    assert a >= 0.0;
    assert a * f <= a * 1.0;
  }

  /**
   * The life test SV1's straight-line fraction presumes: capacity whose
   * period starts at y - TimeStep(y)/2 + 1 and that lasts OperationalLife
   * years is still in service after the horizon's last year.
   */
  predicate LifeBeyondHorizon(I: Instance, r: Region, t: Tech, y: Year)
    requires |I.sets.year| > 0
  {
    PeriodStart(I, y) + I.params.operationalLife.Get((r, t)) - 1.0 > HorizonEnd(I)
  }

  /** Time steps are never negative. */
  predicate NonNegativeSteps(I: Instance)
  {
    forall yy :: yy in I.sets.year ==> I.params.timeStep.Get(yy) >= 0
  }

  /** The years of the horizon: from the first period's first year to its last year, both counted. */
  function HorizonLength(I: Instance): real
    requires |I.sets.year| > 0
  {
    ServedYears(I, Min(I.sets.year))
  }

  /** The fractional years from the horizon's first year to the middle of y's period: the discounting exponent of OC4, TC2 and E6. */
  function YearsFromHorizonStart(I: Instance, y: Year): real
    requires |I.sets.year| > 0
  {
    y as real - PeriodStart(I, Min(I.sets.year)) + 1.0
  }
}
