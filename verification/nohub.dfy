/**
 * The constraint rules of the variant without hubs (src/itom.py) that are
 * not shared with the hub variant. Every location may hold every
 * technology, regional totals weight every location by its Geography
 * entry, and the limit rules emit whatever the parameter holds.
 */
module NoHub {
  import opened Basics
  import opened ModelData
  import opened Linear
  import opened Network
  import opened Horizon
  import opened PyomoCommon

  /** The weighted sum over every location that the regional totals use. */
  function Regional(I: Instance, r: Region, total: Column, local: Loc -> Column): (res: Outcome<Relation>)
    ensures res.Emit? && res.row.sense == Eq
    ensures forall v :: RelSatisfied(res.row, v) <==>
      v(total) == WeightedSum(I.sets.location, l => I.params.geography.Get((r, l)), local, v)
  {
    Emit(Relation(Var(1.0, total), Eq, WeightedOf(I.sets.location, l => I.params.geography.Get((r, l)), local)))
  }

  //////////////////////// Capacity adequacy ////////////////////////

  /** CA0: regional new capacity is the Geography-weighted local new capacity. */
  function CA0(I: Instance, r: Region, t: Tech, y: Year): (res: Outcome<Relation>)
    ensures res.Emit?
    ensures forall v :: RelSatisfied(res.row, v) <==>
      v(NewCapacity(r, t, y)) == WeightedSum(I.sets.location, l => I.params.geography.Get((r, l)), l => LocalNewCapacity(l, t, y), v)
  {
    Regional(I, r, NewCapacity(r, t, y), l => LocalNewCapacity(l, t, y))
  }

  /** CA1: accumulated new capacity is the new capacity of the years still within the operational life. */
  function CA1(I: Instance, l: Loc, t: Tech, y: Year): (res: Outcome<Relation>)
    ensures res.Emit? && res.row.sense == Eq
    ensures forall v :: RelSatisfied(res.row, v) <==>
      v(LocalAccumulatedNewCapacity(l, t, y)) == ColumnSum(Filter(I.sets.year, yy => InService(I, l, t, y, yy)), yy => LocalNewCapacity(l, t, yy), v)
  {
    Emit(Relation(Var(1.0, LocalAccumulatedNewCapacity(l, t, y)), Eq, SumOf(Filter(I.sets.year, yy => InService(I, l, t, y, yy)), yy => LocalNewCapacity(l, t, yy))))
  }

  /** CA2: regional accumulated new capacity is the Geography-weighted local one. */
  function CA2(I: Instance, r: Region, t: Tech, y: Year): (res: Outcome<Relation>)
    ensures res.Emit?
    ensures forall v :: RelSatisfied(res.row, v) <==>
      v(AccumulatedNewCapacity(r, t, y)) == WeightedSum(I.sets.location, l => I.params.geography.Get((r, l)), l => LocalAccumulatedNewCapacity(l, t, y), v)
  {
    Regional(I, r, AccumulatedNewCapacity(r, t, y), l => LocalAccumulatedNewCapacity(l, t, y))
  }

  /** CA3: local total capacity is accumulated new capacity plus residual capacity. */
  function CA3(I: Instance, l: Loc, t: Tech, y: Year): (res: Outcome<Relation>)
    ensures res.Emit?
    ensures forall v :: RelSatisfied(res.row, v) <==>
      v(LocalAccumulatedNewCapacity(l, t, y)) + I.params.localResidualCapacity.Get((l, t, y)) == v(LocalTotalCapacity(l, t, y))
  {
    Emit(Relation(Plus(Var(1.0, LocalAccumulatedNewCapacity(l, t, y)), Const(I.params.localResidualCapacity.Get((l, t, y)))), Eq, Var(1.0, LocalTotalCapacity(l, t, y))))
  }

  /** CA4: regional total capacity is the Geography-weighted local one. */
  function CA4(I: Instance, r: Region, t: Tech, y: Year): (res: Outcome<Relation>)
    ensures res.Emit?
    ensures forall v :: RelSatisfied(res.row, v) <==>
      v(TotalCapacity(r, t, y)) == WeightedSum(I.sets.location, l => I.params.geography.Get((r, l)), l => LocalTotalCapacity(l, t, y), v)
  {
    Regional(I, r, TotalCapacity(r, t, y), l => LocalTotalCapacity(l, t, y))
  }

  /** CA5: local activity is at most the available capacity converted to activity units. */
  function CA5(I: Instance, l: Loc, t: Tech, y: Year): (res: Outcome<Relation>)
    ensures res.Emit? && res.row.sense == Le
    ensures forall v :: RelSatisfied(res.row, v) <==>
      v(LocalActivity(l, t, y)) <= v(LocalTotalCapacity(l, t, y)) * CapacityFactor(I, l, t, y)
  {
    Emit(Relation(Var(1.0, LocalActivity(l, t, y)), Le, Var(CapacityFactor(I, l, t, y), LocalTotalCapacity(l, t, y))))
  }

  //////////////////////// Product balance ////////////////////////

  /** PB1: production by mode is activity by mode times the output ratio. */
  function PB1(I: Instance, l: Loc, p: Product, t: Tech, m: Mode, y: Year): (res: Outcome<Relation>)
    ensures !res.Fail?
    ensures res.Emit? <==> I.params.modeForTechnology.Get((t, m)) == 1.0 && I.params.productFromTechnology.Get((t, p)) == 1.0
    ensures res.Emit? ==> forall v :: RelSatisfied(res.row, v) <==>
      v(LocalProductionByMode(l, t, p, m, y)) == v(LocalActivityByMode(l, t, m, y)) * OutputRatio(I, l, t, p, m, y)
  {
    if I.params.modeForTechnology.Get((t, m)) == 1.0 && I.params.productFromTechnology.Get((t, p)) == 1.0 then
      Emit(Relation(Var(1.0, LocalProductionByMode(l, t, p, m, y)), Eq, Var(OutputRatio(I, l, t, p, m, y), LocalActivityByMode(l, t, m, y))))
    else Skip
  }

  /** PB2: production by technology is the sum over the technology's modes. */
  function PB2(I: Instance, l: Loc, p: Product, t: Tech, y: Year): (res: Outcome<Relation>)
    ensures !res.Fail?
    ensures res.Emit? <==> I.params.productFromTechnology.Get((t, p)) == 1.0
    ensures res.Emit? ==> forall v :: RelSatisfied(res.row, v) <==>
      v(LocalProductionByTechnology(l, t, p, y)) == ColumnSum(ModesOf(I, t), m => LocalProductionByMode(l, t, p, m, y), v)
  {
    if I.params.productFromTechnology.Get((t, p)) == 1.0 then
      Emit(Relation(Var(1.0, LocalProductionByTechnology(l, t, p, y)), Eq, SumOf(ModesOf(I, t), m => LocalProductionByMode(l, t, p, m, y))))
    else Skip
  }

  /** The technologies that make product `p`. */
  function Producers(I: Instance, p: Product): (ts: seq<Tech>)
    ensures forall t :: t in ts <==> t in I.sets.technology && I.params.productFromTechnology.Get((t, p)) == 1.0
  {
    Filter(I.sets.technology, t => I.params.productFromTechnology.Get((t, p)) == 1.0)
  }

  /** The technologies that consume product `p`. */
  function Consumers(I: Instance, p: Product): (ts: seq<Tech>)
    ensures forall t :: t in ts <==> t in I.sets.technology && I.params.productToTechnology.Get((t, p)) == 1.0
  {
    Filter(I.sets.technology, t => I.params.productToTechnology.Get((t, p)) == 1.0)
  }

  /** PB3: local production is that of every technology making the product. */
  function PB3(I: Instance, l: Loc, p: Product, y: Year): (res: Outcome<Relation>)
    ensures res.Emit? && res.row.sense == Eq
    ensures forall v :: RelSatisfied(res.row, v) <==>
      v(LocalProduction(l, p, y)) == ColumnSum(Producers(I, p), t => LocalProductionByTechnology(l, t, p, y), v)
  {
    Emit(Relation(Var(1.0, LocalProduction(l, p, y)), Eq, SumOf(Producers(I, p), t => LocalProductionByTechnology(l, t, p, y))))
  }

  /** PB4: regional production is the Geography-weighted local production. */
  function PB4(I: Instance, r: Region, p: Product, y: Year): (res: Outcome<Relation>)
    ensures res.Emit?
    ensures forall v :: RelSatisfied(res.row, v) <==>
      v(Production(r, p, y)) == WeightedSum(I.sets.location, l => I.params.geography.Get((r, l)), l => LocalProduction(l, p, y), v)
  {
    Regional(I, r, Production(r, p, y), l => LocalProduction(l, p, y))
  }

  /** PB5: use by mode is activity by mode times the input ratio. */
  function PB5(I: Instance, l: Loc, p: Product, t: Tech, m: Mode, y: Year): (res: Outcome<Relation>)
    ensures !res.Fail?
    ensures res.Emit? <==> I.params.modeForTechnology.Get((t, m)) == 1.0 && I.params.productToTechnology.Get((t, p)) == 1.0
    ensures res.Emit? ==> forall v :: RelSatisfied(res.row, v) <==>
      v(LocalUseByMode(l, t, p, m, y)) == v(LocalActivityByMode(l, t, m, y)) * InputRatio(I, l, t, p, m, y)
  {
    if I.params.modeForTechnology.Get((t, m)) == 1.0 && I.params.productToTechnology.Get((t, p)) == 1.0 then
      Emit(Relation(Var(1.0, LocalUseByMode(l, t, p, m, y)), Eq, Var(InputRatio(I, l, t, p, m, y), LocalActivityByMode(l, t, m, y))))
    else Skip
  }

  /** PB6: use by technology is the sum over the technology's modes. */
  function PB6(I: Instance, l: Loc, p: Product, t: Tech, y: Year): (res: Outcome<Relation>)
    ensures !res.Fail?
    ensures res.Emit? <==> I.params.productToTechnology.Get((t, p)) == 1.0
    ensures res.Emit? ==> forall v :: RelSatisfied(res.row, v) <==>
      v(LocalUseByTechnology(l, t, p, y)) == ColumnSum(ModesOf(I, t), m => LocalUseByMode(l, t, p, m, y), v)
  {
    if I.params.productToTechnology.Get((t, p)) == 1.0 then
      Emit(Relation(Var(1.0, LocalUseByTechnology(l, t, p, y)), Eq, SumOf(ModesOf(I, t), m => LocalUseByMode(l, t, p, m, y))))
    else Skip
  }

  /** PB7: local use is that of every technology consuming the product. */
  function PB7(I: Instance, l: Loc, p: Product, y: Year): (res: Outcome<Relation>)
    ensures res.Emit? && res.row.sense == Eq
    ensures forall v :: RelSatisfied(res.row, v) <==>
      v(LocalUse(l, p, y)) == ColumnSum(Consumers(I, p), t => LocalUseByTechnology(l, t, p, y), v)
  {
    Emit(Relation(Var(1.0, LocalUse(l, p, y)), Eq, SumOf(Consumers(I, p), t => LocalUseByTechnology(l, t, p, y))))
  }

  /** PB8: regional use is the Geography-weighted local use. */
  function PB8(I: Instance, r: Region, p: Product, y: Year): (res: Outcome<Relation>)
    ensures res.Emit?
    ensures forall v :: RelSatisfied(res.row, v) <==>
      v(Use(r, p, y)) == WeightedSum(I.sets.location, l => I.params.geography.Get((r, l)), l => LocalUse(l, p, y), v)
  {
    Regional(I, r, Use(r, p, y), l => LocalUse(l, p, y))
  }

  //////////////////////// Transport flows ////////////////////////

  /**
   * TF1: over a routed link, forward plus backward flow is bounded by the
   * link's capacity in activity units, whatever the capacity holds.
   */
  function TF1(I: Instance, l: Loc, ll: Loc, p: Product, tr: TransportMode, y: Year): (res: Outcome<Relation>)
    ensures !res.Fail?
    ensures res.Emit? <==> I.params.transportRoute.Get((l, ll, p, tr, y)) == 1.0
    ensures res.Emit? ==> res.row.sense == Le
    ensures res.Emit? ==> forall v :: RelSatisfied(res.row, v) <==>
      v(Transport(l, ll, p, tr, y)) + v(Transport(ll, l, p, tr, y)) <=
        I.params.transportCapacity.Get((l, ll, p, tr, y)) * I.params.transportCapacityToActivity.Get(tr)
  {
    if I.params.transportRoute.Get((l, ll, p, tr, y)) == 1.0 then
      Emit(Relation(Plus(Var(1.0, Transport(l, ll, p, tr, y)), Var(1.0, Transport(ll, l, p, tr, y))), Le,
        Const(I.params.transportCapacity.Get((l, ll, p, tr, y)) * I.params.transportCapacityToActivity.Get(tr))))
    else Skip
  }

  /** TF2: what leaves a location over routed links is at most its production. */
  function TF2(I: Instance, l: Loc, p: Product, y: Year): (res: Outcome<Relation>)
    ensures res.Emit? && res.row.sense == Le
    ensures forall v :: RelSatisfied(res.row, v) <==>
      ColumnSum(Departures(I, l, p, y), k => Flow(k, p, y), v) <= v(LocalProduction(l, p, y))
  {
    Emit(Relation(SumOf(Departures(I, l, p, y), k => Flow(k, p, y)), Le, Var(1.0, LocalProduction(l, p, y))))
  }

  //////////////////////// Capital costs ////////////////////////

  /** CC1: capital investment is the location's capital cost times new capacity. */
  function CC1(I: Instance, l: Loc, t: Tech, y: Year): (res: Outcome<Relation>)
    ensures res.Emit?
    ensures forall v :: RelSatisfied(res.row, v) <==>
      v(LocalCapitalInvestment(l, t, y)) == LocalCapitalCost(I, l, t, y) * v(LocalNewCapacity(l, t, y))
  {
    Emit(Relation(Var(1.0, LocalCapitalInvestment(l, t, y)), Eq, Var(LocalCapitalCost(I, l, t, y), LocalNewCapacity(l, t, y))))
  }

  /** CC2: investment is discounted to the first model year by `(1 + rate) ** (y - min(YEAR))`. */
  function CC2(I: Instance, l: Loc, t: Tech, y: Year): (res: Outcome<Relation>)
    requires y in I.sets.year
    ensures !res.Skip?
    ensures res.Fail? <==> LocalDiscountRate(I, l) == -1.0 && y != Min(I.sets.year)
    ensures res.Fail? ==> res.error == ZeroDivision
    ensures res.Emit? ==> forall v :: RelSatisfied(res.row, v) <==>
      v(LocalDiscountedCapitalInvestment(l, t, y)) * Pow(1.0 + LocalDiscountRate(I, l), YearsSinceStart(I, y)) == v(LocalCapitalInvestment(l, t, y))
  {
    PowZero(1.0 + LocalDiscountRate(I, l), YearsSinceStart(I, y));
    DiscountedRel(LocalDiscountedCapitalInvestment(l, t, y), LocalCapitalInvestment(l, t, y), Pow(1.0 + LocalDiscountRate(I, l), YearsSinceStart(I, y)))
  }

  /** CC3: regional discounted investment is the Geography-weighted local one. */
  function CC3(I: Instance, r: Region, t: Tech, y: Year): (res: Outcome<Relation>)
    ensures res.Emit?
    ensures forall v :: RelSatisfied(res.row, v) <==>
      v(DiscountedCapitalInvestment(r, t, y)) == WeightedSum(I.sets.location, l => I.params.geography.Get((r, l)), l => LocalDiscountedCapitalInvestment(l, t, y), v)
  {
    Regional(I, r, DiscountedCapitalInvestment(r, t, y), l => LocalDiscountedCapitalInvestment(l, t, y))
  }

  //////////////////////// Salvage value ////////////////////////

  /** The years the straight-line branch counts as used: from y to the last model year, inclusive. */
  function YearsToLast(I: Instance, y: Year): (n: real)
    requires |I.sets.year| > 0
    ensures y in I.sets.year ==> n >= 1.0
  {
    (Max(I.sets.year) - y + 1) as real
  }

  /** SV1: the straight-line branch depreciates the investment over the model years from y on. */
  function SV1(I: Instance, rpow: (real, real) -> real, r: Region, t: Tech, y: Year): (res: Outcome<Relation>)
    requires y in I.sets.year
    ensures !res.Skip?
    ensures res.Fail? <==>
      || (SalvageBranch(I, r, t, y, OutlivesHorizon(I, r, t, y)) == Annuity && rpow(1.0 + I.params.discountRate.Get(r), I.params.operationalLife.Get((r, t))) == 1.0)
      || (SalvageBranch(I, r, t, y, OutlivesHorizon(I, r, t, y)) == StraightLine && I.params.operationalLife.Get((r, t)) == 0.0)
    ensures res.Emit? && SalvageBranch(I, r, t, y, OutlivesHorizon(I, r, t, y)) == NoSalvage ==>
      forall v :: RelSatisfied(res.row, v) <==> v(SalvageValue(r, t, y)) == 0.0
    ensures res.Emit? && SalvageBranch(I, r, t, y, OutlivesHorizon(I, r, t, y)) == StraightLine ==>
      forall v :: RelSatisfied(res.row, v) <==>
        v(SalvageValue(r, t, y)) == I.params.capitalCost.Get((r, t, y)) * v(NewCapacity(r, t, y)) *
          StraightLineFraction(YearsToLast(I, y), I.params.operationalLife.Get((r, t)))
    ensures res.Emit? && SalvageBranch(I, r, t, y, OutlivesHorizon(I, r, t, y)) == Annuity ==>
      forall v :: RelSatisfied(res.row, v) <==>
        v(SalvageValue(r, t, y)) == I.params.capitalCost.Get((r, t, y)) * v(NewCapacity(r, t, y)) *
          AnnuityFraction(rpow, I.params.discountRate.Get(r), ServedYears(I, y), I.params.operationalLife.Get((r, t)))
  {
    SalvageRel(I, rpow, r, t, y, YearsToLast(I, y))
  }

  //////////////////////// Operating costs ////////////////////////

  /** OC1: variable operating cost is the activity in each mode times its variable cost. */
  function OC1(I: Instance, l: Loc, t: Tech, y: Year): (res: Outcome<Relation>)
    ensures res.Emit?
    ensures forall v :: RelSatisfied(res.row, v) <==>
      v(LocalVariableOperatingCost(l, t, y)) == WeightedSum(ModesOf(I, t), m => LocalVariableCost(I, l, t, m, y), m => LocalActivityByMode(l, t, m, y), v)
  {
    Emit(Relation(Var(1.0, LocalVariableOperatingCost(l, t, y)), Eq, WeightedOf(ModesOf(I, t), m => LocalVariableCost(I, l, t, m, y), m => LocalActivityByMode(l, t, m, y))))
  }

  /** OC2: fixed operating cost is total capacity times the location's fixed cost. */
  function OC2(I: Instance, l: Loc, t: Tech, y: Year): (res: Outcome<Relation>)
    ensures res.Emit?
    ensures forall v :: RelSatisfied(res.row, v) <==>
      v(LocalFixedOperatingCost(l, t, y)) == v(LocalTotalCapacity(l, t, y)) * LocalFixedCost(I, l, t, y)
  {
    Emit(Relation(Var(1.0, LocalFixedOperatingCost(l, t, y)), Eq, Var(LocalFixedCost(I, l, t, y), LocalTotalCapacity(l, t, y))))
  }

  /** OC3: operating cost is fixed plus variable operating cost. */
  function OC3(I: Instance, l: Loc, t: Tech, y: Year): (res: Outcome<Relation>)
    ensures res.Emit?
    ensures forall v :: RelSatisfied(res.row, v) <==>
      v(LocalOperatingCost(l, t, y)) == v(LocalFixedOperatingCost(l, t, y)) + v(LocalVariableOperatingCost(l, t, y))
  {
    Emit(Relation(Var(1.0, LocalOperatingCost(l, t, y)), Eq, Plus(Var(1.0, LocalFixedOperatingCost(l, t, y)), Var(1.0, LocalVariableOperatingCost(l, t, y)))))
  }

  /** OC4: operating cost is discounted to the horizon's first year at the location's rate. */
  function OC4(I: Instance, rpow: (real, real) -> real, l: Loc, t: Tech, y: Year): (res: Outcome<Relation>)
    requires y in I.sets.year
    ensures !res.Skip?
    ensures res.Fail? <==> rpow(1.0 + LocalDiscountRate(I, l), YearsFromHorizonStart(I, y)) == 0.0
    ensures res.Emit? ==> forall v :: RelSatisfied(res.row, v) <==>
      v(LocalDiscountedOperatingCost(l, t, y)) * rpow(1.0 + LocalDiscountRate(I, l), YearsFromHorizonStart(I, y)) == v(LocalOperatingCost(l, t, y))
  {
    DiscountedRel(LocalDiscountedOperatingCost(l, t, y), LocalOperatingCost(l, t, y), rpow(1.0 + LocalDiscountRate(I, l), YearsFromHorizonStart(I, y)))
  }

  /** OC5: regional discounted operating cost is the Geography-weighted local one. */
  function OC5(I: Instance, r: Region, t: Tech, y: Year): (res: Outcome<Relation>)
    ensures res.Emit?
    ensures forall v :: RelSatisfied(res.row, v) <==>
      v(DiscountedOperatingCost(r, t, y)) == WeightedSum(I.sets.location, l => I.params.geography.Get((r, l)), l => LocalDiscountedOperatingCost(l, t, y), v)
  {
    Regional(I, r, DiscountedOperatingCost(r, t, y), l => LocalDiscountedOperatingCost(l, t, y))
  }

  //////////////////////// Transport costs ////////////////////////

  /** TC1: the transport cost of a location is what arrives over each routed link times the mode's cost. */
  function TC1(I: Instance, l: Loc, p: Product, y: Year): (res: Outcome<Relation>)
    ensures res.Emit? && res.row.sense == Eq
    ensures forall v :: RelSatisfied(res.row, v) <==>
      v(LocalTransportCost(l, p, y)) == WeightedSum(Arrivals(I, l, p, y), (k: Link) => LocalModeCost(I, l, k.tr, y), (k: Link) => Flow(k, p, y), v)
  {
    Emit(Relation(Var(1.0, LocalTransportCost(l, p, y)), Eq, WeightedOf(Arrivals(I, l, p, y), (k: Link) => LocalModeCost(I, l, k.tr, y), (k: Link) => Flow(k, p, y))))
  }

  //////////////////////// Limits ////////////////////////

  /** An upper limit stated whatever the parameter holds. */
  function AtMost(col: Column, limit: real): (res: Outcome<Relation>)
    ensures res.Emit? && res.row.sense == Le
    ensures forall v :: RelSatisfied(res.row, v) <==> v(col) <= limit
  {
    Emit(Relation(Var(1.0, col), Le, Const(limit)))
  }

  /** A lower limit stated whatever the parameter holds. */
  function AtLeast(col: Column, limit: real): (res: Outcome<Relation>)
    ensures res.Emit? && res.row.sense == Ge
    ensures forall v :: RelSatisfied(res.row, v) <==> v(col) >= limit
  {
    Emit(Relation(Var(1.0, col), Ge, Const(limit)))
  }

  /** TCC1: the regional total capacity stays under its maximum. */
  function TCC1(I: Instance, r: Region, t: Tech, y: Year): (res: Outcome<Relation>)
    ensures res.Emit?
    ensures forall v :: RelSatisfied(res.row, v) <==> v(TotalCapacity(r, t, y)) <= I.params.totalAnnualMaxCapacity.Get((r, t, y))
  {
    AtMost(TotalCapacity(r, t, y), I.params.totalAnnualMaxCapacity.Get((r, t, y)))
  }

  /** TCC2: the regional total capacity reaches its minimum. */
  function TCC2(I: Instance, r: Region, t: Tech, y: Year): (res: Outcome<Relation>)
    ensures res.Emit?
    ensures forall v :: RelSatisfied(res.row, v) <==> v(TotalCapacity(r, t, y)) >= I.params.totalAnnualMinCapacity.Get((r, t, y))
  {
    AtLeast(TotalCapacity(r, t, y), I.params.totalAnnualMinCapacity.Get((r, t, y)))
  }

  /** NCC1: new capacity at a location stays under its maximum investment. */
  function NCC1(I: Instance, l: Loc, t: Tech, y: Year): (res: Outcome<Relation>)
    ensures res.Emit?
    ensures forall v :: RelSatisfied(res.row, v) <==> v(LocalNewCapacity(l, t, y)) <= I.params.localTotalAnnualMaxCapacityInvestment.Get((l, t, y))
  {
    AtMost(LocalNewCapacity(l, t, y), I.params.localTotalAnnualMaxCapacityInvestment.Get((l, t, y)))
  }

  /** NCC2: new capacity at a location reaches its minimum investment. */
  function NCC2(I: Instance, l: Loc, t: Tech, y: Year): (res: Outcome<Relation>)
    ensures res.Emit?
    ensures forall v :: RelSatisfied(res.row, v) <==> v(LocalNewCapacity(l, t, y)) >= I.params.localTotalAnnualMinCapacityInvestment.Get((l, t, y))
  {
    AtLeast(LocalNewCapacity(l, t, y), I.params.localTotalAnnualMinCapacityInvestment.Get((l, t, y)))
  }

  //////////////////////// Activity ////////////////////////

  /** AAC0: the activity of `t` at `l` is its activity summed over the technology's modes. */
  function AAC0(I: Instance, l: Loc, t: Tech, y: Year): (res: Outcome<Relation>)
    ensures res.Emit?
    ensures forall v :: RelSatisfied(res.row, v) <==>
      v(LocalActivity(l, t, y)) == ColumnSum(ModesOf(I, t), m => LocalActivityByMode(l, t, m, y), v)
  {
    Emit(Relation(Var(1.0, LocalActivity(l, t, y)), Eq, SumOf(ModesOf(I, t), m => LocalActivityByMode(l, t, m, y))))
  }

  /** AAC1: a region's activity is the Geography-weighted local activity. */
  function AAC1(I: Instance, r: Region, t: Tech, y: Year): (res: Outcome<Relation>)
    ensures res.Emit?
    ensures forall v :: RelSatisfied(res.row, v) <==>
      v(Activity(r, t, y)) == WeightedSum(I.sets.location, l => I.params.geography.Get((r, l)), l => LocalActivity(l, t, y), v)
  {
    Regional(I, r, Activity(r, t, y), l => LocalActivity(l, t, y))
  }

  /** AAC2: a region's annual activity stays under its upper limit. */
  function AAC2(I: Instance, r: Region, t: Tech, y: Year): (res: Outcome<Relation>)
    ensures res.Emit?
    ensures forall v :: RelSatisfied(res.row, v) <==> v(Activity(r, t, y)) <= I.params.totalTechnologyAnnualActivityUpperLimit.Get((r, t, y))
  {
    AtMost(Activity(r, t, y), I.params.totalTechnologyAnnualActivityUpperLimit.Get((r, t, y)))
  }

  /** AAC3: a region's annual activity reaches its lower limit. */
  function AAC3(I: Instance, r: Region, t: Tech, y: Year): (res: Outcome<Relation>)
    ensures res.Emit?
    ensures forall v :: RelSatisfied(res.row, v) <==> v(Activity(r, t, y)) >= I.params.totalTechnologyAnnualActivityLowerLimit.Get((r, t, y))
  {
    AtLeast(Activity(r, t, y), I.params.totalTechnologyAnnualActivityLowerLimit.Get((r, t, y)))
  }

  /** TAC2: model-period activity stays under its upper limit. */
  function TAC2(I: Instance, r: Region, t: Tech): (res: Outcome<Relation>)
    ensures res.Emit?
    ensures forall v :: RelSatisfied(res.row, v) <==> v(ModelPeriodActivity(r, t)) <= I.params.totalTechnologyModelPeriodActivityUpperLimit.Get((r, t))
  {
    AtMost(ModelPeriodActivity(r, t), I.params.totalTechnologyModelPeriodActivityUpperLimit.Get((r, t)))
  }

  /** TAC3: model-period activity reaches its lower limit. */
  function TAC3(I: Instance, r: Region, t: Tech): (res: Outcome<Relation>)
    ensures res.Emit?
    ensures forall v :: RelSatisfied(res.row, v) <==> v(ModelPeriodActivity(r, t)) >= I.params.totalTechnologyModelPeriodActivityLowerLimit.Get((r, t))
  {
    AtLeast(ModelPeriodActivity(r, t), I.params.totalTechnologyModelPeriodActivityLowerLimit.Get((r, t)))
  }

  //////////////////////// Emissions ////////////////////////

  /**
   * E1: emission by mode is activity by mode times the location's emission
   * ratio when that ratio is positive; any other ratio pins the emission to 0.
   */
  function E1(I: Instance, l: Loc, t: Tech, e: Emission, m: Mode, y: Year): (res: Outcome<Relation>)
    ensures !res.Fail?
    ensures res.Emit? <==> I.params.modeForTechnology.Get((t, m)) == 1.0
    ensures res.Emit? ==> res.row.sense == Eq
    ensures res.Emit? ==> forall v :: RelSatisfied(res.row, v) <==>
      v(LocalTechnologyEmissionByMode(l, t, e, m, y)) ==
        (if LocalEmissionRatio(I, l, t, e, m, y) > 0.0 then LocalEmissionRatio(I, l, t, e, m, y) * v(LocalActivityByMode(l, t, m, y)) else 0.0)
  {
    if I.params.modeForTechnology.Get((t, m)) == 1.0 then
      var ratio := LocalEmissionRatio(I, l, t, e, m, y);
      if ratio > 0.0 then
        Emit(Relation(Var(1.0, LocalTechnologyEmissionByMode(l, t, e, m, y)), Eq, Var(ratio, LocalActivityByMode(l, t, m, y))))
      else
        Emit(Relation(Var(1.0, LocalTechnologyEmissionByMode(l, t, e, m, y)), Eq, Const(0.0)))
    else Skip
  }

  /** E2: the emission of `t` at `l` is its emission summed over the technology's modes. */
  function E2(I: Instance, l: Loc, t: Tech, e: Emission, y: Year): (res: Outcome<Relation>)
    ensures res.Emit?
    ensures forall v :: RelSatisfied(res.row, v) <==>
      v(LocalTechnologyEmission(l, t, e, y)) == ColumnSum(ModesOf(I, t), m => LocalTechnologyEmissionByMode(l, t, e, m, y), v)
  {
    Emit(Relation(Var(1.0, LocalTechnologyEmission(l, t, e, y)), Eq, SumOf(ModesOf(I, t), m => LocalTechnologyEmissionByMode(l, t, e, m, y))))
  }

  /** E3: a region's annual emission of `t` is the Geography-weighted local one. */
  function E3(I: Instance, r: Region, t: Tech, e: Emission, y: Year): (res: Outcome<Relation>)
    ensures res.Emit?
    ensures forall v :: RelSatisfied(res.row, v) <==>
      v(AnnualTechnologyEmission(r, t, e, y)) == WeightedSum(I.sets.location, l => I.params.geography.Get((r, l)), l => LocalTechnologyEmission(l, t, e, y), v)
  {
    Regional(I, r, AnnualTechnologyEmission(r, t, e, y), l => LocalTechnologyEmission(l, t, e, y))
  }

  /** E9: annual emission plus the exogenous emission stays under the annual limit. */
  function E9(I: Instance, r: Region, e: Emission, y: Year): (res: Outcome<Relation>)
    ensures res.Emit? && res.row.sense == Le
    ensures forall v :: RelSatisfied(res.row, v) <==>
      v(AnnualEmissions(r, e, y)) + I.params.annualExogenousEmission.Get((r, e, y)) <= I.params.annualEmissionLimit.Get((r, e, y))
  {
    Emit(Relation(Plus(Var(1.0, AnnualEmissions(r, e, y)), Const(I.params.annualExogenousEmission.Get((r, e, y)))), Le, Const(I.params.annualEmissionLimit.Get((r, e, y)))))
  }

  /** E10: model-period emission stays under its limit. */
  function E10(I: Instance, r: Region, e: Emission): (res: Outcome<Relation>)
    ensures res.Emit?
    ensures forall v :: RelSatisfied(res.row, v) <==> v(ModelPeriodEmissions(r, e)) <= I.params.modelPeriodEmissionLimit.Get((r, e))
  {
    AtMost(ModelPeriodEmissions(r, e), I.params.modelPeriodEmissionLimit.Get((r, e)))
  }
}
