/**
 * The constraint rules of the hub variant on the pyomo backend
 * (src/itom_hub.py) that are not shared with the variant without hubs.
 * Local rules emit only for a location and technology of the same kind
 * (`HubMatch`); regional totals weight every relevant location by its
 * Geography entry instead of keeping the locations whose entry is 1.
 */
module HubPyomo {
  import opened Basics
  import opened ModelData
  import opened Linear
  import opened Network
  import opened Horizon
  import opened PyomoCommon

  /**
   * The shape shared by CA0, CA2, CA4, CC3, OC5, AAC1 and E3: a regional
   * total is the Geography-weighted sum of the local columns over the
   * locations of the technology's kind. Raises when t's hub flag is neither
   * 0 nor 1.
   */
  function RegionalTotal(I: Instance, r: Region, t: Tech, total: Column, local: Loc -> Column): (res: Outcome<Relation>)
    ensures !res.Skip?
    ensures res.Fail? <==> !IsFlag(I.params.hubTechnology.Get(t))
    ensures res.Fail? ==> res.error == UnboundLocal("RelevantLocation")
    ensures res.Emit? ==> res.row.sense == Eq
    ensures res.Emit? ==> forall v :: RelSatisfied(res.row, v) <==>
      v(total) == WeightedSum(RelevantLocation(I, t).value, l => I.params.geography.Get((r, l)), local, v)
  {
    match RelevantLocation(I, t)
    case Err(e) => Fail(e)
    case Ok(relevant) => Emit(Relation(Var(1.0, total), Eq, WeightedOf(relevant, l => I.params.geography.Get((r, l)), local)))
  }

  //////////////////////// Capacity adequacy ////////////////////////

  /** CA0: regional new capacity is the weighted local new capacity of the relevant locations. */
  function CA0(I: Instance, r: Region, t: Tech, y: Year): (res: Outcome<Relation>)
    ensures res.Fail? <==> !IsFlag(I.params.hubTechnology.Get(t))
    ensures res.Emit? ==> forall v :: RelSatisfied(res.row, v) <==>
      v(NewCapacity(r, t, y)) == WeightedSum(RelevantLocation(I, t).value, l => I.params.geography.Get((r, l)), l => LocalNewCapacity(l, t, y), v)
  {
    RegionalTotal(I, r, t, NewCapacity(r, t, y), l => LocalNewCapacity(l, t, y))
  }

  /** CA1: accumulated new capacity is the new capacity of the years still within the operational life. */
  function CA1(I: Instance, l: Loc, t: Tech, y: Year): (res: Outcome<Relation>)
    ensures !res.Fail?
    ensures res.Emit? <==> HubMatch(I.params, l, t)
    ensures res.Emit? ==> forall v :: RelSatisfied(res.row, v) <==>
      v(LocalAccumulatedNewCapacity(l, t, y)) == ColumnSum(Filter(I.sets.year, yy => InService(I, l, t, y, yy)), yy => LocalNewCapacity(l, t, yy), v)
  {
    if HubMatch(I.params, l, t) then
      Emit(Relation(Var(1.0, LocalAccumulatedNewCapacity(l, t, y)), Eq, SumOf(Filter(I.sets.year, yy => InService(I, l, t, y, yy)), yy => LocalNewCapacity(l, t, yy))))
    else Skip
  }

  /** CA2: regional accumulated new capacity is the weighted local one of the relevant locations. */
  function CA2(I: Instance, r: Region, t: Tech, y: Year): (res: Outcome<Relation>)
    ensures res.Fail? <==> !IsFlag(I.params.hubTechnology.Get(t))
    ensures res.Emit? ==> forall v :: RelSatisfied(res.row, v) <==>
      v(AccumulatedNewCapacity(r, t, y)) == WeightedSum(RelevantLocation(I, t).value, l => I.params.geography.Get((r, l)), l => LocalAccumulatedNewCapacity(l, t, y), v)
  {
    RegionalTotal(I, r, t, AccumulatedNewCapacity(r, t, y), l => LocalAccumulatedNewCapacity(l, t, y))
  }

  /** CA3: local total capacity is accumulated new capacity plus residual capacity. */
  function CA3(I: Instance, l: Loc, t: Tech, y: Year): (res: Outcome<Relation>)
    ensures !res.Fail?
    ensures res.Emit? <==> HubMatch(I.params, l, t)
    ensures res.Emit? ==> forall v :: RelSatisfied(res.row, v) <==>
      v(LocalAccumulatedNewCapacity(l, t, y)) + I.params.localResidualCapacity.Get((l, t, y)) == v(LocalTotalCapacity(l, t, y))
  {
    if HubMatch(I.params, l, t) then
      Emit(Relation(Plus(Var(1.0, LocalAccumulatedNewCapacity(l, t, y)), Const(I.params.localResidualCapacity.Get((l, t, y)))), Eq, Var(1.0, LocalTotalCapacity(l, t, y))))
    else Skip
  }

  /** CA4: regional total capacity is the weighted local one of the relevant locations. */
  function CA4(I: Instance, r: Region, t: Tech, y: Year): (res: Outcome<Relation>)
    ensures res.Fail? <==> !IsFlag(I.params.hubTechnology.Get(t))
    ensures res.Emit? ==> forall v :: RelSatisfied(res.row, v) <==>
      v(TotalCapacity(r, t, y)) == WeightedSum(RelevantLocation(I, t).value, l => I.params.geography.Get((r, l)), l => LocalTotalCapacity(l, t, y), v)
  {
    RegionalTotal(I, r, t, TotalCapacity(r, t, y), l => LocalTotalCapacity(l, t, y))
  }

  /** CA5: local activity is at most the available capacity converted to activity units. */
  function CA5(I: Instance, l: Loc, t: Tech, y: Year): (res: Outcome<Relation>)
    ensures !res.Fail?
    ensures res.Emit? <==> HubMatch(I.params, l, t)
    ensures res.Emit? ==> res.row.sense == Le
    ensures res.Emit? ==> forall v :: RelSatisfied(res.row, v) <==>
      v(LocalActivity(l, t, y)) <= v(LocalTotalCapacity(l, t, y)) * CapacityFactor(I, l, t, y)
  {
    if HubMatch(I.params, l, t) then
      Emit(Relation(Var(1.0, LocalActivity(l, t, y)), Le, Var(CapacityFactor(I, l, t, y), LocalTotalCapacity(l, t, y))))
    else Skip
  }

  //////////////////////// Product balance ////////////////////////

  /** PB1: production by mode is activity by mode times the output ratio. */
  function PB1(I: Instance, l: Loc, p: Product, t: Tech, m: Mode, y: Year): (res: Outcome<Relation>)
    ensures !res.Fail?
    ensures res.Emit? <==> HubMatch(I.params, l, t) && I.params.modeForTechnology.Get((t, m)) == 1.0 && I.params.productFromTechnology.Get((t, p)) == 1.0
    ensures res.Emit? ==> forall v :: RelSatisfied(res.row, v) <==>
      v(LocalProductionByMode(l, t, p, m, y)) == v(LocalActivityByMode(l, t, m, y)) * OutputRatio(I, l, t, p, m, y)
  {
    if HubMatch(I.params, l, t) then
      if I.params.modeForTechnology.Get((t, m)) == 1.0 && I.params.productFromTechnology.Get((t, p)) == 1.0 then
        Emit(Relation(Var(1.0, LocalProductionByMode(l, t, p, m, y)), Eq, Var(OutputRatio(I, l, t, p, m, y), LocalActivityByMode(l, t, m, y))))
      else Skip
    else Skip
  }

  /** PB2: production by technology is the sum over the technology's modes. */
  function PB2(I: Instance, l: Loc, p: Product, t: Tech, y: Year): (res: Outcome<Relation>)
    ensures !res.Fail?
    ensures res.Emit? <==> HubMatch(I.params, l, t) && I.params.productFromTechnology.Get((t, p)) == 1.0
    ensures res.Emit? ==> forall v :: RelSatisfied(res.row, v) <==>
      v(LocalProductionByTechnology(l, t, p, y)) == ColumnSum(ModesOf(I, t), m => LocalProductionByMode(l, t, p, m, y), v)
  {
    if HubMatch(I.params, l, t) then
      if I.params.productFromTechnology.Get((t, p)) == 1.0 then
        Emit(Relation(Var(1.0, LocalProductionByTechnology(l, t, p, y)), Eq, SumOf(ModesOf(I, t), m => LocalProductionByMode(l, t, p, m, y))))
      else Skip
    else Skip
  }

  /**
   * The shape shared by PB3 and PB7: a local total over the technologies of
   * the location's kind that pass `keep`. Raises when l's hub flag is neither
   * 0 nor 1.
   */
  function LocalTotal(I: Instance, l: Loc, keep: Tech -> bool, total: Column, part: Tech -> Column): (res: Outcome<Relation>)
    ensures !res.Skip?
    ensures res.Fail? <==> !IsFlag(I.params.hubLocation.Get(l))
    ensures res.Fail? ==> res.error == UnboundLocal("RelevantTechnology")
    ensures res.Emit? ==> res.row.sense == Eq
    ensures res.Emit? ==> forall v :: RelSatisfied(res.row, v) <==> v(total) == ColumnSum(Filter(RelevantTechnology(I, l).value, keep), part, v)
  {
    match RelevantTechnology(I, l)
    case Err(e) => Fail(e)
    case Ok(relevant) => Emit(Relation(Var(1.0, total), Eq, SumOf(Filter(relevant, keep), part)))
  }

  /** PB3: local production is that of the location's technologies that make the product. */
  function PB3(I: Instance, l: Loc, p: Product, y: Year): (res: Outcome<Relation>)
    ensures res.Fail? <==> !IsFlag(I.params.hubLocation.Get(l))
    ensures res.Emit? ==> forall v :: RelSatisfied(res.row, v) <==>
      v(LocalProduction(l, p, y)) ==
        ColumnSum(Filter(RelevantTechnology(I, l).value, t => I.params.productFromTechnology.Get((t, p)) == 1.0), t => LocalProductionByTechnology(l, t, p, y), v)
  {
    LocalTotal(I, l, t => I.params.productFromTechnology.Get((t, p)) == 1.0, LocalProduction(l, p, y), t => LocalProductionByTechnology(l, t, p, y))
  }

  /** PB4: regional production is the Geography-weighted local production of the ordinary locations. */
  function PB4(I: Instance, r: Region, p: Product, y: Year): (res: Outcome<Relation>)
    ensures res.Emit? && res.row.sense == Eq
    ensures forall v :: RelSatisfied(res.row, v) <==>
      v(Production(r, p, y)) == WeightedSum(OrdinaryLocations(I), l => I.params.geography.Get((r, l)), l => LocalProduction(l, p, y), v)
  {
    Emit(Relation(Var(1.0, Production(r, p, y)), Eq, WeightedOf(OrdinaryLocations(I), l => I.params.geography.Get((r, l)), l => LocalProduction(l, p, y))))
  }

  /** PB5: use by mode is activity by mode times the input ratio. */
  function PB5(I: Instance, l: Loc, p: Product, t: Tech, m: Mode, y: Year): (res: Outcome<Relation>)
    ensures !res.Fail?
    ensures res.Emit? <==> HubMatch(I.params, l, t) && I.params.modeForTechnology.Get((t, m)) == 1.0 && I.params.productToTechnology.Get((t, p)) == 1.0
    ensures res.Emit? ==> forall v :: RelSatisfied(res.row, v) <==>
      v(LocalUseByMode(l, t, p, m, y)) == v(LocalActivityByMode(l, t, m, y)) * InputRatio(I, l, t, p, m, y)
  {
    if HubMatch(I.params, l, t) then
      if I.params.modeForTechnology.Get((t, m)) == 1.0 && I.params.productToTechnology.Get((t, p)) == 1.0 then
        Emit(Relation(Var(1.0, LocalUseByMode(l, t, p, m, y)), Eq, Var(InputRatio(I, l, t, p, m, y), LocalActivityByMode(l, t, m, y))))
      else Skip
    else Skip
  }

  /** PB6: use by technology is the sum over the technology's modes. */
  function PB6(I: Instance, l: Loc, p: Product, t: Tech, y: Year): (res: Outcome<Relation>)
    ensures !res.Fail?
    ensures res.Emit? <==> HubMatch(I.params, l, t) && I.params.productToTechnology.Get((t, p)) == 1.0
    ensures res.Emit? ==> forall v :: RelSatisfied(res.row, v) <==>
      v(LocalUseByTechnology(l, t, p, y)) == ColumnSum(ModesOf(I, t), m => LocalUseByMode(l, t, p, m, y), v)
  {
    if HubMatch(I.params, l, t) then
      if I.params.productToTechnology.Get((t, p)) == 1.0 then
        Emit(Relation(Var(1.0, LocalUseByTechnology(l, t, p, y)), Eq, SumOf(ModesOf(I, t), m => LocalUseByMode(l, t, p, m, y))))
      else Skip
    else Skip
  }

  /** PB7: local use is that of the location's technologies that consume the product. */
  function PB7(I: Instance, l: Loc, p: Product, y: Year): (res: Outcome<Relation>)
    ensures res.Fail? <==> !IsFlag(I.params.hubLocation.Get(l))
    ensures res.Emit? ==> forall v :: RelSatisfied(res.row, v) <==>
      v(LocalUse(l, p, y)) ==
        ColumnSum(Filter(RelevantTechnology(I, l).value, t => I.params.productToTechnology.Get((t, p)) == 1.0), t => LocalUseByTechnology(l, t, p, y), v)
  {
    LocalTotal(I, l, t => I.params.productToTechnology.Get((t, p)) == 1.0, LocalUse(l, p, y), t => LocalUseByTechnology(l, t, p, y))
  }

  /** PB8: regional use is the Geography-weighted local use of the ordinary locations. */
  function PB8(I: Instance, r: Region, p: Product, y: Year): (res: Outcome<Relation>)
    ensures res.Emit? && res.row.sense == Eq
    ensures forall v :: RelSatisfied(res.row, v) <==>
      v(Use(r, p, y)) == WeightedSum(OrdinaryLocations(I), l => I.params.geography.Get((r, l)), l => LocalUse(l, p, y), v)
  {
    Emit(Relation(Var(1.0, Use(r, p, y)), Eq, WeightedOf(OrdinaryLocations(I), l => I.params.geography.Get((r, l)), l => LocalUse(l, p, y))))
  }

  //////////////////////// Transport flows ////////////////////////

  /**
   * TF1a: on a single-purpose mode with a capacity set, the flow over a link
   * routed one way is bounded by the capacity, and over a link routed both
   * ways forward plus backward flow is. A link routed only backwards is left
   * to the reverse link's relation.
   */
  function TF1a(I: Instance, l: Loc, ll: Loc, p: Product, tr: TransportMode, y: Year): (res: Outcome<Relation>)
    ensures !res.Fail?
    ensures res.Emit? <==>
      && I.params.transportCapacity.Get((l, ll, p, tr, y)) != HighMaxDefault
      && I.params.multiPurposeTransport.Get(tr) == 0.0
      && I.params.transportRoute.Get((l, ll, p, tr, y)) == 1.0
      && IsFlag(I.params.transportRoute.Get((ll, l, p, tr, y)))
    ensures res.Emit? ==> res.row.sense == Le
    ensures res.Emit? ==> forall v :: RelSatisfied(res.row, v) <==>
      v(Transport(l, ll, p, tr, y)) + (if I.params.transportRoute.Get((ll, l, p, tr, y)) == 1.0 then v(Transport(ll, l, p, tr, y)) else 0.0)
        <= LinkLimit(I, l, ll, p, tr, y)
  {
    var P := I.params;
    var forward, backward := P.transportRoute.Get((l, ll, p, tr, y)), P.transportRoute.Get((ll, l, p, tr, y));
    var single := P.multiPurposeTransport.Get(tr) == 0.0;
    var limit := Const(LinkLimit(I, l, ll, p, tr, y));
    if P.transportCapacity.Get((l, ll, p, tr, y)) != HighMaxDefault then
      if forward == 1.0 && backward == 0.0 && single then
        Emit(Relation(Var(1.0, Transport(l, ll, p, tr, y)), Le, limit))
      else if forward == 0.0 && backward == 1.0 && single then Skip
      else if forward == 1.0 && backward == 1.0 && single then
        Emit(Relation(Plus(Var(1.0, Transport(l, ll, p, tr, y)), Var(1.0, Transport(ll, l, p, tr, y))), Le, limit))
      else Skip
    else Skip
  }

  /**
   * TF1b: on a multi-purpose mode the flows of every product routed over the
   * link, plus those routed back, share the mean capacity of the products
   * routed forward. No relation unless some product is routed forward.
   */
  function TF1b(I: Instance, l: Loc, ll: Loc, tr: TransportMode, y: Year): (res: Outcome<Relation>)
    ensures !res.Fail?
    ensures res.Emit? <==> (I.params.multiPurposeTransport.Get(tr) == 1.0 &&
      exists p :: p in I.sets.product && I.params.transportRoute.Get((l, ll, p, tr, y)) == 1.0)
    ensures res.Emit? ==> res.row.sense == Le
    ensures res.Emit? ==> forall v :: RelSatisfied(res.row, v) <==>
      ColumnSum(RoutedProducts(I, l, ll, tr, y), p => Transport(l, ll, p, tr, y), v) +
      ColumnSum(RoutedProducts(I, ll, l, tr, y), p => Transport(ll, l, p, tr, y), v) <= PooledLimit(I, l, ll, tr, y)
  {
    if I.params.multiPurposeTransport.Get(tr) == 1.0 then
      var to, from := RoutedProducts(I, l, ll, tr, y), RoutedProducts(I, ll, l, tr, y);
      if to == [] && from == [] then Skip
      else if to != [] && from == [] then
        Emit(Relation(SumOf(to, p => Transport(l, ll, p, tr, y)), Le, Const(PooledLimit(I, l, ll, tr, y))))
      else if to == [] && from != [] then Skip
      else
        Emit(Relation(Plus(SumOf(to, p => Transport(l, ll, p, tr, y)), SumOf(from, p => Transport(ll, l, p, tr, y))), Le, Const(PooledLimit(I, l, ll, tr, y))))
    else Skip
  }

  /** TF2: what leaves an ordinary location is at most its production; what leaves a hub equals it. */
  function TF2(I: Instance, l: Loc, p: Product, y: Year): (res: Outcome<Relation>)
    ensures res.Emit?
    ensures res.row.sense == Le <==> I.params.hubLocation.Get(l) == 0.0
    ensures res.row.sense == Eq <==> I.params.hubLocation.Get(l) != 0.0
    ensures forall v :: RelSatisfied(res.row, v) <==>
      Holds(res.row.sense, ColumnSum(Departures(I, l, p, y), k => Flow(k, p, y), v), v(LocalProduction(l, p, y)))
  {
    var s := if I.params.hubLocation.Get(l) == 0.0 then Le else Eq;
    Emit(Relation(SumOf(Departures(I, l, p, y), k => Flow(k, p, y)), s, Var(1.0, LocalProduction(l, p, y))))
  }

  //////////////////////// Capital costs ////////////////////////

  /** CC1: capital investment is the location's capital cost times new capacity. */
  function CC1(I: Instance, l: Loc, t: Tech, y: Year): (res: Outcome<Relation>)
    ensures !res.Fail?
    ensures res.Emit? <==> HubMatch(I.params, l, t)
    ensures res.Emit? ==> forall v :: RelSatisfied(res.row, v) <==>
      v(LocalCapitalInvestment(l, t, y)) == LocalCapitalCost(I, l, t, y) * v(LocalNewCapacity(l, t, y))
  {
    if HubMatch(I.params, l, t) then
      Emit(Relation(Var(1.0, LocalCapitalInvestment(l, t, y)), Eq, Var(LocalCapitalCost(I, l, t, y), LocalNewCapacity(l, t, y))))
    else Skip
  }

  /**
   * CC2: investment is discounted to the first model year by
   * `(1 + rate) ** (y - min(YEAR))`; a rate of -1 makes the divisor vanish
   * after the first year and the rule raises.
   */
  function CC2(I: Instance, l: Loc, t: Tech, y: Year): (res: Outcome<Relation>)
    requires y in I.sets.year
    ensures res.Skip? <==> !HubMatch(I.params, l, t)
    ensures res.Fail? <==> HubMatch(I.params, l, t) && LocalDiscountRate(I, l) == -1.0 && y != Min(I.sets.year)
    ensures res.Fail? ==> res.error == ZeroDivision
    ensures res.Emit? ==> forall v :: RelSatisfied(res.row, v) <==>
      v(LocalDiscountedCapitalInvestment(l, t, y)) * Pow(1.0 + LocalDiscountRate(I, l), YearsSinceStart(I, y)) == v(LocalCapitalInvestment(l, t, y))
  {
    PowZero(1.0 + LocalDiscountRate(I, l), YearsSinceStart(I, y));
    if HubMatch(I.params, l, t) then
      DiscountedRel(LocalDiscountedCapitalInvestment(l, t, y), LocalCapitalInvestment(l, t, y), Pow(1.0 + LocalDiscountRate(I, l), YearsSinceStart(I, y)))
    else Skip
  }

  /** CC3: regional discounted investment is the weighted local one of the relevant locations. */
  function CC3(I: Instance, r: Region, t: Tech, y: Year): (res: Outcome<Relation>)
    ensures res.Fail? <==> !IsFlag(I.params.hubTechnology.Get(t))
    ensures res.Emit? ==> forall v :: RelSatisfied(res.row, v) <==>
      v(DiscountedCapitalInvestment(r, t, y)) ==
        WeightedSum(RelevantLocation(I, t).value, l => I.params.geography.Get((r, l)), l => LocalDiscountedCapitalInvestment(l, t, y), v)
  {
    RegionalTotal(I, r, t, DiscountedCapitalInvestment(r, t, y), l => LocalDiscountedCapitalInvestment(l, t, y))
  }

  //////////////////////// Salvage value ////////////////////////

  /**
   * SV1: the straight-line branch depreciates the investment over the years
   * from the start of y's period to the end of the horizon.
   */
  function SV1(I: Instance, rpow: (real, real) -> real, r: Region, t: Tech, y: Year): (res: Outcome<Relation>)
    requires y in I.sets.year
    ensures !res.Skip?
    ensures res.Fail? <==>
      || (SalvageBranch(I, r, t, y, OutlivesHorizon(I, r, t, y)) == Annuity && rpow(1.0 + I.params.discountRate.Get(r), I.params.operationalLife.Get((r, t))) == 1.0)
      || (SalvageBranch(I, r, t, y, OutlivesHorizon(I, r, t, y)) == StraightLine && I.params.operationalLife.Get((r, t)) == 0.0)
    ensures res.Emit? && SalvageBranch(I, r, t, y, OutlivesHorizon(I, r, t, y)) == NoSalvage ==>
      forall v :: RelSatisfied(res.row, v) <==> v(SalvageValue(r, t, y)) == 0.0
    ensures res.Emit? && SalvageBranch(I, r, t, y, OutlivesHorizon(I, r, t, y)) == StraightLine ==>
      forall v :: RelSatisfied(res.row, v) <==>
        v(SalvageValue(r, t, y)) == I.params.capitalCost.Get((r, t, y)) * v(NewCapacity(r, t, y)) *
          StraightLineFraction(ServedYears(I, y), I.params.operationalLife.Get((r, t)))
    ensures res.Emit? && SalvageBranch(I, r, t, y, OutlivesHorizon(I, r, t, y)) == Annuity ==>
      forall v :: RelSatisfied(res.row, v) <==>
        v(SalvageValue(r, t, y)) == I.params.capitalCost.Get((r, t, y)) * v(NewCapacity(r, t, y)) *
          AnnuityFraction(rpow, I.params.discountRate.Get(r), ServedYears(I, y), I.params.operationalLife.Get((r, t)))
  {
    SalvageRel(I, rpow, r, t, y, ServedYears(I, y))
  }

  //////////////////////// Operating costs ////////////////////////

  /** OC1: variable operating cost is the activity in each mode times its variable cost. */
  function OC1(I: Instance, l: Loc, t: Tech, y: Year): (res: Outcome<Relation>)
    ensures !res.Fail?
    ensures res.Emit? <==> HubMatch(I.params, l, t)
    ensures res.Emit? ==> forall v :: RelSatisfied(res.row, v) <==>
      v(LocalVariableOperatingCost(l, t, y)) == WeightedSum(ModesOf(I, t), m => LocalVariableCost(I, l, t, m, y), m => LocalActivityByMode(l, t, m, y), v)
  {
    if HubMatch(I.params, l, t) then
      Emit(Relation(Var(1.0, LocalVariableOperatingCost(l, t, y)), Eq, WeightedOf(ModesOf(I, t), m => LocalVariableCost(I, l, t, m, y), m => LocalActivityByMode(l, t, m, y))))
    else Skip
  }

  /** OC2: fixed operating cost is total capacity times the location's fixed cost. */
  function OC2(I: Instance, l: Loc, t: Tech, y: Year): (res: Outcome<Relation>)
    ensures !res.Fail?
    ensures res.Emit? <==> HubMatch(I.params, l, t)
    ensures res.Emit? ==> forall v :: RelSatisfied(res.row, v) <==>
      v(LocalFixedOperatingCost(l, t, y)) == v(LocalTotalCapacity(l, t, y)) * LocalFixedCost(I, l, t, y)
  {
    if HubMatch(I.params, l, t) then
      Emit(Relation(Var(1.0, LocalFixedOperatingCost(l, t, y)), Eq, Var(LocalFixedCost(I, l, t, y), LocalTotalCapacity(l, t, y))))
    else Skip
  }

  /** OC3: operating cost is fixed plus variable operating cost. */
  function OC3(I: Instance, l: Loc, t: Tech, y: Year): (res: Outcome<Relation>)
    ensures !res.Fail?
    ensures res.Emit? <==> HubMatch(I.params, l, t)
    ensures res.Emit? ==> forall v :: RelSatisfied(res.row, v) <==>
      v(LocalOperatingCost(l, t, y)) == v(LocalFixedOperatingCost(l, t, y)) + v(LocalVariableOperatingCost(l, t, y))
  {
    if HubMatch(I.params, l, t) then
      Emit(Relation(Var(1.0, LocalOperatingCost(l, t, y)), Eq, Plus(Var(1.0, LocalFixedOperatingCost(l, t, y)), Var(1.0, LocalVariableOperatingCost(l, t, y)))))
    else Skip
  }

  /** OC4: operating cost is discounted to the horizon's first year at the location's rate. */
  function OC4(I: Instance, rpow: (real, real) -> real, l: Loc, t: Tech, y: Year): (res: Outcome<Relation>)
    requires y in I.sets.year
    ensures res.Skip? <==> !HubMatch(I.params, l, t)
    ensures res.Fail? <==> HubMatch(I.params, l, t) && rpow(1.0 + LocalDiscountRate(I, l), YearsFromHorizonStart(I, y)) == 0.0
    ensures res.Emit? ==> forall v :: RelSatisfied(res.row, v) <==>
      v(LocalDiscountedOperatingCost(l, t, y)) * rpow(1.0 + LocalDiscountRate(I, l), YearsFromHorizonStart(I, y)) == v(LocalOperatingCost(l, t, y))
  {
    if HubMatch(I.params, l, t) then
      DiscountedRel(LocalDiscountedOperatingCost(l, t, y), LocalOperatingCost(l, t, y), rpow(1.0 + LocalDiscountRate(I, l), YearsFromHorizonStart(I, y)))
    else Skip
  }

  /** OC5: regional discounted operating cost is the weighted local one of the relevant locations. */
  function OC5(I: Instance, r: Region, t: Tech, y: Year): (res: Outcome<Relation>)
    ensures res.Fail? <==> !IsFlag(I.params.hubTechnology.Get(t))
    ensures res.Emit? ==> forall v :: RelSatisfied(res.row, v) <==>
      v(DiscountedOperatingCost(r, t, y)) ==
        WeightedSum(RelevantLocation(I, t).value, l => I.params.geography.Get((r, l)), l => LocalDiscountedOperatingCost(l, t, y), v)
  {
    RegionalTotal(I, r, t, DiscountedOperatingCost(r, t, y), l => LocalDiscountedOperatingCost(l, t, y))
  }

  //////////////////////// Transport costs ////////////////////////

  /**
   * TC1: the transport cost of a location is what arrives over each routed
   * link times the mode's cost; a hub also pays the inter-regional cost of
   * what arrives from other hubs.
   */
  function TC1(I: Instance, l: Loc, p: Product, y: Year): (res: Outcome<Relation>)
    ensures res.Emit? && res.row.sense == Eq
    ensures forall v :: RelSatisfied(res.row, v) <==>
      v(LocalTransportCost(l, p, y)) ==
        WeightedSum(Arrivals(I, l, p, y), (k: Link) => LocalModeCost(I, l, k.tr, y), (k: Link) => Flow(k, p, y), v) +
        (if I.params.hubLocation.Get(l) == 0.0 then 0.0
         else WeightedSum(HubArrivals(I, l, p, y), (k: Link) => InterRegionalCost(I, k.from, l, k.tr, y), (k: Link) => Flow(k, p, y), v))
  {
    var mode := WeightedOf(Arrivals(I, l, p, y), (k: Link) => LocalModeCost(I, l, k.tr, y), (k: Link) => Flow(k, p, y));
    if I.params.hubLocation.Get(l) == 0.0 then
      Emit(Relation(Var(1.0, LocalTransportCost(l, p, y)), Eq, mode))
    else
      var inter := WeightedOf(HubArrivals(I, l, p, y), (k: Link) => InterRegionalCost(I, k.from, l, k.tr, y), (k: Link) => Flow(k, p, y));
      Emit(Relation(Var(1.0, LocalTransportCost(l, p, y)), Eq, Plus(mode, inter)))
  }

  //////////////////////// Limits ////////////////////////

  /** An upper limit: no relation while the parameter holds the "no limit" sentinel. */
  function UpperLimit(col: Column, limit: real): (res: Outcome<Relation>)
    ensures !res.Fail?
    ensures res.Emit? <==> limit != HighMaxDefault
    ensures res.Emit? ==> res.row.sense == Le
    ensures res.Emit? ==> forall v :: RelSatisfied(res.row, v) <==> v(col) <= limit
  {
    if limit != HighMaxDefault then Emit(Relation(Var(1.0, col), Le, Const(limit))) else Skip
  }

  /** A lower limit: no relation while the parameter is 0. */
  function LowerLimit(col: Column, limit: real): (res: Outcome<Relation>)
    ensures !res.Fail?
    ensures res.Emit? <==> limit != 0.0
    ensures res.Emit? ==> res.row.sense == Ge
    ensures res.Emit? ==> forall v :: RelSatisfied(res.row, v) <==> v(col) >= limit
  {
    if limit != 0.0 then Emit(Relation(Var(1.0, col), Ge, Const(limit))) else Skip
  }

  /** TCC1: the regional total capacity stays under its maximum, where one is set. */
  function TCC1(I: Instance, r: Region, t: Tech, y: Year): (res: Outcome<Relation>)
    ensures !res.Fail?
    ensures res.Emit? <==> I.params.totalAnnualMaxCapacity.Get((r, t, y)) != HighMaxDefault
    ensures res.Emit? ==> forall v :: RelSatisfied(res.row, v) <==> v(TotalCapacity(r, t, y)) <= I.params.totalAnnualMaxCapacity.Get((r, t, y))
  {
    UpperLimit(TotalCapacity(r, t, y), I.params.totalAnnualMaxCapacity.Get((r, t, y)))
  }

  /** TCC2: the regional total capacity reaches its minimum, where one is set. */
  function TCC2(I: Instance, r: Region, t: Tech, y: Year): (res: Outcome<Relation>)
    ensures !res.Fail?
    ensures res.Emit? <==> I.params.totalAnnualMinCapacity.Get((r, t, y)) != 0.0
    ensures res.Emit? ==> forall v :: RelSatisfied(res.row, v) <==> v(TotalCapacity(r, t, y)) >= I.params.totalAnnualMinCapacity.Get((r, t, y))
  {
    LowerLimit(TotalCapacity(r, t, y), I.params.totalAnnualMinCapacity.Get((r, t, y)))
  }

  /** NCC1: new capacity at a location stays under its maximum investment, where one is set and `t` belongs at `l`. */
  function NCC1(I: Instance, l: Loc, t: Tech, y: Year): (res: Outcome<Relation>)
    ensures !res.Fail?
    ensures res.Emit? <==> I.params.localTotalAnnualMaxCapacityInvestment.Get((l, t, y)) != HighMaxDefault && HubMatch(I.params, l, t)
    ensures res.Emit? ==> forall v :: RelSatisfied(res.row, v) <==>
      v(LocalNewCapacity(l, t, y)) <= I.params.localTotalAnnualMaxCapacityInvestment.Get((l, t, y))
  {
    if I.params.localTotalAnnualMaxCapacityInvestment.Get((l, t, y)) != HighMaxDefault then
      if HubMatch(I.params, l, t) then UpperLimit(LocalNewCapacity(l, t, y), I.params.localTotalAnnualMaxCapacityInvestment.Get((l, t, y)))
      else Skip
    else Skip
  }

  /** NCC2: new capacity at a location reaches its minimum investment, where one is set and `t` belongs at `l`. */
  function NCC2(I: Instance, l: Loc, t: Tech, y: Year): (res: Outcome<Relation>)
    ensures !res.Fail?
    ensures res.Emit? <==> I.params.localTotalAnnualMinCapacityInvestment.Get((l, t, y)) != 0.0 && HubMatch(I.params, l, t)
    ensures res.Emit? ==> forall v :: RelSatisfied(res.row, v) <==>
      v(LocalNewCapacity(l, t, y)) >= I.params.localTotalAnnualMinCapacityInvestment.Get((l, t, y))
  {
    if I.params.localTotalAnnualMinCapacityInvestment.Get((l, t, y)) != 0.0 then
      if HubMatch(I.params, l, t) then LowerLimit(LocalNewCapacity(l, t, y), I.params.localTotalAnnualMinCapacityInvestment.Get((l, t, y)))
      else Skip
    else Skip
  }

  //////////////////////// Activity ////////////////////////

  /** AAC0: the activity of `t` at `l` is its activity summed over the technology's modes. */
  function AAC0(I: Instance, l: Loc, t: Tech, y: Year): (res: Outcome<Relation>)
    ensures !res.Fail?
    ensures res.Emit? <==> HubMatch(I.params, l, t)
    ensures res.Emit? ==> forall v :: RelSatisfied(res.row, v) <==>
      v(LocalActivity(l, t, y)) == ColumnSum(ModesOf(I, t), m => LocalActivityByMode(l, t, m, y), v)
  {
    if HubMatch(I.params, l, t) then Emit(Relation(Var(1.0, LocalActivity(l, t, y)), Eq, SumOf(ModesOf(I, t), m => LocalActivityByMode(l, t, m, y))))
    else Skip
  }

  /** AAC1: a region's activity is the weighted local activity of the relevant locations. */
  function AAC1(I: Instance, r: Region, t: Tech, y: Year): (res: Outcome<Relation>)
    ensures res.Fail? <==> !IsFlag(I.params.hubTechnology.Get(t))
    ensures res.Emit? ==> forall v :: RelSatisfied(res.row, v) <==>
      v(Activity(r, t, y)) == WeightedSum(RelevantLocation(I, t).value, l => I.params.geography.Get((r, l)), l => LocalActivity(l, t, y), v)
  {
    RegionalTotal(I, r, t, Activity(r, t, y), l => LocalActivity(l, t, y))
  }

  /** AAC2: a region's annual activity stays under its upper limit, where one is set. */
  function AAC2(I: Instance, r: Region, t: Tech, y: Year): (res: Outcome<Relation>)
    ensures !res.Fail?
    ensures res.Emit? <==> I.params.totalTechnologyAnnualActivityUpperLimit.Get((r, t, y)) != HighMaxDefault
    ensures res.Emit? ==> forall v :: RelSatisfied(res.row, v) <==> v(Activity(r, t, y)) <= I.params.totalTechnologyAnnualActivityUpperLimit.Get((r, t, y))
  {
    UpperLimit(Activity(r, t, y), I.params.totalTechnologyAnnualActivityUpperLimit.Get((r, t, y)))
  }

  /** AAC3: a region's annual activity reaches its lower limit, where one is set. */
  function AAC3(I: Instance, r: Region, t: Tech, y: Year): (res: Outcome<Relation>)
    ensures !res.Fail?
    ensures res.Emit? <==> I.params.totalTechnologyAnnualActivityLowerLimit.Get((r, t, y)) != 0.0
    ensures res.Emit? ==> forall v :: RelSatisfied(res.row, v) <==> v(Activity(r, t, y)) >= I.params.totalTechnologyAnnualActivityLowerLimit.Get((r, t, y))
  {
    LowerLimit(Activity(r, t, y), I.params.totalTechnologyAnnualActivityLowerLimit.Get((r, t, y)))
  }

  /** TAC2: model-period activity stays under its upper limit, where one is set. */
  function TAC2(I: Instance, r: Region, t: Tech): (res: Outcome<Relation>)
    ensures !res.Fail?
    ensures res.Emit? <==> I.params.totalTechnologyModelPeriodActivityUpperLimit.Get((r, t)) != HighMaxDefault
    ensures res.Emit? ==> forall v :: RelSatisfied(res.row, v) <==> v(ModelPeriodActivity(r, t)) <= I.params.totalTechnologyModelPeriodActivityUpperLimit.Get((r, t))
  {
    UpperLimit(ModelPeriodActivity(r, t), I.params.totalTechnologyModelPeriodActivityUpperLimit.Get((r, t)))
  }

  /** TAC3: model-period activity reaches its lower limit, where one is set. */
  function TAC3(I: Instance, r: Region, t: Tech): (res: Outcome<Relation>)
    ensures !res.Fail?
    ensures res.Emit? <==> I.params.totalTechnologyModelPeriodActivityLowerLimit.Get((r, t)) != 0.0
    ensures res.Emit? ==> forall v :: RelSatisfied(res.row, v) <==> v(ModelPeriodActivity(r, t)) >= I.params.totalTechnologyModelPeriodActivityLowerLimit.Get((r, t))
  {
    LowerLimit(ModelPeriodActivity(r, t), I.params.totalTechnologyModelPeriodActivityLowerLimit.Get((r, t)))
  }

  //////////////////////// Emissions ////////////////////////

  /**
   * E1: emission by mode is activity by mode times the location's emission
   * ratio; a zero ratio pins the emission to 0 without mentioning activity.
   */
  function E1(I: Instance, l: Loc, t: Tech, e: Emission, m: Mode, y: Year): (res: Outcome<Relation>)
    ensures !res.Fail?
    ensures res.Emit? <==> HubMatch(I.params, l, t) && I.params.modeForTechnology.Get((t, m)) == 1.0
    ensures res.Emit? ==> res.row.sense == Eq
    ensures res.Emit? ==> forall v :: RelSatisfied(res.row, v) <==>
      v(LocalTechnologyEmissionByMode(l, t, e, m, y)) == LocalEmissionRatio(I, l, t, e, m, y) * v(LocalActivityByMode(l, t, m, y))
  {
    if HubMatch(I.params, l, t) then
      if I.params.modeForTechnology.Get((t, m)) == 1.0 then
        var ratio := LocalEmissionRatio(I, l, t, e, m, y);
        if ratio != 0.0 then
          Emit(Relation(Var(1.0, LocalTechnologyEmissionByMode(l, t, e, m, y)), Eq, Var(ratio, LocalActivityByMode(l, t, m, y))))
        else
          Emit(Relation(Var(1.0, LocalTechnologyEmissionByMode(l, t, e, m, y)), Eq, Const(0.0)))
      else Skip
    else Skip
  }

  /** E2: the emission of `t` at `l` is its emission summed over the technology's modes. */
  function E2(I: Instance, l: Loc, t: Tech, e: Emission, y: Year): (res: Outcome<Relation>)
    ensures !res.Fail?
    ensures res.Emit? <==> HubMatch(I.params, l, t)
    ensures res.Emit? ==> forall v :: RelSatisfied(res.row, v) <==>
      v(LocalTechnologyEmission(l, t, e, y)) == ColumnSum(ModesOf(I, t), m => LocalTechnologyEmissionByMode(l, t, e, m, y), v)
  {
    if HubMatch(I.params, l, t) then
      Emit(Relation(Var(1.0, LocalTechnologyEmission(l, t, e, y)), Eq, SumOf(ModesOf(I, t), m => LocalTechnologyEmissionByMode(l, t, e, m, y))))
    else Skip
  }

  /** E3: a region's annual emission of `t` is the weighted local one of the relevant locations. */
  function E3(I: Instance, r: Region, t: Tech, e: Emission, y: Year): (res: Outcome<Relation>)
    ensures res.Fail? <==> !IsFlag(I.params.hubTechnology.Get(t))
    ensures res.Emit? ==> forall v :: RelSatisfied(res.row, v) <==>
      v(AnnualTechnologyEmission(r, t, e, y)) ==
        WeightedSum(RelevantLocation(I, t).value, l => I.params.geography.Get((r, l)), l => LocalTechnologyEmission(l, t, e, y), v)
  {
    RegionalTotal(I, r, t, AnnualTechnologyEmission(r, t, e, y), l => LocalTechnologyEmission(l, t, e, y))
  }

  /** E9: annual emission plus the exogenous emission stays under the annual limit, where one is set. */
  function E9(I: Instance, r: Region, e: Emission, y: Year): (res: Outcome<Relation>)
    ensures !res.Fail?
    ensures res.Emit? <==> I.params.annualEmissionLimit.Get((r, e, y)) != HighMaxDefault
    ensures res.Emit? ==> forall v :: RelSatisfied(res.row, v) <==>
      v(AnnualEmissions(r, e, y)) + I.params.annualExogenousEmission.Get((r, e, y)) <= I.params.annualEmissionLimit.Get((r, e, y))
  {
    if I.params.annualEmissionLimit.Get((r, e, y)) != HighMaxDefault then
      Emit(Relation(Plus(Var(1.0, AnnualEmissions(r, e, y)), Const(I.params.annualExogenousEmission.Get((r, e, y)))), Le, Const(I.params.annualEmissionLimit.Get((r, e, y)))))
    else Skip
  }

  /** E10: model-period emission stays under its limit, where one is set. */
  function E10(I: Instance, r: Region, e: Emission): (res: Outcome<Relation>)
    ensures !res.Fail?
    ensures res.Emit? <==> I.params.modelPeriodEmissionLimit.Get((r, e)) != HighMaxDefault
    ensures res.Emit? ==> forall v :: RelSatisfied(res.row, v) <==> v(ModelPeriodEmissions(r, e)) <= I.params.modelPeriodEmissionLimit.Get((r, e))
  {
    UpperLimit(ModelPeriodEmissions(r, e), I.params.modelPeriodEmissionLimit.Get((r, e)))
  }
}
