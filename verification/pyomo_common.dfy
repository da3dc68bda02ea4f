/**
 * The pyomo rules that src/itom.py and src/itom_hub.py write identically.
 * A pyomo rule returns a relation between two linear expressions, or
 * `Constraint.Skip`; each contract states which valuations of the decision
 * variables satisfy the relation.
 */
module PyomoCommon {
  import opened Basics
  import opened ModelData
  import opened Linear
  import opened Network
  import opened Horizon
  import opened Accounts

  /** The objective: the model-period cost summed over the regions. */
  function Objective(I: Instance): (e: Expr)
    ensures forall v :: ExprValue(e, v) == ColumnSum(I.sets.region, r => ModelPeriodCostByRegion(r), v)
  {
    SumOf(I.sets.region, r => ModelPeriodCostByRegion(r))
  }

  /** PB9: production plus imports less exports covers demand. */
  function PB9(I: Instance, r: Region, p: Product, y: Year): (res: Outcome<Relation>)
    ensures res.Emit? && res.row.sense == Ge
    ensures forall v :: RelSatisfied(res.row, v) <==>
      v(Production(r, p, y)) + v(Import(r, p, y)) - v(Export(r, p, y)) >= I.params.demand.Get((r, p, y))
  {
    Emit(Relation(Minus(Plus(Var(1.0, Production(r, p, y)), Var(1.0, Import(r, p, y))), Var(1.0, Export(r, p, y))), Ge, Const(I.params.demand.Get((r, p, y)))))
  }

  /** TF3: what arrives at a location over its routed links is its use. */
  function TF3(I: Instance, l: Loc, p: Product, y: Year): (res: Outcome<Relation>)
    ensures res.Emit? && res.row.sense == Eq
    ensures forall v :: RelSatisfied(res.row, v) <==>
      ColumnSum(Arrivals(I, l, p, y), k => Flow(k, p, y), v) == v(LocalUse(l, p, y))
  {
    Emit(Relation(SumOf(Arrivals(I, l, p, y), k => Flow(k, p, y)), Eq, Var(1.0, LocalUse(l, p, y))))
  }

  /**
   * The Geography weight pyomo gives a link in region `r`'s import row: the
   * destination's membership times the origin's non-membership. The nested
   * sum over destinations, origins and modes is multiplied out.
   */
  function ImportWeight(I: Instance, r: Region): Link -> real
  {
    (k: Link) => (1.0 - I.params.geography.Get((r, k.from))) * I.params.geography.Get((r, k.to))
  }

  /** The weight of a link in region `r`'s export row: the origin's membership times the destination's non-membership. */
  function ExportWeight(I: Instance, r: Region): Link -> real
  {
    (k: Link) => (1.0 - I.params.geography.Get((r, k.to))) * I.params.geography.Get((r, k.from))
  }

  /** TF4: a region's imports are every routed flow weighted by how far it enters the region. */
  function TF4(I: Instance, r: Region, p: Product, y: Year): (res: Outcome<Relation>)
    ensures res.Emit? && res.row.sense == Eq
    ensures forall v :: RelSatisfied(res.row, v) <==>
      v(Import(r, p, y)) == WeightedSum(InboundLinks(I, p, y), ImportWeight(I, r), k => Flow(k, p, y), v)
  {
    Emit(Relation(Var(1.0, Import(r, p, y)), Eq, WeightedOf(InboundLinks(I, p, y), ImportWeight(I, r), k => Flow(k, p, y))))
  }

  /** TF5: a region's exports are every routed flow weighted by how far it leaves the region. */
  function TF5(I: Instance, r: Region, p: Product, y: Year): (res: Outcome<Relation>)
    ensures res.Emit? && res.row.sense == Eq
    ensures forall v :: RelSatisfied(res.row, v) <==>
      v(Export(r, p, y)) == WeightedSum(OutboundLinks(I, p, y), ExportWeight(I, r), k => Flow(k, p, y), v)
  {
    Emit(Relation(Var(1.0, Export(r, p, y)), Eq, WeightedOf(OutboundLinks(I, p, y), ExportWeight(I, r), k => Flow(k, p, y))))
  }

  /** SV2: the salvage value is discounted over the whole horizon to its first year. */
  function SV2(I: Instance, rpow: (real, real) -> real, r: Region, t: Tech, y: Year): (res: Outcome<Relation>)
    requires y in I.sets.year
    ensures !res.Skip?
    ensures res.Fail? <==> rpow(1.0 + I.params.discountRate.Get(r), HorizonLength(I)) == 0.0
    ensures res.Emit? ==> forall v :: RelSatisfied(res.row, v) <==>
      v(DiscountedSalvageValue(r, t, y)) * rpow(1.0 + I.params.discountRate.Get(r), HorizonLength(I)) == v(SalvageValue(r, t, y))
  {
    DiscountedRel(DiscountedSalvageValue(r, t, y), SalvageValue(r, t, y), rpow(1.0 + I.params.discountRate.Get(r), HorizonLength(I)))
  }

  /** TC2: transport cost is discounted to the horizon's first year at the location's rate. */
  function TC2(I: Instance, rpow: (real, real) -> real, l: Loc, p: Product, y: Year): (res: Outcome<Relation>)
    requires y in I.sets.year
    ensures !res.Skip?
    ensures res.Fail? <==> rpow(1.0 + LocalDiscountRate(I, l), YearsFromHorizonStart(I, y)) == 0.0
    ensures res.Emit? ==> forall v :: RelSatisfied(res.row, v) <==>
      v(LocalDiscountedTransportCost(l, p, y)) * rpow(1.0 + LocalDiscountRate(I, l), YearsFromHorizonStart(I, y)) == v(LocalTransportCost(l, p, y))
  {
    DiscountedRel(LocalDiscountedTransportCost(l, p, y), LocalTransportCost(l, p, y), rpow(1.0 + LocalDiscountRate(I, l), YearsFromHorizonStart(I, y)))
  }

  /** TC3: a region's discounted transport cost for a product is the Geography-weighted cost of every location. */
  function TC3(I: Instance, r: Region, p: Product, y: Year): (res: Outcome<Relation>)
    ensures res.Emit? && res.row.sense == Eq
    ensures forall v :: RelSatisfied(res.row, v) <==>
      v(DiscountedTransportCostByProduct(r, p, y)) == WeightedSum(I.sets.location, l => I.params.geography.Get((r, l)), l => LocalDiscountedTransportCost(l, p, y), v)
  {
    Emit(Relation(Var(1.0, DiscountedTransportCostByProduct(r, p, y)), Eq,
                  WeightedOf(I.sets.location, l => I.params.geography.Get((r, l)), l => LocalDiscountedTransportCost(l, p, y))))
  }

  /** TC4: a region's discounted transport cost is summed over the products. */
  function TC4(I: Instance, r: Region, y: Year): (res: Outcome<Relation>)
    ensures res.Emit? && res.row.sense == Eq
    ensures forall v :: RelSatisfied(res.row, v) <==>
      v(DiscountedTransportCost(r, y)) == ColumnSum(I.sets.product, p => DiscountedTransportCostByProduct(r, p, y), v)
  {
    Emit(Relation(Var(1.0, DiscountedTransportCost(r, y)), Eq, SumOf(I.sets.product, p => DiscountedTransportCostByProduct(r, p, y))))
  }

  /**
   * TDC1: a region's total discounted cost in a year is the net cost of every
   * technology plus the discounted transport cost. The index `t` is never
   * read, so every technology yields this same relation.
   */
  function TDC1(I: Instance, r: Region, t: Tech, y: Year): (res: Outcome<Relation>)
    ensures res.Emit? && res.row.sense == Eq
    ensures forall v :: RelSatisfied(res.row, v) <==>
      v(TotalDiscountedCost(r, y)) == Sum(I.sets.technology, NetTechnologyCost(r, y, v)) + v(DiscountedTransportCost(r, y))
  {
    var ts := I.sets.technology;
    var techs := Minus(Plus(Plus(SumOf(ts, t => DiscountedOperatingCost(r, t, y)), SumOf(ts, t => DiscountedCapitalInvestment(r, t, y))),
                            SumOf(ts, t => DiscountedTechnologyEmissionsPenalty(r, t, y))),
                       SumOf(ts, t => DiscountedSalvageValue(r, t, y)));
    forall v ensures ExprValue(techs, v) == Sum(ts, NetTechnologyCost(r, y, v)) {
      NetCostSplits(ts, r, y, v);
    }
    Emit(Relation(Var(1.0, TotalDiscountedCost(r, y)), Eq, Plus(techs, Var(1.0, DiscountedTransportCost(r, y)))))
  }

  /** TDC2: a region's model-period cost is its total discounted cost summed over the years. */
  function TDC2(I: Instance, r: Region): (res: Outcome<Relation>)
    ensures res.Emit? && res.row.sense == Eq
    ensures forall v :: RelSatisfied(res.row, v) <==>
      v(ModelPeriodCostByRegion(r)) == ColumnSum(I.sets.year, y => TotalDiscountedCost(r, y), v)
  {
    Emit(Relation(Var(1.0, ModelPeriodCostByRegion(r)), Eq, SumOf(I.sets.year, y => TotalDiscountedCost(r, y))))
  }

  /** TDC3: the model-period cost is summed over the regions, the same sum as the objective. */
  function TDC3(I: Instance): (res: Outcome<Relation>)
    ensures res.Emit? && res.row.sense == Eq
    ensures forall v :: RelSatisfied(res.row, v) <==> v(ModelPeriodCost) == ExprValue(Objective(I), v)
  {
    Emit(Relation(Var(1.0, ModelPeriodCost), Eq, SumOf(I.sets.region, r => ModelPeriodCostByRegion(r))))
  }

  /** TAC1: a region's model-period activity is its annual activity summed over the years. */
  function TAC1(I: Instance, r: Region, t: Tech): (res: Outcome<Relation>)
    ensures res.Emit? && res.row.sense == Eq
    ensures forall v :: RelSatisfied(res.row, v) <==> v(ModelPeriodActivity(r, t)) == ColumnSum(I.sets.year, y => Activity(r, t, y), v)
  {
    Emit(Relation(Var(1.0, ModelPeriodActivity(r, t)), Eq, SumOf(I.sets.year, y => Activity(r, t, y))))
  }

  /** E4: the penalty for an emission is the emission times the region's penalty rate. */
  function E4(I: Instance, r: Region, t: Tech, e: Emission, y: Year): (res: Outcome<Relation>)
    ensures res.Emit? && res.row.sense == Eq
    ensures forall v :: RelSatisfied(res.row, v) <==>
      v(AnnualTechnologyEmissionPenaltyByEmission(r, t, e, y)) == v(AnnualTechnologyEmission(r, t, e, y)) * I.params.emissionsPenalty.Get((r, e, y))
  {
    Emit(Relation(Var(1.0, AnnualTechnologyEmissionPenaltyByEmission(r, t, e, y)), Eq,
                  Var(I.params.emissionsPenalty.Get((r, e, y)), AnnualTechnologyEmission(r, t, e, y))))
  }

  /** E5: a technology's emission penalty is summed over the emission types. */
  function E5(I: Instance, r: Region, t: Tech, y: Year): (res: Outcome<Relation>)
    ensures res.Emit? && res.row.sense == Eq
    ensures forall v :: RelSatisfied(res.row, v) <==>
      v(AnnualTechnologyEmissionsPenalty(r, t, y)) == ColumnSum(I.sets.emission, e => AnnualTechnologyEmissionPenaltyByEmission(r, t, e, y), v)
  {
    Emit(Relation(Var(1.0, AnnualTechnologyEmissionsPenalty(r, t, y)), Eq, SumOf(I.sets.emission, e => AnnualTechnologyEmissionPenaltyByEmission(r, t, e, y))))
  }

  /** E6: the emission penalty is discounted to the horizon's first year at the region's rate. */
  function E6(I: Instance, rpow: (real, real) -> real, r: Region, t: Tech, y: Year): (res: Outcome<Relation>)
    requires y in I.sets.year
    ensures !res.Skip?
    ensures res.Fail? <==> rpow(1.0 + I.params.discountRate.Get(r), YearsFromHorizonStart(I, y)) == 0.0
    ensures res.Emit? ==> forall v :: RelSatisfied(res.row, v) <==>
      v(DiscountedTechnologyEmissionsPenalty(r, t, y)) * rpow(1.0 + I.params.discountRate.Get(r), YearsFromHorizonStart(I, y)) == v(AnnualTechnologyEmissionsPenalty(r, t, y))
  {
    DiscountedRel(DiscountedTechnologyEmissionsPenalty(r, t, y), AnnualTechnologyEmissionsPenalty(r, t, y), rpow(1.0 + I.params.discountRate.Get(r), YearsFromHorizonStart(I, y)))
  }

  /** E7: a region's annual emission is summed over the technologies. */
  function E7(I: Instance, r: Region, e: Emission, y: Year): (res: Outcome<Relation>)
    ensures res.Emit? && res.row.sense == Eq
    ensures forall v :: RelSatisfied(res.row, v) <==>
      v(AnnualEmissions(r, e, y)) == ColumnSum(I.sets.technology, t => AnnualTechnologyEmission(r, t, e, y), v)
  {
    Emit(Relation(Var(1.0, AnnualEmissions(r, e, y)), Eq, SumOf(I.sets.technology, t => AnnualTechnologyEmission(r, t, e, y))))
  }

  /** E8: model-period emission is the annual emission summed over the years, plus the exogenous emission. */
  function E8(I: Instance, r: Region, e: Emission): (res: Outcome<Relation>)
    ensures res.Emit? && res.row.sense == Eq
    ensures forall v :: RelSatisfied(res.row, v) <==>
      v(ModelPeriodEmissions(r, e)) == ColumnSum(I.sets.year, y => AnnualEmissions(r, e, y), v) + I.params.modelPeriodExogenousEmission.Get((r, e))
  {
    Emit(Relation(Var(1.0, ModelPeriodEmissions(r, e)), Eq,
                  Plus(SumOf(I.sets.year, y => AnnualEmissions(r, e, y)), Const(I.params.modelPeriodExogenousEmission.Get((r, e))))))
  }

  /**
   * The SV1 relation both pyomo variants write, given the number of years
   * `served` their straight-line branch depreciates over: sinking-fund
   * depreciation over the served period, straight-line depreciation, or no
   * salvage value. The branch is picked with the life test
   * `y + TimeStep(y)/2 + life - 1 > HorizonEnd`.
   */
  function SalvageRel(I: Instance, rpow: (real, real) -> real, r: Region, t: Tech, y: Year, served: real): (res: Outcome<Relation>)
    requires |I.sets.year| > 0
    ensures !res.Skip?
    ensures res.Fail? <==>
      || (SalvageBranch(I, r, t, y, OutlivesHorizon(I, r, t, y)) == Annuity && rpow(1.0 + I.params.discountRate.Get(r), I.params.operationalLife.Get((r, t))) == 1.0)
      || (SalvageBranch(I, r, t, y, OutlivesHorizon(I, r, t, y)) == StraightLine && I.params.operationalLife.Get((r, t)) == 0.0)
    ensures res.Fail? ==> res.error == ZeroDivision
    ensures res.Emit? ==> res.row.sense == Eq
    ensures res.Emit? && SalvageBranch(I, r, t, y, OutlivesHorizon(I, r, t, y)) == Annuity ==>
      forall v :: RelSatisfied(res.row, v) <==>
        v(SalvageValue(r, t, y)) == I.params.capitalCost.Get((r, t, y)) * v(NewCapacity(r, t, y)) *
          AnnuityFraction(rpow, I.params.discountRate.Get(r), ServedYears(I, y), I.params.operationalLife.Get((r, t)))
    ensures res.Emit? && SalvageBranch(I, r, t, y, OutlivesHorizon(I, r, t, y)) == StraightLine ==>
      forall v :: RelSatisfied(res.row, v) <==>
        v(SalvageValue(r, t, y)) == I.params.capitalCost.Get((r, t, y)) * v(NewCapacity(r, t, y)) * StraightLineFraction(served, I.params.operationalLife.Get((r, t)))
    ensures res.Emit? && SalvageBranch(I, r, t, y, OutlivesHorizon(I, r, t, y)) == NoSalvage ==>
      forall v :: RelSatisfied(res.row, v) <==> v(SalvageValue(r, t, y)) == 0.0
  {
    var P := I.params;
    var cc, dr, life := P.capitalCost.Get((r, t, y)), P.discountRate.Get(r), P.operationalLife.Get((r, t));
    match SalvageBranch(I, r, t, y, OutlivesHorizon(I, r, t, y))
    case Annuity =>
      if rpow(1.0 + dr, life) - 1.0 == 0.0 then Fail(ZeroDivision)
      else
        var f := AnnuityFraction(rpow, dr, ServedYears(I, y), life);
        var rel := Relation(Var(1.0, SalvageValue(r, t, y)), Eq, Var(cc * f, NewCapacity(r, t, y)));
        forall v: Valuation ensures (cc * f) * v(NewCapacity(r, t, y)) == cc * v(NewCapacity(r, t, y)) * f {
          Rearrange(cc, f, v(NewCapacity(r, t, y)));
        }
        Emit(rel)
    case StraightLine =>
      if life == 0.0 then Fail(ZeroDivision)
      else
        var f := StraightLineFraction(served, life);
        var rel := Relation(Var(1.0, SalvageValue(r, t, y)), Eq, Var(cc * f, NewCapacity(r, t, y)));
        forall v: Valuation ensures (cc * f) * v(NewCapacity(r, t, y)) == cc * v(NewCapacity(r, t, y)) * f {
          Rearrange(cc, f, v(NewCapacity(r, t, y)));
        }
        Emit(rel)
    case NoSalvage => Emit(Relation(Var(1.0, SalvageValue(r, t, y)), Eq, Const(0.0)))
  }

  /** Moving a variable between the two factors of a coefficient: `(cc * f) * x == cc * x * f`. */
  lemma Rearrange(a: real, b: real, c: real)
    ensures (a * b) * c == a * c * b
  {
  }
}
