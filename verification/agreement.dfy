/**
 * How the three assemblers relate. The hub variant exists twice, once
 * emitting tinyomo rows and once pyomo relations, and the two are meant to
 * state the same constraints; the variant without hubs is what the hub
 * variant is meant to reduce to when no location or technology is a hub.
 * Each lemma below either proves that two rules agree (same skip, same
 * exception, or constraints satisfied by exactly the same valuations), or
 * exhibits an instance on which they do not.
 */
module Backends {
  import opened Basics
  import opened ModelData
  import opened Linear
  import opened Network
  import opened Horizon
  import HubTinyomo
  import HubPyomo
  import NoHub
  import PyomoCommon

  //////////////////////// Hub variant: tinyomo against pyomo ////////////////////////

  /**
   * The tinyomo regional totals keep the relevant locations whose Geography
   * entry is 1; the pyomo ones weight every relevant location by that entry.
   * The two agree wherever Geography is a 0/1 table.
   */
  lemma RegionalTotalsAgree(I: Instance, r: Region, t: Tech, total: Column, local: Loc -> Column)
    requires BinaryGeography(I, r, I.sets.location)
    ensures Agree(HubTinyomo.RegionalTotal(I, r, t, total, local), HubPyomo.RegionalTotal(I, r, t, total, local))
  {
    var a, b := HubTinyomo.RegionalTotal(I, r, t, total, local), HubPyomo.RegionalTotal(I, r, t, total, local);
    if IsFlag(I.params.hubTechnology.Get(t)) {
      var relevant := RelevantLocation(I, t).value;
      forall v: Valuation ensures Satisfied(a.row, v) <==> RelSatisfied(b.row, v) {
        RegionalSumSelects(I, r, relevant, local, v);
      }
    }
  }

  /** Over locations whose Geography entries are 0 or 1, the weighted sum is the sum over the region's members. */
  lemma RegionalSumSelects(I: Instance, r: Region, ls: seq<Loc>, local: Loc -> Column, v: Valuation)
    requires forall l :: l in ls ==> IsFlag(I.params.geography.Get((r, l)))
    ensures WeightedSum(ls, l => I.params.geography.Get((r, l)), local, v) == ColumnSum(InRegion(I, r, ls), local, v)
  {
    WeightedByFlags(ls, l => I.params.geography.Get((r, l)), l => I.params.geography.Get((r, l)) == 1.0, local, v);
  }

  /** CA0, CA2, CA4, CC3, OC5 and E3 agree across the backends wherever Geography is a 0/1 table. */
  lemma RegionalRulesAgree(I: Instance, r: Region, t: Tech, e: Emission, y: Year)
    requires BinaryGeography(I, r, I.sets.location)
    ensures Agree(HubTinyomo.CA0(I, r, t, y), HubPyomo.CA0(I, r, t, y))
    ensures Agree(HubTinyomo.CA2(I, r, t, y), HubPyomo.CA2(I, r, t, y))
    ensures Agree(HubTinyomo.CA4(I, r, t, y), HubPyomo.CA4(I, r, t, y))
    ensures Agree(HubTinyomo.CC3(I, r, t, y), HubPyomo.CC3(I, r, t, y))
    ensures Agree(HubTinyomo.OC5(I, r, t, y), HubPyomo.OC5(I, r, t, y))
    ensures Agree(HubTinyomo.E3(I, r, t, e, y), HubPyomo.E3(I, r, t, e, y))
  {
    RegionalTotalsAgree(I, r, t, NewCapacity(r, t, y), l => LocalNewCapacity(l, t, y));
    RegionalTotalsAgree(I, r, t, AccumulatedNewCapacity(r, t, y), l => LocalAccumulatedNewCapacity(l, t, y));
    RegionalTotalsAgree(I, r, t, TotalCapacity(r, t, y), l => LocalTotalCapacity(l, t, y));
    RegionalTotalsAgree(I, r, t, DiscountedCapitalInvestment(r, t, y), l => LocalDiscountedCapitalInvestment(l, t, y));
    RegionalTotalsAgree(I, r, t, DiscountedOperatingCost(r, t, y), l => LocalDiscountedOperatingCost(l, t, y));
    RegionalTotalsAgree(I, r, t, AnnualTechnologyEmission(r, t, e, y), l => LocalTechnologyEmission(l, t, e, y));
  }

  /** TC3 agrees across the backends wherever Geography is a 0/1 table. */
  lemma TransportCostByProductAgrees(I: Instance, r: Region, p: Product, y: Year)
    requires BinaryGeography(I, r, I.sets.location)
    ensures Agree(HubTinyomo.TC3(I, r, p, y), PyomoCommon.TC3(I, r, p, y))
  {
    var a, b := HubTinyomo.TC3(I, r, p, y), PyomoCommon.TC3(I, r, p, y);
    forall v: Valuation ensures Satisfied(a.row, v) <==> RelSatisfied(b.row, v) {
      RegionalSumSelects(I, r, I.sets.location, l => LocalDiscountedTransportCost(l, p, y), v);
    }
  }

  /** The capacity, product-balance, operating-cost and emission rules local to one location agree across the backends. */
  lemma LocalRulesAgree(I: Instance, l: Loc, p: Product, t: Tech, m: Mode, e: Emission, y: Year)
    ensures Agree(HubTinyomo.CA1(I, l, t, y), HubPyomo.CA1(I, l, t, y))
    ensures Agree(HubTinyomo.CA3(I, l, t, y), HubPyomo.CA3(I, l, t, y))
    ensures Agree(HubTinyomo.CA5(I, l, t, y), HubPyomo.CA5(I, l, t, y))
    ensures Agree(HubTinyomo.PB1(I, l, p, t, m, y), HubPyomo.PB1(I, l, p, t, m, y))
    ensures Agree(HubTinyomo.PB2(I, l, p, t, y), HubPyomo.PB2(I, l, p, t, y))
    ensures Agree(HubTinyomo.PB3(I, l, p, y), HubPyomo.PB3(I, l, p, y))
    ensures Agree(HubTinyomo.PB5(I, l, p, t, m, y), HubPyomo.PB5(I, l, p, t, m, y))
    ensures Agree(HubTinyomo.PB6(I, l, p, t, y), HubPyomo.PB6(I, l, p, t, y))
    ensures Agree(HubTinyomo.PB7(I, l, p, y), HubPyomo.PB7(I, l, p, y))
    ensures Agree(HubTinyomo.CC1(I, l, t, y), HubPyomo.CC1(I, l, t, y))
    ensures Agree(HubTinyomo.OC1(I, l, t, y), HubPyomo.OC1(I, l, t, y))
    ensures Agree(HubTinyomo.OC2(I, l, t, y), HubPyomo.OC2(I, l, t, y))
    ensures Agree(HubTinyomo.OC3(I, l, t, y), HubPyomo.OC3(I, l, t, y))
    ensures Agree(HubTinyomo.AAC0(I, l, t, y), HubPyomo.AAC0(I, l, t, y))
    ensures Agree(HubTinyomo.E1(I, l, t, e, m, y), HubPyomo.E1(I, l, t, e, m, y))
    ensures Agree(HubTinyomo.E2(I, l, t, e, y), HubPyomo.E2(I, l, t, e, y))
  {
  }

  /** The regional rules weighted by Geography in both backends agree on every instance. */
  lemma WeightedRulesAgree(I: Instance, r: Region, p: Product, t: Tech, y: Year)
    ensures Agree(HubTinyomo.PB4(I, r, p, y), HubPyomo.PB4(I, r, p, y))
    ensures Agree(HubTinyomo.PB8(I, r, p, y), HubPyomo.PB8(I, r, p, y))
    ensures Agree(HubTinyomo.AAC1(I, r, t, y), HubPyomo.AAC1(I, r, t, y))
  {
  }

  /** TF1a agrees across the backends: the same links get a bound, and the same one. */
  lemma SinglePurposeLinkAgrees(I: Instance, l: Loc, ll: Loc, p: Product, tr: TransportMode, y: Year)
    ensures Agree(HubTinyomo.TF1a(I, l, ll, p, tr, y), HubPyomo.TF1a(I, l, ll, p, tr, y))
  {
    var a, b := HubTinyomo.TF1a(I, l, ll, p, tr, y), HubPyomo.TF1a(I, l, ll, p, tr, y);
    if a.Emit? {
      forall v: Valuation ensures Satisfied(a.row, v) <==> RelSatisfied(b.row, v) {
      }
    }
  }

  /** TF1b agrees across the backends: the same pooled bound over the same products. */
  lemma MultiPurposeLinkAgrees(I: Instance, l: Loc, ll: Loc, tr: TransportMode, y: Year)
    ensures Agree(HubTinyomo.TF1b(I, l, ll, tr, y), HubPyomo.TF1b(I, l, ll, tr, y))
  {
    var a, b := HubTinyomo.TF1b(I, l, ll, tr, y), HubPyomo.TF1b(I, l, ll, tr, y);
    if a.Emit? {
      forall v: Valuation ensures Satisfied(a.row, v) <==> RelSatisfied(b.row, v) {
      }
    }
  }

  /** The flow and transport-cost rules of one location agree across the backends. */
  lemma LocationFlowRulesAgree(I: Instance, l: Loc, p: Product, y: Year)
    ensures Agree(HubTinyomo.TF2(I, l, p, y), HubPyomo.TF2(I, l, p, y))
    ensures Agree(HubTinyomo.TF3(I, l, p, y), PyomoCommon.TF3(I, l, p, y))
    ensures Agree(HubTinyomo.TC1(I, l, p, y), HubPyomo.TC1(I, l, p, y))
  {
  }

  /** The accounting rules shared by both pyomo variants agree with their tinyomo counterparts. */
  lemma AccountingRulesAgree(I: Instance, r: Region, p: Product, t: Tech, e: Emission, y: Year)
    ensures Agree(HubTinyomo.PB9(I, r, p, y), PyomoCommon.PB9(I, r, p, y))
    ensures Agree(HubTinyomo.TC4(I, r, y), PyomoCommon.TC4(I, r, y))
    ensures Agree(HubTinyomo.TDC1(I, r, t, y), PyomoCommon.TDC1(I, r, t, y))
    ensures Agree(HubTinyomo.TDC2(I, r), PyomoCommon.TDC2(I, r))
    ensures Agree(HubTinyomo.TAC1(I, r, t), PyomoCommon.TAC1(I, r, t))
    ensures Agree(HubTinyomo.E4(I, r, t, e, y), PyomoCommon.E4(I, r, t, e, y))
    ensures Agree(HubTinyomo.E5(I, r, t, y), PyomoCommon.E5(I, r, t, y))
    ensures Agree(HubTinyomo.E7(I, r, e, y), PyomoCommon.E7(I, r, e, y))
    ensures Agree(HubTinyomo.E8(I, r, e), PyomoCommon.E8(I, r, e))
  {
  }

  /** The discounting rules agree across the backends, including when they raise. */
  lemma DiscountRulesAgree(I: Instance, rpow: (real, real) -> real, r: Region, l: Loc, p: Product, t: Tech, y: Year)
    requires y in I.sets.year
    ensures Agree(HubTinyomo.CC2(I, l, t, y), HubPyomo.CC2(I, l, t, y))
    ensures Agree(HubTinyomo.OC4(I, rpow, l, t, y), HubPyomo.OC4(I, rpow, l, t, y))
    ensures Agree(HubTinyomo.TC2(I, rpow, l, p, y), PyomoCommon.TC2(I, rpow, l, p, y))
    ensures Agree(HubTinyomo.SV2(I, rpow, r, t, y), PyomoCommon.SV2(I, rpow, r, t, y))
    ensures Agree(HubTinyomo.E6(I, rpow, r, t, y), PyomoCommon.E6(I, rpow, r, t, y))
  {
  }

  /** The limit rules agree across the backends: both skip at the same sentinels. */
  lemma LimitRulesAgree(I: Instance, r: Region, l: Loc, t: Tech, e: Emission, y: Year)
    ensures Agree(HubTinyomo.TCC1(I, r, t, y), HubPyomo.TCC1(I, r, t, y))
    ensures Agree(HubTinyomo.TCC2(I, r, t, y), HubPyomo.TCC2(I, r, t, y))
    ensures Agree(HubTinyomo.NCC1(I, l, t, y), HubPyomo.NCC1(I, l, t, y))
    ensures Agree(HubTinyomo.NCC2(I, l, t, y), HubPyomo.NCC2(I, l, t, y))
    ensures Agree(HubTinyomo.AAC2(I, r, t, y), HubPyomo.AAC2(I, r, t, y))
    ensures Agree(HubTinyomo.AAC3(I, r, t, y), HubPyomo.AAC3(I, r, t, y))
    ensures Agree(HubTinyomo.TAC2(I, r, t), HubPyomo.TAC2(I, r, t))
    ensures Agree(HubTinyomo.TAC3(I, r, t), HubPyomo.TAC3(I, r, t))
    ensures Agree(HubTinyomo.E9(I, r, e, y), HubPyomo.E9(I, r, e, y))
    ensures Agree(HubTinyomo.E10(I, r, e), HubPyomo.E10(I, r, e))
  {
  }

  /** The pyomo SV1 states what the corrected tinyomo SV1 states, on every branch. */
  lemma SalvageAgrees(I: Instance, rpow: (real, real) -> real, r: Region, t: Tech, y: Year)
    requires y in I.sets.year
    ensures Agree(HubTinyomo.SV1Corrected(I, rpow, r, t, y), HubPyomo.SV1(I, rpow, r, t, y))
  {
  }

  //////////////////////// Hub variant against the variant without hubs ////////////////////////

  /** No location and no technology of the instance is a hub. */
  predicate NoHubs(I: Instance)
  {
    && (forall l :: l in I.sets.location ==> I.params.hubLocation.Get(l) == 0.0)
    && (forall t :: t in I.sets.technology ==> I.params.hubTechnology.Get(t) == 0.0)
  }

  /** Without hubs, every location is relevant to an ordinary technology and every location is ordinary. */
  lemma {:induction false} EveryLocationRelevant(I: Instance, t: Tech)
    requires NoHubs(I) && I.params.hubTechnology.Get(t) == 0.0
    ensures RelevantLocation(I, t) == Ok(I.sets.location)
    ensures OrdinaryLocations(I) == I.sets.location
  {
    FilterAll(I.sets.location, l => I.params.hubLocation.Get(l) == 0.0);
  }

  /** Without hubs, every technology is relevant at an ordinary location. */
  lemma {:induction false} EveryTechnologyRelevant(I: Instance, l: Loc)
    requires NoHubs(I) && I.params.hubLocation.Get(l) == 0.0
    ensures RelevantTechnology(I, l) == Ok(I.sets.technology)
  {
    FilterAll(I.sets.technology, t => I.params.hubTechnology.Get(t) == 0.0);
  }

  /** Without hubs, the hub variant's regional totals are the ones of the variant without hubs. */
  lemma HubFreeRegionalRulesAgree(I: Instance, r: Region, p: Product, t: Tech, e: Emission, y: Year)
    requires NoHubs(I) && I.params.hubTechnology.Get(t) == 0.0
    ensures AgreeRel(HubPyomo.CA0(I, r, t, y), NoHub.CA0(I, r, t, y))
    ensures AgreeRel(HubPyomo.CA2(I, r, t, y), NoHub.CA2(I, r, t, y))
    ensures AgreeRel(HubPyomo.CA4(I, r, t, y), NoHub.CA4(I, r, t, y))
    ensures AgreeRel(HubPyomo.CC3(I, r, t, y), NoHub.CC3(I, r, t, y))
    ensures AgreeRel(HubPyomo.OC5(I, r, t, y), NoHub.OC5(I, r, t, y))
    ensures AgreeRel(HubPyomo.AAC1(I, r, t, y), NoHub.AAC1(I, r, t, y))
    ensures AgreeRel(HubPyomo.E3(I, r, t, e, y), NoHub.E3(I, r, t, e, y))
    ensures AgreeRel(HubPyomo.PB4(I, r, p, y), NoHub.PB4(I, r, p, y))
    ensures AgreeRel(HubPyomo.PB8(I, r, p, y), NoHub.PB8(I, r, p, y))
  {
    EveryLocationRelevant(I, t);
  }

  /** Without hubs, the rules local to one location are the ones of the variant without hubs. */
  lemma HubFreeLocalRulesAgree(I: Instance, l: Loc, p: Product, t: Tech, m: Mode, e: Emission, y: Year)
    requires NoHubs(I) && I.params.hubLocation.Get(l) == 0.0 && I.params.hubTechnology.Get(t) == 0.0
    ensures AgreeRel(HubPyomo.CA1(I, l, t, y), NoHub.CA1(I, l, t, y))
    ensures AgreeRel(HubPyomo.CA3(I, l, t, y), NoHub.CA3(I, l, t, y))
    ensures AgreeRel(HubPyomo.CA5(I, l, t, y), NoHub.CA5(I, l, t, y))
    ensures AgreeRel(HubPyomo.PB1(I, l, p, t, m, y), NoHub.PB1(I, l, p, t, m, y))
    ensures AgreeRel(HubPyomo.PB2(I, l, p, t, y), NoHub.PB2(I, l, p, t, y))
    ensures AgreeRel(HubPyomo.PB5(I, l, p, t, m, y), NoHub.PB5(I, l, p, t, m, y))
    ensures AgreeRel(HubPyomo.PB6(I, l, p, t, y), NoHub.PB6(I, l, p, t, y))
    ensures AgreeRel(HubPyomo.CC1(I, l, t, y), NoHub.CC1(I, l, t, y))
    ensures AgreeRel(HubPyomo.OC1(I, l, t, y), NoHub.OC1(I, l, t, y))
    ensures AgreeRel(HubPyomo.OC2(I, l, t, y), NoHub.OC2(I, l, t, y))
    ensures AgreeRel(HubPyomo.OC3(I, l, t, y), NoHub.OC3(I, l, t, y))
    ensures AgreeRel(HubPyomo.AAC0(I, l, t, y), NoHub.AAC0(I, l, t, y))
    ensures AgreeRel(HubPyomo.E2(I, l, t, e, y), NoHub.E2(I, l, t, e, y))
  {
  }

  /** Without hubs, a location's totals over technologies, its outflow and its transport cost are those of the variant without hubs. */
  lemma HubFreeLocationRulesAgree(I: Instance, l: Loc, p: Product, y: Year)
    requires NoHubs(I) && I.params.hubLocation.Get(l) == 0.0
    ensures AgreeRel(HubPyomo.PB3(I, l, p, y), NoHub.PB3(I, l, p, y))
    ensures AgreeRel(HubPyomo.PB7(I, l, p, y), NoHub.PB7(I, l, p, y))
    ensures AgreeRel(HubPyomo.TF2(I, l, p, y), NoHub.TF2(I, l, p, y))
    ensures AgreeRel(HubPyomo.TC1(I, l, p, y), NoHub.TC1(I, l, p, y))
  {
    EveryTechnologyRelevant(I, l);
  }

  /** Without hubs, the discounting rules of one location are those of the variant without hubs. */
  lemma HubFreeDiscountRulesAgree(I: Instance, rpow: (real, real) -> real, l: Loc, t: Tech, y: Year)
    requires y in I.sets.year
    requires NoHubs(I) && I.params.hubLocation.Get(l) == 0.0 && I.params.hubTechnology.Get(t) == 0.0
    ensures AgreeRel(HubPyomo.CC2(I, l, t, y), NoHub.CC2(I, l, t, y))
    ensures AgreeRel(HubPyomo.OC4(I, rpow, l, t, y), NoHub.OC4(I, rpow, l, t, y))
  {
  }

  /** E1 agrees between the variants as long as the emission ratio is not negative. */
  lemma HubFreeEmissionAgrees(I: Instance, l: Loc, t: Tech, e: Emission, m: Mode, y: Year)
    requires NoHubs(I) && I.params.hubLocation.Get(l) == 0.0 && I.params.hubTechnology.Get(t) == 0.0
    requires LocalEmissionRatio(I, l, t, e, m, y) >= 0.0
    ensures AgreeRel(HubPyomo.E1(I, l, t, e, m, y), NoHub.E1(I, l, t, e, m, y))
  {
  }

  /**
   * A negative emission ratio (a technology that absorbs the emission) is
   * honoured by the hub variant and replaced by zero emission in the variant
   * without hubs.
   */
  lemma NegativeEmissionRatioDiverges(I: Instance, l: Loc, t: Tech, e: Emission, m: Mode, y: Year)
    requires HubMatch(I.params, l, t) && I.params.modeForTechnology.Get((t, m)) == 1.0
    requires LocalEmissionRatio(I, l, t, e, m, y) < 0.0
    ensures !AgreeRel(HubPyomo.E1(I, l, t, e, m, y), NoHub.E1(I, l, t, e, m, y))
  {
    var ratio := LocalEmissionRatio(I, l, t, e, m, y);
    var act, emission := LocalActivityByMode(l, t, m, y), LocalTechnologyEmissionByMode(l, t, e, m, y);
    var v: Valuation := c => if c == act then 1.0 else if c == emission then ratio else 0.0;
    assert RelSatisfied(HubPyomo.E1(I, l, t, e, m, y).row, v);
    assert !RelSatisfied(NoHub.E1(I, l, t, e, m, y).row, v);
  }

  /** The limit rules agree between the variants wherever the limit is set. */
  lemma SetLimitsAgree(I: Instance, r: Region, l: Loc, t: Tech, e: Emission, y: Year)
    requires I.params.totalAnnualMaxCapacity.Get((r, t, y)) != HighMaxDefault
    requires I.params.totalAnnualMinCapacity.Get((r, t, y)) != 0.0
    requires I.params.totalTechnologyAnnualActivityUpperLimit.Get((r, t, y)) != HighMaxDefault
    requires I.params.totalTechnologyAnnualActivityLowerLimit.Get((r, t, y)) != 0.0
    requires I.params.annualEmissionLimit.Get((r, e, y)) != HighMaxDefault
    requires I.params.modelPeriodEmissionLimit.Get((r, e)) != HighMaxDefault
    ensures AgreeRel(HubPyomo.TCC1(I, r, t, y), NoHub.TCC1(I, r, t, y))
    ensures AgreeRel(HubPyomo.TCC2(I, r, t, y), NoHub.TCC2(I, r, t, y))
    ensures AgreeRel(HubPyomo.AAC2(I, r, t, y), NoHub.AAC2(I, r, t, y))
    ensures AgreeRel(HubPyomo.AAC3(I, r, t, y), NoHub.AAC3(I, r, t, y))
    ensures AgreeRel(HubPyomo.E9(I, r, e, y), NoHub.E9(I, r, e, y))
    ensures AgreeRel(HubPyomo.E10(I, r, e), NoHub.E10(I, r, e))
  {
  }

  /** The local investment limits agree between the variants wherever they are set and `t` belongs at `l`. */
  lemma SetInvestmentLimitsAgree(I: Instance, l: Loc, t: Tech, y: Year)
    requires HubMatch(I.params, l, t)
    requires I.params.localTotalAnnualMaxCapacityInvestment.Get((l, t, y)) != HighMaxDefault
    requires I.params.localTotalAnnualMinCapacityInvestment.Get((l, t, y)) != 0.0
    ensures AgreeRel(HubPyomo.NCC1(I, l, t, y), NoHub.NCC1(I, l, t, y))
    ensures AgreeRel(HubPyomo.NCC2(I, l, t, y), NoHub.NCC2(I, l, t, y))
  {
  }

  /**
   * An unset limit (the sentinel for a maximum, 0 for a minimum) gives no
   * relation in the hub variant but a relation with that value in the
   * variant without hubs.
   */
  lemma UnsetLimitsDiverge(I: Instance, r: Region, t: Tech, y: Year)
    requires I.params.totalAnnualMaxCapacity.Get((r, t, y)) == HighMaxDefault
    requires I.params.totalAnnualMinCapacity.Get((r, t, y)) == 0.0
    ensures HubPyomo.TCC1(I, r, t, y).Skip? && NoHub.TCC1(I, r, t, y).Emit?
    ensures HubPyomo.TCC2(I, r, t, y).Skip? && NoHub.TCC2(I, r, t, y).Emit?
    ensures !AgreeRel(HubPyomo.TCC1(I, r, t, y), NoHub.TCC1(I, r, t, y))
  {
  }

  /**
   * On a single-purpose link routed one way only, the hub variant bounds the
   * forward flow while the variant without hubs bounds forward plus backward
   * flow, so a large backward flow separates them.
   */
  lemma OneWayLinkDiverges(I: Instance, l: Loc, ll: Loc, p: Product, tr: TransportMode, y: Year)
    requires l != ll
    requires I.params.transportCapacity.Get((l, ll, p, tr, y)) != HighMaxDefault
    requires I.params.multiPurposeTransport.Get(tr) == 0.0
    requires I.params.transportRoute.Get((l, ll, p, tr, y)) == 1.0 && I.params.transportRoute.Get((ll, l, p, tr, y)) == 0.0
    ensures !AgreeRel(HubPyomo.TF1a(I, l, ll, p, tr, y), NoHub.TF1(I, l, ll, p, tr, y))
  {
    var limit := LinkLimit(I, l, ll, p, tr, y);
    var forward, backward := Transport(l, ll, p, tr, y), Transport(ll, l, p, tr, y);
    var v: Valuation := c => if c == forward then limit else if c == backward then 1.0 else 0.0;
    assert RelSatisfied(HubPyomo.TF1a(I, l, ll, p, tr, y).row, v);
    assert !RelSatisfied(NoHub.TF1(I, l, ll, p, tr, y).row, v);
  }

  /**
   * SV1's straight-line branch counts the years served from the start of y's
   * period to the end of the horizon in the hub variant and from y to the
   * last model year in the variant without hubs; with one-year steps at y and
   * at the last model year the two counts, and so the two rules, coincide.
   */
  lemma SalvageYearsAgree(I: Instance, rpow: (real, real) -> real, r: Region, t: Tech, y: Year)
    requires y in I.sets.year
    requires I.params.timeStep.Get(y) == 1 && I.params.timeStep.Get(Max(I.sets.year)) == 1
    ensures ServedYears(I, y) == NoHub.YearsToLast(I, y)
    ensures HubPyomo.SV1(I, rpow, r, t, y) == NoHub.SV1(I, rpow, r, t, y)
  {
  }
}
