/**
 * The constraint rules of the hub variant on the tinyomo backend
 * (src/itom_hub_tinyomo.py). Each rule receives one index tuple and returns
 * a row `lhs sense rhs` built from the three tinyomo term shapes, `None`
 * (here `Skip`) when the tuple needs no row, or the exception it raises.
 *
 * Locations and technologies are either hub entities or ordinary ones; a
 * local rule only emits for a pair of the same kind (`HubMatch`), and a
 * regional aggregate of technology `t` ranges over the locations of t's kind.
 */
module HubTinyomo {
  import opened Basics
  import opened ModelData
  import opened Linear
  import opened Network
  import opened Horizon
  import opened Accounts

  /**
   * The shape shared by CA0, CA2, CA4, CC3, OC5 and E3: a regional total
   * equals the sum of the local columns at the relevant locations of the
   * region (Geography == 1). Raises when t's hub flag is neither 0 nor 1.
   */
  function RegionalTotal(I: Instance, r: Region, t: Tech, total: Column, local: Loc -> Column): (res: Outcome<Record>)
    ensures res.Fail? <==> !IsFlag(I.params.hubTechnology.Get(t))
    ensures res.Fail? ==> res.error == UnboundLocal("RelevantLocation")
    ensures res.Emit? ==> res.row.sense == Eq && res.row.rhs == 0.0
    ensures res.Emit? ==> forall c :: c in Columns(res.row.lhs) <==>
      (c == total || exists l :: l in I.sets.location && HubMatch(I.params, l, t) && I.params.geography.Get((r, l)) == 1.0 && c == local(l))
    ensures res.Emit? ==> forall v :: Satisfied(res.row, v) <==>
      v(total) == ColumnSum(InRegion(I, r, RelevantLocation(I, t).value), local, v)
  {
    match RelevantLocation(I, t)
    case Err(e) => Fail(e)
    case Ok(relevant) => Emit(Aggregate(total, InRegion(I, r, relevant), local, 0.0))
  }

  //////////////////////// Capacity adequacy ////////////////////////

  /** CA0: regional new capacity is the local new capacity of the region's relevant locations. */
  function CA0(I: Instance, r: Region, t: Tech, y: Year): (res: Outcome<Record>)
    ensures res.Fail? <==> !IsFlag(I.params.hubTechnology.Get(t))
    ensures res.Emit? ==> res.row.sense == Eq
    ensures res.Emit? ==> forall c :: c in Columns(res.row.lhs) <==>
      (c == NewCapacity(r, t, y) || exists l :: l in I.sets.location && HubMatch(I.params, l, t) && I.params.geography.Get((r, l)) == 1.0 && c == LocalNewCapacity(l, t, y))
  {
    RegionalTotal(I, r, t, NewCapacity(r, t, y), l => LocalNewCapacity(l, t, y))
  }

  /**
   * CA1: accumulated new capacity in year y is the new capacity of every
   * model year whose investment is still within its operational life.
   */
  function CA1(I: Instance, l: Loc, t: Tech, y: Year): (res: Outcome<Record>)
    ensures !res.Fail?
    ensures res.Emit? <==> HubMatch(I.params, l, t)
    ensures res.Emit? ==> res.row.sense == Eq && res.row.rhs == 0.0
    ensures res.Emit? ==> forall c :: c in Columns(res.row.lhs) <==>
      (c == LocalAccumulatedNewCapacity(l, t, y) ||
       exists yy :: yy in I.sets.year && InService(I, l, t, y, yy) && c == LocalNewCapacity(l, t, yy))
    ensures res.Emit? ==> forall v :: Satisfied(res.row, v) <==>
      v(LocalAccumulatedNewCapacity(l, t, y)) == ColumnSum(Filter(I.sets.year, yy => InService(I, l, t, y, yy)), yy => LocalNewCapacity(l, t, yy), v)
  {
    if HubMatch(I.params, l, t) then
      var years := Filter(I.sets.year, yy => InService(I, l, t, y, yy));
      var rec := Aggregate(LocalAccumulatedNewCapacity(l, t, y), years, yy => LocalNewCapacity(l, t, yy), 0.0);
      forall c: Column | c in Columns(rec.lhs) && c != LocalAccumulatedNewCapacity(l, t, y)
        ensures exists yy :: yy in I.sets.year && InService(I, l, t, y, yy) && c == LocalNewCapacity(l, t, yy)
      {
        var yy: Year :| yy in years && c == LocalNewCapacity(l, t, yy);
      }
      forall yy: Year | yy in years
        ensures LocalNewCapacity(l, t, yy) in Columns(rec.lhs)
      {
      }
      Emit(rec)
    else Skip
  }

  /** CA2: regional accumulated new capacity is the local one of the region's relevant locations. */
  function CA2(I: Instance, r: Region, t: Tech, y: Year): (res: Outcome<Record>)
    ensures res.Fail? <==> !IsFlag(I.params.hubTechnology.Get(t))
    ensures res.Emit? ==> res.row.sense == Eq
    ensures res.Emit? ==> forall c :: c in Columns(res.row.lhs) <==>
      (c == AccumulatedNewCapacity(r, t, y) || exists l :: l in I.sets.location && HubMatch(I.params, l, t) && I.params.geography.Get((r, l)) == 1.0 && c == LocalAccumulatedNewCapacity(l, t, y))
  {
    RegionalTotal(I, r, t, AccumulatedNewCapacity(r, t, y), l => LocalAccumulatedNewCapacity(l, t, y))
  }

  /** CA3: local total capacity is accumulated new capacity plus residual capacity. */
  function CA3(I: Instance, l: Loc, t: Tech, y: Year): (res: Outcome<Record>)
    ensures !res.Fail?
    ensures res.Emit? <==> HubMatch(I.params, l, t)
    ensures res.Emit? ==> res.row.sense == Eq
    ensures res.Emit? ==> forall v :: Satisfied(res.row, v) <==>
      v(LocalAccumulatedNewCapacity(l, t, y)) + I.params.localResidualCapacity.Get((l, t, y)) == v(LocalTotalCapacity(l, t, y))
  {
    if HubMatch(I.params, l, t) then
      var lhs := [Single(1.0, LocalAccumulatedNewCapacity(l, t, y)), Single(-1.0, LocalTotalCapacity(l, t, y))];
      Value2(lhs[0], lhs[1]);
      Emit(Record(lhs, -1.0 * I.params.localResidualCapacity.Get((l, t, y)), Eq))
    else Skip
  }

  /** CA4: regional total capacity is the local one of the region's relevant locations. */
  function CA4(I: Instance, r: Region, t: Tech, y: Year): (res: Outcome<Record>)
    ensures res.Fail? <==> !IsFlag(I.params.hubTechnology.Get(t))
    ensures res.Emit? ==> res.row.sense == Eq
    ensures res.Emit? ==> forall c :: c in Columns(res.row.lhs) <==>
      (c == TotalCapacity(r, t, y) || exists l :: l in I.sets.location && HubMatch(I.params, l, t) && I.params.geography.Get((r, l)) == 1.0 && c == LocalTotalCapacity(l, t, y))
  {
    RegionalTotal(I, r, t, TotalCapacity(r, t, y), l => LocalTotalCapacity(l, t, y))
  }

  /** CA5: local activity is at most the available capacity converted to activity units. */
  function CA5(I: Instance, l: Loc, t: Tech, y: Year): (res: Outcome<Record>)
    ensures !res.Fail?
    ensures res.Emit? <==> HubMatch(I.params, l, t)
    ensures res.Emit? ==> res.row.sense == Le
    ensures res.Emit? ==> forall v :: Satisfied(res.row, v) <==>
      v(LocalActivity(l, t, y)) <= v(LocalTotalCapacity(l, t, y)) * CapacityFactor(I, l, t, y)
  {
    if HubMatch(I.params, l, t) then
      var lhs := [Single(1.0, LocalActivity(l, t, y)), Single(-1.0 * CapacityFactor(I, l, t, y), LocalTotalCapacity(l, t, y))];
      Value2(lhs[0], lhs[1]);
      Emit(Record(lhs, 0.0, Le))
    else Skip
  }

  //////////////////////// Product balance ////////////////////////

  /**
   * PB1: production by mode is activity by mode times the output ratio; only
   * for a mode the technology has and a product it makes.
   */
  function PB1(I: Instance, l: Loc, p: Product, t: Tech, m: Mode, y: Year): (res: Outcome<Record>)
    ensures !res.Fail?
    ensures res.Emit? <==> HubMatch(I.params, l, t) && I.params.modeForTechnology.Get((t, m)) == 1.0 && I.params.productFromTechnology.Get((t, p)) == 1.0
    ensures res.Emit? ==> res.row.sense == Eq
    ensures res.Emit? ==> forall v :: Satisfied(res.row, v) <==>
      v(LocalProductionByMode(l, t, p, m, y)) == v(LocalActivityByMode(l, t, m, y)) * OutputRatio(I, l, t, p, m, y)
  {
    if HubMatch(I.params, l, t) then
      if I.params.modeForTechnology.Get((t, m)) == 1.0 && I.params.productFromTechnology.Get((t, p)) == 1.0 then
        var lhs := [Single(1.0, LocalProductionByMode(l, t, p, m, y)), Single(-1.0 * OutputRatio(I, l, t, p, m, y), LocalActivityByMode(l, t, m, y))];
        Value2(lhs[0], lhs[1]);
        Emit(Record(lhs, 0.0, Eq))
      else Skip
    else Skip
  }

  /** PB2: production by technology is the sum of production over the technology's modes. */
  function PB2(I: Instance, l: Loc, p: Product, t: Tech, y: Year): (res: Outcome<Record>)
    ensures !res.Fail?
    ensures res.Emit? <==> HubMatch(I.params, l, t) && I.params.productFromTechnology.Get((t, p)) == 1.0
    ensures res.Emit? ==> res.row.sense == Eq && res.row.rhs == 0.0
    ensures res.Emit? ==> forall c :: c in Columns(res.row.lhs) <==>
      (c == LocalProductionByTechnology(l, t, p, y) ||
       exists m :: m in I.sets.mode && I.params.modeForTechnology.Get((t, m)) == 1.0 && c == LocalProductionByMode(l, t, p, m, y))
    ensures res.Emit? ==> forall v :: Satisfied(res.row, v) <==>
      v(LocalProductionByTechnology(l, t, p, y)) == ColumnSum(ModesOf(I, t), m => LocalProductionByMode(l, t, p, m, y), v)
  {
    if HubMatch(I.params, l, t) then
      if I.params.productFromTechnology.Get((t, p)) == 1.0 then Emit(Aggregate(LocalProductionByTechnology(l, t, p, y), ModesOf(I, t), m => LocalProductionByMode(l, t, p, m, y), 0.0))
      else Skip
    else Skip
  }

  /**
   * The shape shared by PB3 and PB7: a local total over the technologies of
   * the location's kind that pass `keep`. Raises when l's hub flag is neither
   * 0 nor 1.
   */
  function LocalTotal(I: Instance, l: Loc, keep: Tech -> bool, total: Column, part: Tech -> Column): (res: Outcome<Record>)
    ensures res.Fail? <==> !IsFlag(I.params.hubLocation.Get(l))
    ensures res.Fail? ==> res.error == UnboundLocal("RelevantTechnology")
    ensures res.Emit? ==> res.row.sense == Eq && res.row.rhs == 0.0
    ensures res.Emit? ==> forall c :: c in Columns(res.row.lhs) <==>
      (c == total || exists t :: t in I.sets.technology && HubMatch(I.params, l, t) && keep(t) && c == part(t))
    ensures res.Emit? ==> forall v :: Satisfied(res.row, v) <==> v(total) == ColumnSum(Filter(RelevantTechnology(I, l).value, keep), part, v)
  {
    match RelevantTechnology(I, l)
    case Err(e) => Fail(e)
    case Ok(relevant) => Emit(Aggregate(total, Filter(relevant, keep), part, 0.0))
  }

  /** PB3: local production is the production of the location's technologies that make the product. */
  function PB3(I: Instance, l: Loc, p: Product, y: Year): (res: Outcome<Record>)
    ensures res.Fail? <==> !IsFlag(I.params.hubLocation.Get(l))
    ensures res.Emit? ==> res.row.sense == Eq
    ensures res.Emit? ==> forall c :: c in Columns(res.row.lhs) <==>
      (c == LocalProduction(l, p, y) ||
       exists t :: t in I.sets.technology && HubMatch(I.params, l, t) && I.params.productFromTechnology.Get((t, p)) == 1.0 && c == LocalProductionByTechnology(l, t, p, y))
  {
    var res := LocalTotal(I, l, t => I.params.productFromTechnology.Get((t, p)) == 1.0, LocalProduction(l, p, y), t => LocalProductionByTechnology(l, t, p, y));
    if res.Emit? then
      forall c: Column | c in Columns(res.row.lhs) && c != LocalProduction(l, p, y)
        ensures exists t :: t in I.sets.technology && HubMatch(I.params, l, t) && I.params.productFromTechnology.Get((t, p)) == 1.0 && c == LocalProductionByTechnology(l, t, p, y)
      {
        var t: Tech :| t in I.sets.technology && HubMatch(I.params, l, t) && I.params.productFromTechnology.Get((t, p)) == 1.0 && c == LocalProductionByTechnology(l, t, p, y);
      }
      forall t: Tech | t in I.sets.technology && HubMatch(I.params, l, t) && I.params.productFromTechnology.Get((t, p)) == 1.0
        ensures LocalProductionByTechnology(l, t, p, y) in Columns(res.row.lhs)
      {
      }
      res
    else res
  }

  /** The shape shared by PB4 and PB8: a regional total weighted by Geography over the ordinary locations. */
  function OrdinaryTotal(I: Instance, r: Region, total: Column, local: Loc -> Column): (res: Outcome<Record>)
    ensures res.Emit?
    ensures res.row.sense == Eq && res.row.rhs == 0.0
    ensures forall c :: c in Columns(res.row.lhs) <==>
      (c == total || exists l :: l in I.sets.location && I.params.hubLocation.Get(l) == 0.0 && c == local(l))
    ensures forall v :: Satisfied(res.row, v) <==>
      v(total) == WeightedSum(OrdinaryLocations(I), l => I.params.geography.Get((r, l)), local, v)
  {
    Emit(WeightedTotal(total, OrdinaryLocations(I), l => I.params.geography.Get((r, l)), local))
  }

  /** PB4: regional production is the Geography-weighted local production of the ordinary locations. */
  function PB4(I: Instance, r: Region, p: Product, y: Year): (res: Outcome<Record>)
    ensures res.Emit? && res.row.sense == Eq
    ensures forall c :: c in Columns(res.row.lhs) <==>
      (c == Production(r, p, y) || exists l :: l in I.sets.location && I.params.hubLocation.Get(l) == 0.0 && c == LocalProduction(l, p, y))
  {
    OrdinaryTotal(I, r, Production(r, p, y), l => LocalProduction(l, p, y))
  }

  /** PB5: use by mode is activity by mode times the input ratio. */
  function PB5(I: Instance, l: Loc, p: Product, t: Tech, m: Mode, y: Year): (res: Outcome<Record>)
    ensures !res.Fail?
    ensures res.Emit? <==> HubMatch(I.params, l, t) && I.params.modeForTechnology.Get((t, m)) == 1.0 && I.params.productToTechnology.Get((t, p)) == 1.0
    ensures res.Emit? ==> res.row.sense == Eq
    ensures res.Emit? ==> forall v :: Satisfied(res.row, v) <==>
      v(LocalUseByMode(l, t, p, m, y)) == v(LocalActivityByMode(l, t, m, y)) * InputRatio(I, l, t, p, m, y)
  {
    if HubMatch(I.params, l, t) then
      if I.params.modeForTechnology.Get((t, m)) == 1.0 && I.params.productToTechnology.Get((t, p)) == 1.0 then
        var lhs := [Single(1.0, LocalUseByMode(l, t, p, m, y)), Single(-1.0 * InputRatio(I, l, t, p, m, y), LocalActivityByMode(l, t, m, y))];
        Value2(lhs[0], lhs[1]);
        Emit(Record(lhs, 0.0, Eq))
      else Skip
    else Skip
  }

  /** PB6: use by technology is the sum of use over the technology's modes. */
  function PB6(I: Instance, l: Loc, p: Product, t: Tech, y: Year): (res: Outcome<Record>)
    ensures !res.Fail?
    ensures res.Emit? <==> HubMatch(I.params, l, t) && I.params.productToTechnology.Get((t, p)) == 1.0
    ensures res.Emit? ==> res.row.sense == Eq && res.row.rhs == 0.0
    ensures res.Emit? ==> forall c :: c in Columns(res.row.lhs) <==>
      (c == LocalUseByTechnology(l, t, p, y) ||
       exists m :: m in I.sets.mode && I.params.modeForTechnology.Get((t, m)) == 1.0 && c == LocalUseByMode(l, t, p, m, y))
    ensures res.Emit? ==> forall v :: Satisfied(res.row, v) <==>
      v(LocalUseByTechnology(l, t, p, y)) == ColumnSum(ModesOf(I, t), m => LocalUseByMode(l, t, p, m, y), v)
  {
    if HubMatch(I.params, l, t) then
      if I.params.productToTechnology.Get((t, p)) == 1.0 then Emit(Aggregate(LocalUseByTechnology(l, t, p, y), ModesOf(I, t), m => LocalUseByMode(l, t, p, m, y), 0.0))
      else Skip
    else Skip
  }

  /** PB7: local use is the use of the location's technologies that consume the product. */
  function PB7(I: Instance, l: Loc, p: Product, y: Year): (res: Outcome<Record>)
    ensures res.Fail? <==> !IsFlag(I.params.hubLocation.Get(l))
    ensures res.Emit? ==> res.row.sense == Eq
    ensures res.Emit? ==> forall c :: c in Columns(res.row.lhs) <==>
      (c == LocalUse(l, p, y) ||
       exists t :: t in I.sets.technology && HubMatch(I.params, l, t) && I.params.productToTechnology.Get((t, p)) == 1.0 && c == LocalUseByTechnology(l, t, p, y))
  {
    var res := LocalTotal(I, l, t => I.params.productToTechnology.Get((t, p)) == 1.0, LocalUse(l, p, y), t => LocalUseByTechnology(l, t, p, y));
    if res.Emit? then
      forall c: Column | c in Columns(res.row.lhs) && c != LocalUse(l, p, y)
        ensures exists t :: t in I.sets.technology && HubMatch(I.params, l, t) && I.params.productToTechnology.Get((t, p)) == 1.0 && c == LocalUseByTechnology(l, t, p, y)
      {
        var t: Tech :| t in I.sets.technology && HubMatch(I.params, l, t) && I.params.productToTechnology.Get((t, p)) == 1.0 && c == LocalUseByTechnology(l, t, p, y);
      }
      forall t: Tech | t in I.sets.technology && HubMatch(I.params, l, t) && I.params.productToTechnology.Get((t, p)) == 1.0
        ensures LocalUseByTechnology(l, t, p, y) in Columns(res.row.lhs)
      {
      }
      res
    else res
  }

  /** PB8: regional use is the Geography-weighted local use of the ordinary locations. */
  function PB8(I: Instance, r: Region, p: Product, y: Year): (res: Outcome<Record>)
    ensures res.Emit? && res.row.sense == Eq
    ensures forall c :: c in Columns(res.row.lhs) <==>
      (c == Use(r, p, y) || exists l :: l in I.sets.location && I.params.hubLocation.Get(l) == 0.0 && c == LocalUse(l, p, y))
  {
    OrdinaryTotal(I, r, Use(r, p, y), l => LocalUse(l, p, y))
  }

  /** PB9: production plus imports minus exports covers demand. */
  function PB9(I: Instance, r: Region, p: Product, y: Year): (res: Outcome<Record>)
    ensures res.Emit? && res.row.sense == Ge
    ensures forall v :: Satisfied(res.row, v) <==>
      v(Production(r, p, y)) + v(Import(r, p, y)) - v(Export(r, p, y)) >= I.params.demand.Get((r, p, y))
  {
    var lhs := [Single(1.0, Production(r, p, y)), Single(1.0, Import(r, p, y)), Single(-1.0, Export(r, p, y))];
    Value3(lhs[0], lhs[1], lhs[2]);
    Emit(Record(lhs, I.params.demand.Get((r, p, y)), Ge))
  }

  //////////////////////// Transport flows ////////////////////////

  /**
   * TF1a: the flow over a routed single-purpose link is bounded by the link's
   * capacity; over a link routed both ways, forward plus backward flow is. A
   * capacity at the "no limit" sentinel gives no row, and a link routed only
   * backwards is left to the row of the reverse link.
   */
  function TF1a(I: Instance, l: Loc, ll: Loc, p: Product, tr: TransportMode, y: Year): (res: Outcome<Record>)
    ensures !res.Fail?
    ensures res.Emit? <==>
      && I.params.transportCapacity.Get((l, ll, p, tr, y)) != HighMaxDefault
      && I.params.multiPurposeTransport.Get(tr) == 0.0
      && I.params.transportRoute.Get((l, ll, p, tr, y)) == 1.0
      && IsFlag(I.params.transportRoute.Get((ll, l, p, tr, y)))
    ensures res.Emit? ==> res.row.sense == Le && res.row.rhs == LinkLimit(I, l, ll, p, tr, y)
    ensures res.Emit? ==> |res.row.lhs| == (if l != ll && I.params.transportRoute.Get((ll, l, p, tr, y)) == 1.0 then 2 else 1)
    ensures res.Emit? ==> forall v :: Satisfied(res.row, v) <==>
      v(Transport(l, ll, p, tr, y)) + (if I.params.transportRoute.Get((ll, l, p, tr, y)) == 1.0 then v(Transport(ll, l, p, tr, y)) else 0.0)
        <= LinkLimit(I, l, ll, p, tr, y)
  {
    var P := I.params;
    var forward, backward := P.transportRoute.Get((l, ll, p, tr, y)), P.transportRoute.Get((ll, l, p, tr, y));
    var single := P.multiPurposeTransport.Get(tr) == 0.0;
    var rhs := LinkLimit(I, l, ll, p, tr, y);
    if P.transportCapacity.Get((l, ll, p, tr, y)) != HighMaxDefault then
      if forward == 1.0 && backward == 0.0 && single then
        var lhs := [Single(1.0, Transport(l, ll, p, tr, y))];
        Value1(lhs[0]);
        Emit(Record(lhs, rhs, Le))
      else if forward == 0.0 && backward == 1.0 && single then Skip
      else if forward == 1.0 && backward == 1.0 && single && l != ll then
        var lhs := [Single(1.0, Transport(l, ll, p, tr, y)), Single(1.0, Transport(ll, l, p, tr, y))];
        Value2(lhs[0], lhs[1]);
        Emit(Record(lhs, rhs, Le))
      else if forward == 1.0 && backward == 1.0 && single && l == ll then
        var lhs := [Single(2.0, Transport(l, ll, p, tr, y))];
        Value1(lhs[0]);
        Emit(Record(lhs, rhs, Le))
      else Skip
    else Skip
  }

  /**
   * TF1b: on a multi-purpose mode the flows of every product routed over the
   * link share one bound, together with the flows routed back when there are
   * any. No row unless some product is routed forward.
   */
  function TF1b(I: Instance, l: Loc, ll: Loc, tr: TransportMode, y: Year): (res: Outcome<Record>)
    ensures !res.Fail?
    ensures res.Emit? <==> (I.params.multiPurposeTransport.Get(tr) == 1.0 &&
      exists p :: p in I.sets.product && I.params.transportRoute.Get((l, ll, p, tr, y)) == 1.0)
    ensures res.Emit? ==> res.row.sense == Le && res.row.rhs == PooledLimit(I, l, ll, tr, y)
    ensures res.Emit? ==> forall c :: c in Columns(res.row.lhs) <==>
      (exists p :: p in I.sets.product && I.params.transportRoute.Get((l, ll, p, tr, y)) == 1.0 && c == Transport(l, ll, p, tr, y)) ||
      (exists p :: p in I.sets.product && I.params.transportRoute.Get((ll, l, p, tr, y)) == 1.0 && c == Transport(ll, l, p, tr, y))
    ensures res.Emit? ==> forall v :: Satisfied(res.row, v) <==>
      ColumnSum(RoutedProducts(I, l, ll, tr, y), p => Transport(l, ll, p, tr, y), v) +
      ColumnSum(RoutedProducts(I, ll, l, tr, y), p => Transport(ll, l, p, tr, y), v) <= PooledLimit(I, l, ll, tr, y)
  {
    if I.params.multiPurposeTransport.Get(tr) == 1.0 then
      var to, from := RoutedProducts(I, l, ll, tr, y), RoutedProducts(I, ll, l, tr, y);
      if to == [] && from == [] then Skip
      else if to != [] && from == [] then
        var lhs := [SumTerm(to, p => Transport(l, ll, p, tr, y))];
        Columns1(lhs[0]);
        Value1(lhs[0]);
        Emit(Record(lhs, PooledLimit(I, l, ll, tr, y), Le))
      else if to == [] && from != [] then Skip
      else
        var lhs := [SumTerm(to, p => Transport(l, ll, p, tr, y)), SumTerm(from, p => Transport(ll, l, p, tr, y))];
        Columns2(lhs[0], lhs[1]);
        Value2(lhs[0], lhs[1]);
        Emit(Record(lhs, PooledLimit(I, l, ll, tr, y), Le))
    else Skip
  }

  /** The sense of TF2: a hub passes on everything it receives, an ordinary location at most what it produces. */
  function OutflowSense(I: Instance, l: Loc): Sense
  {
    if I.params.hubLocation.Get(l) == 0.0 then Le else Eq
  }

  /** TF2: what leaves a location over its routed links is bounded by (at a hub: equals) its production. */
  function TF2(I: Instance, l: Loc, p: Product, y: Year): (res: Outcome<Record>)
    ensures res.Emit? && res.row.rhs == 0.0
    ensures res.row.sense == Eq <==> I.params.hubLocation.Get(l) != 0.0
    ensures res.row.sense == Le <==> I.params.hubLocation.Get(l) == 0.0
    ensures forall c :: c in Columns(res.row.lhs) <==>
      c == LocalProduction(l, p, y) || exists k :: k in Departures(I, l, p, y) && c == Flow(k, p, y)
    ensures forall v :: Satisfied(res.row, v) <==>
      Holds(res.row.sense, ColumnSum(Departures(I, l, p, y), k => Flow(k, p, y), v), v(LocalProduction(l, p, y)))
  {
    Emit(Balance(Departures(I, l, p, y), k => Flow(k, p, y), LocalProduction(l, p, y), OutflowSense(I, l)))
  }

  /** TF3: what arrives at a location over its routed links is its use. */
  function TF3(I: Instance, l: Loc, p: Product, y: Year): (res: Outcome<Record>)
    ensures res.Emit? && res.row.rhs == 0.0 && res.row.sense == Eq
    ensures forall c :: c in Columns(res.row.lhs) <==>
      c == LocalUse(l, p, y) || exists k :: k in Arrivals(I, l, p, y) && c == Flow(k, p, y)
    ensures forall v :: Satisfied(res.row, v) <==>
      ColumnSum(Arrivals(I, l, p, y), k => Flow(k, p, y), v) == v(LocalUse(l, p, y))
  {
    Emit(Balance(Arrivals(I, l, p, y), k => Flow(k, p, y), LocalUse(l, p, y), Eq))
  }

  /** The routed links entering region `r` from outside (Geography 0 to Geography 1). */
  function ImportLinks(I: Instance, r: Region, p: Product, y: Year): seq<Link>
  {
    Crossings(I, OutsideRegion(I, r), InRegion(I, r, I.sets.location), p, y)
  }

  /** The routed links leaving region `r` (Geography 1 to Geography 0). */
  function ExportLinks(I: Instance, r: Region, p: Product, y: Year): seq<Link>
  {
    Crossings(I, InRegion(I, r, I.sets.location), OutsideRegion(I, r), p, y)
  }

  /** TF4: a region's imports are the flows over the routed links entering it. */
  function TF4(I: Instance, r: Region, p: Product, y: Year): (res: Outcome<Record>)
    ensures res.Emit? && res.row.sense == Eq && res.row.rhs == 0.0
    ensures forall c :: c in Columns(res.row.lhs) <==> (c == Import(r, p, y) ||
      exists k: Link :: && k.from in I.sets.location && I.params.geography.Get((r, k.from)) == 0.0
                        && k.to in I.sets.location && I.params.geography.Get((r, k.to)) == 1.0
                        && k.tr in I.sets.transportMode && Routed(I, k, p, y) && c == Flow(k, p, y))
    ensures forall v :: Satisfied(res.row, v) <==> v(Import(r, p, y)) == ColumnSum(ImportLinks(I, r, p, y), k => Flow(k, p, y), v)
  {
    Emit(Aggregate(Import(r, p, y), ImportLinks(I, r, p, y), k => Flow(k, p, y), 0.0))
  }

  /** TF5: a region's exports are the flows over the routed links leaving it. */
  function TF5(I: Instance, r: Region, p: Product, y: Year): (res: Outcome<Record>)
    ensures res.Emit? && res.row.sense == Eq && res.row.rhs == 0.0
    ensures forall c :: c in Columns(res.row.lhs) <==> (c == Export(r, p, y) ||
      exists k: Link :: && k.from in I.sets.location && I.params.geography.Get((r, k.from)) == 1.0
                        && k.to in I.sets.location && I.params.geography.Get((r, k.to)) == 0.0
                        && k.tr in I.sets.transportMode && Routed(I, k, p, y) && c == Flow(k, p, y))
    ensures forall v :: Satisfied(res.row, v) <==> v(Export(r, p, y)) == ColumnSum(ExportLinks(I, r, p, y), k => Flow(k, p, y), v)
  {
    Emit(Aggregate(Export(r, p, y), ExportLinks(I, r, p, y), k => Flow(k, p, y), 0.0))
  }

  /**
   * When every location belongs to exactly one region, the flow over a routed
   * link appears in the export row of the origin's region and the import row
   * of the destination's region, and in no other trade row; a link inside one
   * region appears in none.
   */
  lemma BorderFlowCountedOnce(I: Instance, k: Link, p: Product, y: Year, home: Region, away: Region)
    requires k.from in I.sets.location && k.to in I.sets.location && k.tr in I.sets.transportMode && Routed(I, k, p, y)
    requires forall r :: I.params.geography.Get((r, k.from)) == (if r == home then 1.0 else 0.0)
    requires forall r :: I.params.geography.Get((r, k.to)) == (if r == away then 1.0 else 0.0)
    ensures forall r :: Flow(k, p, y) in Columns(TF5(I, r, p, y).row.lhs) <==> r == home && home != away
    ensures forall r :: Flow(k, p, y) in Columns(TF4(I, r, p, y).row.lhs) <==> r == away && home != away
  {
    forall r ensures Flow(k, p, y) in Columns(TF5(I, r, p, y).row.lhs) <==> r == home && home != away {
      BorderExport(I, k, p, y, home, away, r);
    }
    forall r ensures Flow(k, p, y) in Columns(TF4(I, r, p, y).row.lhs) <==> r == away && home != away {
      BorderImport(I, k, p, y, home, away, r);
    }
  }

  /** The export half of BorderFlowCountedOnce, for one region. */
  lemma BorderExport(I: Instance, k: Link, p: Product, y: Year, home: Region, away: Region, r: Region)
    requires k.from in I.sets.location && k.to in I.sets.location && k.tr in I.sets.transportMode && Routed(I, k, p, y)
    requires forall r :: I.params.geography.Get((r, k.from)) == (if r == home then 1.0 else 0.0)
    requires forall r :: I.params.geography.Get((r, k.to)) == (if r == away then 1.0 else 0.0)
    ensures Flow(k, p, y) in Columns(TF5(I, r, p, y).row.lhs) <==> r == home && home != away
  {
    var cols := Columns(TF5(I, r, p, y).row.lhs);
    if Flow(k, p, y) in cols {
      var k': Link :| && I.params.geography.Get((r, k'.from)) == 1.0 && I.params.geography.Get((r, k'.to)) == 0.0
                      && Flow(k, p, y) == Flow(k', p, y);
      assert k' == k;
    }
    if r == home && home != away {
      assert I.params.geography.Get((r, k.from)) == 1.0 && I.params.geography.Get((r, k.to)) == 0.0;
      assert Flow(k, p, y) in cols;
    }
  }

  /** The import half of BorderFlowCountedOnce, for one region. */
  lemma BorderImport(I: Instance, k: Link, p: Product, y: Year, home: Region, away: Region, r: Region)
    requires k.from in I.sets.location && k.to in I.sets.location && k.tr in I.sets.transportMode && Routed(I, k, p, y)
    requires forall r :: I.params.geography.Get((r, k.from)) == (if r == home then 1.0 else 0.0)
    requires forall r :: I.params.geography.Get((r, k.to)) == (if r == away then 1.0 else 0.0)
    ensures Flow(k, p, y) in Columns(TF4(I, r, p, y).row.lhs) <==> r == away && home != away
  {
    var cols := Columns(TF4(I, r, p, y).row.lhs);
    if Flow(k, p, y) in cols {
      var k': Link :| && I.params.geography.Get((r, k'.from)) == 0.0 && I.params.geography.Get((r, k'.to)) == 1.0
                      && Flow(k, p, y) == Flow(k', p, y);
      assert k' == k;
    }
    if r == away && home != away {
      assert I.params.geography.Get((r, k.from)) == 0.0 && I.params.geography.Get((r, k.to)) == 1.0;
      assert Flow(k, p, y) in cols;
    }
  }

  //////////////////////// Capital costs ////////////////////////

  /** CC1: capital investment is new capacity times the location's capital cost. */
  function CC1(I: Instance, l: Loc, t: Tech, y: Year): (res: Outcome<Record>)
    ensures !res.Fail?
    ensures res.Emit? <==> HubMatch(I.params, l, t)
    ensures res.Emit? ==> res.row.sense == Eq
    ensures res.Emit? ==> forall v :: Satisfied(res.row, v) <==>
      v(LocalCapitalInvestment(l, t, y)) == LocalCapitalCost(I, l, t, y) * v(LocalNewCapacity(l, t, y))
  {
    if HubMatch(I.params, l, t) then
      var lhs := [Single(1.0, LocalCapitalInvestment(l, t, y)), Single(-1.0 * LocalCapitalCost(I, l, t, y), LocalNewCapacity(l, t, y))];
      Value2(lhs[0], lhs[1]);
      Emit(Record(lhs, 0.0, Eq))
    else Skip
  }

  /**
   * CC2: investment is discounted to the first model year at the location's
   * discount rate, `(1 + rate) ** (y - min(YEAR))`. A rate of exactly -1
   * makes the factor vanish after the first year, and the rule raises.
   */
  function CC2(I: Instance, l: Loc, t: Tech, y: Year): (res: Outcome<Record>)
    requires y in I.sets.year
    ensures res.Fail? <==> HubMatch(I.params, l, t) && LocalDiscountRate(I, l) == -1.0 && y != Min(I.sets.year)
    ensures res.Fail? ==> res.error == ZeroDivision
    ensures res.Skip? <==> !HubMatch(I.params, l, t)
    ensures res.Emit? ==> res.row.sense == Eq
    ensures res.Emit? ==> forall v :: Satisfied(res.row, v) <==>
      v(LocalDiscountedCapitalInvestment(l, t, y)) * Pow(1.0 + LocalDiscountRate(I, l), YearsSinceStart(I, y)) == v(LocalCapitalInvestment(l, t, y))
  {
    PowZero(1.0 + LocalDiscountRate(I, l), YearsSinceStart(I, y));
    if HubMatch(I.params, l, t) then
      Discounted(LocalDiscountedCapitalInvestment(l, t, y), LocalCapitalInvestment(l, t, y), Pow(1.0 + LocalDiscountRate(I, l), YearsSinceStart(I, y)))
    else Skip
  }

  /** In the first model year CC2 leaves the investment undiscounted. */
  lemma CC2FirstYear(I: Instance, l: Loc, t: Tech)
    requires |I.sets.year| > 0 && HubMatch(I.params, l, t)
    ensures CC2(I, l, t, Min(I.sets.year)).Emit?
    ensures forall v :: Satisfied(CC2(I, l, t, Min(I.sets.year)).row, v) <==>
      v(LocalDiscountedCapitalInvestment(l, t, Min(I.sets.year))) == v(LocalCapitalInvestment(l, t, Min(I.sets.year)))
  {
  }

  /** CC3: regional discounted investment is the local one of the region's relevant locations. */
  function CC3(I: Instance, r: Region, t: Tech, y: Year): (res: Outcome<Record>)
    ensures res.Fail? <==> !IsFlag(I.params.hubTechnology.Get(t))
    ensures res.Emit? ==> res.row.sense == Eq
    ensures res.Emit? ==> forall c :: c in Columns(res.row.lhs) <==>
      (c == DiscountedCapitalInvestment(r, t, y) ||
       exists l :: l in I.sets.location && HubMatch(I.params, l, t) && I.params.geography.Get((r, l)) == 1.0 && c == LocalDiscountedCapitalInvestment(l, t, y))
  {
    RegionalTotal(I, r, t, DiscountedCapitalInvestment(r, t, y), l => LocalDiscountedCapitalInvestment(l, t, y))
  }

  //////////////////////// Salvage value ////////////////////////

  /**
   * SV1 as written: the straight-line branch puts the depreciation
   * coefficient on SalvageValue itself rather than on NewCapacity, so that
   * row never mentions new capacity.
   */
  function SV1(I: Instance, rpow: (real, real) -> real, r: Region, t: Tech, y: Year): (res: Outcome<Record>)
    requires y in I.sets.year
    ensures res.Fail? <==>
      || (SalvageBranch(I, r, t, y, OutlivesHorizon(I, r, t, y)) == Annuity && rpow(1.0 + I.params.discountRate.Get(r), I.params.operationalLife.Get((r, t))) == 1.0)
      || (SalvageBranch(I, r, t, y, OutlivesHorizon(I, r, t, y)) == StraightLine && I.params.operationalLife.Get((r, t)) == 0.0)
    ensures res.Fail? ==> res.error == ZeroDivision
    ensures !res.Skip?
    ensures res.Emit? ==> res.row.sense == Eq && res.row.rhs == 0.0
    ensures res.Emit? && SalvageBranch(I, r, t, y, OutlivesHorizon(I, r, t, y)) == StraightLine ==>
      NewCapacity(r, t, y) !in Columns(res.row.lhs)
    ensures res.Emit? && SalvageBranch(I, r, t, y, OutlivesHorizon(I, r, t, y)) == Annuity ==>
      forall v :: Satisfied(res.row, v) <==>
        v(SalvageValue(r, t, y)) == I.params.capitalCost.Get((r, t, y)) * v(NewCapacity(r, t, y)) *
          AnnuityFraction(rpow, I.params.discountRate.Get(r), ServedYears(I, y), I.params.operationalLife.Get((r, t)))
    ensures res.Emit? && SalvageBranch(I, r, t, y, OutlivesHorizon(I, r, t, y)) == NoSalvage ==>
      forall v :: Satisfied(res.row, v) <==> v(SalvageValue(r, t, y)) == 0.0
  {
    SalvageRow(I, rpow, r, t, y, OutlivesHorizon(I, r, t, y), SalvageValue(r, t, y))
  }

  /** SV1 with the straight-line coefficient on NewCapacity, the column the annuity branch uses. */
  function SV1Corrected(I: Instance, rpow: (real, real) -> real, r: Region, t: Tech, y: Year): (res: Outcome<Record>)
    requires y in I.sets.year
    ensures res.Fail? <==> SV1(I, rpow, r, t, y).Fail?
    ensures res.Emit? ==> res.row.sense == Eq && res.row.rhs == 0.0
    ensures res.Emit? && SalvageBranch(I, r, t, y, OutlivesHorizon(I, r, t, y)) == StraightLine ==>
      forall v :: Satisfied(res.row, v) <==>
        v(SalvageValue(r, t, y)) == I.params.capitalCost.Get((r, t, y)) * v(NewCapacity(r, t, y)) *
          StraightLineFraction(ServedYears(I, y), I.params.operationalLife.Get((r, t)))
    ensures res.Emit? && SalvageBranch(I, r, t, y, OutlivesHorizon(I, r, t, y)) == Annuity ==>
      forall v :: Satisfied(res.row, v) <==>
        v(SalvageValue(r, t, y)) == I.params.capitalCost.Get((r, t, y)) * v(NewCapacity(r, t, y)) *
          AnnuityFraction(rpow, I.params.discountRate.Get(r), ServedYears(I, y), I.params.operationalLife.Get((r, t)))
    ensures res.Emit? && SalvageBranch(I, r, t, y, OutlivesHorizon(I, r, t, y)) == NoSalvage ==>
      forall v :: Satisfied(res.row, v) <==> v(SalvageValue(r, t, y)) == 0.0
  {
    SalvageRow(I, rpow, r, t, y, OutlivesHorizon(I, r, t, y), NewCapacity(r, t, y))
  }

  /**
   * On the straight-line branch the row SV1 emits does not mention new
   * capacity, and unless the depreciation coefficient happens to be 1 it
   * pins the salvage value to zero whatever was built; the corrected row
   * ties it to new capacity.
   */
  lemma SV1StraightLineIgnoresNewCapacity(I: Instance, rpow: (real, real) -> real, r: Region, t: Tech, y: Year)
    requires y in I.sets.year
    requires SalvageBranch(I, r, t, y, OutlivesHorizon(I, r, t, y)) == StraightLine
    requires I.params.operationalLife.Get((r, t)) != 0.0
    requires I.params.capitalCost.Get((r, t, y)) * StraightLineFraction(ServedYears(I, y), I.params.operationalLife.Get((r, t))) != 1.0
    ensures SV1(I, rpow, r, t, y).Emit? && SV1Corrected(I, rpow, r, t, y).Emit?
    ensures NewCapacity(r, t, y) !in Columns(SV1(I, rpow, r, t, y).row.lhs)
    ensures NewCapacity(r, t, y) in Columns(SV1Corrected(I, rpow, r, t, y).row.lhs)
    ensures forall v :: Satisfied(SV1(I, rpow, r, t, y).row, v) <==> v(SalvageValue(r, t, y)) == 0.0
  {
    var k := I.params.capitalCost.Get((r, t, y)) * StraightLineFraction(ServedYears(I, y), I.params.operationalLife.Get((r, t)));
    forall v ensures Satisfied(SV1(I, rpow, r, t, y).row, v) <==> v(SalvageValue(r, t, y)) == 0.0 {
      var s := v(SalvageValue(r, t, y));
      assert Satisfied(SV1(I, rpow, r, t, y).row, v) <==> s == I.params.capitalCost.Get((r, t, y)) * s * StraightLineFraction(ServedYears(I, y), I.params.operationalLife.Get((r, t)));
      if s == k * s {
        assert s * (1.0 - k) == 0.0;
        assert 1.0 - k != 0.0;
      }
    }
  }

  /**
   * Two model years ten years apart, straight-line depreciation, a twelve-year
   * operational life and unit capital cost.
   */
  function DecadeInstance(): (I: Instance)
    ensures I.sets.year == [2020, 2030] && Max(I.sets.year) == 2030
  {
    var years := [2020, 2030];
    assert Max(years) == 2030 by {
      assert Max(years[1..]) == 2030;
    }
    Instance(
      Sets(years, ["tech"], [], [], ["region"], [], [], []),
      Defaults().(timeStep := Table(map[], 10), depreciationMethod := Table(map[], 2.0),
                  operationalLife := Table(map[], 12.0), capitalCost := Table(map[], 1.0)))
  }

  /** In the last decade SV1 pins the salvage value to zero while one sixth of the investment is left. */
  lemma SV1DecadeWitness(rpow: (real, real) -> real)
    ensures var I := DecadeInstance();
      && SV1(I, rpow, "region", "tech", 2030).Emit?
      && SV1Corrected(I, rpow, "region", "tech", 2030).Emit?
      && (forall v :: Satisfied(SV1(I, rpow, "region", "tech", 2030).row, v) <==> v(SalvageValue("region", "tech", 2030)) == 0.0)
      && (forall v :: Satisfied(SV1Corrected(I, rpow, "region", "tech", 2030).row, v) <==>
            v(SalvageValue("region", "tech", 2030)) == v(NewCapacity("region", "tech", 2030)) / 6.0)
  {
    var I := DecadeInstance();
    assert ServedYears(I, 2030) == 10.0;
    assert StraightLineFraction(10.0, 12.0) == 1.0 / 6.0;
    SV1StraightLineIgnoresNewCapacity(I, rpow, "region", "tech", 2030);
  }

  /**
   * Capacity of the first decade's period lasts from 2016 to 2027 and is gone
   * before the horizon ends in 2035, yet SV1's life test counts it as alive
   * and the straight-line fraction comes out at -2/3: any positive new
   * capacity is given a negative salvage value.
   */
  lemma SV1NegativeSalvage(rpow: (real, real) -> real)
    ensures var I := DecadeInstance();
      && OutlivesHorizon(I, "region", "tech", 2020)
      && !LifeBeyondHorizon(I, "region", "tech", 2020)
      && SV1Corrected(I, rpow, "region", "tech", 2020).Emit?
      && forall v :: Satisfied(SV1Corrected(I, rpow, "region", "tech", 2020).row, v) && v(NewCapacity("region", "tech", 2020)) > 0.0 ==>
           v(SalvageValue("region", "tech", 2020)) < 0.0
  {
    var I := DecadeInstance();
    assert ServedYears(I, 2020) == 20.0;
    assert StraightLineFraction(20.0, 12.0) == -2.0 / 3.0;
  }

  /** SV1 with the corrected coefficient column and the life test its fractions presume. */
  function SV1Intended(I: Instance, rpow: (real, real) -> real, r: Region, t: Tech, y: Year): (res: Outcome<Record>)
    requires y in I.sets.year
    ensures res.Emit? ==> res.row.sense == Eq && res.row.rhs == 0.0
    ensures res.Fail? <==>
      || (SalvageBranch(I, r, t, y, LifeBeyondHorizon(I, r, t, y)) == Annuity && rpow(1.0 + I.params.discountRate.Get(r), I.params.operationalLife.Get((r, t))) == 1.0)
      || (SalvageBranch(I, r, t, y, LifeBeyondHorizon(I, r, t, y)) == StraightLine && I.params.operationalLife.Get((r, t)) == 0.0)
  {
    SalvageRow(I, rpow, r, t, y, LifeBeyondHorizon(I, r, t, y), NewCapacity(r, t, y))
  }

  /**
   * Under the corrected life test a straight-line salvage value lies between
   * zero and the investment: never negative for non-negative new capacity and
   * capital cost.
   */
  lemma SV1IntendedBounded(I: Instance, rpow: (real, real) -> real, r: Region, t: Tech, y: Year)
    requires y in I.sets.year && NonNegativeSteps(I)
    requires I.params.capitalCost.Get((r, t, y)) >= 0.0
    requires SalvageBranch(I, r, t, y, LifeBeyondHorizon(I, r, t, y)) != Annuity
    ensures SV1Intended(I, rpow, r, t, y).Emit?
    ensures forall v :: Satisfied(SV1Intended(I, rpow, r, t, y).row, v) && v(NewCapacity(r, t, y)) >= 0.0 ==>
      0.0 <= v(SalvageValue(r, t, y)) <= I.params.capitalCost.Get((r, t, y)) * v(NewCapacity(r, t, y))
  {
    var life, cc := I.params.operationalLife.Get((r, t)), I.params.capitalCost.Get((r, t, y));
    if SalvageBranch(I, r, t, y, LifeBeyondHorizon(I, r, t, y)) == StraightLine {
      var served := ServedYears(I, y);
      var last := Max(I.sets.year);
      assert I.params.timeStep.Get(last) >= 0 && I.params.timeStep.Get(y) >= 0;
      assert served >= 0.0;
      assert life > served;
      forall v | Satisfied(SV1Intended(I, rpow, r, t, y).row, v) && v(NewCapacity(r, t, y)) >= 0.0
        ensures 0.0 <= v(SalvageValue(r, t, y)) <= cc * v(NewCapacity(r, t, y))
      {
        assert v(SalvageValue(r, t, y)) == cc * v(NewCapacity(r, t, y)) * StraightLineFraction(served, life);
        StraightLineShare(cc, v(NewCapacity(r, t, y)), served, life);
      }
    }
  }

  /**
   * The row shared by the SV1 variants: `alive` is the life test in use and
   * `straight` the column the straight-line coefficient lands on.
   */
  function SalvageRow(I: Instance, rpow: (real, real) -> real, r: Region, t: Tech, y: Year, alive: bool, straight: Column): (res: Outcome<Record>)
    requires |I.sets.year| > 0
    ensures res.Fail? <==>
      || (SalvageBranch(I, r, t, y, alive) == Annuity && rpow(1.0 + I.params.discountRate.Get(r), I.params.operationalLife.Get((r, t))) == 1.0)
      || (SalvageBranch(I, r, t, y, alive) == StraightLine && I.params.operationalLife.Get((r, t)) == 0.0)
    ensures res.Fail? ==> res.error == ZeroDivision
    ensures !res.Skip?
    ensures res.Emit? ==> res.row.sense == Eq && res.row.rhs == 0.0
    ensures res.Emit? && SalvageBranch(I, r, t, y, alive) == StraightLine ==>
      Columns(res.row.lhs) == [SalvageValue(r, t, y), straight]
    ensures res.Emit? && SalvageBranch(I, r, t, y, alive) == StraightLine ==>
      forall v :: Satisfied(res.row, v) <==>
        v(SalvageValue(r, t, y)) == I.params.capitalCost.Get((r, t, y)) * v(straight) * StraightLineFraction(ServedYears(I, y), I.params.operationalLife.Get((r, t)))
    ensures res.Emit? && SalvageBranch(I, r, t, y, alive) == Annuity ==>
      forall v :: Satisfied(res.row, v) <==>
        v(SalvageValue(r, t, y)) == I.params.capitalCost.Get((r, t, y)) * v(NewCapacity(r, t, y)) *
          AnnuityFraction(rpow, I.params.discountRate.Get(r), ServedYears(I, y), I.params.operationalLife.Get((r, t)))
    ensures res.Emit? && SalvageBranch(I, r, t, y, alive) == NoSalvage ==>
      forall v :: Satisfied(res.row, v) <==> v(SalvageValue(r, t, y)) == 0.0
  {
    var P := I.params;
    var cc, dr, life := P.capitalCost.Get((r, t, y)), P.discountRate.Get(r), P.operationalLife.Get((r, t));
    match SalvageBranch(I, r, t, y, alive)
    case Annuity =>
      if rpow(1.0 + dr, life) - 1.0 == 0.0 then Fail(ZeroDivision)
      else
        var lhs := [Single(1.0, SalvageValue(r, t, y)), Single(-1.0 * cc * AnnuityFraction(rpow, dr, ServedYears(I, y), life), NewCapacity(r, t, y))];
        Value2(lhs[0], lhs[1]);
        Emit(Record(lhs, 0.0, Eq))
    case StraightLine =>
      if life == 0.0 then Fail(ZeroDivision)
      else
        var lhs := [Single(1.0, SalvageValue(r, t, y)), Single(-1.0 * cc * StraightLineFraction(ServedYears(I, y), life), straight)];
        Value2(lhs[0], lhs[1]);
        Columns2(lhs[0], lhs[1]);
        Emit(Record(lhs, 0.0, Eq))
    case NoSalvage =>
      var lhs := [Single(1.0, SalvageValue(r, t, y))];
      Value1(lhs[0]);
      Emit(Record(lhs, 0.0, Eq))
  }

  /** SV2: the salvage value is discounted over the whole horizon to its first year. */
  function SV2(I: Instance, rpow: (real, real) -> real, r: Region, t: Tech, y: Year): (res: Outcome<Record>)
    requires y in I.sets.year
    ensures res.Fail? <==> rpow(1.0 + I.params.discountRate.Get(r), HorizonLength(I)) == 0.0
    ensures !res.Skip?
    ensures res.Emit? ==> res.row.sense == Eq
    ensures res.Emit? ==> forall v :: Satisfied(res.row, v) <==>
      v(DiscountedSalvageValue(r, t, y)) * rpow(1.0 + I.params.discountRate.Get(r), HorizonLength(I)) == v(SalvageValue(r, t, y))
  {
    Discounted(DiscountedSalvageValue(r, t, y), SalvageValue(r, t, y), rpow(1.0 + I.params.discountRate.Get(r), HorizonLength(I)))
  }

  //////////////////////// Operating costs ////////////////////////

  /** OC1: variable operating cost is the activity in each of the technology's modes times its variable cost. */
  function OC1(I: Instance, l: Loc, t: Tech, y: Year): (res: Outcome<Record>)
    ensures !res.Fail?
    ensures res.Emit? <==> HubMatch(I.params, l, t)
    ensures res.Emit? ==> res.row.sense == Eq
    ensures res.Emit? ==> forall c :: c in Columns(res.row.lhs) <==>
      (c == LocalVariableOperatingCost(l, t, y) ||
       exists m :: m in I.sets.mode && I.params.modeForTechnology.Get((t, m)) == 1.0 && c == LocalActivityByMode(l, t, m, y))
    ensures res.Emit? ==> forall v :: Satisfied(res.row, v) <==>
      v(LocalVariableOperatingCost(l, t, y)) == WeightedSum(ModesOf(I, t), m => LocalVariableCost(I, l, t, m, y), m => LocalActivityByMode(l, t, m, y), v)
  {
    if HubMatch(I.params, l, t) then
      Emit(WeightedTotal(LocalVariableOperatingCost(l, t, y), ModesOf(I, t), m => LocalVariableCost(I, l, t, m, y), m => LocalActivityByMode(l, t, m, y)))
    else Skip
  }

  /** OC2: fixed operating cost is total capacity times the location's fixed cost. */
  function OC2(I: Instance, l: Loc, t: Tech, y: Year): (res: Outcome<Record>)
    ensures !res.Fail?
    ensures res.Emit? <==> HubMatch(I.params, l, t)
    ensures res.Emit? ==> res.row.sense == Eq
    ensures res.Emit? ==> forall v :: Satisfied(res.row, v) <==>
      v(LocalFixedOperatingCost(l, t, y)) == v(LocalTotalCapacity(l, t, y)) * LocalFixedCost(I, l, t, y)
  {
    if HubMatch(I.params, l, t) then
      var lhs := [Single(1.0, LocalFixedOperatingCost(l, t, y)), Single(-1.0 * LocalFixedCost(I, l, t, y), LocalTotalCapacity(l, t, y))];
      Value2(lhs[0], lhs[1]);
      Emit(Record(lhs, 0.0, Eq))
    else Skip
  }

  /** OC3: operating cost is fixed plus variable operating cost. */
  function OC3(I: Instance, l: Loc, t: Tech, y: Year): (res: Outcome<Record>)
    ensures !res.Fail?
    ensures res.Emit? <==> HubMatch(I.params, l, t)
    ensures res.Emit? ==> res.row.sense == Eq
    ensures res.Emit? ==> forall v :: Satisfied(res.row, v) <==>
      v(LocalOperatingCost(l, t, y)) == v(LocalFixedOperatingCost(l, t, y)) + v(LocalVariableOperatingCost(l, t, y))
  {
    if HubMatch(I.params, l, t) then
      var lhs := [Single(1.0, LocalOperatingCost(l, t, y)), Single(-1.0, LocalFixedOperatingCost(l, t, y)), Single(-1.0, LocalVariableOperatingCost(l, t, y))];
      Value3(lhs[0], lhs[1], lhs[2]);
      Emit(Record(lhs, 0.0, Eq))
    else Skip
  }

  /** OC4: operating cost is discounted to the horizon's first year at the location's rate. */
  function OC4(I: Instance, rpow: (real, real) -> real, l: Loc, t: Tech, y: Year): (res: Outcome<Record>)
    requires y in I.sets.year
    ensures res.Skip? <==> !HubMatch(I.params, l, t)
    ensures res.Fail? <==> HubMatch(I.params, l, t) && rpow(1.0 + LocalDiscountRate(I, l), YearsFromHorizonStart(I, y)) == 0.0
    ensures res.Emit? ==> res.row.sense == Eq
    ensures res.Emit? ==> forall v :: Satisfied(res.row, v) <==>
      v(LocalDiscountedOperatingCost(l, t, y)) * rpow(1.0 + LocalDiscountRate(I, l), YearsFromHorizonStart(I, y)) == v(LocalOperatingCost(l, t, y))
  {
    if HubMatch(I.params, l, t) then
      Discounted(LocalDiscountedOperatingCost(l, t, y), LocalOperatingCost(l, t, y), rpow(1.0 + LocalDiscountRate(I, l), YearsFromHorizonStart(I, y)))
    else Skip
  }

  /** OC5: regional discounted operating cost is the local one of the region's relevant locations. */
  function OC5(I: Instance, r: Region, t: Tech, y: Year): (res: Outcome<Record>)
    ensures res.Fail? <==> !IsFlag(I.params.hubTechnology.Get(t))
    ensures res.Emit? ==> res.row.sense == Eq
    ensures res.Emit? ==> forall c :: c in Columns(res.row.lhs) <==>
      (c == DiscountedOperatingCost(r, t, y) ||
       exists l :: l in I.sets.location && HubMatch(I.params, l, t) && I.params.geography.Get((r, l)) == 1.0 && c == LocalDiscountedOperatingCost(l, t, y))
  {
    RegionalTotal(I, r, t, DiscountedOperatingCost(r, t, y), l => LocalDiscountedOperatingCost(l, t, y))
  }

  //////////////////////// Transport costs ////////////////////////

  /**
   * TC1: the transport cost of a location is what arrives over each routed
   * link times the mode's cost; a hub also pays the inter-regional cost of
   * what arrives from other hubs.
   */
  function TC1(I: Instance, l: Loc, p: Product, y: Year): (res: Outcome<Record>)
    ensures res.Emit? && res.row.sense == Eq && res.row.rhs == 0.0
    ensures forall c :: c in Columns(res.row.lhs) <==> c == LocalTransportCost(l, p, y) || exists k :: k in Arrivals(I, l, p, y) && c == Flow(k, p, y)
    ensures forall v :: Satisfied(res.row, v) <==>
      v(LocalTransportCost(l, p, y)) ==
        WeightedSum(Arrivals(I, l, p, y), (k: Link) => LocalModeCost(I, l, k.tr, y), (k: Link) => Flow(k, p, y), v) +
        (if I.params.hubLocation.Get(l) == 0.0 then 0.0
         else WeightedSum(HubArrivals(I, l, p, y), (k: Link) => InterRegionalCost(I, k.from, l, k.tr, y), (k: Link) => Flow(k, p, y), v))
  {
    var ks := Arrivals(I, l, p, y);
    if I.params.hubLocation.Get(l) == 0.0 then
      Emit(WeightedTotal(LocalTransportCost(l, p, y), ks, (k: Link) => LocalModeCost(I, l, k.tr, y), (k: Link) => Flow(k, p, y)))
    else
      var hs := HubArrivals(I, l, p, y);
      var rec := WeightedTotal2(LocalTransportCost(l, p, y), ks, (k: Link) => LocalModeCost(I, l, k.tr, y),
        hs, (k: Link) => InterRegionalCost(I, k.from, l, k.tr, y), (k: Link) => Flow(k, p, y));
      FlowColumns(LocalTransportCost(l, p, y), ks, hs, (k: Link) => Flow(k, p, y), p, y);
      Emit(rec)
  }

  /** TC2: transport cost is discounted to the horizon's first year at the location's rate. */
  function TC2(I: Instance, rpow: (real, real) -> real, l: Loc, p: Product, y: Year): (res: Outcome<Record>)
    requires y in I.sets.year
    ensures !res.Skip?
    ensures res.Fail? <==> rpow(1.0 + LocalDiscountRate(I, l), YearsFromHorizonStart(I, y)) == 0.0
    ensures res.Emit? ==> res.row.sense == Eq
    ensures res.Emit? ==> forall v :: Satisfied(res.row, v) <==>
      v(LocalDiscountedTransportCost(l, p, y)) * rpow(1.0 + LocalDiscountRate(I, l), YearsFromHorizonStart(I, y)) == v(LocalTransportCost(l, p, y))
  {
    Discounted(LocalDiscountedTransportCost(l, p, y), LocalTransportCost(l, p, y), rpow(1.0 + LocalDiscountRate(I, l), YearsFromHorizonStart(I, y)))
  }

  /** TC3: a region's discounted transport cost for a product is that of its locations (Geography == 1), hubs included. */
  function TC3(I: Instance, r: Region, p: Product, y: Year): (res: Outcome<Record>)
    ensures res.Emit? && res.row.sense == Eq && res.row.rhs == 0.0
    ensures forall c :: c in Columns(res.row.lhs) <==>
      (c == DiscountedTransportCostByProduct(r, p, y) ||
       exists l :: l in I.sets.location && I.params.geography.Get((r, l)) == 1.0 && c == LocalDiscountedTransportCost(l, p, y))
    ensures forall v :: Satisfied(res.row, v) <==>
      v(DiscountedTransportCostByProduct(r, p, y)) == ColumnSum(InRegion(I, r, I.sets.location), l => LocalDiscountedTransportCost(l, p, y), v)
  {
    Emit(Aggregate(DiscountedTransportCostByProduct(r, p, y), InRegion(I, r, I.sets.location), l => LocalDiscountedTransportCost(l, p, y), 0.0))
  }

  /** TC4: a region's discounted transport cost is the sum over all products. */
  function TC4(I: Instance, r: Region, y: Year): (res: Outcome<Record>)
    ensures res.Emit? && res.row.sense == Eq && res.row.rhs == 0.0
    ensures forall c :: c in Columns(res.row.lhs) <==>
      (c == DiscountedTransportCost(r, y) || exists p :: p in I.sets.product && c == DiscountedTransportCostByProduct(r, p, y))
    ensures forall v :: Satisfied(res.row, v) <==>
      v(DiscountedTransportCost(r, y)) == ColumnSum(I.sets.product, p => DiscountedTransportCostByProduct(r, p, y), v)
  {
    Emit(Aggregate(DiscountedTransportCost(r, y), I.sets.product, p => DiscountedTransportCostByProduct(r, p, y), 0.0))
  }

  //////////////////////// Total discounted cost ////////////////////////

  /**
   * TDC1: a region's total discounted cost in a year is the net cost of
   * every technology plus the discounted transport cost. The rule is indexed
   * by a technology it never reads, so every technology yields this same row.
   */
  function TDC1(I: Instance, r: Region, t: Tech, y: Year): (res: Outcome<Record>)
    ensures res.Emit? && res.row.sense == Eq && res.row.rhs == 0.0
    ensures forall v :: Satisfied(res.row, v) <==>
      v(TotalDiscountedCost(r, y)) == Sum(I.sets.technology, NetTechnologyCost(r, y, v)) + v(DiscountedTransportCost(r, y))
  {
    var ts := I.sets.technology;
    var operating := Shared(-1.0, Map(ts, t => DiscountedOperatingCost(r, t, y)));
    var capital := Shared(-1.0, Map(ts, t => DiscountedCapitalInvestment(r, t, y)));
    var penalty := Shared(-1.0, Map(ts, t => DiscountedTechnologyEmissionsPenalty(r, t, y)));
    var salvage := Shared(1.0, Map(ts, t => DiscountedSalvageValue(r, t, y)));
    var head := [Single(1.0, TotalDiscountedCost(r, y)), operating, capital];
    var tail := [penalty, salvage, Single(-1.0, DiscountedTransportCost(r, y))];
    Value3(head[0], head[1], head[2]);
    Value3(tail[0], tail[1], tail[2]);
    forall v ensures Value(head + tail, v) == v(TotalDiscountedCost(r, y)) - Sum(ts, NetTechnologyCost(r, y, v)) - v(DiscountedTransportCost(r, y)) {
      ValueAppend(head, tail, v);
      SharedSum(ts, t => DiscountedOperatingCost(r, t, y), v);
      SharedSum(ts, t => DiscountedCapitalInvestment(r, t, y), v);
      SharedSum(ts, t => DiscountedTechnologyEmissionsPenalty(r, t, y), v);
      SharedSum(ts, t => DiscountedSalvageValue(r, t, y), v);
      NetCostSplits(ts, r, y, v);
    }
    Emit(Record(head + tail, 0.0, Eq))
  }

  /** TDC2: a region's model-period cost is its total discounted cost summed over the years. */
  function TDC2(I: Instance, r: Region): (res: Outcome<Record>)
    ensures res.Emit? && res.row.sense == Eq && res.row.rhs == 0.0
    ensures forall v :: Satisfied(res.row, v) <==>
      v(ModelPeriodCostByRegion(r)) == ColumnSum(I.sets.year, y => TotalDiscountedCost(r, y), v)
  {
    Emit(Aggregate(ModelPeriodCostByRegion(r), I.sets.year, y => TotalDiscountedCost(r, y), 0.0))
  }

  /** The objective: the model-period cost of every region, each with coefficient 1. */
  function Objective(I: Instance): (obj: seq<Term>)
    ensures forall c :: c in Columns(obj) <==> exists r :: r in I.sets.region && c == ModelPeriodCostByRegion(r)
    ensures forall v :: Value(obj, v) == ColumnSum(I.sets.region, r => ModelPeriodCostByRegion(r), v)
  {
    var obj := [SumTerm(I.sets.region, r => ModelPeriodCostByRegion(r))];
    Columns1(obj[0]);
    Value1(obj[0]);
    obj
  }

  //////////////////////// Limits ////////////////////////

  /** An upper limit: no row while the parameter holds the "no limit" sentinel. */
  function UpperLimit(col: Column, limit: real): (res: Outcome<Record>)
    ensures !res.Fail?
    ensures res.Emit? <==> limit != HighMaxDefault
    ensures res.Emit? ==> res.row.sense == Le && Columns(res.row.lhs) == [col]
    ensures res.Emit? ==> forall v :: Satisfied(res.row, v) <==> v(col) <= limit
  {
    if limit != HighMaxDefault then Emit(Bound(col, Le, limit)) else Skip
  }

  /** A lower limit: no row while the parameter is 0. */
  function LowerLimit(col: Column, limit: real): (res: Outcome<Record>)
    ensures !res.Fail?
    ensures res.Emit? <==> limit != 0.0
    ensures res.Emit? ==> res.row.sense == Ge && Columns(res.row.lhs) == [col]
    ensures res.Emit? ==> forall v :: Satisfied(res.row, v) <==> v(col) >= limit
  {
    if limit != 0.0 then Emit(Bound(col, Ge, limit)) else Skip
  }

  /** TCC1: the regional total capacity stays under its maximum, where one is set. */
  function TCC1(I: Instance, r: Region, t: Tech, y: Year): (res: Outcome<Record>)
    ensures !res.Fail?
    ensures res.Emit? <==> I.params.totalAnnualMaxCapacity.Get((r, t, y)) != HighMaxDefault
    ensures res.Emit? ==> forall v :: Satisfied(res.row, v) <==> v(TotalCapacity(r, t, y)) <= I.params.totalAnnualMaxCapacity.Get((r, t, y))
  {
    UpperLimit(TotalCapacity(r, t, y), I.params.totalAnnualMaxCapacity.Get((r, t, y)))
  }

  /** TCC2: the regional total capacity reaches its minimum, where one is set. */
  function TCC2(I: Instance, r: Region, t: Tech, y: Year): (res: Outcome<Record>)
    ensures !res.Fail?
    ensures res.Emit? <==> I.params.totalAnnualMinCapacity.Get((r, t, y)) != 0.0
    ensures res.Emit? ==> forall v :: Satisfied(res.row, v) <==> v(TotalCapacity(r, t, y)) >= I.params.totalAnnualMinCapacity.Get((r, t, y))
  {
    LowerLimit(TotalCapacity(r, t, y), I.params.totalAnnualMinCapacity.Get((r, t, y)))
  }

  /** NCC1: new capacity at a location stays under its maximum investment, where one is set and `t` belongs at `l`. */
  function NCC1(I: Instance, l: Loc, t: Tech, y: Year): (res: Outcome<Record>)
    ensures !res.Fail?
    ensures res.Emit? <==> I.params.localTotalAnnualMaxCapacityInvestment.Get((l, t, y)) != HighMaxDefault && HubMatch(I.params, l, t)
    ensures res.Emit? ==> forall v :: Satisfied(res.row, v) <==>
      v(LocalNewCapacity(l, t, y)) <= I.params.localTotalAnnualMaxCapacityInvestment.Get((l, t, y))
  {
    if HubMatch(I.params, l, t) then UpperLimit(LocalNewCapacity(l, t, y), I.params.localTotalAnnualMaxCapacityInvestment.Get((l, t, y)))
    else Skip
  }

  /** NCC2: new capacity at a location reaches its minimum investment, where one is set and `t` belongs at `l`. */
  function NCC2(I: Instance, l: Loc, t: Tech, y: Year): (res: Outcome<Record>)
    ensures !res.Fail?
    ensures res.Emit? <==> I.params.localTotalAnnualMinCapacityInvestment.Get((l, t, y)) != 0.0 && HubMatch(I.params, l, t)
    ensures res.Emit? ==> forall v :: Satisfied(res.row, v) <==>
      v(LocalNewCapacity(l, t, y)) >= I.params.localTotalAnnualMinCapacityInvestment.Get((l, t, y))
  {
    if HubMatch(I.params, l, t) then LowerLimit(LocalNewCapacity(l, t, y), I.params.localTotalAnnualMinCapacityInvestment.Get((l, t, y)))
    else Skip
  }

  //////////////////////// Activity ////////////////////////

  /** AAC0: the activity of `t` at `l` is its activity summed over the technology's modes. */
  function AAC0(I: Instance, l: Loc, t: Tech, y: Year): (res: Outcome<Record>)
    ensures !res.Fail?
    ensures res.Emit? <==> HubMatch(I.params, l, t)
    ensures res.Emit? ==> res.row.sense == Eq
    ensures res.Emit? ==> forall v :: Satisfied(res.row, v) <==>
      v(LocalActivity(l, t, y)) == ColumnSum(ModesOf(I, t), m => LocalActivityByMode(l, t, m, y), v)
  {
    if HubMatch(I.params, l, t) then Emit(Aggregate(LocalActivity(l, t, y), ModesOf(I, t), m => LocalActivityByMode(l, t, m, y), 0.0))
    else Skip
  }

  /**
   * AAC1: a region's activity is the local activity of the relevant
   * locations, each weighted by its Geography entry. Unlike CA0 and the
   * other regional totals it does not filter on Geography == 1: every
   * relevant location contributes with its weight.
   */
  function AAC1(I: Instance, r: Region, t: Tech, y: Year): (res: Outcome<Record>)
    ensures res.Fail? <==> !IsFlag(I.params.hubTechnology.Get(t))
    ensures res.Emit? ==> res.row.sense == Eq && res.row.rhs == 0.0
    ensures res.Emit? ==> forall c :: c in Columns(res.row.lhs) <==>
      (c == Activity(r, t, y) || exists l :: l in I.sets.location && HubMatch(I.params, l, t) && c == LocalActivity(l, t, y))
    ensures res.Emit? ==> forall v :: Satisfied(res.row, v) <==>
      v(Activity(r, t, y)) == WeightedSum(RelevantLocation(I, t).value, l => I.params.geography.Get((r, l)), l => LocalActivity(l, t, y), v)
  {
    match RelevantLocation(I, t)
    case Err(e) => Fail(e)
    case Ok(relevant) => Emit(WeightedTotal(Activity(r, t, y), relevant, l => I.params.geography.Get((r, l)), l => LocalActivity(l, t, y)))
  }

  /** AAC2: a region's annual activity stays under its upper limit, where one is set. */
  function AAC2(I: Instance, r: Region, t: Tech, y: Year): (res: Outcome<Record>)
    ensures !res.Fail?
    ensures res.Emit? <==> I.params.totalTechnologyAnnualActivityUpperLimit.Get((r, t, y)) != HighMaxDefault
    ensures res.Emit? ==> forall v :: Satisfied(res.row, v) <==> v(Activity(r, t, y)) <= I.params.totalTechnologyAnnualActivityUpperLimit.Get((r, t, y))
  {
    UpperLimit(Activity(r, t, y), I.params.totalTechnologyAnnualActivityUpperLimit.Get((r, t, y)))
  }

  /** AAC3: a region's annual activity reaches its lower limit, where one is set. */
  function AAC3(I: Instance, r: Region, t: Tech, y: Year): (res: Outcome<Record>)
    ensures !res.Fail?
    ensures res.Emit? <==> I.params.totalTechnologyAnnualActivityLowerLimit.Get((r, t, y)) != 0.0
    ensures res.Emit? ==> forall v :: Satisfied(res.row, v) <==> v(Activity(r, t, y)) >= I.params.totalTechnologyAnnualActivityLowerLimit.Get((r, t, y))
  {
    LowerLimit(Activity(r, t, y), I.params.totalTechnologyAnnualActivityLowerLimit.Get((r, t, y)))
  }

  /** TAC1: a region's model-period activity is its annual activity summed over the years. */
  function TAC1(I: Instance, r: Region, t: Tech): (res: Outcome<Record>)
    ensures res.Emit? && res.row.sense == Eq && res.row.rhs == 0.0
    ensures forall v :: Satisfied(res.row, v) <==> v(ModelPeriodActivity(r, t)) == ColumnSum(I.sets.year, y => Activity(r, t, y), v)
  {
    Emit(Aggregate(ModelPeriodActivity(r, t), I.sets.year, y => Activity(r, t, y), 0.0))
  }

  /** TAC2: model-period activity stays under its upper limit, where one is set. */
  function TAC2(I: Instance, r: Region, t: Tech): (res: Outcome<Record>)
    ensures !res.Fail?
    ensures res.Emit? <==> I.params.totalTechnologyModelPeriodActivityUpperLimit.Get((r, t)) != HighMaxDefault
    ensures res.Emit? ==> forall v :: Satisfied(res.row, v) <==> v(ModelPeriodActivity(r, t)) <= I.params.totalTechnologyModelPeriodActivityUpperLimit.Get((r, t))
  {
    UpperLimit(ModelPeriodActivity(r, t), I.params.totalTechnologyModelPeriodActivityUpperLimit.Get((r, t)))
  }

  /** TAC3: model-period activity reaches its lower limit, where one is set. */
  function TAC3(I: Instance, r: Region, t: Tech): (res: Outcome<Record>)
    ensures !res.Fail?
    ensures res.Emit? <==> I.params.totalTechnologyModelPeriodActivityLowerLimit.Get((r, t)) != 0.0
    ensures res.Emit? ==> forall v :: Satisfied(res.row, v) <==> v(ModelPeriodActivity(r, t)) >= I.params.totalTechnologyModelPeriodActivityLowerLimit.Get((r, t))
  {
    LowerLimit(ModelPeriodActivity(r, t), I.params.totalTechnologyModelPeriodActivityLowerLimit.Get((r, t)))
  }

  //////////////////////// Emissions ////////////////////////

  /**
   * E1: emission by mode is activity by mode times the location's emission
   * ratio. When that ratio is 0 the row pins the emission to 0 and leaves
   * the activity column out.
   */
  function E1(I: Instance, l: Loc, t: Tech, e: Emission, m: Mode, y: Year): (res: Outcome<Record>)
    ensures !res.Fail?
    ensures res.Emit? <==> HubMatch(I.params, l, t) && I.params.modeForTechnology.Get((t, m)) == 1.0
    ensures res.Emit? ==> res.row.sense == Eq && res.row.rhs == 0.0
    ensures res.Emit? ==> (LocalActivityByMode(l, t, m, y) in Columns(res.row.lhs) <==> LocalEmissionRatio(I, l, t, e, m, y) != 0.0)
    ensures res.Emit? ==> forall v :: Satisfied(res.row, v) <==>
      v(LocalTechnologyEmissionByMode(l, t, e, m, y)) == LocalEmissionRatio(I, l, t, e, m, y) * v(LocalActivityByMode(l, t, m, y))
  {
    if HubMatch(I.params, l, t) && I.params.modeForTechnology.Get((t, m)) == 1.0 then
      var ratio := LocalEmissionRatio(I, l, t, e, m, y);
      if ratio != 0.0 then
        var lhs := [Single(1.0, LocalTechnologyEmissionByMode(l, t, e, m, y)), Single(-1.0 * ratio, LocalActivityByMode(l, t, m, y))];
        Columns2(lhs[0], lhs[1]);
        Value2(lhs[0], lhs[1]);
        Emit(Record(lhs, 0.0, Eq))
      else
        var lhs := [Single(1.0, LocalTechnologyEmissionByMode(l, t, e, m, y))];
        Columns1(lhs[0]);
        Value1(lhs[0]);
        Emit(Record(lhs, 0.0, Eq))
    else Skip
  }

  /** E2: the emission of `t` at `l` is its emission summed over the technology's modes. */
  function E2(I: Instance, l: Loc, t: Tech, e: Emission, y: Year): (res: Outcome<Record>)
    ensures !res.Fail?
    ensures res.Emit? <==> HubMatch(I.params, l, t)
    ensures res.Emit? ==> res.row.sense == Eq
    ensures res.Emit? ==> forall v :: Satisfied(res.row, v) <==>
      v(LocalTechnologyEmission(l, t, e, y)) == ColumnSum(ModesOf(I, t), m => LocalTechnologyEmissionByMode(l, t, e, m, y), v)
  {
    if HubMatch(I.params, l, t) then Emit(Aggregate(LocalTechnologyEmission(l, t, e, y), ModesOf(I, t), m => LocalTechnologyEmissionByMode(l, t, e, m, y), 0.0))
    else Skip
  }

  /** E3: a region's annual emission of `t` is the local one of the region's relevant locations. */
  function E3(I: Instance, r: Region, t: Tech, e: Emission, y: Year): (res: Outcome<Record>)
    ensures res.Fail? <==> !IsFlag(I.params.hubTechnology.Get(t))
    ensures res.Emit? ==> res.row.sense == Eq
    ensures res.Emit? ==> forall c :: c in Columns(res.row.lhs) <==>
      (c == AnnualTechnologyEmission(r, t, e, y) ||
       exists l :: l in I.sets.location && HubMatch(I.params, l, t) && I.params.geography.Get((r, l)) == 1.0 && c == LocalTechnologyEmission(l, t, e, y))
  {
    RegionalTotal(I, r, t, AnnualTechnologyEmission(r, t, e, y), l => LocalTechnologyEmission(l, t, e, y))
  }

  /** E4: the penalty for an emission is the emission times the region's penalty rate. */
  function E4(I: Instance, r: Region, t: Tech, e: Emission, y: Year): (res: Outcome<Record>)
    ensures res.Emit? && res.row.sense == Eq && res.row.rhs == 0.0
    ensures forall v :: Satisfied(res.row, v) <==>
      v(AnnualTechnologyEmissionPenaltyByEmission(r, t, e, y)) == v(AnnualTechnologyEmission(r, t, e, y)) * I.params.emissionsPenalty.Get((r, e, y))
  {
    var lhs := [Single(1.0, AnnualTechnologyEmissionPenaltyByEmission(r, t, e, y)),
                Single(-1.0 * I.params.emissionsPenalty.Get((r, e, y)), AnnualTechnologyEmission(r, t, e, y))];
    Value2(lhs[0], lhs[1]);
    Emit(Record(lhs, 0.0, Eq))
  }

  /** E5: a technology's emission penalty is summed over the emission types. */
  function E5(I: Instance, r: Region, t: Tech, y: Year): (res: Outcome<Record>)
    ensures res.Emit? && res.row.sense == Eq && res.row.rhs == 0.0
    ensures forall v :: Satisfied(res.row, v) <==>
      v(AnnualTechnologyEmissionsPenalty(r, t, y)) == ColumnSum(I.sets.emission, e => AnnualTechnologyEmissionPenaltyByEmission(r, t, e, y), v)
  {
    Emit(Aggregate(AnnualTechnologyEmissionsPenalty(r, t, y), I.sets.emission, e => AnnualTechnologyEmissionPenaltyByEmission(r, t, e, y), 0.0))
  }

  /** E6: the emission penalty is discounted to the horizon's first year at the region's rate. */
  function E6(I: Instance, rpow: (real, real) -> real, r: Region, t: Tech, y: Year): (res: Outcome<Record>)
    requires y in I.sets.year
    ensures !res.Skip?
    ensures res.Fail? <==> rpow(1.0 + I.params.discountRate.Get(r), YearsFromHorizonStart(I, y)) == 0.0
    ensures res.Emit? ==> forall v :: Satisfied(res.row, v) <==>
      v(DiscountedTechnologyEmissionsPenalty(r, t, y)) * rpow(1.0 + I.params.discountRate.Get(r), YearsFromHorizonStart(I, y)) == v(AnnualTechnologyEmissionsPenalty(r, t, y))
  {
    Discounted(DiscountedTechnologyEmissionsPenalty(r, t, y), AnnualTechnologyEmissionsPenalty(r, t, y), rpow(1.0 + I.params.discountRate.Get(r), YearsFromHorizonStart(I, y)))
  }

  /** E7: a region's annual emission is summed over the technologies. */
  function E7(I: Instance, r: Region, e: Emission, y: Year): (res: Outcome<Record>)
    ensures res.Emit? && res.row.sense == Eq && res.row.rhs == 0.0
    ensures forall v :: Satisfied(res.row, v) <==>
      v(AnnualEmissions(r, e, y)) == ColumnSum(I.sets.technology, t => AnnualTechnologyEmission(r, t, e, y), v)
  {
    Emit(Aggregate(AnnualEmissions(r, e, y), I.sets.technology, t => AnnualTechnologyEmission(r, t, e, y), 0.0))
  }

  /** E8: model-period emission is the annual emission summed over the years, plus the exogenous emission. */
  function E8(I: Instance, r: Region, e: Emission): (res: Outcome<Record>)
    ensures res.Emit? && res.row.sense == Eq && res.row.rhs == I.params.modelPeriodExogenousEmission.Get((r, e))
    ensures forall v :: Satisfied(res.row, v) <==>
      v(ModelPeriodEmissions(r, e)) == ColumnSum(I.sets.year, y => AnnualEmissions(r, e, y), v) + I.params.modelPeriodExogenousEmission.Get((r, e))
  {
    Emit(Aggregate(ModelPeriodEmissions(r, e), I.sets.year, y => AnnualEmissions(r, e, y), I.params.modelPeriodExogenousEmission.Get((r, e))))
  }

  /** E9: annual emission plus the exogenous emission stays under the annual limit, where one is set. */
  function E9(I: Instance, r: Region, e: Emission, y: Year): (res: Outcome<Record>)
    ensures !res.Fail?
    ensures res.Emit? <==> I.params.annualEmissionLimit.Get((r, e, y)) != HighMaxDefault
    ensures res.Emit? ==> forall v :: Satisfied(res.row, v) <==>
      v(AnnualEmissions(r, e, y)) + I.params.annualExogenousEmission.Get((r, e, y)) <= I.params.annualEmissionLimit.Get((r, e, y))
  {
    var limit := I.params.annualEmissionLimit.Get((r, e, y));
    if limit != HighMaxDefault then Emit(Bound(AnnualEmissions(r, e, y), Le, limit - I.params.annualExogenousEmission.Get((r, e, y))))
    else Skip
  }

  /** E10: model-period emission stays under its limit, where one is set. */
  function E10(I: Instance, r: Region, e: Emission): (res: Outcome<Record>)
    ensures !res.Fail?
    ensures res.Emit? <==> I.params.modelPeriodEmissionLimit.Get((r, e)) != HighMaxDefault
    ensures res.Emit? ==> forall v :: Satisfied(res.row, v) <==> v(ModelPeriodEmissions(r, e)) <= I.params.modelPeriodEmissionLimit.Get((r, e))
  {
    UpperLimit(ModelPeriodEmissions(r, e), I.params.modelPeriodEmissionLimit.Get((r, e)))
  }

  /**
   * With the declared defaults, a limit that has no entry in its table emits
   * no row: the sentinel and the zero default never bind.
   */
  lemma UnsetLimitsEmitNothing(I: Instance, l: Loc, r: Region, t: Tech, e: Emission, y: Year)
    requires DeclaredDefaults(I.params)
    requires (r, t, y) !in I.params.totalAnnualMaxCapacity.rows && (r, t, y) !in I.params.totalAnnualMinCapacity.rows
    requires (l, t, y) !in I.params.localTotalAnnualMaxCapacityInvestment.rows && (l, t, y) !in I.params.localTotalAnnualMinCapacityInvestment.rows
    requires (r, t, y) !in I.params.totalTechnologyAnnualActivityUpperLimit.rows && (r, t, y) !in I.params.totalTechnologyAnnualActivityLowerLimit.rows
    requires (r, t) !in I.params.totalTechnologyModelPeriodActivityUpperLimit.rows && (r, t) !in I.params.totalTechnologyModelPeriodActivityLowerLimit.rows
    requires (r, e, y) !in I.params.annualEmissionLimit.rows && (r, e) !in I.params.modelPeriodEmissionLimit.rows
    ensures TCC1(I, r, t, y).Skip? && TCC2(I, r, t, y).Skip? && NCC1(I, l, t, y).Skip? && NCC2(I, l, t, y).Skip?
    ensures AAC2(I, r, t, y).Skip? && AAC3(I, r, t, y).Skip? && TAC2(I, r, t).Skip? && TAC3(I, r, t).Skip?
    ensures E9(I, r, e, y).Skip? && E10(I, r, e).Skip?
  {
  }
}
