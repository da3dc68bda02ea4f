/**
 * The input data every constraint rule reads: the index sets and the
 * parameter tables, each table with the default value it was declared with.
 * Labels are strings and years are integers, as in the input CSV files.
 */
module ModelData {
  import opened Basics

  type Loc = string
  type Tech = string
  type Product = string
  type Mode = string
  type Region = string
  type Emission = string
  type TransportMode = string
  type Year = int

  /**
   * The "no limit" sentinel: an upper-bound parameter holding it means "not
   * set", and the hub variants then emit no row for that bound.
   */
  const HighMaxDefault: real := 100000000000000000000.0

  /** A parameter table: explicit entries, and a default for every other key. */
  datatype Table<K, V> = Table(rows: map<K, V>, default: V)
  {
    /** The value of the parameter at `k`; a lookup never fails. */
    function Get(k: K): (v: V)
      ensures k in rows ==> v == rows[k]
      ensures k !in rows ==> v == default
    {
      if k in rows then rows[k] else default
    }
  }

  /** The index sets, as ordered lists (the order the rules iterate them in). */
  datatype Sets = Sets(
    year: seq<Year>,
    technology: seq<Tech>,
    transportMode: seq<TransportMode>,
    product: seq<Product>,
    region: seq<Region>,
    location: seq<Loc>,
    emission: seq<Emission>,
    mode: seq<Mode>)

  /** Every parameter any rule of the model reads. */
  datatype Params = Params(
    modeForTechnology: Table<(Tech, Mode), real>,
    productFromTechnology: Table<(Tech, Product), real>,
    productToTechnology: Table<(Tech, Product), real>,
    timeStep: Table<Year, int>,
    hubLocation: Table<Loc, real>,
    hubTechnology: Table<Tech, real>,
    discountRate: Table<Region, real>,
    transportRoute: Table<(Loc, Loc, Product, TransportMode, Year), real>,
    transportCapacity: Table<(Loc, Loc, Product, TransportMode, Year), real>,
    multiPurposeTransport: Table<TransportMode, real>,
    geography: Table<(Region, Loc), real>,
    depreciationMethod: Table<Region, real>,
    demand: Table<(Region, Product, Year), real>,
    transportCapacityToActivity: Table<TransportMode, real>,
    capacityToActivityUnit: Table<(Region, Tech), real>,
    availabilityFactor: Table<(Region, Tech, Year), real>,
    operationalLife: Table<(Region, Tech), real>,
    localResidualCapacity: Table<(Loc, Tech, Year), real>,
    inputActivityRatio: Table<(Region, Tech, Product, Mode, Year), real>,
    outputActivityRatio: Table<(Region, Tech, Product, Mode, Year), real>,
    capitalCost: Table<(Region, Tech, Year), real>,
    variableCost: Table<(Region, Tech, Mode, Year), real>,
    fixedCost: Table<(Region, Tech, Year), real>,
    transportCostByMode: Table<(Region, TransportMode, Year), real>,
    transportCostInterReg: Table<(Region, Region, TransportMode, Year), real>,
    totalAnnualMaxCapacity: Table<(Region, Tech, Year), real>,
    totalAnnualMinCapacity: Table<(Region, Tech, Year), real>,
    localTotalAnnualMaxCapacityInvestment: Table<(Loc, Tech, Year), real>,
    localTotalAnnualMinCapacityInvestment: Table<(Loc, Tech, Year), real>,
    totalTechnologyAnnualActivityUpperLimit: Table<(Region, Tech, Year), real>,
    totalTechnologyAnnualActivityLowerLimit: Table<(Region, Tech, Year), real>,
    totalTechnologyModelPeriodActivityUpperLimit: Table<(Region, Tech), real>,
    totalTechnologyModelPeriodActivityLowerLimit: Table<(Region, Tech), real>,
    emissionActivityRatio: Table<(Region, Tech, Emission, Mode, Year), real>,
    emissionsPenalty: Table<(Region, Emission, Year), real>,
    annualExogenousEmission: Table<(Region, Emission, Year), real>,
    annualEmissionLimit: Table<(Region, Emission, Year), real>,
    modelPeriodExogenousEmission: Table<(Region, Emission), real>,
    modelPeriodEmissionLimit: Table<(Region, Emission), real>,
    retrofitTechnology: Table<Tech, real>,
    technologyToRetrofit: Table<Tech, real>,
    matchTechnologyRetrofit: Table<(Tech, Tech), real>,
    maxImpurity: Table<(Product, Product), real>)

  /** The sets and parameters one model instance is built from. */
  datatype Instance = Instance(sets: Sets, params: Params)

  /**
   * The defaults the parameters are declared with: 0 for flags, ratios and
   * costs, 0.05 for the discount rate, 1 for factors and lives, the sentinel
   * for upper limits and 0 for lower limits.
   */
  predicate DeclaredDefaults(P: Params)
  {
    && P.modeForTechnology.default == 0.0
    && P.productFromTechnology.default == 0.0
    && P.productToTechnology.default == 0.0
    && P.timeStep.default == 0
    && P.hubLocation.default == 0.0
    && P.hubTechnology.default == 0.0
    && P.discountRate.default == 0.05
    && P.transportRoute.default == 0.0
    && P.transportCapacity.default == 0.0
    && P.multiPurposeTransport.default == 0.0
    && P.geography.default == 0.0
    && P.depreciationMethod.default == 1.0
    && P.demand.default == 0.0
    && P.transportCapacityToActivity.default == 1.0
    && P.capacityToActivityUnit.default == 1.0
    && P.availabilityFactor.default == 1.0
    && P.operationalLife.default == 1.0
    && P.localResidualCapacity.default == 0.0
    && P.inputActivityRatio.default == 0.0
    && P.outputActivityRatio.default == 0.0
    && P.capitalCost.default == 0.0
    && P.variableCost.default == 0.0
    && P.fixedCost.default == 0.0
    && P.transportCostByMode.default == 0.0
    && P.transportCostInterReg.default == 0.0
    && P.totalAnnualMaxCapacity.default == HighMaxDefault
    && P.totalAnnualMinCapacity.default == 0.0
    && P.localTotalAnnualMaxCapacityInvestment.default == HighMaxDefault
    && P.localTotalAnnualMinCapacityInvestment.default == 0.0
    && P.totalTechnologyAnnualActivityUpperLimit.default == HighMaxDefault
    && P.totalTechnologyAnnualActivityLowerLimit.default == 0.0
    && P.totalTechnologyModelPeriodActivityUpperLimit.default == HighMaxDefault
    && P.totalTechnologyModelPeriodActivityLowerLimit.default == 0.0
    && P.emissionActivityRatio.default == 0.0
    && P.emissionsPenalty.default == 0.0
    && P.annualExogenousEmission.default == 0.0
    && P.annualEmissionLimit.default == HighMaxDefault
    && P.modelPeriodExogenousEmission.default == 0.0
    && P.modelPeriodEmissionLimit.default == HighMaxDefault
    && P.retrofitTechnology.default == 0.0
    && P.technologyToRetrofit.default == 0.0
    && P.matchTechnologyRetrofit.default == 0.0
    && P.maxImpurity.default == HighMaxDefault
  }


  /** The parameters of an instance that sets no parameter at all: every table empty, every default as declared. */
  function Defaults(): (P: Params)
    ensures DeclaredDefaults(P)
    ensures P.geography.rows == map[] && P.hubLocation.rows == map[] && P.hubTechnology.rows == map[]
  {
    Params(
      Table(map[], 0.0),
      Table(map[], 0.0),
      Table(map[], 0.0),
      Table(map[], 0),
      Table(map[], 0.0),
      Table(map[], 0.0),
      Table(map[], 0.05),
      Table(map[], 0.0),
      Table(map[], 0.0),
      Table(map[], 0.0),
      Table(map[], 0.0),
      Table(map[], 1.0),
      Table(map[], 0.0),
      Table(map[], 1.0),
      Table(map[], 1.0),
      Table(map[], 1.0),
      Table(map[], 1.0),
      Table(map[], 0.0),
      Table(map[], 0.0),
      Table(map[], 0.0),
      Table(map[], 0.0),
      Table(map[], 0.0),
      Table(map[], 0.0),
      Table(map[], 0.0),
      Table(map[], 0.0),
      Table(map[], HighMaxDefault),
      Table(map[], 0.0),
      Table(map[], HighMaxDefault),
      Table(map[], 0.0),
      Table(map[], HighMaxDefault),
      Table(map[], 0.0),
      Table(map[], HighMaxDefault),
      Table(map[], 0.0),
      Table(map[], 0.0),
      Table(map[], 0.0),
      Table(map[], 0.0),
      Table(map[], HighMaxDefault),
      Table(map[], 0.0),
      Table(map[], HighMaxDefault),
      Table(map[], 0.0),
      Table(map[], 0.0),
      Table(map[], 0.0),
      Table(map[], HighMaxDefault))
  }

  /** The exceptions a rule can raise while building its row. */
  datatype RuleError =
    | UnboundLocal(name: string)  // a name bound only in an if/elif chain that matched no branch
    | ZeroDivision                // a discount or depreciation denominator is zero
    | NotInList                   // list.remove of an element the list does not hold

  /**
   * A location-technology pair is active when both are hub entities or
   * neither is; every local rule of the hub variants is emitted only then.
   */
  predicate HubMatch(P: Params, l: Loc, t: Tech)
  {
    || (P.hubLocation.Get(l) == 1.0 && P.hubTechnology.Get(t) == 1.0)
    || (P.hubLocation.Get(l) == 0.0 && P.hubTechnology.Get(t) == 0.0)
  }

  /** A hub flag the if/elif chains recognise. */
  predicate IsFlag(x: real)
  {
    x == 0.0 || x == 1.0
  }

  /**
   * The locations a regional aggregate of technology `t` ranges over: the hub
   * locations for a hub technology, the others for an ordinary one. A flag
   * outside {0, 1} leaves the list unbound and the rule using it raises.
   */
  function RelevantLocation(I: Instance, t: Tech): (r: Result<seq<Loc>, RuleError>)
    ensures r.Err? <==> !IsFlag(I.params.hubTechnology.Get(t))
    ensures r.Err? ==> r.error == UnboundLocal("RelevantLocation")
    ensures r.Ok? ==> forall l :: l in r.value <==> l in I.sets.location && HubMatch(I.params, l, t)
  {
    var P := I.params;
    if P.hubTechnology.Get(t) == 1.0 then Ok(Filter(I.sets.location, l => P.hubLocation.Get(l) == 1.0))
    else if P.hubTechnology.Get(t) == 0.0 then Ok(Filter(I.sets.location, l => P.hubLocation.Get(l) == 0.0))
    else Err(UnboundLocal("RelevantLocation"))
  }

  /**
   * The technologies a local aggregate at location `l` ranges over, before
   * the product filter: hub technologies at a hub, the others elsewhere.
   */
  function RelevantTechnology(I: Instance, l: Loc): (r: Result<seq<Tech>, RuleError>)
    ensures r.Err? <==> !IsFlag(I.params.hubLocation.Get(l))
    ensures r.Err? ==> r.error == UnboundLocal("RelevantTechnology")
    ensures r.Ok? ==> forall t :: t in r.value <==> t in I.sets.technology && HubMatch(I.params, l, t)
  {
    var P := I.params;
    if P.hubLocation.Get(l) == 1.0 then Ok(Filter(I.sets.technology, t => P.hubTechnology.Get(t) == 1.0))
    else if P.hubLocation.Get(l) == 0.0 then Ok(Filter(I.sets.technology, t => P.hubTechnology.Get(t) == 0.0))
    else Err(UnboundLocal("RelevantTechnology"))
  }

  /** `sum(f(r) for r in REGION)`: the regional sums the local coefficients are built from. */
  function RegionSum(I: Instance, f: Region -> real): real
  {
    Sum(I.sets.region, f)
  }

  /** The operational life of technology `t` at location `l`, read through the region map. */
  function LocalLife(I: Instance, l: Loc, t: Tech): real
  {
    RegionSum(I, r => I.params.operationalLife.Get((r, t)) * I.params.geography.Get((r, l)))
  }

  /** The discount rate at location `l`, read through the region map. */
  function LocalDiscountRate(I: Instance, l: Loc): real
  {
    RegionSum(I, r => I.params.discountRate.Get(r) * I.params.geography.Get((r, l)))
  }

  /** `x ** n` for a whole exponent `n`. */
  function Pow(x: real, n: nat): real
  {
    if n == 0 then 1.0 else x * Pow(x, n - 1)
  }

  /** A whole power vanishes exactly when the base does and the exponent is positive. */
  lemma {:induction false} PowZero(x: real, n: nat)
    ensures Pow(x, n) == 0.0 <==> x == 0.0 && n > 0
  {
    if n > 0 {
      PowZero(x, n - 1);
      if x != 0.0 && Pow(x, n - 1) != 0.0 {
        assert x * Pow(x, n - 1) != 0.0;
      }
    }
  }

  /** The modes technology `t` can operate in: ModeForTechnology(t, m) == 1. */
  function ModesOf(I: Instance, t: Tech): (r: seq<Mode>)
    ensures forall m :: m in r <==> m in I.sets.mode && I.params.modeForTechnology.Get((t, m)) == 1.0
  {
    Filter(I.sets.mode, m => I.params.modeForTechnology.Get((t, m)) == 1.0)
  }

  /** The modes with a route from `l` to `ll` for product `p` in year `y`. */
  function RoutedModes(I: Instance, l: Loc, ll: Loc, p: Product, y: Year): (r: seq<TransportMode>)
    ensures forall tr :: tr in r <==> tr in I.sets.transportMode && I.params.transportRoute.Get((l, ll, p, tr, y)) == 1.0
  {
    Filter(I.sets.transportMode, tr => I.params.transportRoute.Get((l, ll, p, tr, y)) == 1.0)
  }

  /** Whether capacity of `t` built in year `yy` is still in service in year `y` at location `l`. */
  predicate InService(I: Instance, l: Loc, t: Tech, y: Year, yy: Year)
  {
    ((y - yy) as real) < LocalLife(I, l, t) && y - yy >= 0
  }

  /** The activity one unit of capacity of `t` at `l` can deliver in year `y`. */
  function CapacityFactor(I: Instance, l: Loc, t: Tech, y: Year): real
  {
    RegionSum(I, r => I.params.availabilityFactor.Get((r, t, y)) * I.params.capacityToActivityUnit.Get((r, t)) * I.params.geography.Get((r, l)))
  }

  /** The output of product `p` per unit of activity of `t` in mode `m` at location `l`. */
  function OutputRatio(I: Instance, l: Loc, t: Tech, p: Product, m: Mode, y: Year): real
  {
    RegionSum(I, r => I.params.outputActivityRatio.Get((r, t, p, m, y)) * I.params.geography.Get((r, l)))
  }

  /** The input of product `p` per unit of activity of `t` in mode `m` at location `l`. */
  function InputRatio(I: Instance, l: Loc, t: Tech, p: Product, m: Mode, y: Year): real
  {
    RegionSum(I, r => I.params.inputActivityRatio.Get((r, t, p, m, y)) * I.params.geography.Get((r, l)))
  }

  /** The capital cost of one unit of new capacity of `t` at `l`. */
  function LocalCapitalCost(I: Instance, l: Loc, t: Tech, y: Year): real
  {
    RegionSum(I, r => I.params.capitalCost.Get((r, t, y)) * I.params.geography.Get((r, l)))
  }

  /** The fixed cost of one unit of installed capacity of `t` at `l`. */
  function LocalFixedCost(I: Instance, l: Loc, t: Tech, y: Year): real
  {
    RegionSum(I, r => I.params.fixedCost.Get((r, t, y)) * I.params.geography.Get((r, l)))
  }

  /** The variable cost of one unit of activity of `t` in mode `m` at `l`. */
  function LocalVariableCost(I: Instance, l: Loc, t: Tech, m: Mode, y: Year): real
  {
    RegionSum(I, r => I.params.variableCost.Get((r, t, m, y)) * I.params.geography.Get((r, l)))
  }

  /** The emission of `e` per unit of activity of `t` in mode `m` at `l`. */
  function LocalEmissionRatio(I: Instance, l: Loc, t: Tech, e: Emission, m: Mode, y: Year): real
  {
    RegionSum(I, r => I.params.emissionActivityRatio.Get((r, t, e, m, y)) * I.params.geography.Get((r, l)))
  }

  /** The cost of moving one unit into location `l` by mode `tr`. */
  function LocalModeCost(I: Instance, l: Loc, tr: TransportMode, y: Year): real
  {
    RegionSum(I, r => I.params.transportCostByMode.Get((r, tr, y)) * I.params.geography.Get((r, l)))
  }

  /** The inter-regional cost of moving one unit from hub `ll` into hub `l` by mode `tr`. */
  function InterRegionalCost(I: Instance, ll: Loc, l: Loc, tr: TransportMode, y: Year): real
  {
    RegionSum(I, rr => RegionSum(I, r => I.params.transportCostInterReg.Get((rr, r, tr, y)) * I.params.geography.Get((r, l))) * I.params.geography.Get((rr, ll)))
  }

  /** The ordinary (non-hub) locations. */
  function OrdinaryLocations(I: Instance): (r: seq<Loc>)
    ensures forall l :: l in r <==> l in I.sets.location && I.params.hubLocation.Get(l) == 0.0
  {
    Filter(I.sets.location, l => I.params.hubLocation.Get(l) == 0.0)
  }

  /** The locations of region `r` (Geography == 1) among `ls`. */
  function InRegion(I: Instance, r: Region, ls: seq<Loc>): (h: seq<Loc>)
    ensures forall l :: l in h <==> l in ls && I.params.geography.Get((r, l)) == 1.0
  {
    Filter(ls, l => I.params.geography.Get((r, l)) == 1.0)
  }

  /** The locations outside region `r` (Geography == 0). */
  function OutsideRegion(I: Instance, r: Region): (h: seq<Loc>)
    ensures forall l :: l in h <==> l in I.sets.location && I.params.geography.Get((r, l)) == 0.0
  {
    Filter(I.sets.location, l => I.params.geography.Get((r, l)) == 0.0)
  }

  /** Geography is a 0/1 membership table on the locations `ls` for region `r`. */
  predicate BinaryGeography(I: Instance, r: Region, ls: seq<Loc>)
  {
    forall l :: l in ls ==> IsFlag(I.params.geography.Get((r, l)))
  }
}
