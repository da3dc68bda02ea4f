/**
 * The transport topology the input builder generates: the TransportRoute
 * and TransportCapacity rows for every location pair that may exchange
 * products. With transport hubs, each site is linked only to its region's
 * hub, and the hubs to each other; without them, every pair of sites is
 * linked directly. Every generated link is routed and carries the "no
 * limit" capacity. Reading the CSV files and appending the pipeline rows
 * are not part of this model: the files' columns are parameters here.
 */
module Topology {
  import opened Basics
  import opened ModelData
  import HubTinyomo
  import HubPyomo

  /** One generated row of both tables: the link's key, its route flag and its capacity. */
  datatype RouteRow = RouteRow(from: Loc, to: Loc, product: Product, mode: TransportMode, year: Year, route: real, capacity: real)

  /** One row of the geography table: region, location and the membership flag. */
  datatype GeoRow = GeoRow(region: Region, location: Loc, geography: real)

  const Onsite: TransportMode := "ONSITE"
  const Other: TransportMode := "OTHER"
  const InterRegional: TransportMode := "INTER_REG"

  /** The marker every transport hub's name carries. */
  const HubMarker: string := "TRANSPORT_HUB"

  /** Whether `sub` occurs in `s`, as pandas' `str.contains` tests a plain word. */
  predicate Contains(s: string, sub: string)
  {
    |sub| <= |s| && (s[..|sub|] == sub || Contains(s[1..], sub))
  }

  /** The hub of region `r`: `TRANSPORT_HUB_` followed by the region's name. */
  function HubName(r: Region): (n: Loc)
    ensures Contains(n, HubMarker)
  {
    var n := "TRANSPORT_HUB_" + r;
    assert n[..|HubMarker|] == HubMarker;
    n
  }

  /** A generated row: routed, with the "no limit" capacity. */
  function Link(from: Loc, to: Loc, p: Product, mode: TransportMode, y: Year): RouteRow
  {
    RouteRow(from, to, p, mode, y, 1.0, HighMaxDefault)
  }

  /** Whether a row is routed and unlimited. */
  predicate Unlimited(row: RouteRow)
  {
    row.route == 1.0 && row.capacity == HighMaxDefault
  }

  /** LOCATION.csv without the transport hubs. */
  function Sites(locations: seq<Loc>): (ls: seq<Loc>)
    ensures forall l :: l in ls <==> l in locations && !Contains(l, HubMarker)
  {
    Filter(locations, l => !Contains(l, HubMarker))
  }

  /** Geography.csv without the transport hubs' rows. */
  function SiteGeography(geo: seq<GeoRow>): (gs: seq<GeoRow>)
    ensures forall g :: g in gs <==> g in geo && !Contains(g.location, HubMarker)
  {
    Filter(geo, (g: GeoRow) => !Contains(g.location, HubMarker))
  }

  /** RELEVANT_LOCATION of region `r`: the locations the geography rows place in it. */
  function Members(geo: seq<GeoRow>, r: Region): (ls: seq<Loc>)
    ensures forall l :: l in ls <==> exists g :: g in geo && g.region == r && g.geography == 1.0 && g.location == l
  {
    Map(Filter(geo, (g: GeoRow) => g.region == r && g.geography == 1.0), (g: GeoRow) => g.location)
  }

  //////////////////////// With transport hubs ////////////////////////

  /**
   * Whether a row keeps to the hub topology: one of its ends is a hub, or it
   * is a site's ONSITE self-loop.
   */
  predicate ThroughHubs(row: RouteRow)
  {
    Contains(row.from, HubMarker) || Contains(row.to, HubMarker) || (row.from == row.to && row.mode == Onsite)
  }

  /** The three links of a site in one product and year: its self-loop, and to and from its hub. */
  function SiteLinks(r: Region, loc: Loc, p: Product, y: Year): (links: seq<RouteRow>)
    ensures forall row :: row in links ==> Unlimited(row) && ThroughHubs(row)
  {
    [Link(loc, loc, p, Onsite, y), Link(loc, HubName(r), p, Other, y), Link(HubName(r), loc, p, Other, y)]
  }

  /** A site's links, by product then year. */
  function SiteRows(products: seq<Product>, years: seq<Year>, r: Region, loc: Loc): (rows: seq<RouteRow>)
    ensures forall row :: row in rows ==> Unlimited(row) && ThroughHubs(row)
    ensures |rows| == |products| * (|years| * 3)
  {
    forall p | p in products ensures |FlatMap(years, y => SiteLinks(r, loc, p, y))| == |years| * 3 {
      FlatMapUniform(years, y => SiteLinks(r, loc, p, y), 3);
    }
    FlatMapUniform(products, p => FlatMap(years, y => SiteLinks(r, loc, p, y)), |years| * 3);
    FlatMap(products, p => FlatMap(years, y => SiteLinks(r, loc, p, y)))
  }

  /** The links of every site of region `r`. */
  function RegionRows(geo: seq<GeoRow>, products: seq<Product>, years: seq<Year>, r: Region): (rows: seq<RouteRow>)
    ensures forall row :: row in rows ==> Unlimited(row) && ThroughHubs(row)
    ensures |rows| == |Members(geo, r)| * (|products| * (|years| * 3))
  {
    FlatMapUniform(Members(geo, r), loc => SiteRows(products, years, r, loc), |products| * (|years| * 3));
    FlatMap(Members(geo, r), loc => SiteRows(products, years, r, loc))
  }

  /** The INTER_REG links from the hub of `r1` to the hub of `r2`: none when they are one region. */
  function HubPairRows(products: seq<Product>, years: seq<Year>, r1: Region, r2: Region): (rows: seq<RouteRow>)
    ensures forall row :: row in rows <==> (r1 != r2 && row.product in products && row.year in years &&
      row == Link(HubName(r1), HubName(r2), row.product, InterRegional, row.year))
    ensures |rows| == (|products| * |years|) * (if r1 != r2 then 1 else 0)
  {
    var f := p => if r1 != r2 then FlatMap(years, y => [Link(HubName(r1), HubName(r2), p, InterRegional, y)]) else [];
    forall p | p in products ensures |f(p)| == |years| * (if r1 != r2 then 1 else 0) {
      FlatMapUniform(years, y => [Link(HubName(r1), HubName(r2), p, InterRegional, y)], 1);
    }
    FlatMapUniform(products, f, |years| * (if r1 != r2 then 1 else 0));
    FlatMap(products, f)
  }

  /** Every INTER_REG link leaving the hub of `r1`. */
  function HubRows(regions: seq<Region>, products: seq<Product>, years: seq<Year>, r1: Region): (rows: seq<RouteRow>)
    ensures forall row :: row in rows <==> exists r2 :: r2 in regions && row in HubPairRows(products, years, r1, r2)
  {
    var rows := FlatMap(regions, r2 => HubPairRows(products, years, r1, r2));
    forall row, r2 | r2 in regions && row in HubPairRows(products, years, r1, r2) ensures row in rows {
      FlatMapMember(regions, r2 => HubPairRows(products, years, r1, r2), r2, row);
    }
    rows
  }

  /** A region's hub has one INTER_REG link per other region, product and year. */
  lemma HubRowsCount(regions: seq<Region>, products: seq<Product>, years: seq<Year>, r1: Region)
    requires Distinct(regions) && r1 in regions
    ensures |HubRows(regions, products, years, r1)| == (|products| * |years|) * (|regions| - 1)
  {
    var others: Region -> nat := x => if x != r1 then 1 else 0;
    FlatMapLength(regions, r2 => HubPairRows(products, years, r1, r2), others, |products| * |years|);
    CountOthers(regions, r1, others);
  }

  /** The links of every region's sites with their hub. */
  function SiteModeRows(sites: seq<GeoRow>, regions: seq<Region>, products: seq<Product>, years: seq<Year>): (rows: seq<RouteRow>)
    ensures forall row :: row in rows ==> Unlimited(row) && ThroughHubs(row)
  {
    FlatMap(regions, r => RegionRows(sites, products, years, r))
  }

  /** The INTER_REG links between the hubs of every two distinct regions. */
  function InterHubRows(regions: seq<Region>, products: seq<Product>, years: seq<Year>): (rows: seq<RouteRow>)
    ensures forall row :: row in rows <==> (row.product in products && row.year in years &&
      exists r1, r2 :: r1 in regions && r2 in regions && r1 != r2 && row == Link(HubName(r1), HubName(r2), row.product, InterRegional, row.year))
  {
    var rows := FlatMap(regions, r1 => HubRows(regions, products, years, r1));
    forall row | row in rows
      ensures row.product in products && row.year in years &&
        exists r1, r2 :: r1 in regions && r2 in regions && r1 != r2 && row == Link(HubName(r1), HubName(r2), row.product, InterRegional, row.year)
    {
      var r1 :| r1 in regions && row in HubRows(regions, products, years, r1);
      var r2 :| r2 in regions && row in HubPairRows(products, years, r1, r2);
    }
    forall row: RouteRow, r1: Region, r2: Region | r1 in regions && r2 in regions && r1 != r2 && row.product in products && row.year in years &&
      row == Link(HubName(r1), HubName(r2), row.product, InterRegional, row.year)
      ensures row in rows
    {
      assert row in HubPairRows(products, years, r1, r2);
      FlatMapMember(regions, r1 => HubRows(regions, products, years, r1), r1, row);
    }
    rows
  }

  /**
   * The rows generated with transport hubs: per region, each of its sites
   * linked to itself and to the region's hub; then each hub linked to every
   * other hub.
   */
  function HubModeRows(products: seq<Product>, regions: seq<Region>, geo: seq<GeoRow>, years: seq<Year>): (rows: seq<RouteRow>)
    ensures forall row :: row in rows ==> Unlimited(row) && ThroughHubs(row)
  {
    SiteModeRows(SiteGeography(geo), regions, products, years) + InterHubRows(regions, products, years)
  }

  /**
   * With hubs, no two distinct sites are linked directly: a row between two
   * names without the hub marker is a site's ONSITE self-loop.
   */
  lemma HubModeLinksOnlyThroughHubs(products: seq<Product>, regions: seq<Region>, geo: seq<GeoRow>, years: seq<Year>, row: RouteRow)
    requires row in HubModeRows(products, regions, geo, years)
    requires !Contains(row.from, HubMarker) && !Contains(row.to, HubMarker)
    ensures row.from == row.to && row.mode == Onsite
  {
  }

  /** Every site of a region gets its self-loop and both links with its hub, for every product and year. */
  lemma HubModeLinksEverySite(products: seq<Product>, regions: seq<Region>, geo: seq<GeoRow>, years: seq<Year>, r: Region, loc: Loc, p: Product, year: Year)
    requires r in regions && p in products && year in years
    requires GeoRow(r, loc, 1.0) in geo && !Contains(loc, HubMarker)
    ensures forall row :: row in SiteLinks(r, loc, p, year) ==> row in HubModeRows(products, regions, geo, years)
  {
    var sites := SiteGeography(geo);
    assert GeoRow(r, loc, 1.0) in sites;
    assert loc in Members(sites, r);
    forall row | row in SiteLinks(r, loc, p, year) ensures row in SiteModeRows(sites, regions, products, years) {
      SiteRowsCover(products, years, r, loc, p, year, row);
      RegionRowsCover(sites, products, years, r, loc, row);
      SiteModeRowsCover(sites, regions, products, years, r, row);
    }
  }

  /** A link of one product and year is among its site's rows. */
  lemma SiteRowsCover(products: seq<Product>, years: seq<Year>, r: Region, loc: Loc, p: Product, year: Year, row: RouteRow)
    requires p in products && year in years && row in SiteLinks(r, loc, p, year)
    ensures row in SiteRows(products, years, r, loc)
  {
    FlatMapMember(years, y => SiteLinks(r, loc, p, y), year, row);
    FlatMapMember(products, p => FlatMap(years, y => SiteLinks(r, loc, p, y)), p, row);
  }

  /** A member site's rows are among its region's rows. */
  lemma RegionRowsCover(geo: seq<GeoRow>, products: seq<Product>, years: seq<Year>, r: Region, loc: Loc, row: RouteRow)
    requires loc in Members(geo, r) && row in SiteRows(products, years, r, loc)
    ensures row in RegionRows(geo, products, years, r)
  {
    FlatMapMember(Members(geo, r), loc => SiteRows(products, years, r, loc), loc, row);
  }

  /** A region's rows are among the rows of all regions. */
  lemma SiteModeRowsCover(sites: seq<GeoRow>, regions: seq<Region>, products: seq<Product>, years: seq<Year>, r: Region, row: RouteRow)
    requires r in regions && row in RegionRows(sites, products, years, r)
    ensures row in SiteModeRows(sites, regions, products, years)
  {
    FlatMapMember(regions, r => RegionRows(sites, products, years, r), r, row);
  }

  /** Every ordered pair of distinct regions gets an INTER_REG link between their hubs, for every product and year. */
  lemma HubModeLinksEveryHubPair(products: seq<Product>, regions: seq<Region>, geo: seq<GeoRow>, years: seq<Year>, r1: Region, r2: Region, p: Product, y: Year)
    requires r1 in regions && r2 in regions && r1 != r2 && p in products && y in years
    ensures Link(HubName(r1), HubName(r2), p, InterRegional, y) in HubModeRows(products, regions, geo, years)
  {
    assert Link(HubName(r1), HubName(r2), p, InterRegional, y) in InterHubRows(regions, products, years);
  }

  /** Three rows per site, product and year. */
  lemma SiteModeRowCount(sites: seq<GeoRow>, regions: seq<Region>, products: seq<Product>, years: seq<Year>)
    ensures |SiteModeRows(sites, regions, products, years)| == (|products| * (|years| * 3)) * Total(regions, r => |Members(sites, r)|)
  {
    var k := |products| * (|years| * 3);
    forall r | r in regions ensures |RegionRows(sites, products, years, r)| == k * |Members(sites, r)| {
      assert |RegionRows(sites, products, years, r)| == |Members(sites, r)| * k;
    }
    FlatMapLength(regions, r => RegionRows(sites, products, years, r), r => |Members(sites, r)|, k);
  }

  /** One row per ordered pair of distinct regions, product and year. */
  lemma InterHubRowCount(regions: seq<Region>, products: seq<Product>, years: seq<Year>)
    requires Distinct(regions) && |regions| > 0
    ensures |InterHubRows(regions, products, years)| == |regions| * ((|products| * |years|) * (|regions| - 1))
  {
    forall r1 | r1 in regions ensures |HubRows(regions, products, years, r1)| == (|products| * |years|) * (|regions| - 1) {
      HubRowsCount(regions, products, years, r1);
    }
    FlatMapUniform(regions, r1 => HubRows(regions, products, years, r1), (|products| * |years|) * (|regions| - 1));
  }

  /**
   * The number of rows generated with hubs: per product and year, three per
   * site of each region and one per ordered pair of distinct regions.
   */
  lemma HubModeRowCount(products: seq<Product>, regions: seq<Region>, geo: seq<GeoRow>, years: seq<Year>)
    requires Distinct(regions)
    ensures |HubModeRows(products, regions, geo, years)| ==
      |products| * |years| * (3 * Total(regions, r => |Members(SiteGeography(geo), r)|) + |regions| * (|regions| - 1))
  {
    var sites := SiteGeography(geo);
    var inter := InterHubRows(regions, products, years);
    SiteModeRowCount(sites, regions, products, years);
    if |regions| > 0 {
      InterHubRowCount(regions, products, years);
    } else {
      assert inter == [];
    }
    Distribute(|products|, |years|, Total(regions, r => |Members(sites, r)|), |regions|,
      |SiteModeRows(sites, regions, products, years)|, |inter|);
  }

  /** The arithmetic step of `HubModeRowCount`. */
  lemma Distribute(P: int, Y: int, T: int, m: int, A: int, B: int)
    requires A == (P * (Y * 3)) * T && B == m * ((P * Y) * (m - 1))
    ensures A + B == P * Y * (3 * T + m * (m - 1))
  {
    var n := P * Y;
    assert (P * (Y * 3)) * T == n * (3 * T);
    assert m * (n * (m - 1)) == n * (m * (m - 1));
  }

  //////////////////////// Without transport hubs ////////////////////////

  /** The mode of the direct link from `a` to `b`: ONSITE for a self-loop, OTHER otherwise. */
  function DirectMode(a: Loc, b: Loc): TransportMode
  {
    if a == b then Onsite else Other
  }

  /** The direct links from `a` to `b` in one product, by year. */
  function YearLinks(years: seq<Year>, a: Loc, b: Loc, p: Product): (rows: seq<RouteRow>)
    ensures forall row :: row in rows <==> row.year in years && row == Link(a, b, p, DirectMode(a, b), row.year)
    ensures |rows| == |years|
  {
    FlatMapUniform(years, y => [Link(a, b, p, DirectMode(a, b), y)], 1);
    FlatMap(years, y => [Link(a, b, p, DirectMode(a, b), y)])
  }

  /** The direct links from `a` to `b`, by product then year. */
  function PairLinks(products: seq<Product>, years: seq<Year>, a: Loc, b: Loc): (rows: seq<RouteRow>)
    ensures forall row :: row in rows <==> row.product in products && row.year in years && row == Link(a, b, row.product, DirectMode(a, b), row.year)
    ensures |rows| == |products| * |years|
  {
    FlatMapUniform(products, p => YearLinks(years, a, b, p), |years|);
    FlatMap(products, p => YearLinks(years, a, b, p))
  }

  /** The direct links leaving `a`, by destination, product and year. */
  function OriginLinks(ls: seq<Loc>, products: seq<Product>, years: seq<Year>, a: Loc): (rows: seq<RouteRow>)
    ensures forall row :: row in rows <==> row.to in ls && row.product in products && row.year in years && row == Link(a, row.to, row.product, DirectMode(a, row.to), row.year)
    ensures |rows| == |ls| * (|products| * |years|)
  {
    FlatMapUniform(ls, b => PairLinks(products, years, a, b), |products| * |years|);
    FlatMap(ls, b => PairLinks(products, years, a, b))
  }

  /** The direct links leaving `a` have no repeats when the lists they range over have none. */
  lemma OriginLinksDistinct(ls: seq<Loc>, products: seq<Product>, years: seq<Year>, a: Loc)
    requires Distinct(ls) && Distinct(products) && Distinct(years)
    ensures Distinct(OriginLinks(ls, products, years, a))
  {
    forall b, p | b in ls && p in products ensures Distinct(YearLinks(years, a, b, p)) {
      FlatMapDistinct(years, y => [Link(a, b, p, DirectMode(a, b), y)]);
    }
    forall b | b in ls ensures Distinct(PairLinks(products, years, a, b)) {
      FlatMapDistinct(products, p => YearLinks(years, a, b, p));
    }
    FlatMapDistinct(ls, b => PairLinks(products, years, a, b));
  }

  /** The rows generated without hubs: every ordered pair of sites, every product, every year. */
  function DirectModeRows(products: seq<Product>, locations: seq<Loc>, years: seq<Year>): (rows: seq<RouteRow>)
    ensures forall row :: row in rows ==>
      row.from in Sites(locations) && row.to in Sites(locations) && row.product in products && row.year in years &&
      row == Link(row.from, row.to, row.product, DirectMode(row.from, row.to), row.year)
  {
    FlatMap(Sites(locations), a => OriginLinks(Sites(locations), products, years, a))
  }

  /** Without hubs, every ordered pair of sites is linked directly, in every product and year. */
  lemma DirectModeLinksEveryPair(products: seq<Product>, locations: seq<Loc>, years: seq<Year>, a: Loc, b: Loc, p: Product, y: Year)
    requires a in Sites(locations) && b in Sites(locations) && p in products && y in years
    ensures Link(a, b, p, DirectMode(a, b), y) in DirectModeRows(products, locations, years)
  {
    var ls := Sites(locations);
    var row := Link(a, b, p, DirectMode(a, b), y);
    assert row in OriginLinks(ls, products, years, a);
    FlatMapMember(Sites(locations), a => OriginLinks(Sites(locations), products, years, a), a, row);
  }

  /**
   * Without hubs, each ordered pair of sites gets exactly one row per
   * product and year: the rows have no repeats, and there are as many as
   * keys.
   */
  lemma DirectModeOneRowPerKey(products: seq<Product>, locations: seq<Loc>, years: seq<Year>)
    requires Distinct(locations) && Distinct(products) && Distinct(years)
    ensures Distinct(DirectModeRows(products, locations, years))
    ensures |DirectModeRows(products, locations, years)| == |Sites(locations)| * (|Sites(locations)| * (|products| * |years|))
  {
    var ls := Sites(locations);
    FilterDistinct(locations, l => !Contains(l, HubMarker));
    forall a | a in ls ensures Distinct(OriginLinks(ls, products, years, a)) {
      OriginLinksDistinct(ls, products, years, a);
    }
    FlatMapDistinct(ls, a => OriginLinks(ls, products, years, a));
    FlatMapUniform(ls, a => OriginLinks(ls, products, years, a), |ls| * (|products| * |years|));
  }

  //////////////////////// Both modes ////////////////////////

  /** `_build_transport_params`' generated rows, with hubs or without. */
  function TransportRows(hub: bool, products: seq<Product>, locations: seq<Loc>, regions: seq<Region>, geo: seq<GeoRow>, years: seq<Year>): (rows: seq<RouteRow>)
    ensures forall row :: row in rows ==> Unlimited(row)
    ensures hub ==> forall row :: row in rows ==> ThroughHubs(row)
  {
    if hub then HubModeRows(products, regions, geo, years) else DirectModeRows(products, locations, years)
  }

  /** Whether an instance's route and capacity tables hold every row of a list. */
  predicate Loaded(I: Instance, rows: seq<RouteRow>)
  {
    forall row :: row in rows ==>
      && I.params.transportRoute.Get((row.from, row.to, row.product, row.mode, row.year)) == row.route
      && I.params.transportCapacity.Get((row.from, row.to, row.product, row.mode, row.year)) == row.capacity
  }

  /**
   * Generated links carry no capacity row: once loaded, TF1a skips every one
   * of them in both backends, so only pipeline capacities are ever enforced.
   */
  lemma GeneratedLinksUnbounded(I: Instance, hub: bool, products: seq<Product>, locations: seq<Loc>, regions: seq<Region>, geo: seq<GeoRow>, years: seq<Year>, row: RouteRow)
    requires Loaded(I, TransportRows(hub, products, locations, regions, geo, years))
    requires row in TransportRows(hub, products, locations, regions, geo, years)
    ensures HubTinyomo.TF1a(I, row.from, row.to, row.product, row.mode, row.year).Skip?
    ensures HubPyomo.TF1a(I, row.from, row.to, row.product, row.mode, row.year).Skip?
  {
  }
}
