/**
 * The transport network as the flow rules see it: the routed links leaving
 * or entering a location, and the links crossing a region's border. A link
 * is usable for product `p` in year `y` by mode `tr` when its TransportRoute
 * entry is 1.
 */
module Network {
  import opened Basics
  import opened ModelData
  import opened Linear

  /** A routed link: origin, destination and mode. */
  datatype Link = Link(from: Loc, to: Loc, tr: TransportMode)

  /** The transport column that carries product `p` over link `k` in year `y`. */
  function Flow(k: Link, p: Product, y: Year): Column
  {
    Transport(k.from, k.to, p, k.tr, y)
  }

  /** Whether link `k` is routed for product `p` in year `y`. */
  predicate Routed(I: Instance, k: Link, p: Product, y: Year)
  {
    I.params.transportRoute.Get((k.from, k.to, p, k.tr, y)) == 1.0
  }

  /** The routed links from `a` to `b`, one per mode, in mode order. */
  function LinksBetween(I: Instance, a: Loc, b: Loc, p: Product, y: Year): (ks: seq<Link>)
    ensures forall k :: k in ks <==> k.from == a && k.to == b && k.tr in I.sets.transportMode && Routed(I, k, p, y)
  {
    var ms := RoutedModes(I, a, b, p, y);
    var ks := Map(ms, tr => Link(a, b, tr));
    assert forall k :: k in ks ==> k.from == a && k.to == b && k.tr in ms;
    assert forall tr :: tr in ms ==> Link(a, b, tr) in ks;
    ks
  }

  /**
   * The routed links from a location of `origins` to a location of
   * `destinations`: origin outermost, then destination, then mode.
   */
  function Crossings(I: Instance, origins: seq<Loc>, destinations: seq<Loc>, p: Product, y: Year): (ks: seq<Link>)
    ensures forall k :: k in ks <==> k.from in origins && k.to in destinations && k.tr in I.sets.transportMode && Routed(I, k, p, y)
  {
    var ks := FlatMap(origins, a => FlatMap(destinations, b => LinksBetween(I, a, b, p, y)));
    forall k: Link | k.from in origins && k.to in destinations && k.tr in I.sets.transportMode && Routed(I, k, p, y)
      ensures k in ks
    {
      FlatMapMember(destinations, b => LinksBetween(I, k.from, b, p, y), k.to, k);
      FlatMapMember(origins, a => FlatMap(destinations, b => LinksBetween(I, a, b, p, y)), k.from, k);
    }
    forall k | k in ks
      ensures k.from in origins && k.to in destinations && k.tr in I.sets.transportMode && Routed(I, k, p, y)
    {
      var a :| a in origins && k in FlatMap(destinations, b => LinksBetween(I, a, b, p, y));
      var b :| b in destinations && k in LinksBetween(I, a, b, p, y);
    }
    ks
  }

  /** The routed links leaving `l`, by destination then mode (the order TF2 sums them in). */
  function Departures(I: Instance, l: Loc, p: Product, y: Year): (ks: seq<Link>)
    ensures forall k :: k in ks <==> k.from == l && k.to in I.sets.location && k.tr in I.sets.transportMode && Routed(I, k, p, y)
  {
    var ks := FlatMap(I.sets.location, b => LinksBetween(I, l, b, p, y));
    forall k: Link | k.from == l && k.to in I.sets.location && k.tr in I.sets.transportMode && Routed(I, k, p, y)
      ensures k in ks
    {
      FlatMapMember(I.sets.location, b => LinksBetween(I, l, b, p, y), k.to, k);
    }
    ks
  }

  /** The routed links entering `l`, by origin then mode (the order TF3 and TC1 sum them in). */
  function Arrivals(I: Instance, l: Loc, p: Product, y: Year): (ks: seq<Link>)
    ensures forall k :: k in ks <==> k.from in I.sets.location && k.to == l && k.tr in I.sets.transportMode && Routed(I, k, p, y)
  {
    var ks := FlatMap(I.sets.location, a => LinksBetween(I, a, l, p, y));
    forall k: Link | k.to == l && k.from in I.sets.location && k.tr in I.sets.transportMode && Routed(I, k, p, y)
      ensures k in ks
    {
      FlatMapMember(I.sets.location, a => LinksBetween(I, a, l, p, y), k.from, k);
    }
    ks
  }

  /** The flow columns of a list of links. */
  function Flows(ks: seq<Link>, p: Product, y: Year): (cs: seq<Column>)
    ensures |cs| == |ks|
    ensures forall c :: c in cs <==> exists k :: k in ks && c == Flow(k, p, y)
  {
    Map(ks, k => Flow(k, p, y))
  }

  /** Every routed link, grouped by destination: the order the pyomo import rows sum them in. */
  function InboundLinks(I: Instance, p: Product, y: Year): (ks: seq<Link>)
    ensures forall k :: k in ks <==> k.from in I.sets.location && k.to in I.sets.location && k.tr in I.sets.transportMode && Routed(I, k, p, y)
  {
    var ks := FlatMap(I.sets.location, l => Arrivals(I, l, p, y));
    forall k: Link | k.from in I.sets.location && k.to in I.sets.location && k.tr in I.sets.transportMode && Routed(I, k, p, y)
      ensures k in ks
    {
      FlatMapMember(I.sets.location, l => Arrivals(I, l, p, y), k.to, k);
    }
    ks
  }

  /** Every routed link, grouped by origin: the order the pyomo export rows sum them in. */
  function OutboundLinks(I: Instance, p: Product, y: Year): (ks: seq<Link>)
    ensures forall k :: k in ks <==> k.from in I.sets.location && k.to in I.sets.location && k.tr in I.sets.transportMode && Routed(I, k, p, y)
  {
    var ks := FlatMap(I.sets.location, l => Departures(I, l, p, y));
    forall k: Link | k.from in I.sets.location && k.to in I.sets.location && k.tr in I.sets.transportMode && Routed(I, k, p, y)
      ensures k in ks
    {
      FlatMapMember(I.sets.location, l => Departures(I, l, p, y), k.from, k);
    }
    ks
  }

  /** The routed links entering `l` from a hub location. */
  function HubArrivals(I: Instance, l: Loc, p: Product, y: Year): (ks: seq<Link>)
    ensures forall k :: k in ks <==> k in Arrivals(I, l, p, y) && I.params.hubLocation.Get(k.from) == 1.0
  {
    Crossings(I, Filter(I.sets.location, ll => I.params.hubLocation.Get(ll) == 1.0), [l], p, y)
  }

  /**
   * A row over `head` and the flows of `ks` and then of `hs`, where every
   * link of `hs` is one of `ks`, mentions exactly `head` and the flows of `ks`.
   */
  lemma FlowColumns(head: Column, ks: seq<Link>, hs: seq<Link>, flow: Link -> Column, p: Product, y: Year)
    requires forall k :: flow(k) == Flow(k, p, y)
    requires forall k :: k in hs ==> k in ks
    ensures forall c :: c in [head] + Map(ks, flow) + Map(hs, flow) <==> c == head || exists k :: k in ks && c == Flow(k, p, y)
  {
    var a, b := Map(ks, flow), Map(hs, flow);
    forall c: Column
      ensures c in [head] + a + b <==> c == head || exists k :: k in ks && c == Flow(k, p, y)
    {
      if c in b {
        var k :| k in hs && c == flow(k);
        assert c in a;
      }
      if exists k :: k in ks && c == Flow(k, p, y) {
        var k :| k in ks && c == Flow(k, p, y);
        assert flow(k) in a;
      }
    }
  }

  /** The capacity of link `l -> ll` for product `p`, converted to activity units. */
  function LinkLimit(I: Instance, l: Loc, ll: Loc, p: Product, tr: TransportMode, y: Year): real
  {
    I.params.transportCapacity.Get((l, ll, p, tr, y)) * I.params.transportCapacityToActivity.Get(tr)
  }

  /** The products routed from `l` to `ll` by mode `tr`. */
  function RoutedProducts(I: Instance, l: Loc, ll: Loc, tr: TransportMode, y: Year): (ps: seq<Product>)
    ensures forall p :: p in ps <==> p in I.sets.product && I.params.transportRoute.Get((l, ll, p, tr, y)) == 1.0
  {
    Filter(I.sets.product, p => I.params.transportRoute.Get((l, ll, p, tr, y)) == 1.0)
  }

  /** TF1b's bound: the mean capacity over the products routed forward, in activity units. */
  function PooledLimit(I: Instance, l: Loc, ll: Loc, tr: TransportMode, y: Year): real
    requires |RoutedProducts(I, l, ll, tr, y)| > 0
  {
    var ps := RoutedProducts(I, l, ll, tr, y);
    1.0 / (|ps| as real) * Sum(ps, p => I.params.transportCapacity.Get((l, ll, p, tr, y))) * I.params.transportCapacityToActivity.Get(tr)
  }

  /**
   * When every routed product carries the same capacity figure, as the input
   * convention for multi-purpose modes has it, TF1b's bound is that figure.
   */
  lemma {:induction false} PooledLimitUniform(I: Instance, l: Loc, ll: Loc, tr: TransportMode, y: Year, cap: real)
    requires |RoutedProducts(I, l, ll, tr, y)| > 0
    requires forall p :: p in RoutedProducts(I, l, ll, tr, y) ==> I.params.transportCapacity.Get((l, ll, p, tr, y)) == cap
    ensures PooledLimit(I, l, ll, tr, y) == cap * I.params.transportCapacityToActivity.Get(tr)
  {
    var ps := RoutedProducts(I, l, ll, tr, y);
    var n := |ps| as real;
    SumConstant(ps, p => I.params.transportCapacity.Get((l, ll, p, tr, y)), cap);
    assert 1.0 / n * (n * cap) == cap;
  }
}
