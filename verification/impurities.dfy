/**
 * The impurity extension: a technology that outputs an impurity `i` next to
 * other products may produce `i` only up to MaxImpurity times the amount of
 * its main product. The main product is the first other output in product
 * order; the limit left at its sentinel default means "no limit".
 */
module Impurities {
  import opened Basics
  import opened ModelData
  import opened Linear

  /** IP1's RelevantProduct: the outputs of `t` other than `i`, in product order. */
  function CoProducts(I: Instance, t: Tech, i: Product): (ps: seq<Product>)
    ensures forall p :: p in ps <==> p in I.sets.product && p != i && I.params.productFromTechnology.Get((t, p)) == 1.0
  {
    Filter(I.sets.product, p => p != i && I.params.productFromTechnology.Get((t, p)) == 1.0)
  }

  /** Whether IP1 builds a row: `i` is an output of `t` beside another, and its limit is set. */
  predicate Limited(I: Instance, t: Tech, i: Product)
  {
    && I.params.productFromTechnology.Get((t, i)) == 1.0
    && |CoProducts(I, t, i)| > 0
    && I.params.maxImpurity.Get((CoProducts(I, t, i)[0], i)) != HighMaxDefault
  }

  /**
   * IP1 in tinyomo: `prod(i) - limit * prod(p) <= 0` for the main product
   * `p`, or just `prod(i) <= 0` when the limit is zero.
   */
  function TinyomoIP1(I: Instance, l: Loc, t: Tech, i: Product, y: Year): (res: Outcome<Record>)
    ensures !res.Fail?
    ensures res.Emit? <==> Limited(I, t, i)
    ensures res.Emit? ==> res.row.sense == Le && res.row.rhs == 0.0
    ensures res.Emit? ==> forall v :: Satisfied(res.row, v) <==>
      v(LocalProductionByTechnology(l, t, i, y)) <=
        I.params.maxImpurity.Get((CoProducts(I, t, i)[0], i)) * v(LocalProductionByTechnology(l, t, CoProducts(I, t, i)[0], y))
    ensures res.Emit? && I.params.maxImpurity.Get((CoProducts(I, t, i)[0], i)) == 0.0 ==>
      Columns(res.row.lhs) == [LocalProductionByTechnology(l, t, i, y)]
  {
    if I.params.productFromTechnology.Get((t, i)) == 1.0 then
      var ps := CoProducts(I, t, i);
      if |ps| > 0 then
        var p := ps[0];
        var limit := I.params.maxImpurity.Get((p, i));
        if limit == HighMaxDefault then Skip
        else if limit != 0.0 then
          var lhs := [Single(1.0, LocalProductionByTechnology(l, t, i, y)), Single(-1.0 * limit, LocalProductionByTechnology(l, t, p, y))];
          Value2(lhs[0], lhs[1]);
          Emit(Record(lhs, 0.0, Le))
        else Emit(Bound(LocalProductionByTechnology(l, t, i, y), Le, 0.0))
      else Skip
    else Skip
  }

  /** IP1 in pyomo, the same text in the classes with and without hubs: `prod(i) <= limit * prod(p)`. */
  function PyomoIP1(I: Instance, l: Loc, t: Tech, i: Product, y: Year): (res: Outcome<Relation>)
    ensures !res.Fail?
    ensures res.Emit? <==> Limited(I, t, i)
    ensures res.Emit? ==> res.row.sense == Le
    ensures res.Emit? ==> forall v :: RelSatisfied(res.row, v) <==>
      v(LocalProductionByTechnology(l, t, i, y)) <=
        I.params.maxImpurity.Get((CoProducts(I, t, i)[0], i)) * v(LocalProductionByTechnology(l, t, CoProducts(I, t, i)[0], y))
  {
    if I.params.productFromTechnology.Get((t, i)) == 1.0 then
      var ps := CoProducts(I, t, i);
      if |ps| > 0 then
        var p := ps[0];
        if I.params.maxImpurity.Get((p, i)) == HighMaxDefault then Skip
        else Emit(Relation(Var(1.0, LocalProductionByTechnology(l, t, i, y)), Le, Var(I.params.maxImpurity.Get((p, i)), LocalProductionByTechnology(l, t, p, y))))
      else Skip
    else Skip
  }

  /** Both backends build the same impurity limit on every instance. */
  lemma ImpurityLimitAgrees(I: Instance, l: Loc, t: Tech, i: Product, y: Year)
    ensures Agree(TinyomoIP1(I, l, t, i, y), PyomoIP1(I, l, t, i, y))
  {
  }

  /**
   * Only the main product's limit matters: changing MaxImpurity for any
   * other pair leaves the rule's outcome unchanged in both backends.
   */
  lemma OnlyMainProductLimitMatters(I: Instance, limits: Table<(Product, Product), real>, l: Loc, t: Tech, i: Product, y: Year)
    requires |CoProducts(I, t, i)| > 0 ==> limits.Get((CoProducts(I, t, i)[0], i)) == I.params.maxImpurity.Get((CoProducts(I, t, i)[0], i))
    ensures TinyomoIP1(I.(params := I.params.(maxImpurity := limits)), l, t, i, y) == TinyomoIP1(I, l, t, i, y)
    ensures PyomoIP1(I.(params := I.params.(maxImpurity := limits)), l, t, i, y) == PyomoIP1(I, l, t, i, y)
  {
    var J := I.(params := I.params.(maxImpurity := limits));
    assert CoProducts(J, t, i) == CoProducts(I, t, i);
  }

  /**
   * A later product's zero limit is not enforced: with two other outputs,
   * the second forbidding the impurity outright and the first unlimited, IP1
   * builds no row at all.
   */
  lemma LaterZeroLimitIgnored(I: Instance, l: Loc, t: Tech, i: Product, y: Year)
    requires |CoProducts(I, t, i)| >= 2
    requires I.params.maxImpurity.Get((CoProducts(I, t, i)[0], i)) == HighMaxDefault
    requires I.params.maxImpurity.Get((CoProducts(I, t, i)[1], i)) == 0.0
    ensures TinyomoIP1(I, l, t, i, y).Skip? && PyomoIP1(I, l, t, i, y).Skip?
  {
  }
}
