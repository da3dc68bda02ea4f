/**
 * The retrofit rules of the pyomo backend, in its two classes: the class
 * extending the model without hubs (R1-R3), and the one extending the hub
 * model (HubR1-HubR3), which also skips hub locations and tests the
 * RetrofitTechnology flag the other way round.
 */
module RetrofitPyomo {
  import opened Basics
  import opened ModelData
  import opened Linear
  import opened Retrofit

  /** R1 without hubs: the potential from residual capacity is the retired residual stock. */
  function R1(I: Instance, l: Loc, t: Tech, y: Year): (res: Outcome<Relation>)
    requires y in I.sets.year
    ensures !res.Fail?
    ensures res.Skip? <==> NoRetrofitPotential(I, t, y)
    ensures res.Emit? ==> res.row.sense == Eq
    ensures res.Emit? ==> forall v :: RelSatisfied(res.row, v) <==> v(PotentialRetrofitFromResidual(l, t, y)) == RetiredResidual(I, l, t, y)
  {
    if y == Min(I.sets.year) || I.params.technologyToRetrofit.Get(t) == 0.0 then Skip
    else if ResidualDrop(I, l, t, y) > 0.0 then Emit(Relation(Var(1.0, PotentialRetrofitFromResidual(l, t, y)), Eq, Const(ResidualDrop(I, l, t, y))))
    else Emit(Relation(Var(1.0, PotentialRetrofitFromResidual(l, t, y)), Eq, Const(0.0)))
  }

  /** R2 without hubs: the potential from new capacity is the vintage built one life ago. */
  function R2(I: Instance, l: Loc, t: Tech, y: Year): (res: Outcome<Relation>)
    requires y in I.sets.year
    ensures !res.Fail?
    ensures res.Skip? <==> NoRetrofitPotential(I, t, y)
    ensures res.Emit? ==> res.row.sense == Eq
    ensures res.Emit? ==> forall v :: RelSatisfied(res.row, v) <==>
      v(PotentialRetrofitFromNew(l, t, y)) == ColumnSum(Expiring(I, l, t, y), yy => LocalNewCapacity(l, t, yy), v)
  {
    if y == Min(I.sets.year) || I.params.technologyToRetrofit.Get(t) == 0.0 then Skip
    else Emit(Relation(Var(1.0, PotentialRetrofitFromNew(l, t, y)), Eq, SumOf(Expiring(I, l, t, y), yy => LocalNewCapacity(l, t, yy))))
  }

  /** R3 without hubs: built only for a technology whose RetrofitTechnology flag is exactly 1. */
  function R3(I: Instance, l: Loc, t: Tech, y: Year): (res: Outcome<Relation>)
    requires y in I.sets.year
    ensures res.Skip? <==> I.params.retrofitTechnology.Get(t) != 1.0
    ensures res.Fail? <==> (!res.Skip? && y != Min(I.sets.year) && !(t in I.sets.technology && |Sources(I, t)| > 0))
    ensures res.Fail? ==> res.error == NotInList
    ensures res.Emit? && y == Min(I.sets.year) ==> (res.row.sense == Eq &&
      forall v :: RelSatisfied(res.row, v) <==> v(LocalNewCapacity(l, t, y)) == 0.0)
    ensures res.Emit? && y != Min(I.sets.year) ==> (res.row.sense == Le &&
      forall v :: RelSatisfied(res.row, v) <==> SiblingCapacity(I, l, t, y, v) <= PotentialValue(l, Sources(I, t), y, v))
  {
    SelfSibling(I, t);
    if I.params.retrofitTechnology.Get(t) == 1.0 then CapRule(I, l, t, y) else Skip
  }

  /** R1 in the hub model: as without hubs, and silent at hub locations. */
  function HubR1(I: Instance, l: Loc, t: Tech, y: Year): (res: Outcome<Relation>)
    requires y in I.sets.year
    ensures !res.Fail?
    ensures res.Skip? <==> I.params.hubLocation.Get(l) == 1.0 || NoRetrofitPotential(I, t, y)
    ensures res.Emit? ==> res.row.sense == Eq
    ensures res.Emit? ==> forall v :: RelSatisfied(res.row, v) <==> v(PotentialRetrofitFromResidual(l, t, y)) == RetiredResidual(I, l, t, y)
  {
    if I.params.hubLocation.Get(l) == 1.0 then Skip else R1(I, l, t, y)
  }

  /** R2 in the hub model: as without hubs, and silent at hub locations. */
  function HubR2(I: Instance, l: Loc, t: Tech, y: Year): (res: Outcome<Relation>)
    requires y in I.sets.year
    ensures !res.Fail?
    ensures res.Skip? <==> I.params.hubLocation.Get(l) == 1.0 || NoRetrofitPotential(I, t, y)
    ensures res.Emit? ==> res.row.sense == Eq
    ensures res.Emit? ==> forall v :: RelSatisfied(res.row, v) <==>
      v(PotentialRetrofitFromNew(l, t, y)) == ColumnSum(Expiring(I, l, t, y), yy => LocalNewCapacity(l, t, yy), v)
  {
    if I.params.hubLocation.Get(l) == 1.0 then Skip else R2(I, l, t, y)
  }

  /**
   * R3 in the hub model: silent at hub locations and for a technology whose
   * flag is 0; any other flag value gets a row, and a value other than 1
   * after the first year makes the removal raise.
   */
  function HubR3(I: Instance, l: Loc, t: Tech, y: Year): (res: Outcome<Relation>)
    requires y in I.sets.year
    ensures res.Skip? <==> I.params.hubLocation.Get(l) == 1.0 || I.params.retrofitTechnology.Get(t) == 0.0
    ensures res.Fail? <==> (!res.Skip? && y != Min(I.sets.year) &&
      !(t in I.sets.technology && I.params.retrofitTechnology.Get(t) == 1.0 && |Sources(I, t)| > 0))
    ensures res.Fail? ==> res.error == NotInList
    ensures res.Emit? && y == Min(I.sets.year) ==> (res.row.sense == Eq &&
      forall v :: RelSatisfied(res.row, v) <==> v(LocalNewCapacity(l, t, y)) == 0.0)
    ensures res.Emit? && y != Min(I.sets.year) ==> (res.row.sense == Le &&
      forall v :: RelSatisfied(res.row, v) <==> SiblingCapacity(I, l, t, y, v) <= PotentialValue(l, Sources(I, t), y, v))
  {
    SelfSibling(I, t);
    if I.params.hubLocation.Get(l) == 1.0 || I.params.retrofitTechnology.Get(t) == 0.0 then Skip
    else CapRule(I, l, t, y)
  }

  /** The body both R3 rules share once they decide to build a row. */
  function CapRule(I: Instance, l: Loc, t: Tech, y: Year): (res: Outcome<Relation>)
    requires y in I.sets.year
    ensures !res.Skip?
    ensures res.Fail? <==> y != Min(I.sets.year) && t !in Siblings(I, t)
    ensures res.Fail? ==> res.error == NotInList
    ensures res.Emit? && y == Min(I.sets.year) ==> (res.row.sense == Eq &&
      forall v :: RelSatisfied(res.row, v) <==> v(LocalNewCapacity(l, t, y)) == 0.0)
    ensures res.Emit? && y != Min(I.sets.year) ==> (res.row.sense == Le &&
      forall v :: RelSatisfied(res.row, v) <==> SiblingCapacity(I, l, t, y, v) <= PotentialValue(l, Sources(I, t), y, v))
  {
    if y == Min(I.sets.year) then Emit(Relation(Var(1.0, LocalNewCapacity(l, t, y)), Eq, Const(0.0)))
    else
      match Remove(Siblings(I, t), t)
      case Err(e) => Fail(e)
      case Ok(peers) =>
        forall v: Valuation ensures v(LocalNewCapacity(l, t, y)) + ColumnSum(peers, tech => LocalNewCapacity(l, tech, y), v) == SiblingCapacity(I, l, t, y, v) {
          PeersAndSelf(I, l, t, y, v);
        }
        Emit(CapRelation(l, t, y, peers, Sources(I, t)))
  }

  /** `LNC(t) + sum(LNC(p) for p in peers) <= (1 + 0.1) * sum(PRFR(s) + PRFN(s) for s in src)`. */
  function CapRelation(l: Loc, t: Tech, y: Year, peers: seq<Tech>, src: seq<Tech>): (rel: Relation)
    ensures rel.sense == Le
    ensures forall v :: RelSatisfied(rel, v) <==>
      v(LocalNewCapacity(l, t, y)) + ColumnSum(peers, tech => LocalNewCapacity(l, tech, y), v) <= PotentialValue(l, src, y, v)
  {
    var cap := Expr([Shared(Margin, PotentialColumns(l, src, y))], 0.0);
    forall v ensures ExprValue(cap, v) == PotentialValue(l, src, y, v) {
      Value1(cap.terms[0]);
      PotentialColumnsSum(l, src, y, v);
    }
    Relation(Plus(Var(1.0, LocalNewCapacity(l, t, y)), SumOf(peers, tech => LocalNewCapacity(l, tech, y))), Le, cap)
  }

  /** The columns of `sum(PRFR(s) + PRFN(s) for s in src)`, pair by pair. */
  function PotentialColumns(l: Loc, src: seq<Tech>, y: Year): seq<Column>
  {
    if |src| == 0 then []
    else [PotentialRetrofitFromResidual(l, src[0], y), PotentialRetrofitFromNew(l, src[0], y)] + PotentialColumns(l, src[1..], y)
  }

  /** Summing pair by pair gives the two potentials' sums. */
  lemma {:induction false} PotentialColumnsSum(l: Loc, src: seq<Tech>, y: Year, v: Valuation)
    ensures SumCols(PotentialColumns(l, src, y), v) ==
      ColumnSum(src, tech => PotentialRetrofitFromResidual(l, tech, y), v) + ColumnSum(src, tech => PotentialRetrofitFromNew(l, tech, y), v)
  {
    if |src| > 0 {
      var a, b, rest := PotentialRetrofitFromResidual(l, src[0], y), PotentialRetrofitFromNew(l, src[0], y), PotentialColumns(l, src[1..], y);
      assert ([a, b] + rest)[1..] == [b] + rest;
      assert ([b] + rest)[1..] == rest;
      PotentialColumnsSum(l, src[1..], y, v);
    }
  }
}
