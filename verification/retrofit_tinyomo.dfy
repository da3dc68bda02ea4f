/**
 * The retrofit rules of the tinyomo backend, as lists of terms. Every rule
 * is silent at hub locations, like the hub variant's other local rules.
 */
module RetrofitTinyomo {
  import opened Basics
  import opened ModelData
  import opened Linear
  import opened Retrofit

  /**
   * R1: the retrofit potential from residual capacity is the residual stock
   * of `t` retired since the previous period, or 0 when the stock grew.
   */
  function R1(I: Instance, l: Loc, t: Tech, y: Year): (res: Outcome<Record>)
    requires y in I.sets.year
    ensures !res.Fail?
    ensures res.Skip? <==> I.params.hubLocation.Get(l) == 1.0 || NoRetrofitPotential(I, t, y)
    ensures res.Emit? ==> res.row.sense == Eq && Columns(res.row.lhs) == [PotentialRetrofitFromResidual(l, t, y)]
    ensures res.Emit? ==> forall v :: Satisfied(res.row, v) <==> v(PotentialRetrofitFromResidual(l, t, y)) == RetiredResidual(I, l, t, y)
  {
    if I.params.hubLocation.Get(l) == 1.0 || y == Min(I.sets.year) || I.params.technologyToRetrofit.Get(t) == 0.0 then Skip
    else if ResidualDrop(I, l, t, y) > 0.0 then Emit(Bound(PotentialRetrofitFromResidual(l, t, y), Eq, ResidualDrop(I, l, t, y)))
    else Emit(Bound(PotentialRetrofitFromResidual(l, t, y), Eq, 0.0))
  }

  /**
   * R2: the retrofit potential from new capacity is the new capacity of `t`
   * built exactly one local operational life before `y`.
   */
  function R2(I: Instance, l: Loc, t: Tech, y: Year): (res: Outcome<Record>)
    requires y in I.sets.year
    ensures !res.Fail?
    ensures res.Skip? <==> I.params.hubLocation.Get(l) == 1.0 || NoRetrofitPotential(I, t, y)
    ensures res.Emit? ==> res.row.sense == Eq && res.row.rhs == 0.0
    ensures res.Emit? ==> forall c :: c in Columns(res.row.lhs) <==>
      c == PotentialRetrofitFromNew(l, t, y) ||
      exists yy :: yy in I.sets.year && yy < y && (y - yy) as real == LocalLife(I, l, t) && c == LocalNewCapacity(l, t, yy)
    ensures res.Emit? ==> forall v :: Satisfied(res.row, v) <==>
      v(PotentialRetrofitFromNew(l, t, y)) == ColumnSum(Expiring(I, l, t, y), yy => LocalNewCapacity(l, t, yy), v)
  {
    if I.params.hubLocation.Get(l) == 1.0 || y == Min(I.sets.year) || I.params.technologyToRetrofit.Get(t) == 0.0 then Skip
    else Emit(Aggregate(PotentialRetrofitFromNew(l, t, y), Expiring(I, l, t, y), yy => LocalNewCapacity(l, t, yy), 0.0))
  }

  /**
   * R3: in the first year no retrofit capacity may be built; later, the new
   * capacity of all retrofit technologies competing with `t` is at most 110%
   * of the retrofit potential of `t`'s sources. A retrofit technology without
   * a source (or with a flag other than 0 and 1) makes the removal of `t`
   * from its competitors raise ValueError.
   */
  function R3(I: Instance, l: Loc, t: Tech, y: Year): (res: Outcome<Record>)
    requires y in I.sets.year
    ensures res.Skip? <==> I.params.hubLocation.Get(l) == 1.0 || I.params.retrofitTechnology.Get(t) == 0.0
    ensures res.Fail? <==> (!res.Skip? && y != Min(I.sets.year) &&
      !(t in I.sets.technology && I.params.retrofitTechnology.Get(t) == 1.0 && |Sources(I, t)| > 0))
    ensures res.Fail? ==> res.error == NotInList
    ensures res.Emit? && y == Min(I.sets.year) ==> (res.row.sense == Eq &&
      forall v :: Satisfied(res.row, v) <==> v(LocalNewCapacity(l, t, y)) == 0.0)
    ensures res.Emit? && y != Min(I.sets.year) ==> (res.row.sense == Le &&
      forall v :: Satisfied(res.row, v) <==> SiblingCapacity(I, l, t, y, v) <= PotentialValue(l, Sources(I, t), y, v))
  {
    SelfSibling(I, t);
    if I.params.hubLocation.Get(l) == 1.0 || I.params.retrofitTechnology.Get(t) == 0.0 then Skip
    else if y == Min(I.sets.year) then Emit(Bound(LocalNewCapacity(l, t, y), Eq, 0.0))
    else CapRow(I, l, t, y)
  }

  /** R3's row after the first year, or the ValueError of removing `t` from its competitors. */
  function CapRow(I: Instance, l: Loc, t: Tech, y: Year): (res: Outcome<Record>)
    ensures !res.Skip?
    ensures res.Fail? <==> t !in Siblings(I, t)
    ensures res.Fail? ==> res.error == NotInList
    ensures res.Emit? ==> res.row.sense == Le
    ensures res.Emit? ==> forall v :: Satisfied(res.row, v) <==> SiblingCapacity(I, l, t, y, v) <= PotentialValue(l, Sources(I, t), y, v)
  {
    match Remove(Siblings(I, t), t)
    case Err(e) => Fail(e)
    case Ok(peers) =>
      forall v: Valuation ensures v(LocalNewCapacity(l, t, y)) + ColumnSum(peers, tech => LocalNewCapacity(l, tech, y), v) == SiblingCapacity(I, l, t, y, v) {
        PeersAndSelf(I, l, t, y, v);
      }
      Emit(CapRecord(l, t, y, peers, Sources(I, t)))
  }

  /**
   * `[(1, LNC(t)), (1, [LNC(p) for p in peers]), (-1.1, [PRFR(s) for s in src]),
   * (-1.1, [PRFN(s) for s in src])] <= 0`.
   */
  function CapRecord(l: Loc, t: Tech, y: Year, peers: seq<Tech>, src: seq<Tech>): (rec: Record)
    ensures rec.sense == Le
    ensures forall v :: Satisfied(rec, v) <==>
      v(LocalNewCapacity(l, t, y)) + ColumnSum(peers, tech => LocalNewCapacity(l, tech, y), v) <= PotentialValue(l, src, y, v)
  {
    var lhs := [Single(1.0, LocalNewCapacity(l, t, y)),
                SumTerm(peers, tech => LocalNewCapacity(l, tech, y)),
                ScaledSumTerm(-Margin, src, tech => PotentialRetrofitFromResidual(l, tech, y)),
                ScaledSumTerm(-Margin, src, tech => PotentialRetrofitFromNew(l, tech, y))];
    forall v ensures Value(lhs, v) == v(LocalNewCapacity(l, t, y)) + ColumnSum(peers, tech => LocalNewCapacity(l, tech, y), v) - PotentialValue(l, src, y, v) {
      Value4(lhs[0], lhs[1], lhs[2], lhs[3], v);
    }
    Record(lhs, 0.0, Le)
  }
}
