/**
 * Linear constraint rows and their meaning.
 *
 * The tinyomo backend builds a row as a left-hand side (a list of terms), a
 * right-hand side constant and a sense. The pyomo backends build a relation
 * between two linear expressions. Both are given one meaning: the set of
 * valuations of the decision variables that satisfy them.
 */
module Linear {
  import opened Basics
  import opened ModelData

  /** A decision variable: its family and its index tuple. */
  datatype Column =
    | LocalNewCapacity(l: Loc, t: Tech, y: Year)
    | NewCapacity(r: Region, t: Tech, y: Year)
    | LocalAccumulatedNewCapacity(l: Loc, t: Tech, y: Year)
    | AccumulatedNewCapacity(r: Region, t: Tech, y: Year)
    | LocalTotalCapacity(l: Loc, t: Tech, y: Year)
    | TotalCapacity(r: Region, t: Tech, y: Year)
    | LocalActivityByMode(l: Loc, t: Tech, m: Mode, y: Year)
    | LocalActivity(l: Loc, t: Tech, y: Year)
    | Activity(r: Region, t: Tech, y: Year)
    | ModelPeriodActivity(r: Region, t: Tech)
    | LocalProductionByMode(l: Loc, t: Tech, p: Product, m: Mode, y: Year)
    | LocalProductionByTechnology(l: Loc, t: Tech, p: Product, y: Year)
    | LocalProduction(l: Loc, p: Product, y: Year)
    | Production(r: Region, p: Product, y: Year)
    | LocalUseByMode(l: Loc, t: Tech, p: Product, m: Mode, y: Year)
    | LocalUseByTechnology(l: Loc, t: Tech, p: Product, y: Year)
    | LocalUse(l: Loc, p: Product, y: Year)
    | Use(r: Region, p: Product, y: Year)
    | Transport(l: Loc, ll: Loc, p: Product, tr: TransportMode, y: Year)
    | Import(r: Region, p: Product, y: Year)
    | Export(r: Region, p: Product, y: Year)
    | LocalCapitalInvestment(l: Loc, t: Tech, y: Year)
    | LocalDiscountedCapitalInvestment(l: Loc, t: Tech, y: Year)
    | DiscountedCapitalInvestment(r: Region, t: Tech, y: Year)
    | SalvageValue(r: Region, t: Tech, y: Year)
    | DiscountedSalvageValue(r: Region, t: Tech, y: Year)
    | LocalVariableOperatingCost(l: Loc, t: Tech, y: Year)
    | LocalFixedOperatingCost(l: Loc, t: Tech, y: Year)
    | LocalOperatingCost(l: Loc, t: Tech, y: Year)
    | LocalDiscountedOperatingCost(l: Loc, t: Tech, y: Year)
    | DiscountedOperatingCost(r: Region, t: Tech, y: Year)
    | LocalTransportCost(l: Loc, p: Product, y: Year)
    | LocalDiscountedTransportCost(l: Loc, p: Product, y: Year)
    | DiscountedTransportCostByProduct(r: Region, p: Product, y: Year)
    | DiscountedTransportCost(r: Region, y: Year)
    | TotalDiscountedCost(r: Region, y: Year)
    | ModelPeriodCostByRegion(r: Region)
    | ModelPeriodCost
    | LocalTechnologyEmissionByMode(l: Loc, t: Tech, e: Emission, m: Mode, y: Year)
    | LocalTechnologyEmission(l: Loc, t: Tech, e: Emission, y: Year)
    | AnnualTechnologyEmission(r: Region, t: Tech, e: Emission, y: Year)
    | AnnualTechnologyEmissionPenaltyByEmission(r: Region, t: Tech, e: Emission, y: Year)
    | AnnualTechnologyEmissionsPenalty(r: Region, t: Tech, y: Year)
    | DiscountedTechnologyEmissionsPenalty(r: Region, t: Tech, y: Year)
    | AnnualEmissions(r: Region, e: Emission, y: Year)
    | ModelPeriodEmissions(r: Region, e: Emission)
    | PotentialRetrofitFromResidual(l: Loc, t: Tech, y: Year)
    | PotentialRetrofitFromNew(l: Loc, t: Tech, y: Year)

  /**
   * One tinyomo term: a coefficient on one column, one coefficient shared by
   * a list of columns, or a list of coefficients paired with a list of columns.
   */
  datatype Term =
    | Single(coef: real, col: Column)
    | Shared(coef: real, cols: seq<Column>)
    | Paired(coefs: seq<real>, cols: seq<Column>)

  datatype Sense = Le | Eq | Ge

  /** A tinyomo row: `lhs sense rhs`. */
  datatype Record = Record(lhs: seq<Term>, rhs: real, sense: Sense)

  /** A pyomo linear expression: a sum of terms plus a constant. */
  datatype Expr = Expr(terms: seq<Term>, constant: real)

  /** A pyomo constraint: `left sense right`. */
  datatype Relation = Relation(left: Expr, sense: Sense, right: Expr)

  /** What a rule returns: a row, pyomo's `Constraint.Skip` / tinyomo's `None`, or an exception. */
  datatype Outcome<+T> = Emit(row: T) | Skip | Fail(error: RuleError)

  /** Values of the decision variables. */
  type Valuation = Column -> real

  function SumCols(cols: seq<Column>, v: Valuation): real
  {
    if |cols| == 0 then 0.0 else v(cols[0]) + SumCols(cols[1..], v)
  }

  /** The paired shape zips its two lists, stopping at the shorter. */
  function PairedValue(coefs: seq<real>, cols: seq<Column>, v: Valuation): real
  {
    if |coefs| == 0 || |cols| == 0 then 0.0
    else coefs[0] * v(cols[0]) + PairedValue(coefs[1..], cols[1..], v)
  }

  function TermValue(t: Term, v: Valuation): real
  {
    match t
    case Single(c, x) => c * v(x)
    case Shared(c, xs) => c * SumCols(xs, v)
    case Paired(cs, xs) => PairedValue(cs, xs, v)
  }

  /** The value of a sum of terms. */
  function Value(ts: seq<Term>, v: Valuation): real
  {
    if |ts| == 0 then 0.0 else TermValue(ts[0], v) + Value(ts[1..], v)
  }

  predicate Holds(s: Sense, a: real, b: real)
  {
    match s
    case Le => a <= b
    case Eq => a == b
    case Ge => a >= b
  }

  predicate Satisfied(rec: Record, v: Valuation)
  {
    Holds(rec.sense, Value(rec.lhs, v), rec.rhs)
  }

  predicate RelSatisfied(rel: Relation, v: Valuation)
  {
    Holds(rel.sense, ExprValue(rel.left, v), ExprValue(rel.right, v))
  }

  /** The columns one term mentions. */
  function TermColumns(t: Term): seq<Column>
  {
    match t
    case Single(_, x) => [x]
    case Shared(_, xs) => xs
    case Paired(_, xs) => xs
  }

  /** The columns a list of terms mentions, in order. */
  function Columns(ts: seq<Term>): seq<Column>
  {
    if |ts| == 0 then [] else TermColumns(ts[0]) + Columns(ts[1..])
  }

  lemma Columns1(a: Term)
    ensures Columns([a]) == TermColumns(a)
  {
    assert [a][1..] == [];
  }

  lemma Columns2(a: Term, b: Term)
    ensures Columns([a, b]) == TermColumns(a) + TermColumns(b)
  {
    assert [a, b][1..] == [b];
    Columns1(b);
  }

  lemma Columns3(a: Term, b: Term, c: Term)
    ensures Columns([a, b, c]) == TermColumns(a) + TermColumns(b) + TermColumns(c)
  {
    assert [a, b, c][1..] == [b, c];
    Columns2(b, c);
  }

  lemma Value1(a: Term)
    ensures forall v :: Value([a], v) == TermValue(a, v)
  {
    assert [a][1..] == [];
  }

  lemma Value2(a: Term, b: Term)
    ensures forall v :: Value([a, b], v) == TermValue(a, v) + TermValue(b, v)
  {
    assert [a, b][1..] == [b];
    Value1(b);
  }

  lemma Value3(a: Term, b: Term, c: Term)
    ensures forall v :: Value([a, b, c], v) == TermValue(a, v) + TermValue(b, v) + TermValue(c, v)
  {
    assert [a, b, c][1..] == [b, c];
    Value2(b, c);
  }

  lemma Value4(a: Term, b: Term, c: Term, d: Term, v: Valuation)
    ensures Value([a, b, c, d], v) == TermValue(a, v) + TermValue(b, v) + TermValue(c, v) + TermValue(d, v)
  {
    assert [a, b, c, d][1..] == [b, c, d];
    Value3(b, c, d);
  }

  /** `[coef(x) for x in xs]`: the coefficient list of a paired term. */
  function Weigh<T>(xs: seq<T>, coef: T -> real): (cs: seq<real>)
    ensures |cs| == |xs|
  {
    if |xs| == 0 then [] else [coef(xs[0])] + Weigh(xs[1..], coef)
  }

  /** A paired term with one more leading pair adds that pair's product. */
  lemma PairedCons(c: real, x: Column, cs: seq<real>, xs: seq<Column>, v: Valuation)
    ensures PairedValue([c] + cs, [x] + xs, v) == c * v(x) + PairedValue(cs, xs, v)
  {
    assert ([c] + cs)[1..] == cs && ([x] + xs)[1..] == xs;
  }

  /** A paired term built over `xs` is the sum, over `xs`, of coefficient times column value. */
  lemma {:induction false} PairedSum<T(!new)>(xs: seq<T>, coef: T -> real, col: T -> Column, v: Valuation)
    ensures PairedValue(Weigh(xs, coef), Map(xs, col), v) == Sum(xs, x => coef(x) * v(col(x)))
  {
    if |xs| > 0 {
      var cs', ks' := Weigh(xs[1..], coef), Map(xs[1..], col);
      calc {
        PairedValue(Weigh(xs, coef), Map(xs, col), v);
        PairedValue([coef(xs[0])] + cs', [col(xs[0])] + ks', v);
        { PairedCons(coef(xs[0]), col(xs[0]), cs', ks', v); }
        coef(xs[0]) * v(col(xs[0])) + PairedValue(cs', ks', v);
        { PairedSum(xs[1..], coef, col, v); }
        Sum(xs, x => coef(x) * v(col(x)));
      }
    }
  }

  /** A shared term built over `xs` sums the column values over `xs`. */
  lemma {:induction false} SharedSum<T(!new)>(xs: seq<T>, col: T -> Column, v: Valuation)
    ensures SumCols(Map(xs, col), v) == Sum(xs, x => v(col(x)))
  {
    if |xs| > 0 {
      assert Map(xs, col)[1..] == Map(xs[1..], col);
      SharedSum(xs[1..], col, v);
    }
  }

  /** The same term with every coefficient negated. */
  function Negate(t: Term): (r: Term)
    ensures forall v :: TermValue(r, v) == -TermValue(t, v)
  {
    match t
    case Single(c, x) => Single(-c, x)
    case Shared(c, xs) => Shared(-c, xs)
    case Paired(cs, xs) =>
      forall v ensures PairedValue(NegateAll(cs), xs, v) == -PairedValue(cs, xs, v) {
        PairedNegate(cs, xs, v);
      }
      Paired(NegateAll(cs), xs)
  }

  /** Every coefficient of a list negated. */
  function NegateAll(cs: seq<real>): (r: seq<real>)
    ensures |r| == |cs|
  {
    if |cs| == 0 then [] else [-cs[0]] + NegateAll(cs[1..])
  }

  lemma {:induction false} PairedNegate(cs: seq<real>, xs: seq<Column>, v: Valuation)
    ensures PairedValue(NegateAll(cs), xs, v) == -PairedValue(cs, xs, v)
  {
    if |cs| > 0 && |xs| > 0 {
      PairedNegate(cs[1..], xs[1..], v);
      assert NegateAll(cs)[1..] == NegateAll(cs[1..]);
    }
  }

  /** The value of a concatenation is the sum of the values. */
  lemma {:induction false} ValueAppend(a: seq<Term>, b: seq<Term>, v: Valuation)
    ensures Value(a + b, v) == Value(a, v) + Value(b, v)
  {
    if |a| == 0 {
      assert a + b == b;
    } else {
      assert (a + b)[1..] == a[1..] + b;
      ValueAppend(a[1..], b, v);
    }
  }

  lemma {:induction false} ValueNegate(ts: seq<Term>, v: Valuation)
    ensures Value(Map(ts, Negate), v) == -Value(ts, v)
  {
    if |ts| > 0 {
      assert Map(ts, Negate)[1..] == Map(ts[1..], Negate);
      ValueNegate(ts[1..], v);
    }
  }

  /**
   * A pyomo relation as a tinyomo row: the right-hand terms move to the left
   * with their signs flipped and the constants move to the right. The row and
   * the relation are satisfied by exactly the same valuations.
   */
  function ToRecord(rel: Relation): (r: Record)
    ensures r.sense == rel.sense
    ensures forall v :: Satisfied(r, v) <==> RelSatisfied(rel, v)
  {
    var r := Record(rel.left.terms + Map(rel.right.terms, Negate), rel.right.constant - rel.left.constant, rel.sense);
    forall v ensures Value(r.lhs, v) == Value(rel.left.terms, v) - Value(rel.right.terms, v) {
      ValueAppend(rel.left.terms, Map(rel.right.terms, Negate), v);
      ValueNegate(rel.right.terms, v);
    }
    r
  }

  /**
   * A tinyomo outcome and a pyomo outcome agree: both skip, both raise the
   * same exception, or both emit a constraint satisfied by exactly the same
   * valuations.
   */
  ghost predicate Agree(a: Outcome<Record>, b: Outcome<Relation>)
  {
    match a
    case Emit(x) => b.Emit? && forall v :: Satisfied(x, v) <==> RelSatisfied(b.row, v)
    case Skip => b.Skip?
    case Fail(e) => b == Fail(e)
  }

  /** Two pyomo outcomes agree: both skip, both raise alike, or both emit equivalent constraints. */
  ghost predicate AgreeRel(a: Outcome<Relation>, b: Outcome<Relation>)
  {
    match a
    case Emit(x) => b.Emit? && forall v :: RelSatisfied(x, v) <==> RelSatisfied(b.row, v)
    case Skip => b.Skip?
    case Fail(e) => b == Fail(e)
  }

  /** The value of a pyomo expression. */
  function ExprValue(e: Expr, v: Valuation): real
  {
    Value(e.terms, v) + e.constant
  }

  /** `c * x` as a pyomo expression. */
  function Var(c: real, x: Column): (e: Expr)
    ensures forall v :: ExprValue(e, v) == c * v(x)
  {
    Value1(Single(c, x));
    Expr([Single(c, x)], 0.0)
  }

  /** A constant as a pyomo expression. */
  function Const(c: real): (e: Expr)
    ensures forall v :: ExprValue(e, v) == c
  {
    Expr([], c)
  }

  /** `sum(col(x) for x in xs)` as a pyomo expression. */
  function SumOf<T(!new)>(xs: seq<T>, col: T -> Column): (e: Expr)
    ensures forall v :: ExprValue(e, v) == ColumnSum(xs, col, v)
  {
    var t := SumTerm(xs, col);
    Value1(t);
    Expr([t], 0.0)
  }

  /** `sum(coef(x) * col(x) for x in xs)` as a pyomo expression. */
  function WeightedOf<T(!new)>(xs: seq<T>, coef: T -> real, col: T -> Column): (e: Expr)
    ensures forall v :: ExprValue(e, v) == WeightedSum(xs, coef, col, v)
  {
    var t := Paired(Weigh(xs, coef), Map(xs, col));
    Value1(t);
    forall v ensures TermValue(t, v) == WeightedSum(xs, coef, col, v) {
      PairedSum(xs, coef, col, v);
    }
    Expr([t], 0.0)
  }

  /** `a + b`. */
  function Plus(a: Expr, b: Expr): (e: Expr)
    ensures forall v :: ExprValue(e, v) == ExprValue(a, v) + ExprValue(b, v)
  {
    forall v ensures Value(a.terms + b.terms, v) == Value(a.terms, v) + Value(b.terms, v) {
      ValueAppend(a.terms, b.terms, v);
    }
    Expr(a.terms + b.terms, a.constant + b.constant)
  }

  /** `a - b`. */
  function Minus(a: Expr, b: Expr): (e: Expr)
    ensures forall v :: ExprValue(e, v) == ExprValue(a, v) - ExprValue(b, v)
  {
    var nb := Map(b.terms, Negate);
    forall v ensures Value(a.terms + nb, v) == Value(a.terms, v) - Value(b.terms, v) {
      ValueAppend(a.terms, nb, v);
      ValueNegate(b.terms, v);
    }
    Expr(a.terms + nb, a.constant - b.constant)
  }

  /**
   * `target == source / d` in pyomo: dividing by a zero number raises
   * ZeroDivisionError; otherwise the source is scaled by 1/d.
   */
  function DiscountedRel(target: Column, source: Column, d: real): (res: Outcome<Relation>)
    ensures res.Fail? <==> d == 0.0
    ensures res.Fail? ==> res.error == ZeroDivision
    ensures !res.Skip?
    ensures res.Emit? ==> res.row.sense == Eq
    ensures res.Emit? ==> forall v :: RelSatisfied(res.row, v) <==> v(target) * d == v(source)
  {
    if d == 0.0 then Fail(ZeroDivision)
    else
      var rel := Relation(Var(1.0, target), Eq, Var(1.0 / d, source));
      forall v: Valuation ensures RelSatisfied(rel, v) <==> v(target) * d == v(source) {
        DivideAcross(v(target), v(source), d);
      }
      Emit(rel)
  }

  /** `sum(col(x) for x in xs)` under valuation `v`. */
  function ColumnSum<T>(xs: seq<T>, col: T -> Column, v: Valuation): real
  {
    Sum(xs, x => v(col(x)))
  }

  /** `sum(coef(x) * col(x) for x in xs)` under valuation `v`. */
  function WeightedSum<T>(xs: seq<T>, coef: T -> real, col: T -> Column, v: Valuation): real
  {
    Sum(xs, x => coef(x) * v(col(x)))
  }

  /**
   * Weights that are all 0 or 1 select: the weighted sum is the plain sum
   * over the members whose weight is 1, the members `keep` picks out.
   */
  lemma {:induction false} WeightedByFlags<T(!new)>(xs: seq<T>, coef: T -> real, keep: T -> bool, col: T -> Column, v: Valuation)
    requires forall x :: x in xs ==> (coef(x) == 0.0 || coef(x) == 1.0) && (keep(x) <==> coef(x) == 1.0)
    ensures WeightedSum(xs, coef, col, v) == ColumnSum(Filter(xs, keep), col, v)
  {
    if |xs| > 0 {
      WeightedByFlags(xs[1..], coef, keep, col, v);
    }
  }

  /** The row `total == sum(col(x) for x in xs) + rhs`, written `total - sum(...) == rhs`. */
  function Aggregate<T(!new)>(total: Column, xs: seq<T>, col: T -> Column, rhs: real): (rec: Record)
    ensures rec.sense == Eq && rec.rhs == rhs
    ensures forall c :: c in Columns(rec.lhs) <==> c == total || exists x :: x in xs && c == col(x)
    ensures forall v :: Satisfied(rec, v) <==> v(total) == ColumnSum(xs, col, v) + rhs
  {
    var lhs := [Single(1.0, total), Shared(-1.0, Map(xs, col))];
    Columns2(lhs[0], lhs[1]);
    Value2(lhs[0], lhs[1]);
    forall v ensures SumCols(Map(xs, col), v) == Sum(xs, x => v(col(x))) {
      SharedSum(xs, col, v);
    }
    Record(lhs, rhs, Eq)
  }

  /** The row `sum(col(x) for x in xs) - total  s  0`: a flow total compared with a stock. */
  function Balance<T(!new)>(xs: seq<T>, col: T -> Column, total: Column, s: Sense): (rec: Record)
    ensures rec.sense == s && rec.rhs == 0.0
    ensures forall c :: c in Columns(rec.lhs) <==> c == total || exists x :: x in xs && c == col(x)
    ensures forall v :: Satisfied(rec, v) <==> Holds(s, ColumnSum(xs, col, v), v(total))
  {
    var lhs := [Shared(1.0, Map(xs, col)), Single(-1.0, total)];
    Columns2(lhs[0], lhs[1]);
    Value2(lhs[0], lhs[1]);
    forall v ensures SumCols(Map(xs, col), v) == ColumnSum(xs, col, v) {
      SharedSum(xs, col, v);
    }
    Record(lhs, 0.0, s)
  }

  /** The row `total == sum(coef(x) * col(x) for x in xs)`, written with negated coefficients. */
  function WeightedTotal<T(!new)>(total: Column, xs: seq<T>, coef: T -> real, col: T -> Column): (rec: Record)
    ensures rec.sense == Eq && rec.rhs == 0.0
    ensures forall c :: c in Columns(rec.lhs) <==> c == total || exists x :: x in xs && c == col(x)
    ensures forall v :: Satisfied(rec, v) <==> v(total) == WeightedSum(xs, coef, col, v)
  {
    var lhs := [Single(1.0, total), Paired(Weigh(xs, Negated(coef)), Map(xs, col))];
    Columns2(lhs[0], lhs[1]);
    Value2(lhs[0], lhs[1]);
    forall v ensures PairedValue(Weigh(xs, Negated(coef)), Map(xs, col), v) == -Sum(xs, x => coef(x) * v(col(x))) {
      NegatedPairedSum(xs, coef, col, v);
    }
    Record(lhs, 0.0, Eq)
  }

  /**
   * The row `total == sum(coef(x) * col(x) for x in xs) + sum(coef2(x) * col(x) for x in ys)`,
   * written with negated coefficients: a cost made of two weighted families.
   */
  function WeightedTotal2<T(!new)>(total: Column, xs: seq<T>, coef: T -> real, ys: seq<T>, coef2: T -> real, col: T -> Column): (rec: Record)
    ensures rec.sense == Eq && rec.rhs == 0.0
    ensures Columns(rec.lhs) == [total] + Map(xs, col) + Map(ys, col)
    ensures forall v :: Satisfied(rec, v) <==> v(total) == WeightedSum(xs, coef, col, v) + WeightedSum(ys, coef2, col, v)
  {
    var lhs := [Single(1.0, total), CostTerm(xs, coef, col), CostTerm(ys, coef2, col)];
    Columns3(lhs[0], lhs[1], lhs[2]);
    Value3(lhs[0], lhs[1], lhs[2]);
    Record(lhs, 0.0, Eq)
  }

  /** `x => -1 * coef(x)`: the coefficients of a sum moved to the other side. */
  function Negated<T>(coef: T -> real): T -> real
  {
    x => -1.0 * coef(x)
  }

  lemma NegatedPairedSum<T(!new)>(xs: seq<T>, coef: T -> real, col: T -> Column, v: Valuation)
    ensures PairedValue(Weigh(xs, Negated(coef)), Map(xs, col), v) == -Sum(xs, x => coef(x) * v(col(x)))
  {
    PairedSum(xs, Negated(coef), col, v);
    NegatedSum(xs, coef, col, v);
  }

  lemma {:induction false} NegatedSum<T>(xs: seq<T>, coef: T -> real, col: T -> Column, v: Valuation)
    ensures Sum(xs, x => Negated(coef)(x) * v(col(x))) == -Sum(xs, x => coef(x) * v(col(x)))
  {
    if |xs| > 0 {
      NegatedSum(xs[1..], coef, col, v);
      var a, b := coef(xs[0]), v(col(xs[0]));
      assert Negated(coef)(xs[0]) == -1.0 * a;
      assert (-1.0 * a) * b == -(a * b);
    }
  }

  /**
   * The discounting row `target == source / d`, written with the coefficient
   * `-1 / d`; a zero divisor raises before any row exists.
   */
  function Discounted(target: Column, source: Column, d: real): (res: Outcome<Record>)
    ensures res.Fail? <==> d == 0.0
    ensures res.Fail? ==> res.error == ZeroDivision
    ensures !res.Skip?
    ensures res.Emit? ==> res.row.sense == Eq && res.row.rhs == 0.0
    ensures res.Emit? ==> forall v :: Satisfied(res.row, v) <==> v(target) * d == v(source)
  {
    if d == 0.0 then Fail(ZeroDivision)
    else
      var lhs := [Single(1.0, target), Single(-1.0 / d, source)];
      Value2(lhs[0], lhs[1]);
      forall v: Valuation ensures (v(target) + (-1.0 / d) * v(source) == 0.0) <==> (v(target) * d == v(source)) {
        DivideOut(v(target), v(source), d);
      }
      Emit(Record(lhs, 0.0, Eq))
  }

  lemma DivideOut(a: real, b: real, d: real)
    requires d != 0.0
    ensures (a + (-1.0 / d) * b == 0.0) <==> (a * d == b)
  {
    assert (-1.0 / d) * b * d == -b;
    if a + (-1.0 / d) * b == 0.0 {
      assert a * d == -((-1.0 / d) * b) * d;
    }
    if a * d == b {
      assert (-1.0 / d) * b == (-1.0 / d) * a * d;
    }
  }

  /** The one-column row `1 * col  s  limit`: a bound on a single variable. */
  function Bound(col: Column, s: Sense, limit: real): (rec: Record)
    ensures rec.sense == s && rec.rhs == limit
    ensures Columns(rec.lhs) == [col]
    ensures forall v :: Satisfied(rec, v) <==> Holds(s, v(col), limit)
  {
    var lhs := [Single(1.0, col)];
    Columns1(lhs[0]);
    Value1(lhs[0]);
    Record(lhs, limit, s)
  }

  /** The shared term `1 * [col(x) for x in xs]`: the sum of a column family. */
  function SumTerm<T(!new)>(xs: seq<T>, col: T -> Column): (t: Term)
    ensures TermColumns(t) == Map(xs, col)
    ensures forall v :: TermValue(t, v) == ColumnSum(xs, col, v)
  {
    forall v ensures SumCols(Map(xs, col), v) == ColumnSum(xs, col, v) {
      SharedSum(xs, col, v);
    }
    Shared(1.0, Map(xs, col))
  }

  /** The shared term `c * [col(x) for x in xs]`: a column family's sum, scaled. */
  function ScaledSumTerm<T(!new)>(c: real, xs: seq<T>, col: T -> Column): (t: Term)
    ensures TermColumns(t) == Map(xs, col)
    ensures forall v :: TermValue(t, v) == c * ColumnSum(xs, col, v)
  {
    forall v ensures SumCols(Map(xs, col), v) == ColumnSum(xs, col, v) {
      SharedSum(xs, col, v);
    }
    Shared(c, Map(xs, col))
  }

  /** The paired term `[-coef(x) for x in xs] * [col(x) for x in xs]`: a weighted sum moved to the left. */
  function CostTerm<T(!new)>(xs: seq<T>, coef: T -> real, col: T -> Column): (t: Term)
    ensures TermColumns(t) == Map(xs, col)
    ensures forall v :: TermValue(t, v) == -WeightedSum(xs, coef, col, v)
  {
    forall v ensures PairedValue(Weigh(xs, Negated(coef)), Map(xs, col), v) == -WeightedSum(xs, coef, col, v) {
      NegatedPairedSum(xs, coef, col, v);
    }
    Paired(Weigh(xs, Negated(coef)), Map(xs, col))
  }

  lemma DivideAcross(a: real, b: real, d: real)
    requires d != 0.0
    ensures (1.0 * a == (1.0 / d) * b) <==> (a * d == b)
  {
    assert (1.0 / d) * b * d == b;
    if a * d == b {
      assert (1.0 / d) * b == (1.0 / d) * a * d;
    }
  }
}
