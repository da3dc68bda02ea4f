/**
 * The retrofit extension shared by both backends.
 *
 * A retrofit technology (RetrofitTechnology == 1) replaces capacity of its
 * source technologies (MatchTechnologyRetrofit(source, t) == 1) that reaches
 * its end of life. R1 and R2 measure that capacity per source, from the
 * residual stock and from new builds; R3 caps new retrofit capacity at 110%
 * of it. This module holds the lists and quantities the three rules are
 * written with, and what is known about them.
 */
module Retrofit {
  import opened Basics
  import opened ModelData
  import opened Linear

  /** The head room R3 allows over the retrofit potential: `1 + 0.1`. */
  const Margin: real := 1.1

  /**
   * Python's `list.remove(x)`: the list without the first occurrence of `x`,
   * or ValueError when `x` is not in it.
   */
  function Remove<T(==)>(s: seq<T>, x: T): (r: Result<seq<T>, RuleError>)
    ensures r.Err? <==> x !in s
    ensures r.Err? ==> r.error == NotInList
    ensures r.Ok? ==> multiset(r.value) + multiset{x} == multiset(s)
  {
    if |s| == 0 then Err(NotInList)
    else
      assert s == [s[0]] + s[1..];
      if s[0] == x then Ok(s[1..])
      else match Remove(s[1..], x)
        case Err(e) => Err(e)
        case Ok(rest) => Ok([s[0]] + rest)
  }

  /** Removing a member takes exactly its summand out of a sum. */
  lemma {:induction false} RemoveSum<T>(s: seq<T>, x: T, f: T -> real)
    requires x in s
    ensures Sum(s, f) == f(x) + Sum(Remove(s, x).value, f)
  {
    if s[0] != x {
      RemoveSum(s[1..], x, f);
      var rest := Remove(s[1..], x).value;
      assert ([s[0]] + rest)[1..] == rest;
    }
  }

  /** The column-sum form of `RemoveSum`. */
  lemma RemoveColumnSum<T>(s: seq<T>, w: T, col: T -> Column, v: Valuation)
    requires w in s
    ensures ColumnSum(s, col, v) == v(col(w)) + ColumnSum(Remove(s, w).value, col, v)
  {
    RemoveSum(s, w, x => v(col(x)));
  }

  /** In a list without repeats, removing `x` leaves every other member and only those. */
  lemma {:induction false} RemoveDistinct<T>(s: seq<T>, x: T)
    requires Distinct(s) && x in s
    ensures forall y :: y in Remove(s, x).value <==> y in s && y != x
  {
    assert s == [s[0]] + s[1..];
    assert Distinct(s[1..]);
    if s[0] == x {
      assert x !in s[1..];
    } else {
      RemoveDistinct(s[1..], x);
    }
  }

  /** R3's RelevantTechnology: the technologies `t` retrofits. */
  function Sources(I: Instance, t: Tech): (ts: seq<Tech>)
    ensures forall tech :: tech in ts <==> tech in I.sets.technology && I.params.matchTechnologyRetrofit.Get((tech, t)) == 1.0
  {
    Filter(I.sets.technology, tech => I.params.matchTechnologyRetrofit.Get((tech, t)) == 1.0)
  }

  /**
   * R3's OtherRetrofitTechnology before `t` is taken out: the retrofit
   * technologies whose match values over `t`'s sources add up to at least 1,
   * the technologies competing with `t` for the same retiring capacity.
   */
  function Siblings(I: Instance, t: Tech): (ts: seq<Tech>)
    ensures forall tech :: tech in ts ==> tech in I.sets.technology && I.params.retrofitTechnology.Get(tech) == 1.0
  {
    Filter(I.sets.technology, tech => I.params.retrofitTechnology.Get(tech) == 1.0 &&
      Sum(Sources(I, t), tt => I.params.matchTechnologyRetrofit.Get((tt, tech))) >= 1.0)
  }

  /**
   * A retrofit technology competes with itself exactly when it has a source:
   * every source matches it with weight 1, so its match sum is the number of
   * sources. Without a source `OtherRetrofitTechnology.remove(t)` raises.
   */
  lemma SelfSibling(I: Instance, t: Tech)
    ensures t in Siblings(I, t) <==> t in I.sets.technology && I.params.retrofitTechnology.Get(t) == 1.0 && |Sources(I, t)| > 0
  {
    var src := Sources(I, t);
    SumConstant(src, tt => I.params.matchTechnologyRetrofit.Get((tt, t)), 1.0);
  }

  /**
   * The years whose new capacity of `t` at `l` ends its life in year `y`:
   * those exactly the local operational life before `y`.
   */
  function Expiring(I: Instance, l: Loc, t: Tech, y: Year): (ys: seq<Year>)
    ensures forall yy :: yy in ys <==> yy in I.sets.year && yy < y && (y - yy) as real == LocalLife(I, l, t)
  {
    Filter(I.sets.year, yy => (y - yy) as real == LocalLife(I, l, t) && y - yy > 0)
  }

  /** With distinct years, at most one vintage of new capacity retires in any year. */
  lemma ExpiringSingleVintage(I: Instance, l: Loc, t: Tech, y: Year)
    requires Distinct(I.sets.year)
    ensures |Expiring(I, l, t, y)| <= 1
  {
    var L := LocalLife(I, l, t);
    var p := yy => (y - yy) as real == L && y - yy > 0;
    forall yy | p(yy) ensures yy == y - L.Floor {
      assert ((y - yy) as real).Floor == y - yy;
    }
    FilterSingle(I.sets.year, p, y - L.Floor);
  }

  /** The residual capacity of `t` at `l` retired between the previous period and `y`. */
  function ResidualDrop(I: Instance, l: Loc, t: Tech, y: Year): real
  {
    var P := I.params;
    P.localResidualCapacity.Get((l, t, y - P.timeStep.Get(y))) - P.localResidualCapacity.Get((l, t, y))
  }

  /**
   * R1's right-hand side: the residual capacity retired in `y`, or nothing
   * when the residual stock grew — never negative, and never below the drop.
   */
  function RetiredResidual(I: Instance, l: Loc, t: Tech, y: Year): (p: real)
    ensures p >= 0.0 && p >= ResidualDrop(I, l, t, y)
    ensures p == 0.0 || p == ResidualDrop(I, l, t, y)
  {
    if ResidualDrop(I, l, t, y) > 0.0 then ResidualDrop(I, l, t, y) else 0.0
  }

  /** Whether R1 and R2 build no row: `y` is the first year, or `t` is not retrofitted. */
  predicate NoRetrofitPotential(I: Instance, t: Tech, y: Year)
    requires y in I.sets.year
  {
    y == Min(I.sets.year) || I.params.technologyToRetrofit.Get(t) == 0.0
  }

  /** The potential R3 caps retrofit capacity with, under valuation `v`. */
  function PotentialValue(l: Loc, src: seq<Tech>, y: Year, v: Valuation): real
  {
    Margin * (ColumnSum(src, tech => PotentialRetrofitFromResidual(l, tech, y), v)
            + ColumnSum(src, tech => PotentialRetrofitFromNew(l, tech, y), v))
  }

  /** The new capacity of the competing retrofit technologies, under valuation `v`. */
  function SiblingCapacity(I: Instance, l: Loc, t: Tech, y: Year, v: Valuation): real
  {
    ColumnSum(Siblings(I, t), tech => LocalNewCapacity(l, tech, y), v)
  }

  /**
   * The new capacity of `t` plus that of the other siblings is the new
   * capacity of all siblings: R3's left-hand side, read without the removal.
   */
  lemma PeersAndSelf(I: Instance, l: Loc, t: Tech, y: Year, v: Valuation)
    requires t in Siblings(I, t)
    ensures v(LocalNewCapacity(l, t, y)) + ColumnSum(Remove(Siblings(I, t), t).value, tech => LocalNewCapacity(l, tech, y), v)
      == SiblingCapacity(I, l, t, y, v)
  {
    RemoveColumnSum(Siblings(I, t), t, tech => LocalNewCapacity(l, tech, y), v);
  }
}
