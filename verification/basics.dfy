/**
 * Generic helpers over sequences: the list comprehensions, filters and sums
 * that every constraint rule of the assembler is written with.
 */
module Basics {

  /** A value, or the exception the Python code raises instead of returning one. */
  datatype Result<+T, +E> = Ok(value: T) | Err(error: E)

  /** `[x for x in s if p(x)]`: the members of `s` that satisfy `p`, in order. */
  function Filter<T(!new)>(s: seq<T>, p: T -> bool): (r: seq<T>)
    ensures |r| <= |s|
    ensures forall x :: x in r <==> x in s && p(x)
    ensures forall i :: 0 <= i < |r| ==> p(r[i])
  {
    if |s| == 0 then []
    else if p(s[0]) then [s[0]] + Filter(s[1..], p)
    else Filter(s[1..], p)
  }

  /** `[f(x) for x in s]`. */
  function Map<T(!new), U(!new)>(s: seq<T>, f: T -> U): (r: seq<U>)
    ensures |r| == |s|
    ensures forall i :: 0 <= i < |s| ==> r[i] == f(s[i])
    ensures forall x :: x in s ==> f(x) in r
    ensures forall y :: y in r ==> exists x :: x in s && y == f(x)
  {
    if |s| == 0 then [] else [f(s[0])] + Map(s[1..], f)
  }

  /** `[y for x in s for y in f(x)]`: a nested comprehension, outer loop first. */
  function FlatMap<T(!new), U(!new)>(s: seq<T>, f: T -> seq<U>): (r: seq<U>)
    ensures forall x, y :: x in s && y in f(x) ==> y in r
    ensures forall y :: y in r ==> exists x :: x in s && y in f(x)
  {
    if |s| == 0 then [] else f(s[0]) + FlatMap(s[1..], f)
  }

  /** One member of one piece is a member of the flattened list. */
  lemma FlatMapMember<T(!new), U(!new)>(s: seq<T>, f: T -> seq<U>, x: T, y: U)
    requires x in s && y in f(x)
    ensures y in FlatMap(s, f)
  {
  }

  /** `sum(f(x) for x in s)`, folded from the left as Python's `sum` does. */
  function Sum<T>(s: seq<T>, f: T -> real): real
  {
    if |s| == 0 then 0.0 else f(s[0]) + Sum(s[1..], f)
  }

  /** Python's `min` over a non-empty list of integers. */
  function Min(s: seq<int>): (m: int)
    requires |s| > 0
    ensures m in s
    ensures forall x :: x in s ==> m <= x
  {
    if |s| == 1 then s[0]
    else
      var rest := Min(s[1..]);
      assert s == [s[0]] + s[1..];
      if s[0] <= rest then s[0] else rest
  }

  /** Python's `max` over a non-empty list of integers. */
  function Max(s: seq<int>): (m: int)
    requires |s| > 0
    ensures m in s
    ensures forall x :: x in s ==> x <= m
  {
    if |s| == 1 then s[0]
    else
      var rest := Max(s[1..]);
      assert s == [s[0]] + s[1..];
      if s[0] >= rest then s[0] else rest
  }

  /** A list without repeats, as the index sets are. */
  predicate Distinct<T(==)>(s: seq<T>)
  {
    forall i, j :: 0 <= i < j < |s| ==> s[i] != s[j]
  }

  /** In a list without repeats, a filter that only `w` can pass keeps at most one member. */
  lemma {:induction false} FilterSingle<T(!new)>(s: seq<T>, p: T -> bool, w: T)
    requires Distinct(s)
    requires forall x :: p(x) ==> x == w
    ensures |Filter(s, p)| <= 1
  {
    if |s| > 0 {
      if p(s[0]) {
        assert s[0] !in s[1..];
        assert Filter(s[1..], p) == [] by {
          if |Filter(s[1..], p)| > 0 {
            assert Filter(s[1..], p)[0] in Filter(s[1..], p);
          }
        }
      } else {
        assert Distinct(s[1..]);
        FilterSingle(s[1..], p, w);
      }
    }
  }

  /** Keeping some members of a list without repeats leaves a list without repeats. */
  lemma {:induction false} FilterDistinct<T(!new)>(s: seq<T>, p: T -> bool)
    requires Distinct(s)
    ensures Distinct(Filter(s, p))
  {
    if |s| > 0 {
      assert Distinct(s[1..]);
      FilterDistinct(s[1..], p);
      if p(s[0]) {
        assert s[0] !in s[1..];
        DistinctConcat([s[0]], Filter(s[1..], p));
      }
    }
  }

  /** Two lists without repeats and without common members concatenate to one without repeats. */
  lemma DistinctConcat<T>(a: seq<T>, b: seq<T>)
    requires Distinct(a) && Distinct(b)
    requires forall x :: x in a ==> x !in b
    ensures Distinct(a + b)
  {
    forall i, j | 0 <= i < j < |a + b| ensures (a + b)[i] != (a + b)[j] {
      if j < |a| {
        assert (a + b)[i] == a[i] && (a + b)[j] == a[j];
      } else if i >= |a| {
        assert (a + b)[i] == b[i - |a|] && (a + b)[j] == b[j - |a|];
      } else {
        assert (a + b)[i] == a[i] && (a + b)[j] == b[j - |a|];
        assert a[i] in a && b[j - |a|] in b;
      }
    }
  }

  /**
   * A nested comprehension has no repeats when the outer list has none, no
   * inner list has any, and no two outer members share an inner member.
   */
  lemma {:induction false} FlatMapDistinct<T(!new), U(!new)>(s: seq<T>, f: T -> seq<U>)
    requires Distinct(s)
    requires forall x :: x in s ==> Distinct(f(x))
    requires forall x, x', z :: x in s && x' in s && z in f(x) && z in f(x') ==> x == x'
    ensures Distinct(FlatMap(s, f))
  {
    if |s| > 0 {
      assert s == [s[0]] + s[1..];
      assert Distinct(s[1..]);
      FlatMapDistinct(s[1..], f);
      assert s[0] !in s[1..];
      DistinctConcat(f(s[0]), FlatMap(s[1..], f));
    }
  }

  /** `sum(f(x) for x in s)` over whole numbers. */
  function Total<T>(s: seq<T>, f: T -> nat): nat
  {
    if |s| == 0 then 0 else f(s[0]) + Total(s[1..], f)
  }

  /** A nested comprehension whose inner lists have `k * g(x)` members has `k * Total(s, g)` in all. */
  lemma {:induction false} FlatMapLength<T(!new), U(!new)>(s: seq<T>, f: T -> seq<U>, g: T -> nat, k: nat)
    requires forall x :: x in s ==> |f(x)| == k * g(x)
    ensures |FlatMap(s, f)| == k * Total(s, g)
  {
    if |s| > 0 {
      FlatMapLength(s[1..], f, g, k);
      assert k * Total(s, g) == k * g(s[0]) + k * Total(s[1..], g);
    }
  }

  /** A nested comprehension whose inner lists all have `k` members has `|s| * k`. */
  lemma {:induction false} FlatMapUniform<T(!new), U(!new)>(s: seq<T>, f: T -> seq<U>, k: nat)
    requires forall x :: x in s ==> |f(x)| == k
    ensures |FlatMap(s, f)| == |s| * k
  {
    if |s| > 0 {
      FlatMapUniform(s[1..], f, k);
      assert |s| * k == k + (|s| - 1) * k;
    }
  }

  /** In a list without repeats that holds `w`, exactly `|s| - 1` members differ from `w`. */
  lemma {:induction false} CountOthers<T>(s: seq<T>, w: T, others: T -> nat)
    requires Distinct(s)
    requires forall x :: others(x) == if x != w then 1 else 0
    ensures Total(s, others) == |s| - (if w in s then 1 else 0)
  {
    if |s| > 0 {
      assert s == [s[0]] + s[1..];
      assert Distinct(s[1..]);
      CountOthers(s[1..], w, others);
      if s[0] == w {
        assert w !in s[1..];
      }
    }
  }

  /** A filter that keeps everything is the identity. */
  lemma {:induction false} FilterAll<T(!new)>(s: seq<T>, p: T -> bool)
    requires forall x :: x in s ==> p(x)
    ensures Filter(s, p) == s
  {
    if |s| > 0 {
      FilterAll(s[1..], p);
      assert s == [s[0]] + s[1..];
    }
  }

  /** Two predicates that agree on `s` filter it alike. */
  lemma {:induction false} FilterCongruent<T(!new)>(s: seq<T>, p: T -> bool, q: T -> bool)
    requires forall x :: x in s ==> (p(x) <==> q(x))
    ensures Filter(s, p) == Filter(s, q)
  {
    if |s| > 0 {
      FilterCongruent(s[1..], p, q);
    }
  }

  /** Two functions that agree on `s` sum alike over it. */
  lemma {:induction false} SumCongruent<T>(s: seq<T>, f: T -> real, g: T -> real)
    requires forall x :: x in s ==> f(x) == g(x)
    ensures Sum(s, f) == Sum(s, g)
  {
    if |s| > 0 {
      SumCongruent(s[1..], f, g);
    }
  }

  /** Scaling every summand by `k` scales the sum by `k`. */
  lemma {:induction false} SumScale<T>(s: seq<T>, f: T -> real, g: T -> real, k: real)
    requires forall x :: x in s ==> g(x) == k * f(x)
    ensures Sum(s, g) == k * Sum(s, f)
  {
    if |s| > 0 {
      SumScale(s[1..], f, g, k);
    }
  }

  /** A sum of equal summands is the count times the summand. */
  lemma {:induction false} SumConstant<T>(s: seq<T>, f: T -> real, c: real)
    requires forall x :: x in s ==> f(x) == c
    ensures Sum(s, f) == (|s| as real) * c
  {
    if |s| > 0 {
      SumConstant(s[1..], f, c);
    }
  }
}
