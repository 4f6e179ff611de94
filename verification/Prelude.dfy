/** Shared vocabulary: optional values, finite sums and order-preserving filtering of sequences. */
module Prelude {

  datatype Option<+T> = None | Some(value: T)

  /** Sum of a sequence, peeled from the end because every ledger here grows by appending. */
  function Sum(xs: seq<real>): real {
    if xs == [] then 0.0 else Sum(xs[..|xs| - 1]) + xs[|xs| - 1]
  }

  lemma {:induction false} SumAppend(xs: seq<real>, ys: seq<real>)
    ensures Sum(xs + ys) == Sum(xs) + Sum(ys)
  {
    if ys == [] {
      assert xs + ys == xs;
    } else {
      var front := ys[..|ys| - 1];
      assert (xs + ys)[..|xs + ys| - 1] == xs + front;
      SumAppend(xs, front);
    }
  }

  /** `m.get(k, 0)` */
  function Get(m: map<string, real>, k: string): real { if k in m then m[k] else 0.0 }

  /** `xs[:n]`, where a negative bound counts from the end. */
  function Cut<T>(xs: seq<T>, n: int): (r: seq<T>)
    ensures r <= xs
    ensures n >= 0 ==> |r| == if n < |xs| then n else |xs|
    ensures n < 0 ==> |r| == if -n < |xs| then |xs| - -n else 0
  {
    if n >= |xs| then xs else if n >= 0 then xs[..n] else if |xs| + n > 0 then xs[..|xs| + n] else []
  }

  lemma MulOrder(x: int, y: int, n: int)
    requires x <= y && n >= 0
    ensures x * n <= y * n
  {
    assert (y - x) * n >= 0;
  }

  /** No repetition; recursive, so that the pairs are only compared where a lemma asks for it. */
  predicate Distinct<T(==)>(xs: seq<T>) {
    xs != [] ==> xs[|xs| - 1] !in xs[..|xs| - 1] && Distinct(xs[..|xs| - 1])
  }

  lemma {:induction false} DistinctAt<T>(xs: seq<T>, k: nat)
    requires Distinct(xs) && k < |xs|
    ensures xs[k] !in xs[..k]
  {
    if k < |xs| - 1 {
      DistinctAt(xs[..|xs| - 1], k);
      assert xs[..|xs| - 1][..k] == xs[..k];
    }
  }

  lemma {:induction false} DistinctPairs<T>(xs: seq<T>)
    ensures Distinct(xs) <==> forall i, j :: 0 <= i < j < |xs| ==> xs[i] != xs[j]
  {
    if xs != [] {
      var front := xs[..|xs| - 1];
      DistinctPairs(front);
      if Distinct(xs) {
        forall i, j | 0 <= i < j < |xs| ensures xs[i] != xs[j] {
          if j < |front| { assert front[i] != front[j]; } else { assert xs[i] in front; }
        }
      }
    }
  }

  /** The elements of `xs` outside `gone`, in order. */
  function Without<T(==)>(xs: seq<T>, gone: seq<T>): seq<T> {
    if xs == [] then []
    else
      var last, front := xs[|xs| - 1], Without(xs[..|xs| - 1], gone);
      if last in gone then front else front + [last]
  }

  lemma {:induction false} WithoutMembers<T>(xs: seq<T>, gone: seq<T>)
    ensures forall x | x in Without(xs, gone) :: x in xs && x !in gone
    ensures forall x | x in xs :: x in gone || x in Without(xs, gone)
  {
    if xs != [] { WithoutMembers(xs[..|xs| - 1], gone); }
  }

  lemma WithoutKeeps<T>(xs: seq<T>, gone: seq<T>, x: T)
    requires x in xs && x !in gone
    ensures x in Without(xs, gone)
  {
    WithoutMembers(xs, gone);
  }

  /** Cutting the only occurrence of an element is filtering it out. */
  lemma {:induction false} CutIsWithout<T>(xs: seq<T>, i: nat)
    requires Distinct(xs) && i < |xs|
    ensures xs[..i] + xs[i + 1..] == Without(xs, [xs[i]])
  {
    var last, front := xs[|xs| - 1], xs[..|xs| - 1];
    if i < |front| {
      CutIsWithout(front, i);
      assert xs[i] == front[i] && front[i] != last;
      assert xs[..i] + xs[i + 1..] == (front[..i] + front[i + 1..]) + [last];
    } else {
      WithoutNothing(front, [last]);
      assert xs[..i] + xs[i + 1..] == front;
    }
  }

  lemma {:induction false} WithoutNothing<T>(xs: seq<T>, gone: seq<T>)
    requires forall x | x in xs :: x !in gone
    ensures Without(xs, gone) == xs
  {
    if xs != [] { WithoutNothing(xs[..|xs| - 1], gone); }
  }

  lemma {:induction false} WithoutTwice<T>(xs: seq<T>, gone: seq<T>, more: seq<T>)
    ensures Without(Without(xs, gone), more) == Without(xs, gone + more)
  {
    if xs != [] {
      var last, front := xs[|xs| - 1], xs[..|xs| - 1];
      WithoutTwice(front, gone, more);
      if last !in gone { assert Without(xs, gone)[..|Without(xs, gone)| - 1] == Without(front, gone); }
    }
  }

  lemma {:induction false} WithoutDistinct<T>(xs: seq<T>, gone: seq<T>)
    requires Distinct(xs)
    ensures Distinct(Without(xs, gone))
  {
    if xs != [] {
      var last, front := xs[|xs| - 1], xs[..|xs| - 1];
      WithoutDistinct(front, gone);
      WithoutMembers(front, gone);
      if last !in gone { DistinctExtend(Without(front, gone), last); }
    }
  }

  lemma CutKeepsDistinct<T>(xs: seq<T>, i: nat)
    requires Distinct(xs) && i < |xs|
    ensures Distinct(xs[..i] + xs[i + 1..])
    ensures forall x | x in xs[..i] + xs[i + 1..] :: x in xs
  {
    CutIsWithout(xs, i);
    WithoutDistinct(xs, [xs[i]]);
  }

  lemma DistinctEmpty<T>()
    ensures Distinct<T>([])
  {
  }

  lemma DistinctExtend<T>(xs: seq<T>, x: T)
    requires Distinct(xs) && x !in xs
    ensures Distinct(xs + [x])
  {
    assert (xs + [x])[..|xs|] == xs;
  }

  // ---------------------------------------------------------------- sums over dictionaries

  /** Python's `sum(m.values())`. */
  ghost function MapSum(m: map<string, real>): real {
    if m == map[] then 0.0
    else
      var k :| k in m;
      m[k] + MapSum(m - {k})
  }

  lemma {:induction false} MapSumRemove(m: map<string, real>, k: string)
    requires k in m
    ensures MapSum(m) == m[k] + MapSum(m - {k})
    decreases |m|
  {
    var j :| j in m && MapSum(m) == m[j] + MapSum(m - {j});
    if j != k {
      MapSumRemove(m - {j}, k);
      MapSumRemove(m - {k}, j);
      assert m - {j} - {k} == m - {k} - {j};
    }
  }

  lemma MapSumUpdate(m: map<string, real>, k: string, v: real)
    ensures MapSum(m[k := v]) == MapSum(m) - Get(m, k) + v
  {
    var m' := m[k := v];
    MapSumRemove(m', k);
    if k in m {
      MapSumRemove(m, k);
      assert m' - {k} == m - {k};
    } else {
      assert m' - {k} == m;
    }
  }

  method SumValues(m: map<string, real>) returns (total: real)
    ensures total == MapSum(m)
  {
    var rest := m;
    total := 0.0;
    while rest != map[]
      invariant total + MapSum(rest) == MapSum(m)
      decreases |rest|
    {
      var k :| k in rest;
      MapSumRemove(rest, k);
      total, rest := total + rest[k], rest - {k};
    }
  }
}
