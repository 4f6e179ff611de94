/** Cartesian products in lexicographic order, and dictionaries made of names and values. */
module Cartesian {
  import opened Prelude

  /** Every tuple extended by every value; the value varies fastest. */
  function Cross(xs: seq<seq<real>>, ys: seq<real>): seq<seq<real>> {
    if xs == [] then []
    else Cross(xs[..|xs| - 1], ys) + seq(|ys|, j requires 0 <= j < |ys| => xs[|xs| - 1] + [ys[j]])
  }

  /** `itertools.product(*axes)` */
  function Product(axes: seq<seq<real>>): seq<seq<real>> {
    if axes == [] then [[]] else Cross(Product(axes[..|axes| - 1]), axes[|axes| - 1])
  }

  /** How many tuples there are: the product of the axis lengths. */
  function Volume(axes: seq<seq<real>>): nat {
    if axes == [] then 1 else Volume(axes[..|axes| - 1]) * |axes[|axes| - 1]|
  }

  /** The mixed-radix digits of `k`, one per axis, the last axis least significant. */
  function Digits(axes: seq<seq<real>>, k: nat): (ds: seq<nat>)
    requires k < Volume(axes)
    ensures |ds| == |axes| && forall i :: 0 <= i < |axes| ==> ds[i] < |axes[i]|
  {
    if axes == [] then []
    else
      var n := |axes[|axes| - 1]|;
      RadixSplit(k, Volume(axes[..|axes| - 1]), n);
      Digits(axes[..|axes| - 1], k / n) + [k % n]
  }

  /** The tuple a number stands for. */
  function Decode(axes: seq<seq<real>>, k: nat): (c: seq<real>)
    requires k < Volume(axes)
    ensures |c| == |axes|
  {
    var ds := Digits(axes, k);
    seq(|axes|, i requires 0 <= i < |axes| => axes[i][ds[i]])
  }

  lemma RadixSplit(k: nat, m: nat, n: nat)
    requires k < m * n
    ensures n > 0 && k / n < m && k == k / n * n + k % n
  {
    assert n == 0 ==> m * n == 0;
    var q := k / n;
    assert (q - m) * n < 0;
  }

  lemma {:induction false} CrossLength(xs: seq<seq<real>>, ys: seq<real>)
    ensures |Cross(xs, ys)| == |xs| * |ys|
  {
    if xs != [] {
      var front := xs[..|xs| - 1];
      CrossLength(front, ys);
      assert |Cross(xs, ys)| == |Cross(front, ys)| + |ys|;
      RowsAdd(|xs|, |ys|);
    }
  }

  lemma RowsAdd(m: int, n: int)
    ensures m * n == (m - 1) * n + n
  {
  }

  lemma {:induction false} CrossAt(xs: seq<seq<real>>, ys: seq<real>, i: nat, j: nat)
    requires i < |xs| && j < |ys|
    ensures i * |ys| + j < |Cross(xs, ys)| && Cross(xs, ys)[i * |ys| + j] == xs[i] + [ys[j]]
  {
    var front, n := xs[..|xs| - 1], |ys|;
    CrossLength(xs, ys);
    CrossLength(front, ys);
    BlockFits(i, j, |xs|, n);
    if i < |front| {
      BlockFits(i, j, |front|, n);
      CrossAt(front, ys, i, j);
    } else {
      RowAt(xs[i], ys, j);
    }
  }

  lemma RowAt(x: seq<real>, ys: seq<real>, j: nat)
    requires j < |ys|
    ensures seq(|ys|, j requires 0 <= j < |ys| => x + [ys[j]])[j] == x + [ys[j]]
  {
  }

  lemma BlockFits(i: nat, j: nat, m: nat, n: nat)
    requires i < m && j < n
    ensures i * n + j < m * n && m * n == (m - 1) * n + n
  {
    assert i * n <= (m - 1) * n;
  }

  lemma {:induction false} ProductLength(axes: seq<seq<real>>)
    ensures |Product(axes)| == Volume(axes)
  {
    if axes != [] {
      ProductLength(axes[..|axes| - 1]);
      CrossLength(Product(axes[..|axes| - 1]), axes[|axes| - 1]);
    }
  }

  lemma DecodeSplits(axes: seq<seq<real>>, k: nat)
    requires k < Volume(axes) && axes != []
    ensures var front, last := axes[..|axes| - 1], axes[|axes| - 1];
            && |last| > 0 && k / |last| < Volume(front) && k == k / |last| * |last| + k % |last|
            && Decode(axes, k) == Decode(front, k / |last|) + [last[k % |last|]]
  {
    RadixSplit(k, Volume(axes[..|axes| - 1]), |axes[|axes| - 1]|);
  }

  /** The k-th tuple of the product is the mixed-radix decoding of k. */
  lemma {:induction false} ProductDecodes(axes: seq<seq<real>>, k: nat)
    requires k < Volume(axes)
    ensures k < |Product(axes)| && Product(axes)[k] == Decode(axes, k)
  {
    hide Decode;
    ProductLength(axes);
    if axes != [] {
      var front, last := axes[..|axes| - 1], axes[|axes| - 1];
      DecodeSplits(axes, k);
      ProductDecodes(front, k / |last|);
      CrossAt(Product(front), last, k / |last|, k % |last|);
    }
  }

  /** A tuple with one value of each axis, in order. */
  predicate Picks(c: seq<real>, axes: seq<seq<real>>) {
    |c| == |axes| && forall i :: 0 <= i < |axes| ==> c[i] in axes[i]
  }

  /** The product holds exactly the picks. */
  lemma {:induction false} ProductIsAllPicks(axes: seq<seq<real>>, c: seq<real>)
    ensures c in Product(axes) <==> Picks(c, axes)
  {
    if axes == [] {
      assert c in [[]] <==> c == [];
    } else {
      var front, last := axes[..|axes| - 1], axes[|axes| - 1];
      if |c| == |axes| { ProductIsAllPicks(front, c[..|c| - 1]); }
      CrossMembers(Product(front), last, c);
      if c in Product(axes) { ProductWidth(front, c[..|c| - 1]); }
    }
  }

  lemma {:induction false} CrossMembers(xs: seq<seq<real>>, ys: seq<real>, c: seq<real>)
    ensures c in Cross(xs, ys) <==> c != [] && c[..|c| - 1] in xs && c[|c| - 1] in ys
  {
    if xs != [] {
      var x := xs[|xs| - 1];
      CrossMembers(xs[..|xs| - 1], ys, c);
      var row := seq(|ys|, j requires 0 <= j < |ys| => x + [ys[j]]);
      if c != [] && c[..|c| - 1] == x && c[|c| - 1] in ys {
        var j :| 0 <= j < |ys| && ys[j] == c[|c| - 1];
        assert row[j] == c;
      }
    }
  }

  lemma {:induction false} ProductWidth(axes: seq<seq<real>>, c: seq<real>)
    requires c in Product(axes)
    ensures |c| == |axes|
  {
    if axes != [] {
      CrossMembers(Product(axes[..|axes| - 1]), axes[|axes| - 1], c);
      ProductWidth(axes[..|axes| - 1], c[..|c| - 1]);
    }
  }

  /** Lexicographic order of digit strings of one length. */
  predicate LexLess(a: seq<nat>, b: seq<nat>)
    requires |a| == |b|
  {
    a != [] && (LexLess(a[..|a| - 1], b[..|b| - 1]) || (a[..|a| - 1] == b[..|b| - 1] && a[|a| - 1] < b[|b| - 1]))
  }

  lemma LexAppend(a: seq<nat>, x: nat, b: seq<nat>, y: nat)
    requires |a| == |b|
    ensures LexLess(a + [x], b + [y]) <==> LexLess(a, b) || (a == b && x < y)
  {
    assert (a + [x])[..|a|] == a && (b + [y])[..|b|] == b;
  }

  lemma DigitsSplit(axes: seq<seq<real>>, k: nat) returns (q: nat, r: nat)
    requires k < Volume(axes) && axes != []
    ensures q < Volume(axes[..|axes| - 1]) && r < |axes[|axes| - 1]| && k == q * |axes[|axes| - 1]| + r
    ensures Digits(axes, k) == Digits(axes[..|axes| - 1], q) + [r]
  {
    var n := |axes[|axes| - 1]|;
    RadixSplit(k, Volume(axes[..|axes| - 1]), n);
    q, r := k / n, k % n;
  }

  /** Every choice of digits is some number's. */
  lemma {:induction false} Encode(axes: seq<seq<real>>, ds: seq<nat>) returns (k: nat)
    requires |ds| == |axes| && forall i :: 0 <= i < |axes| ==> ds[i] < |axes[i]|
    ensures k < Volume(axes) && Digits(axes, k) == ds
  {
    if axes == [] {
      k := 0;
    } else {
      var front, n, d := axes[..|axes| - 1], |axes[|axes| - 1]|, ds[|ds| - 1];
      var q := Encode(front, ds[..|ds| - 1]);
      k := q * n + d;
      BlockFits(q, d, Volume(front), n);
      var q', d' := DigitsSplit(axes, k);
      SameDivision(q, d, q', d', n);
    }
  }

  lemma SameDivision(q: nat, r: nat, q': nat, r': nat, n: nat)
    requires r < n && r' < n && q * n + r == q' * n + r'
    ensures q == q' && r == r'
  {
    if q < q' { MulOrder(q + 1, q', n); } else if q' < q { MulOrder(q' + 1, q, n); }
  }

  /** Positions in the product are ordered lexicographically by their digits. */
  lemma {:induction false} LexicographicOrder(axes: seq<seq<real>>, k: nat, k': nat)
    requires k < k' < Volume(axes)
    ensures LexLess(Digits(axes, k), Digits(axes, k'))
  {
    hide Digits, LexLess;
    if axes != [] {
      hide Volume;
      var front := axes[..|axes| - 1];
      var q, r := DigitsSplit(axes, k);
      var q', r' := DigitsSplit(axes, k');
      LexAppend(Digits(front, q), r, Digits(front, q'), r');
      QuotientsOrdered(q, r, q', r', |axes[|axes| - 1]|);
      if q < q' { LexicographicOrder(front, q, q'); }
    }
  }

  lemma QuotientsOrdered(q: nat, r: nat, q': nat, r': nat, n: nat)
    requires r < n && r' < n && q * n + r < q' * n + r'
    ensures q < q' || (q == q' && r < r')
  {
    assert (q - q' - 1) * n < 0;
  }

  /** With distinct values on every axis, no tuple appears twice. */
  lemma {:induction false} DecodeInjective(axes: seq<seq<real>>, k: nat, k': nat)
    requires forall i :: 0 <= i < |axes| ==> Distinct(axes[i])
    requires k < Volume(axes) && k' < Volume(axes) && Decode(axes, k) == Decode(axes, k')
    ensures k == k'
  {
    hide Decode, Distinct;
    if axes != [] {
      var front, last := axes[..|axes| - 1], axes[|axes| - 1];
      DecodeSplits(axes, k);
      DecodeSplits(axes, k');
      SameEnds(Decode(front, k / |last|), last[k % |last|], Decode(front, k' / |last|), last[k' % |last|]);
      DecodeInjective(front, k / |last|, k' / |last|);
      DistinctPairs(last);
    }
  }

  lemma SameEnds(x: seq<real>, y: real, x': seq<real>, y': real)
    requires x + [y] == x' + [y']
    ensures x == x' && y == y'
  {
    assert |x + [y]| == |x' + [y']|;
    assert x == (x + [y])[..|x|] && x' == (x' + [y'])[..|x|];
    assert y == (x + [y])[|x|] && y' == (x' + [y'])[|x|];
  }

  // ---------------------------------------------------------------- names and values

  /** `dict(zip(names, values))`: of equal names the last wins. */
  function Zip(names: seq<string>, values: seq<real>): map<string, real>
    requires |names| == |values|
  {
    if names == [] then map[]
    else Zip(names[..|names| - 1], values[..|values| - 1])[names[|names| - 1] := values[|values| - 1]]
  }

  lemma {:induction false} ZipKeys(names: seq<string>, values: seq<real>)
    requires |names| == |values|
    ensures forall name :: name in Zip(names, values) <==> name in names
  {
    if names != [] {
      ZipKeys(names[..|names| - 1], values[..|values| - 1]);
      assert names == names[..|names| - 1] + [names[|names| - 1]];
    }
  }

  lemma {:induction false} ZipAt(names: seq<string>, values: seq<real>, i: nat)
    requires |names| == |values| && Distinct(names) && i < |names|
    ensures names[i] in Zip(names, values) && Zip(names, values)[names[i]] == values[i]
  {
    if i < |names| - 1 { ZipAt(names[..|names| - 1], values[..|values| - 1], i); }
  }
}
