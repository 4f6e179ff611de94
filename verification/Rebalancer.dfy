/** Greedy rebalancing: close the smallest positions first, as far as the reduction amount goes. */
module Rebalancer {
  import opened Prelude
  import opened PositionEngine

  // ---------------------------------------------------------------- orders by size

  /** Sizes along a list of known ids, smallest first. */
  ghost predicate Ascending(order: seq<string>, sizes: map<string, real>) {
    && (forall i :: 0 <= i < |order| ==> order[i] in sizes)
    && (forall i, j :: 0 <= i < j < |order| ==> sizes[order[i]] <= sizes[order[j]])
  }

  /** The ids of a dictionary of sizes, smallest first; ties in any order. */
  ghost predicate SortedBySize(order: seq<string>, sizes: map<string, real>) {
    Distinct(order) && (forall id :: id in order <==> id in sizes) && Ascending(order, sizes)
  }

  /** Total size of the ids in a list. */
  function Total(ids: seq<string>, sizes: map<string, real>): real {
    if ids == [] then 0.0 else Total(ids[..|ids| - 1], sizes) + Get(sizes, ids[|ids| - 1])
  }

  lemma TotalStep(ids: seq<string>, sizes: map<string, real>, n: nat)
    requires n < |ids|
    ensures Total(ids[..n + 1], sizes) == Total(ids[..n], sizes) + Get(sizes, ids[n])
  {
    assert ids[..n + 1][..n] == ids[..n];
  }

  method SortBySize(sizes: map<string, real>) returns (order: seq<string>)
    ensures SortedBySize(order, sizes)
  {
    hide Distinct;
    order := [];
    DistinctEmpty<string>();
    var rest := sizes.Keys;
    while rest != {}
      invariant rest <= sizes.Keys && Distinct(order)
      invariant forall id :: id in order <==> id in sizes && id !in rest
      invariant forall i, j :: 0 <= i < j < |order| ==> sizes[order[i]] <= sizes[order[j]]
      invariant forall i, id :: 0 <= i < |order| && id in rest ==> sizes[order[i]] <= sizes[id]
    {
      var id := Smallest(rest, sizes);
      DistinctExtend(order, id);
      order, rest := order + [id], rest - {id};
    }
  }

  method Smallest(ids: set<string>, sizes: map<string, real>) returns (id: string)
    requires ids != {} && ids <= sizes.Keys
    ensures id in ids && forall other | other in ids :: sizes[id] <= sizes[other]
  {
    var rest := ids;
    id :| id in rest;
    rest := rest - {id};
    while rest != {}
      invariant rest <= ids && id in ids && forall other | other in ids - rest :: sizes[id] <= sizes[other]
    {
      var other :| other in rest;
      if sizes[other] < sizes[id] { id := other; }
      rest := rest - {other};
    }
  }

  // ---------------------------------------------------------------- the greedy choice is optimal

  /** `k` is how far the greedy loop gets: the first `k` fit, and nothing is left or one more would not fit. */
  ghost predicate GreedyStop(order: seq<string>, sizes: map<string, real>, amount: real, k: nat) {
    && k <= |order|
    && (k > 0 ==> amount > 0.0 && Total(order[..k], sizes) <= amount)
    && (k < |order| ==> amount <= 0.0 || Total(order[..k + 1], sizes) > amount)
  }

  function Only(ids: set<string>, sizes: map<string, real>): map<string, real> {
    map id | id in sizes && id in ids :: sizes[id]
  }

  /** The total of a set of ids. */
  ghost function SetTotal(ids: set<string>, sizes: map<string, real>): real { MapSum(Only(ids, sizes)) }

  lemma SetTotalRemove(ids: set<string>, sizes: map<string, real>, id: string)
    requires id in ids && id in sizes
    ensures SetTotal(ids, sizes) == sizes[id] + SetTotal(ids - {id}, sizes)
  {
    MapSumRemove(Only(ids, sizes), id);
    assert Only(ids, sizes) - {id} == Only(ids - {id}, sizes);
  }

  lemma SetTotalEmpty(sizes: map<string, real>)
    ensures SetTotal({}, sizes) == 0.0
  {
    assert Only({}, sizes) == map[];
  }

  /** No set of ids is lighter than the prefix of the same length. */
  lemma {:induction false} PrefixIsLightest(order: seq<string>, sizes: map<string, real>, ids: set<string>)
    requires Distinct(order) && Ascending(order, sizes) && forall id | id in ids :: id in order
    ensures |ids| <= |order| && Total(order[..|ids|], sizes) <= SetTotal(ids, sizes)
  {
    hide SetTotal, Total, MapSum;
    if ids == {} {
      SetTotalEmpty(sizes);
      assert order[..0] == [] && Total([], sizes) == 0.0 by { TotalEmpty(sizes); }
    } else {
      var front, last := order[..|order| - 1], order[|order| - 1];
      var others := ids - {last};
      PrefixIsLightest(front, sizes, others);
      assert front[..|others|] == order[..|others|];
      if last in ids {
        SetTotalRemove(ids, sizes, last);
        TotalStep(order, sizes, |others|);
      } else {
        assert others == ids;
      }
    }
  }

  lemma TotalEmpty(sizes: map<string, real>)
    ensures Total([], sizes) == 0.0
  {
  }

  /** Past the first id that does not fit, every longer prefix is too heavy as well. */
  lemma {:induction false} LongerIsHeavier(order: seq<string>, sizes: map<string, real>, amount: real, k: nat, n: nat)
    requires Ascending(order, sizes) && k < n <= |order| && amount > 0.0
    requires Total(order[..k + 1], sizes) > amount && Total(order[..k], sizes) <= amount
    ensures Total(order[..n], sizes) > amount
  {
    hide Total;
    TotalStep(order, sizes, k);
    if n > k + 1 {
      LongerIsHeavier(order, sizes, amount, k, n - 1);
      TotalStep(order, sizes, n - 1);
      assert sizes[order[k]] <= sizes[order[n - 1]];
    }
  }

  /** No other set of positions within the amount has more members, for a positive amount or positive sizes. */
  lemma GreedyIsOptimal(order: seq<string>, sizes: map<string, real>, amount: real, k: nat, ids: set<string>)
    requires SortedBySize(order, sizes) && GreedyStop(order, sizes, amount, k)
    requires amount > 0.0 || forall id | id in sizes :: sizes[id] > 0.0
    requires (forall id | id in ids :: id in sizes) && SetTotal(ids, sizes) <= amount
    ensures |ids| <= k
  {
    PrefixIsLightest(order, sizes, ids);
    var n := |ids|;
    if n > k {
      if amount > 0.0 {
        if k == 0 { assert order[..0] == []; }
        LongerIsHeavier(order, sizes, amount, k, n);
      } else {
        PositiveTotal(order[..n], sizes);
      }
    }
  }

  lemma {:induction false} PositiveTotal(ids: seq<string>, sizes: map<string, real>)
    requires forall id | id in ids :: id in sizes && sizes[id] > 0.0
    ensures Total(ids, sizes) >= 0.0 && (ids != [] ==> Total(ids, sizes) > 0.0)
  {
    if ids != [] { PositiveTotal(ids[..|ids| - 1], sizes); }
  }

  // ---------------------------------------------------------------- the rebalancer

  class RebalancerEngine {
    const enabled: bool
    const maxExposure: real
    const reducePct: real
    var rebalanceActions: nat

    constructor (enabled: bool, maxExposure: real, reducePct: real)
      ensures this.enabled == enabled && this.maxExposure == maxExposure && this.reducePct == reducePct && rebalanceActions == 0
    {
      this.enabled, this.maxExposure, this.reducePct, rebalanceActions := enabled, maxExposure, reducePct, 0;
    }

    /** Marks a prefix of the size order, as long as it fits. */
    method Rebalance(open: map<string, Pos>, amount: real) returns (marked: seq<string>, ghost order: seq<string>)
      modifies this
      ensures SortedBySize(order, Sizes(open)) && marked <= order
      ensures if enabled then GreedyStop(order, Sizes(open), amount, |marked|) else marked == []
      ensures rebalanceActions == old(rebalanceActions) + if marked != [] then 1 else 0
    {
      hide Distinct, Size;
      var sizes := Sizes(open);
      var ids := SortBySize(sizes);
      order, marked := ids, [];
      if !enabled { return; }
      var remaining, i := amount, 0;
      while i < |ids| && remaining > 0.0
        invariant i <= |ids| && marked <= ids && |marked| <= i
        invariant remaining == amount - Total(marked, sizes)
        invariant marked != [] ==> amount > 0.0 && Total(marked, sizes) <= amount
        invariant marked != [] && remaining <= 0.0 ==> sizes[ids[|marked| - 1]] > 0.0
        invariant |marked| < i ==> sizes[ids[|marked|]] > remaining > 0.0
      {
        var id := ids[i];
        if sizes[id] <= remaining {
          assert |marked| == i;
          assert (marked + [id])[..|marked|] == marked;
          marked, remaining := marked + [id], remaining - sizes[id];
        }
        i := i + 1;
      }
      var k := |marked|;
      assert ids[..k] == marked;
      if k < |ids| { assert ids[..k + 1][..k] == marked; }
      if marked != [] { rebalanceActions := rebalanceActions + 1; }
    }
  }

  // ---------------------------------------------------------------- what closing the marked positions does

  ghost function CloseAll(l: Limits, b: Book, ids: seq<string>, price: string -> real, at: real): Book {
    if ids == [] then b
    else
      var last := ids[|ids| - 1];
      Apply(l, CloseAll(l, b, ids[..|ids| - 1], price, at), Close(last, price(last), at))
  }

  /** Closing a list of open positions takes exactly its total off the exposure, whatever the prices. */
  lemma {:induction false} ClosingReduces(l: Limits, b: Book, ids: seq<string>, price: string -> real, at: real)
    requires Distinct(ids) && forall id | id in ids :: id in b.open
    ensures var b' := CloseAll(l, b, ids, price, at);
            && b'.open == Left(b.open, ids)
            && Exposure(b') == Exposure(b) - Total(ids, Sizes(b.open))
            && |b'.open| == |b.open| - |ids|
  {
    hide Exposure, Apply, Size, Distinct, Total, Left, Sizes;
    if ids == [] {
      NothingLeaves(b.open);
      TotalEmpty(Sizes(b.open));
    } else {
      var front, last := ids[..|ids| - 1], ids[|ids| - 1];
      DistinctTail(ids);
      ClosingReduces(l, b, front, price, at);
      StillOpen(b.open, front, last);
      CloseReduces(l, CloseAll(l, b, front, price, at), last, price(last), at);
      LastLeaves(b.open, ids);
      TotalLast(ids, Sizes(b.open));
    }
  }

  /** The positions outside a list of ids. */
  function Left(open: map<string, Pos>, ids: seq<string>): map<string, Pos> {
    map id | id in open && id !in ids :: open[id]
  }

  lemma NothingLeaves(open: map<string, Pos>)
    ensures Left(open, []) == open
  {
  }

  lemma StillOpen(open: map<string, Pos>, front: seq<string>, last: string)
    requires last in open && last !in front
    ensures last in Left(open, front) && Left(open, front)[last] == open[last]
    ensures Get(Sizes(open), last) == Size(open[last])
  {
  }

  lemma LastLeaves(open: map<string, Pos>, ids: seq<string>)
    requires ids != []
    ensures Left(open, ids[..|ids| - 1]) - {ids[|ids| - 1]} == Left(open, ids)
  {
  }

  lemma TotalLast(ids: seq<string>, sizes: map<string, real>)
    requires ids != []
    ensures Total(ids, sizes) == Total(ids[..|ids| - 1], sizes) + Get(sizes, ids[|ids| - 1])
  {
  }

  lemma DistinctTail(ids: seq<string>)
    requires Distinct(ids) && ids != []
    ensures Distinct(ids[..|ids| - 1]) && ids[|ids| - 1] !in ids[..|ids| - 1]
  {
  }

  /** A rebalancing round: the exposure falls by the marked total, which is the most positions the amount can pay for. */
  lemma RebalancingReduces(l: Limits, b: Book, order: seq<string>, k: nat, amount: real, price: string -> real, at: real)
    requires SortedBySize(order, Sizes(b.open)) && GreedyStop(order, Sizes(b.open), amount, k)
    requires WithinLimits(l, b)
    ensures var b' := CloseAll(l, b, order[..k], price, at);
            && |b'.open| == |b.open| - k
            && (amount > 0.0 ==> Exposure(b) - amount <= Exposure(b') <= Exposure(b))
            && (amount <= 0.0 ==> b' == b)
            && (k < |order| && amount > 0.0 ==> Exposure(b') < Exposure(b) - amount + Size(b.open[order[k]]))
  {
    hide Apply, Exposure, Size, Total;
    DistinctPrefix(order, k);
    ClosingReduces(l, b, order[..k], price, at);
    if k < |order| { TotalStep(order, Sizes(b.open), k); }
    NonNegativeTotal(order[..k], Sizes(b.open));
    if k == 0 { assert order[..0] == [] && Total([], Sizes(b.open)) == 0.0 by { TotalEmpty(Sizes(b.open)); } }
  }

  lemma {:induction false} DistinctPrefix(ids: seq<string>, k: nat)
    requires Distinct(ids) && k <= |ids|
    ensures Distinct(ids[..k])
  {
    if k < |ids| {
      DistinctPrefix(ids[..|ids| - 1], k);
      assert ids[..|ids| - 1][..k] == ids[..k];
    } else {
      assert ids[..k] == ids;
    }
  }

  lemma {:induction false} NonNegativeTotal(ids: seq<string>, sizes: map<string, real>)
    requires forall id | id in ids :: Get(sizes, id) >= 0.0
    ensures Total(ids, sizes) >= 0.0
  {
    if ids != [] { NonNegativeTotal(ids[..|ids| - 1], sizes); }
  }
}
