/** The engine's rules in prices and fees alone: when it opens, what it opens, when it closes and what a close books. */
module ArbitragePrices {
  import opened Prelude
  import opened ArbitrageCore
  import opened ArbitrageRuns

  /** `edge / base` is at least `bps` basis points, without the division. */
  predicate AtLeast(edge: real, base: real, bps: real) {
    if base > 0.0 then edge * 10000.0 >= bps * base else edge * 10000.0 <= bps * base
  }

  /** A trade long on A covers both fees and the slippage ... */
  predicate PaysLongA(c: Config, s: Snapshot) {
    AtLeast(s.bestBidB * c.exchangeAToBRate - s.bestAskA, s.bestAskA, c.takerFeeABps + c.takerFeeBBps + c.slippageBps)
  }

  /** ... and one long on B. */
  predicate PaysLongB(c: Config, s: Snapshot) {
    AtLeast(s.bestBidA - s.bestAskB * c.exchangeAToBRate, s.bestAskB * c.exchangeAToBRate,
            c.takerFeeABps + c.takerFeeBBps + c.slippageBps)
  }

  lemma BpsAtLeast(edge: real, base: real, bps: real)
    requires base != 0.0
    ensures Bps(edge, base) >= bps <==> AtLeast(edge, base, bps)
    ensures Bps(edge, base) * base == edge * 10000.0
  {
    var q := Bps(edge, base);
    assert edge / base * base == edge;
    assert q * base == edge * 10000.0;
    if q >= bps { Scale(bps, q, base); } else { ScaleStrictly(q, bps, base); }
  }

  lemma Scale(x: real, y: real, n: real)
    requires x <= y
    ensures n > 0.0 ==> x * n <= y * n
    ensures n < 0.0 ==> x * n >= y * n
  {
    assert (y - x) * n == y * n - x * n;
  }

  lemma ScaleStrictly(x: real, y: real, n: real)
    requires x < y && n != 0.0
    ensures if n > 0.0 then x * n < y * n else x * n > y * n
  {
    assert (y - x) * n == y * n - x * n;
  }

  /** How many trades are open when the signal is looked for: those the closing pass left. */
  function Room(c: Config, open: seq<Trade>, o: Outcome): int { c.maxOpenTrades - (|open| - |o.closed|) }

  lemma {:induction false} KeptAndClosed(c: Config, q: Quotes, open: seq<Trade>, timestamp: string)
    ensures |Kept(c, q, open)| + |Closures(c, q, open, timestamp)| == |open|
  {
    if open != [] { KeptAndClosed(c, q, open[..|open| - 1], timestamp); }
  }

  /** The two spreads of a valid book, compared with the costs. */
  lemma SpreadsPay(c: Config, s: Snapshot)
    requires s.Valid() && c.exchangeAToBRate != 0.0
    ensures var q := Quote(c, s);
            && q.longA.Some? && q.longB.Some?
            && (q.longA.value >= c.takerFeeABps + c.takerFeeBBps + c.slippageBps <==> PaysLongA(c, s))
            && (q.longB.value >= c.takerFeeABps + c.takerFeeBBps + c.slippageBps <==> PaysLongB(c, s))
  {
    var askB, bidB, costs := c.InA(s.bestAskB), c.InA(s.bestBidB), c.takerFeeABps + c.takerFeeBBps + c.slippageBps;
    assert askB != 0.0;
    BpsAtLeast(bidB - s.bestAskA, s.bestAskA, costs);
    BpsAtLeast(s.bestBidA - askB, askB, costs);
    assert PaysLongA(c, s) == AtLeast(bidB - s.bestAskA, s.bestAskA, costs);
    assert PaysLongB(c, s) == AtLeast(s.bestBidA - askB, askB, costs);
    hide *;
  }

  /** On a valid book with a non-zero rate: a trade is opened exactly when there is room and one of the directions pays its costs. */
  lemma OpensExactly(c: Config, open: seq<Trade>, s: Snapshot)
    requires s.Valid() && c.exchangeAToBRate != 0.0
    ensures var o := Step(c, open, s);
            o.ok && (o.created != [] <==> Room(c, open, o) > 0 && (PaysLongA(c, s) || PaysLongB(c, s)))
  {
    SpreadsPay(c, s);
    KeptAndClosed(c, Quote(c, s), open, s.timestamp);
    hide Quote, PaysLongA, PaysLongB, Kept, Closures;
  }

  /** No trade is opened on an invalid book, nor at rate zero. */
  lemma OpensNothing(c: Config, open: seq<Trade>, s: Snapshot)
    requires s.bestBidA <= 0.0 || s.bestAskA <= s.bestBidA || s.bestBidB <= 0.0 || s.bestAskB <= s.bestBidB || c.exchangeAToBRate == 0.0
    ensures Step(c, open, s).created == []
  {
    if s.Valid() { assert c.InA(s.bestAskB) == 0.0; }
  }

  /** The step raises exactly where a division by zero is due: for an open trade's own side, or for a valid book at rate zero. */
  lemma RaisesExactly(c: Config, open: seq<Trade>, s: Snapshot)
    ensures !Step(c, open, s).ok <==>
              || (c.closeOnSpreadReversal && exists i :: 0 <= i < |open| && Undivided(c, s, open[i].side))
              || (0.0 < s.bestBidA < s.bestAskA && 0.0 < s.bestBidB < s.bestAskB && c.exchangeAToBRate == 0.0)
  {
    var q := Quote(c, s);
    assert q.longA.None? <==> s.bestAskA == 0.0;
    assert q.longB.None? <==> s.bestAskB * c.exchangeAToBRate == 0.0;
    if s.Valid() && c.exchangeAToBRate != 0.0 { OneDirectionPays(c, s); }
  }

  predicate Undivided(c: Config, s: Snapshot, side: Side) {
    if side == LongAShortB then s.bestAskA == 0.0 else s.bestAskB * c.exchangeAToBRate == 0.0
  }

  /** What is opened: a trade at the book's time on the full position, at a spread that covers the three costs. */
  lemma OpenedAsPriced(c: Config, open: seq<Trade>, s: Snapshot, t: Trade)
    requires t in Step(c, open, s).created
    ensures t.openTimestamp == s.timestamp && t.notionalUsd == c.maxPositionUsd
    ensures t.isOpen && t.closeTimestamp.None? && t.exitSpreadBps.None? && t.pnlUsd.None? && t.pnlBps.None? && t.exitReason.None?
    ensures t.entrySpreadBps >= c.takerFeeABps + c.takerFeeBBps + c.slippageBps
    ensures s.Valid() && c.exchangeAToBRate != 0.0
    ensures var q := Quote(c, s);
            && q.longA.Some? && q.longB.Some?
            && t.entrySpreadBps == (if t.side == LongAShortB then q.longA.value else q.longB.value)
            && (t.side == LongAShortB <==> q.longA.value >= q.longB.value)
  {
    if c.exchangeAToBRate == 0.0 { OpensNothing(c, open, s); }
    hide Kept, Closures;
  }

  /** That spread is the larger of the two, from the prices: the edge over what the side buys at. */
  lemma OpenedAtThePrices(c: Config, open: seq<Trade>, s: Snapshot, t: Trade)
    requires t in Step(c, open, s).created
    ensures var askB := s.bestAskB * c.exchangeAToBRate;
            var edgeA, edgeB := s.bestBidB * c.exchangeAToBRate - s.bestAskA, s.bestBidA - askB;
            && (t.side == LongAShortB ==> t.entrySpreadBps * s.bestAskA == edgeA * 10000.0)
            && (t.side == LongBShortA ==> t.entrySpreadBps * askB == edgeB * 10000.0)
            && (c.exchangeAToBRate > 0.0 ==> (t.side == LongAShortB <==> edgeA * askB >= edgeB * s.bestAskA))
  {
    OpenedAsPriced(c, open, s, t);
    var askB := s.bestAskB * c.exchangeAToBRate;
    var edgeA, edgeB := s.bestBidB * c.exchangeAToBRate - s.bestAskA, s.bestBidA - askB;
    assert askB != 0.0;
    BpsAtLeast(edgeA, s.bestAskA, 0.0);
    BpsAtLeast(edgeB, askB, 0.0);
    var x, y := Bps(edgeA, s.bestAskA), Bps(edgeB, askB);
    assert c.InA(s.bestBidB) - s.bestAskA == edgeA && s.bestBidA - c.InA(s.bestAskB) == edgeB;
    assert Quote(c, s).longA == Some(x) && Quote(c, s).longB == Some(y);
    hide Bps, Quote, Step;
    if c.exchangeAToBRate > 0.0 {
      assert askB > 0.0;
      CompareQuotients(x, edgeA, s.bestAskA, y, edgeB, askB);
    }
  }

  /** Comparing two quotients by cross-multiplying. */
  lemma CompareQuotients(x: real, a: real, m: real, y: real, b: real, n: real)
    requires m > 0.0 && n > 0.0 && x * m == a * 10000.0 && y * n == b * 10000.0
    ensures x >= y <==> a * n >= b * m
  {
    assert x * m * n == a * n * 10000.0;
    assert y * n * m == b * m * 10000.0;
    assert x * (m * n) == x * m * n && y * (m * n) == y * n * m;
    assert m * n > 0.0;
    if x >= y { Scale(y, x, m * n); } else { ScaleStrictly(x, y, m * n); }
  }

  /** The prices have crossed against the side: what it sold is now dearer to buy than what it bought is worth. */
  predicate Crossed(c: Config, s: Snapshot, side: Side) {
    if side == LongAShortB then s.bestBidB * c.exchangeAToBRate < s.bestAskA else s.bestBidA < s.bestAskB * c.exchangeAToBRate
  }

  lemma CrossedIsNegative(c: Config, s: Snapshot, side: Side)
    requires s.bestAskA > 0.0 && s.bestAskB * c.exchangeAToBRate > 0.0
    ensures Reverses(c, Quote(c, s), side) <==> c.closeOnSpreadReversal && Crossed(c, s, side)
  {
    var askB := s.bestAskB * c.exchangeAToBRate;
    BpsAtLeast(s.bestBidB * c.exchangeAToBRate - s.bestAskA, s.bestAskA, 0.0);
    BpsAtLeast(s.bestBidA - askB, askB, 0.0);
  }

  /** With positive asks a trade is closed exactly when closing is on and its own side's prices have crossed, one by one and in order. */
  lemma ClosesExactly(c: Config, open: seq<Trade>, s: Snapshot)
    requires s.bestAskA > 0.0 && s.bestAskB * c.exchangeAToBRate > 0.0
    ensures var o := Step(c, open, s);
            && o.closed == Select(c, s, open, true)
            && o.open == Select(c, s, open, false) + o.created
  {
    SelectIs(c, open, s);
    var q := Quote(c, s);
    assert q.longA.Some? && q.longB.Some?;
    assert !Undefined(c, q, open);
  }

  /** The open trades whose prices have crossed, closed; or the others, as they were. */
  function Select(c: Config, s: Snapshot, open: seq<Trade>, closing: bool): seq<Trade> {
    if open == [] then []
    else
      var t, front := open[|open| - 1], Select(c, s, open[..|open| - 1], closing);
      if (c.closeOnSpreadReversal && Crossed(c, s, t.side)) != closing then front
      else front + [if closing then Settled(c, s, t) else t]
  }

  /**
   * What a close books: the entry spread less both fees and the slippage, on the trade's notional, at exit spread zero
   * whatever the spread is.
   */
  function Settled(c: Config, s: Snapshot, t: Trade): Trade {
    var bps := t.entrySpreadBps - c.takerFeeABps - c.takerFeeBBps - c.slippageBps;
    Trade(t.openTimestamp, Some(s.timestamp), t.side, t.entrySpreadBps, Some(0.0), t.notionalUsd,
          Some(Money(bps, t.notionalUsd)), Some(bps), false, Some("spread_reversal"))
  }

  lemma SettledIs(c: Config, s: Snapshot, t: Trade)
    ensures ReversalClose(c, t, s.timestamp) == Settled(c, s, t)
  {
    var bps := t.entrySpreadBps - c.takerFeeABps - c.takerFeeBBps - c.slippageBps;
    assert t.entrySpreadBps - 0.0 - c.TotalCostBps() == bps;
    UsdIsMoney(bps, t.notionalUsd);
    hide Usd, Money;
  }

  /** A basis point is a ten-thousandth. */
  function Money(bps: real, notional: real): real { notional * bps / 10000.0 }

  lemma UsdIsMoney(bps: real, notional: real)
    ensures Usd(bps, notional) == Money(bps, notional)
  {
    var x := bps / 10000.0;
    assert notional * bps == notional * x * 10000.0;
  }

  lemma {:induction false} SelectIs(c: Config, open: seq<Trade>, s: Snapshot)
    requires s.bestAskA > 0.0 && s.bestAskB * c.exchangeAToBRate > 0.0
    ensures Kept(c, Quote(c, s), open) == Select(c, s, open, false)
    ensures Closures(c, Quote(c, s), open, s.timestamp) == Select(c, s, open, true)
  {
    hide ReversalClose, Settled, Quote, Crossed, Reverses;
    if open != [] {
      var t := open[|open| - 1];
      SelectIs(c, open[..|open| - 1], s);
      CrossedIsNegative(c, s, t.side);
      SettledIs(c, s, t);
    }
  }

  /** Every close of every run books the entry spread less the three costs, and no other trade is opened below them. */
  lemma {:induction false} RunPaysItsCosts(c: Config, open: seq<Trade>, snaps: seq<Snapshot>)
    requires forall t | t in open :: Priced(c, t)
    ensures forall t | t in After(c, open, snaps) + CreatedIn(c, open, snaps) + ClosedIn(c, open, snaps) :: Priced(c, t)
    ensures forall t | t in ClosedIn(c, open, snaps) :: !t.isOpen
  {
    if snaps != [] {
      var front, s := snaps[..|snaps| - 1], snaps[|snaps| - 1];
      RunPaysItsCosts(c, open, front);
      var before := After(c, open, front);
      forall t | t in before ensures Priced(c, t) { assert t in before + CreatedIn(c, open, front) + ClosedIn(c, open, front); }
      StepPaysItsCosts(c, before, s);
    }
  }

  /** Entered at a spread of at least the three costs; if closed, at exactly the difference. */
  predicate Priced(c: Config, t: Trade) {
    && t.entrySpreadBps >= c.takerFeeABps + c.takerFeeBBps + c.slippageBps
    && t.notionalUsd == c.maxPositionUsd
    && (!t.isOpen ==>
          && t.pnlBps == Some(t.entrySpreadBps - c.takerFeeABps - c.takerFeeBBps - c.slippageBps)
          && t.pnlUsd == Some(Money(t.pnlBps.value, c.maxPositionUsd)))
  }

  lemma StepPaysItsCosts(c: Config, open: seq<Trade>, s: Snapshot)
    requires forall t | t in open :: Priced(c, t)
    ensures var o := Step(c, open, s);
            && (forall t | t in o.open + o.created + o.closed :: Priced(c, t))
            && (forall t | t in o.closed :: !t.isOpen)
  {
    var o := Step(c, open, s);
    forall t | t in o.created ensures Priced(c, t) { OpenedAsPriced(c, open, s, t); }
    KeptMembers(c, Quote(c, s), open);
    ClosureMembers(c, Quote(c, s), open, s.timestamp);
    forall t | t in o.closed ensures Priced(c, t) && !t.isOpen {
      var u :| u in open && t == ReversalClose(c, u, s.timestamp);
      SettledIs(c, s, u);
    }
  }
}
