/** What holds after every snapshot of every run of the engine. */
module ArbitrageRuns {
  import opened Prelude
  import opened ArbitrageCore

  // ---------------------------------------------------------------- runs

  /** Open trades after feeding `snaps` in order. A raised division leaves the engine as the step left it. */
  function After(c: Config, open: seq<Trade>, snaps: seq<Snapshot>): seq<Trade> {
    if snaps == [] then open
    else Step(c, After(c, open, snaps[..|snaps| - 1]), snaps[|snaps| - 1]).open
  }

  function LastOutcome(c: Config, open: seq<Trade>, snaps: seq<Snapshot>): Outcome
    requires snaps != []
  {
    Step(c, After(c, open, snaps[..|snaps| - 1]), snaps[|snaps| - 1])
  }

  /** Closed trades the run reports, in order. */
  function ClosedIn(c: Config, open: seq<Trade>, snaps: seq<Snapshot>): seq<Trade> {
    if snaps == [] then []
    else
      var o := LastOutcome(c, open, snaps);
      ClosedIn(c, open, snaps[..|snaps| - 1]) + if o.ok then o.closed else []
  }

  function CreatedIn(c: Config, open: seq<Trade>, snaps: seq<Snapshot>): seq<Trade> {
    if snaps == [] then []
    else CreatedIn(c, open, snaps[..|snaps| - 1]) + LastOutcome(c, open, snaps).created
  }

  /** No step of the run raised. */
  predicate Clean(c: Config, open: seq<Trade>, snaps: seq<Snapshot>) {
    snaps != [] ==> Clean(c, open, snaps[..|snaps| - 1]) && LastOutcome(c, open, snaps).ok
  }

  // ---------------------------------------------------------------- one step

  lemma {:induction false} KeptMembers(c: Config, q: Quotes, open: seq<Trade>)
    ensures forall t | t in Kept(c, q, open) :: t in open && !Reverses(c, q, t.side)
    ensures |Kept(c, q, open)| <= |open|
  {
    if open != [] { KeptMembers(c, q, open[..|open| - 1]); }
  }

  lemma {:induction false} ClosureMembers(c: Config, q: Quotes, open: seq<Trade>, ts: string)
    ensures forall t | t in Closures(c, q, open, ts) :: exists u :: u in open && t == ReversalClose(c, u, ts)
  {
    if open != [] {
      ClosureMembers(c, q, open[..|open| - 1], ts);
      assert open[|open| - 1] in open;
    }
  }

  predicate OneSided(open: seq<Trade>) {
    forall i, j :: 0 <= i < j < |open| ==> open[i].side == open[j].side
  }

  ghost predicate AllOn(open: seq<Trade>, side: Side) {
    forall t | t in open :: t.side == side
  }

  lemma OneSidedIsAllOn(open: seq<Trade>)
    requires OneSided(open) && open != []
    ensures AllOn(open, open[0].side)
  {
  }

  /** Once a direction survives the closing pass, it is the only one a new trade can take. */
  lemma StepStaysOneSided(c: Config, open: seq<Trade>, s: Snapshot)
    requires c.closeOnSpreadReversal && OneSided(open)
    ensures OneSided(Step(c, open, s).open)
  {
    var q := Quote(c, s);
    if !Undefined(c, q, open) && open != [] {
      KeptMembers(c, q, open);
      OneSidedIsAllOn(open);
      var kept := Kept(c, q, open);
      if kept != [] {
        var t := kept[0];
        assert t in kept && AllOn(kept, t.side);
        if s.Valid() && c.exchangeAToBRate != 0.0 { OneDirectionPays(c, s); }
      }
    }
  }

  // ---------------------------------------------------------------- never both directions

  lemma {:induction false} RunStaysOneSided(c: Config, open: seq<Trade>, snaps: seq<Snapshot>)
    requires c.closeOnSpreadReversal && OneSided(open)
    ensures OneSided(After(c, open, snaps))
  {
    if snaps != [] {
      var before := snaps[..|snaps| - 1];
      RunStaysOneSided(c, open, before);
      StepStaysOneSided(c, After(c, open, before), snaps[|snaps| - 1]);
    }
  }

  lemma {:induction false} OpenCountBounded(c: Config, snaps: seq<Snapshot>)
    ensures |After(c, [], snaps)| <= if c.maxOpenTrades > 0 then c.maxOpenTrades else 0
  {
    if snaps != [] {
      var before, s := snaps[..|snaps| - 1], snaps[|snaps| - 1];
      OpenCountBounded(c, before);
      KeptMembers(c, Quote(c, s), After(c, [], before));
    }
  }

  /** A book whose only paying direction is `side`, by exactly `gain` times ten thousand basis points. */
  function PayingBook(rate: real, gain: real, side: Side, stamp: string): (s: Snapshot)
    requires rate > 0.0 && gain >= 0.0
  {
    match side
    case LongAShortB => Snapshot(stamp, 1.0, 2.0, (2.0 + 2.0 * gain) / rate, (3.0 + 2.0 * gain) / rate)
    case LongBShortA => Snapshot(stamp, 2.0 + 2.0 * gain, 3.0 + 2.0 * gain, 1.0 / rate, 2.0 / rate)
  }

  lemma Requote(c: Config, x: real)
    requires c.exchangeAToBRate > 0.0
    ensures c.InA(x / c.exchangeAToBRate) == x
    ensures x > 0.0 ==> x / c.exchangeAToBRate > 0.0
  {
  }

  lemma RequoteOrder(c: Config, x: real, y: real)
    requires c.exchangeAToBRate > 0.0 && x < y
    ensures x / c.exchangeAToBRate < y / c.exchangeAToBRate
  {
    Requote(c, x);
    Requote(c, y);
  }

  lemma BpsOf(edge: real, base: real, gain: real)
    requires base != 0.0 && edge == gain * base
    ensures Bps(edge, base) == gain * 10000.0
  {
    assert edge / base == gain;
  }

  lemma PayingBookPays(c: Config, gain: real, side: Side, stamp: string)
    requires c.exchangeAToBRate > 0.0 && gain >= 0.0
    ensures var s := PayingBook(c.exchangeAToBRate, gain, side, stamp);
            s.Valid() && Quote(c, s).For(side) == Some(gain * 10000.0)
  {
    var rate := c.exchangeAToBRate;
    var s := PayingBook(rate, gain, side, stamp);
    if side == LongAShortB {
      RequoteOrder(c, 2.0 + 2.0 * gain, 3.0 + 2.0 * gain);
      Requote(c, 2.0 + 2.0 * gain);
      BpsOf(c.InA(s.bestBidB) - s.bestAskA, s.bestAskA, gain);
    } else {
      RequoteOrder(c, 1.0, 2.0);
      Requote(c, 1.0);
      Requote(c, 2.0);
      BpsOf(s.bestBidA - c.InA(s.bestAskB), c.InA(s.bestAskB), gain);
    }
  }

  lemma {:induction false} KeepsAll(c: Config, q: Quotes, open: seq<Trade>, ts: string)
    requires forall t | t in open :: !Reverses(c, q, t.side)
    ensures Kept(c, q, open) == open && Closures(c, q, open, ts) == []
  {
    if open != [] { KeepsAll(c, q, open[..|open| - 1], ts); }
  }

  function NewTrade(c: Config, gain: real, side: Side, stamp: string): Trade {
    Trade(stamp, None, side, gain * 10000.0, None, c.maxPositionUsd, None, None, true, None)
  }

  /** A book paying only on one side opens a trade on that side when there is room. */
  lemma PayingBookOpens(c: Config, open: seq<Trade>, gain: real, side: Side, stamp: string)
    requires c.exchangeAToBRate > 0.0 && gain >= 0.0 && gain * 10000.0 >= c.TotalCostBps()
    requires |open| < c.maxOpenTrades && (c.closeOnSpreadReversal ==> AllOn(open, side))
    ensures var o := Step(c, open, PayingBook(c.exchangeAToBRate, gain, side, stamp));
            && o.ok && o.closed == [] && o.created == [NewTrade(c, gain, side, stamp)] && o.open == open + o.created
  {
    var s := PayingBook(c.exchangeAToBRate, gain, side, stamp);
    PayingBookPays(c, gain, side, stamp);
    OneDirectionPays(c, s);
    KeepsAll(c, Quote(c, s), open, s.timestamp);
  }

  /** The smallest gain that covers the costs, and no less than zero. */
  function Breakeven(c: Config): real {
    if c.TotalCostBps() > 0.0 then c.TotalCostBps() / 10000.0 else 0.0
  }

  lemma BreakevenCovers(c: Config)
    ensures Breakeven(c) >= 0.0 && Breakeven(c) * 10000.0 >= c.TotalCostBps()
  {
  }

  /** A book on which going long on A covers the costs exactly, or pays where the costs are negative. */
  function SameBook(c: Config, stamp: string): Snapshot
    requires c.exchangeAToBRate > 0.0
  {
    BreakevenCovers(c);
    PayingBook(c.exchangeAToBRate, Breakeven(c), LongAShortB, stamp)
  }

  lemma PayingBookStamp(rate: real, gain: real, stamp: string)
    requires rate > 0.0 && gain >= 0.0
    ensures PayingBook(rate, gain, LongAShortB, stamp).timestamp == stamp
  {
  }

  /** The trade it opens. */
  function SameTrade(c: Config, stamp: string): Trade { NewTrade(c, Breakeven(c), LongAShortB, stamp) }

  lemma SameBookOpens(c: Config, open: seq<Trade>, stamp: string)
    requires c.exchangeAToBRate > 0.0 && |open| < c.maxOpenTrades && AllOn(open, LongAShortB)
    ensures var o := Step(c, open, SameBook(c, stamp));
            && o.ok && o.closed == [] && o.created == [SameTrade(c, stamp)] && o.open == open + [SameTrade(c, stamp)]
            && SameBook(c, stamp).timestamp == stamp && !Reverses(c, Quote(c, SameBook(c, stamp)), LongAShortB)
  {
    hide Step, PayingBook, Breakeven;
    BreakevenCovers(c);
    PayingBookStamp(c.exchangeAToBRate, Breakeven(c), stamp);
    PayingBookOpens(c, open, Breakeven(c), LongAShortB, stamp);
    PayingBookPays(c, Breakeven(c), LongAShortB, stamp);
  }

  /** The same book twice opens two trades that dataclass equality cannot tell apart. */
  lemma SameTimestampSameValue(c: Config, stamp: string)
    requires c.exchangeAToBRate > 0.0 && c.maxOpenTrades >= 2
    ensures var s := SameBook(c, stamp);
            var created := CreatedIn(c, [], [s, s]);
            && Clean(c, [], [s, s]) && |created| == 2 && created[0] == created[1] && |After(c, [], [s, s])| == 2
  {
    hide Step, SameBook, SameTrade;
    var s, t := SameBook(c, stamp), SameTrade(c, stamp);
    SameBookOpens(c, [], stamp);
    assert After(c, [], [s][..0]) == [] && CreatedIn(c, [], [s][..0]) == [] && Clean(c, [], [s][..0]);
    assert t.side == LongAShortB by { SideOfSame(c, stamp); }
    SameBookOpens(c, [t], stamp);
    assert [s, s][..1] == [s] && After(c, [], [s]) == [] + [t] == [t];
    assert CreatedIn(c, [], [s, s]) == Step(c, [], s).created + Step(c, [t], s).created;
  }

  lemma SideOfSame(c: Config, stamp: string)
    ensures SameTrade(c, stamp).side == LongAShortB && SameTrade(c, stamp).isOpen && SameTrade(c, stamp).openTimestamp == stamp
  {
  }

  /** Without closing on reversal and with room for two trades, two books put both directions on. */
  lemma BothDirectionsReachable(c: Config) returns (snaps: seq<Snapshot>)
    requires c.exchangeAToBRate > 0.0 && !c.closeOnSpreadReversal && c.maxOpenTrades >= 2
    ensures !OneSided(After(c, [], snaps))
  {
    hide Step, PayingBook;
    var gain := Breakeven(c);
    var s1 := PayingBook(c.exchangeAToBRate, gain, LongAShortB, "t1");
    var s2 := PayingBook(c.exchangeAToBRate, gain, LongBShortA, "t2");
    PayingBookOpens(c, [], gain, LongAShortB, "t1");
    var one := After(c, [], [s1]);
    assert After(c, [], [s1][..0]) == [];
    assert one == Step(c, [], s1).open;
    PayingBookOpens(c, one, gain, LongBShortA, "t2");
    snaps := [s1, s2];
    var both := After(c, [], snaps);
    assert both == Step(c, one, s2).open by { assert snaps[..1] == [s1]; }
    assert both[0] == NewTrade(c, gain, LongAShortB, "t1") && both[1] == NewTrade(c, gain, LongBShortA, "t2");
  }

  /** Exactly which configurations never hold both directions at once, over all runs from an empty book. */
  lemma OneSidedExactly(c: Config)
    requires c.exchangeAToBRate > 0.0
    ensures (forall snaps :: OneSided(After(c, [], snaps))) <==> c.closeOnSpreadReversal || c.maxOpenTrades <= 1
  {
    if c.closeOnSpreadReversal {
      forall snaps ensures OneSided(After(c, [], snaps)) { RunStaysOneSided(c, [], snaps); }
    } else if c.maxOpenTrades <= 1 {
      forall snaps ensures OneSided(After(c, [], snaps)) { OpenCountBounded(c, snaps); }
    } else {
      var snaps := BothDirectionsReachable(c);
    }
  }

  /** After a step that did not raise, no trade is held at a negative spread for its side. */
  lemma NoneHeldUnderwater(c: Config, open: seq<Trade>, snaps: seq<Snapshot>)
    requires snaps != [] && LastOutcome(c, open, snaps).ok
    requires c.closeOnSpreadReversal && c.TotalCostBps() >= 0.0
    ensures forall t | t in After(c, open, snaps) ::
              var spread := Quote(c, snaps[|snaps| - 1]).For(t.side);
              spread.Some? && spread.value >= 0.0
  {
    var s := snaps[|snaps| - 1];
    var q, held := Quote(c, s), After(c, open, snaps[..|snaps| - 1]);
    KeptMembers(c, q, held);
    assert forall t | t in Kept(c, q, held) :: q.For(t.side).Some? && q.For(t.side).value >= 0.0;
  }

  // ---------------------------------------------------------------- no trade closes at a loss

  /** An open trade as the engine creates it: its entry spread covers the costs. */
  predicate Covered(c: Config, t: Trade) {
    && t.isOpen && t.closeTimestamp.None? && t.pnlUsd.None?
    && t.entrySpreadBps >= c.TotalCostBps()
    && t.notionalUsd == c.maxPositionUsd
  }

  ghost predicate AllCovered(c: Config, open: seq<Trade>) {
    forall t | t in open :: Covered(c, t)
  }

  lemma UsdSign(bps: real, notional: real)
    requires bps >= 0.0 && notional >= 0.0
    ensures Usd(bps, notional) >= 0.0
  {
    assert bps / 10000.0 >= 0.0;
  }

  lemma StepKeepsCovered(c: Config, open: seq<Trade>, s: Snapshot)
    requires AllCovered(c, open)
    ensures AllCovered(c, Step(c, open, s).open)
  {
    KeptMembers(c, Quote(c, s), open);
  }

  lemma {:induction false} RunKeepsCovered(c: Config, open: seq<Trade>, snaps: seq<Snapshot>)
    requires AllCovered(c, open)
    ensures AllCovered(c, After(c, open, snaps))
  {
    if snaps != [] {
      RunKeepsCovered(c, open, snaps[..|snaps| - 1]);
      StepKeepsCovered(c, After(c, open, snaps[..|snaps| - 1]), snaps[|snaps| - 1]);
    }
  }

  /** What a close books: the net edge the engine saw when it opened the trade, never below zero. */
  ghost predicate ClosedAtEdge(c: Config, t: Trade) {
    && !t.isOpen && t.pnlBps == Some(t.entrySpreadBps - c.TotalCostBps()) && t.pnlBps.value >= 0.0
    && t.pnlUsd == Some(Usd(t.pnlBps.value, c.maxPositionUsd))
    && (c.maxPositionUsd >= 0.0 ==> t.pnlUsd.value >= 0.0)
  }

  lemma ClosesAtEdge(c: Config, open: seq<Trade>, s: Snapshot)
    requires AllCovered(c, open)
    ensures forall t | t in Step(c, open, s).closed :: ClosedAtEdge(c, t)
  {
    ClosureMembers(c, Quote(c, s), open, s.timestamp);
    forall t | t in Step(c, open, s).closed ensures ClosedAtEdge(c, t) {
      var u :| u in open && t == ReversalClose(c, u, s.timestamp);
      if c.maxPositionUsd >= 0.0 { UsdSign(u.entrySpreadBps - c.TotalCostBps(), c.maxPositionUsd); }
    }
  }

  /** No trade the engine closes, in any run from an empty book, closes at a loss. */
  lemma {:induction false} NoLosingClose(c: Config, open: seq<Trade>, snaps: seq<Snapshot>)
    requires AllCovered(c, open)
    ensures forall t | t in ClosedIn(c, open, snaps) :: ClosedAtEdge(c, t)
  {
    if snaps != [] {
      var before := snaps[..|snaps| - 1];
      NoLosingClose(c, open, before);
      RunKeepsCovered(c, open, before);
      ClosesAtEdge(c, After(c, open, before), snaps[|snaps| - 1]);
    }
  }

  /** The P&L of closing what a signal opens is that signal's net edge. */
  lemma CloseRealisesNetEdge(c: Config, q: Quotes, openCount: int, s: Snapshot, ts: string)
    requires Detect(c, q, openCount, s).Signal?
    ensures var o := Detect(c, q, openCount, s).opp;
            ReversalClose(c, Created(o), ts).pnlBps == Some(o.netEdgeBps) && o.netEdgeBps >= 0.0
  {
  }

  // ---------------------------------------------------------------- conservation

  /** How many of `ts` were opened at `stamp`. */
  function Count(ts: seq<Trade>, stamp: string): nat {
    if ts == [] then 0
    else Count(ts[..|ts| - 1], stamp) + if ts[|ts| - 1].openTimestamp == stamp then 1 else 0
  }

  lemma {:induction false} CountAppend(xs: seq<Trade>, ys: seq<Trade>, stamp: string)
    ensures Count(xs + ys, stamp) == Count(xs, stamp) + Count(ys, stamp)
  {
    if ys == [] {
      assert xs + ys == xs;
    } else {
      assert (xs + ys)[..|xs + ys| - 1] == xs + ys[..|ys| - 1];
      CountAppend(xs, ys[..|ys| - 1], stamp);
    }
  }

  lemma {:induction false} ClosingSplits(c: Config, q: Quotes, open: seq<Trade>, ts: string, stamp: string)
    ensures Count(open, stamp) == Count(Kept(c, q, open), stamp) + Count(Closures(c, q, open, ts), stamp)
    ensures |open| == |Kept(c, q, open)| + |Closures(c, q, open, ts)|
  {
    if open != [] {
      var front, t := open[..|open| - 1], open[|open| - 1];
      ClosingSplits(c, q, front, ts, stamp);
      CountAppend(Kept(c, q, front), [t], stamp);
      CountAppend(Closures(c, q, front, ts), [ReversalClose(c, t, ts)], stamp);
    }
  }

  lemma StepConserves(c: Config, q: Quotes, open: seq<Trade>, s: Snapshot, stamp: string)
    requires StepOn(c, q, open, s).ok
    ensures var o := StepOn(c, q, open, s);
            && Count(open, stamp) + Count(o.created, stamp) == Count(o.closed, stamp) + Count(o.open, stamp)
            && |open| + |o.created| == |o.closed| + |o.open|
  {
    ClosingSplits(c, q, open, s.timestamp, stamp);
    CountAppend(Kept(c, q, open), StepOn(c, q, open, s).created, stamp);
  }

  /** Every trade a clean run creates is, exactly once, either closed or still open. */
  lemma {:induction false} TradesConserved(c: Config, snaps: seq<Snapshot>, stamp: string)
    requires Clean(c, [], snaps)
    ensures Count(CreatedIn(c, [], snaps), stamp)
         == Count(ClosedIn(c, [], snaps), stamp) + Count(After(c, [], snaps), stamp)
    ensures |CreatedIn(c, [], snaps)| == |ClosedIn(c, [], snaps)| + |After(c, [], snaps)|
  {
    if snaps != [] {
      var before, s := snaps[..|snaps| - 1], snaps[|snaps| - 1];
      TradesConserved(c, before, stamp);
      var o := LastOutcome(c, [], snaps);
      StepConserves(c, Quote(c, s), After(c, [], before), s, stamp);
      CountAppend(ClosedIn(c, [], before), o.closed, stamp);
      CountAppend(CreatedIn(c, [], before), o.created, stamp);
    }
  }
}
