/** The two-exchange arbitrage engine: signal detection and the life of a trade. */
module ArbitrageCore {
  import opened Prelude

  datatype Side = LongAShortB | LongBShortA

  datatype Config = Config(
    minSpreadBps: real,
    takerFeeABps: real,
    takerFeeBBps: real,
    slippageBps: real,
    maxPositionUsd: real,
    maxOpenTrades: int,
    closeOnSpreadReversal: bool,
    exchangeAToBRate: real)
  {
    function TotalCostBps(): real { takerFeeABps + takerFeeBBps + slippageBps }

    /** A price of exchange B in the currency of exchange A. */
    function InA(price: real): real { price * exchangeAToBRate }
  }

  datatype Snapshot = Snapshot(timestamp: string, bestBidA: real, bestAskA: real, bestBidB: real, bestAskB: real)
  {
    predicate Valid() {
      && 0.0 < bestBidA < bestAskA
      && 0.0 < bestBidB < bestAskB
    }
  }

  datatype Opportunity = Opportunity(
    timestamp: string, side: Side, spreadBps: real, grossEdgeBps: real, netEdgeBps: real, notionalUsd: real)

  /** What the engine makes of a book: a division by a zero ask or rate raises in the source. */
  datatype Detection = ZeroDivision | NoSignal | Signal(opp: Opportunity)

  /** The value of a trade object: what the dataclass equality of the source compares. */
  datatype Trade = Trade(
    openTimestamp: string,
    closeTimestamp: Option<string>,
    side: Side,
    entrySpreadBps: real,
    exitSpreadBps: Option<real>,
    notionalUsd: real,
    pnlUsd: Option<real>,
    pnlBps: Option<real>,
    isOpen: bool,
    exitReason: Option<string>)

  // ---------------------------------------------------------------- spreads and signals

  /** Spread in basis points of entering, or still holding, each side; None where the divisor is zero. */
  datatype Quotes = Quotes(longA: Option<real>, longB: Option<real>)
  {
    function For(side: Side): Option<real> { if side == LongAShortB then longA else longB }
  }

  function Bps(edge: real, base: real): real
    requires base != 0.0
  {
    edge / base * 10000.0
  }

  function Quote(c: Config, s: Snapshot): Quotes {
    var bidB, askB := c.InA(s.bestBidB), c.InA(s.bestAskB);
    Quotes(
      if s.bestAskA == 0.0 then None else Some(Bps(bidB - s.bestAskA, s.bestAskA)),
      if askB == 0.0 then None else Some(Bps(s.bestBidA - askB, askB)))
  }

  function Detect(c: Config, q: Quotes, openCount: int, s: Snapshot): Detection {
    if !s.Valid() then NoSignal
    else
      match q
      case Quotes(Some(ab), Some(ba)) =>
        var best := if ba > ab then ba else ab;
        var netEdge := best - c.TotalCostBps();
        if netEdge < 0.0 then NoSignal
        else if openCount >= c.maxOpenTrades then NoSignal
        else
          var side := if ab >= ba then LongAShortB else LongBShortA;
          var gross := if ab >= ba then ab else ba;
          Signal(Opportunity(s.timestamp, side, best, gross, netEdge, c.maxPositionUsd))
      case _ => ZeroDivision
  }

  lemma QuotientSign(x: real, y: real)
    requires y != 0.0
    ensures y > 0.0 ==> (Bps(x, y) >= 0.0 <==> x >= 0.0)
    ensures y < 0.0 ==> (Bps(x, y) >= 0.0 <==> x <= 0.0)
  {
    var q := x / y;
    assert x == q * y;
    if y > 0.0 {
      if q >= 0.0 { assert q * y >= 0.0; } else { assert q * y < 0.0; }
    } else {
      if q > 0.0 { assert q * y < 0.0; } else { assert q * y >= 0.0; }
    }
  }

  /** On a valid book at most one direction can have a non-negative spread, whatever the rate. */
  lemma OneDirectionPays(c: Config, s: Snapshot)
    requires s.Valid() && c.exchangeAToBRate != 0.0
    ensures Quote(c, s).longA.Some? && Quote(c, s).longB.Some?
    ensures Quote(c, s).longA.value < 0.0 || Quote(c, s).longB.value < 0.0
  {
    var rate := c.exchangeAToBRate;
    var bidB, askB := c.InA(s.bestBidB), c.InA(s.bestAskB);
    assert askB != 0.0;
    QuotientSign(bidB - s.bestAskA, s.bestAskA);
    QuotientSign(s.bestBidA - askB, askB);
    if rate > 0.0 {
      assert bidB < askB && askB > 0.0;
    } else {
      assert bidB < 0.0;
    }
  }

  // ---------------------------------------------------------------- one snapshot, on values

  function Created(o: Opportunity): Trade {
    Trade(o.timestamp, None, o.side, o.spreadBps, None, o.notionalUsd, None, None, true, None)
  }

  /** Money made by `bps` basis points on `notional`. */
  function Usd(bps: real, notional: real): real { bps / 10000.0 * notional }

  function Closed(t: Trade, timestamp: string, exitSpread: real, totalCost: real): Trade {
    var bps := t.entrySpreadBps - exitSpread - totalCost;
    t.(closeTimestamp := Some(timestamp), exitSpreadBps := Some(exitSpread), isOpen := false,
       pnlBps := Some(bps), pnlUsd := Some(Usd(bps, t.notionalUsd)))
  }

  /** The value left behind by a spread reversal, which closes at exit spread zero. */
  function ReversalClose(c: Config, t: Trade, timestamp: string): Trade {
    Closed(t, timestamp, 0.0, c.TotalCostBps()).(exitReason := Some("spread_reversal"))
  }

  predicate Reverses(c: Config, q: Quotes, side: Side) {
    c.closeOnSpreadReversal && q.For(side).Some? && q.For(side).value < 0.0
  }

  /** What the closing pass makes of one trade. */
  function Moved(c: Config, q: Quotes, t: Trade, timestamp: string): Trade {
    if t.isOpen && Reverses(c, q, t.side) then ReversalClose(c, t, timestamp) else t
  }

  function Kept(c: Config, q: Quotes, open: seq<Trade>): seq<Trade> {
    if open == [] then []
    else
      var t, front := open[|open| - 1], Kept(c, q, open[..|open| - 1]);
      if Reverses(c, q, t.side) then front else front + [t]
  }

  function Closures(c: Config, q: Quotes, open: seq<Trade>, timestamp: string): seq<Trade> {
    if open == [] then []
    else
      var t, front := open[|open| - 1], Closures(c, q, open[..|open| - 1], timestamp);
      if Reverses(c, q, t.side) then front + [ReversalClose(c, t, timestamp)] else front
  }

  /** Result of one snapshot: `ok` is false when a zero division escaped, and then nothing is reported. */
  datatype Outcome = Outcome(ok: bool, open: seq<Trade>, closed: seq<Trade>, created: seq<Trade>)

  predicate Undefined(c: Config, q: Quotes, open: seq<Trade>) {
    c.closeOnSpreadReversal && exists i :: 0 <= i < |open| && q.For(open[i].side).None?
  }

  function StepOn(c: Config, q: Quotes, open: seq<Trade>, s: Snapshot): Outcome {
    if Undefined(c, q, open) then Outcome(false, open, [], [])
    else
      var kept, closed := Kept(c, q, open), Closures(c, q, open, s.timestamp);
      match Detect(c, q, |kept|, s)
      case ZeroDivision => Outcome(false, kept, closed, [])
      case NoSignal => Outcome(true, kept, closed, [])
      case Signal(o) => Outcome(true, kept + [Created(o)], closed, [Created(o)])
  }

  function Step(c: Config, open: seq<Trade>, s: Snapshot): Outcome {
    StepOn(c, Quote(c, s), open, s)
  }

  // ---------------------------------------------------------------- the objects

  class ArbitrageTrade {
    const openTimestamp: string
    const side: Side
    const entrySpreadBps: real
    const notionalUsd: real
    var closeTimestamp: Option<string>
    var exitSpreadBps: Option<real>
    var pnlUsd: Option<real>
    var pnlBps: Option<real>
    var isOpen: bool
    var exitReason: Option<string>

    constructor (openTimestamp: string, side: Side, entrySpreadBps: real, notionalUsd: real)
      ensures Value() == Trade(openTimestamp, None, side, entrySpreadBps, None, notionalUsd, None, None, true, None)
    {
      this.openTimestamp, this.side := openTimestamp, side;
      this.entrySpreadBps, this.notionalUsd := entrySpreadBps, notionalUsd;
      closeTimestamp, exitSpreadBps, pnlUsd, pnlBps := None, None, None, None;
      isOpen, exitReason := true, None;
    }

    function Value(): Trade reads this {
      Trade(openTimestamp, closeTimestamp, side, entrySpreadBps, exitSpreadBps, notionalUsd,
            pnlUsd, pnlBps, isOpen, exitReason)
    }

    method Close(timestamp: string, exitSpread: real, feeA: real, feeB: real, slippage: real)
      modifies this
      ensures Value() == Closed(old(Value()), timestamp, exitSpread, feeA + feeB + slippage)
      ensures pnlBps == Some(entrySpreadBps - exitSpread - feeA - feeB - slippage)
      ensures pnlUsd.Some? && pnlUsd.value * 10000.0 == pnlBps.value * notionalUsd
    {
      closeTimestamp, exitSpreadBps, isOpen := Some(timestamp), Some(exitSpread), false;
      var totalCost := feeA + feeB + slippage;
      var net := entrySpreadBps - exitSpread - totalCost;
      pnlBps := Some(net);
      pnlUsd := Some(Usd(net, notionalUsd));
    }
  }

  function Values(ts: seq<ArbitrageTrade>): (vs: seq<Trade>)
    reads ts
    ensures |vs| == |ts|
    ensures forall i :: 0 <= i < |ts| ==> vs[i] == ts[i].Value()
  {
    seq(|ts|, i requires 0 <= i < |ts| reads ts => ts[i].Value())
  }

  lemma ValuesAppend(xs: seq<ArbitrageTrade>, ys: seq<ArbitrageTrade>)
    ensures Values(xs + ys) == Values(xs) + Values(ys)
  {
  }

  /** Dataclass membership: some element equals `t` in value, whether or not it is the same object. */
  predicate ContainsEqual(ts: seq<ArbitrageTrade>, t: ArbitrageTrade)
    reads ts, t
  {
    exists i :: 0 <= i < |ts| && ts[i].Value() == t.Value()
  }

  /** Where `list.remove` cuts: the first element equal in value. */
  function IndexOfEqual(ts: seq<ArbitrageTrade>, t: ArbitrageTrade): (i: nat)
    requires ContainsEqual(ts, t)
    reads ts, t
    ensures i < |ts| && ts[i].Value() == t.Value()
  {
    if ts[0].Value() == t.Value() then 0 else 1 + IndexOfEqual(ts[1..], t)
  }

  /** The trade objects a reversal picks (or keeps), decided by their immutable side alone. */
  function Pick(c: Config, q: Quotes, ts: seq<ArbitrageTrade>, reversing: bool): seq<ArbitrageTrade> {
    if ts == [] then []
    else
      var t, front := ts[|ts| - 1], Pick(c, q, ts[..|ts| - 1], reversing);
      if Reverses(c, q, t.side) == reversing then front + [t] else front
  }

  lemma {:induction false} PickMembers(c: Config, q: Quotes, ts: seq<ArbitrageTrade>, reversing: bool)
    ensures forall t | t in Pick(c, q, ts, reversing) :: t in ts && Reverses(c, q, t.side) == reversing
    ensures forall t | t in ts :: Reverses(c, q, t.side) == reversing ==> t in Pick(c, q, ts, reversing)
  {
    if ts != [] { PickMembers(c, q, ts[..|ts| - 1], reversing); }
  }

  lemma {:induction false} PickDistinct(c: Config, q: Quotes, ts: seq<ArbitrageTrade>, reversing: bool)
    requires Distinct(ts)
    ensures Distinct(Pick(c, q, ts, reversing))
  {
    if ts != [] {
      PickDistinct(c, q, ts[..|ts| - 1], reversing);
      PickMembers(c, q, ts[..|ts| - 1], reversing);
      if Reverses(c, q, ts[|ts| - 1].side) == reversing {
        DistinctExtend(Pick(c, q, ts[..|ts| - 1], reversing), ts[|ts| - 1]);
      }
    }
  }

  lemma {:induction false} PickIsWithout(c: Config, q: Quotes, ts: seq<ArbitrageTrade>, gone: seq<ArbitrageTrade>)
    requires forall t | t in ts :: t in gone <==> Reverses(c, q, t.side)
    ensures Without(ts, gone) == Pick(c, q, ts, false)
  {
    if ts != [] { PickIsWithout(c, q, ts[..|ts| - 1], gone); }
  }

  lemma {:induction false} PickKept(c: Config, q: Quotes, ts: seq<ArbitrageTrade>, was: seq<Trade>)
    requires |was| == |ts| && forall i :: 0 <= i < |ts| ==> ts[i].side == was[i].side
    requires forall i :: 0 <= i < |ts| && !Reverses(c, q, ts[i].side) ==> ts[i].Value() == was[i]
    ensures Values(Pick(c, q, ts, false)) == Kept(c, q, was)
  {
    if ts != [] { PickKept(c, q, ts[..|ts| - 1], was[..|ts| - 1]); }
  }

  lemma {:induction false} PickClosures(c: Config, q: Quotes, ts: seq<ArbitrageTrade>, was: seq<Trade>, timestamp: string)
    requires |was| == |ts| && forall i :: 0 <= i < |ts| ==> ts[i].side == was[i].side
    requires forall i :: 0 <= i < |ts| && Reverses(c, q, ts[i].side) ==> ts[i].Value() == ReversalClose(c, was[i], timestamp)
    ensures Values(Pick(c, q, ts, true)) == Closures(c, q, was, timestamp)
  {
    if ts != [] { PickClosures(c, q, ts[..|ts| - 1], was[..|ts| - 1], timestamp); }
  }

  lemma {:induction false} NothingReverses(c: Config, q: Quotes, open: seq<Trade>, timestamp: string)
    requires !c.closeOnSpreadReversal
    ensures Kept(c, q, open) == open && Closures(c, q, open, timestamp) == []
  {
    if open != [] { NothingReverses(c, q, open[..|open| - 1], timestamp); }
  }

  class ArbitrageEngine {
    const config: Config
    var openTrades: seq<ArbitrageTrade>
    var lastSnapshot: Option<Snapshot>

    constructor (config: Config)
      ensures Valid() && openTrades == [] && lastSnapshot == None && this.config == config
    {
      this.config := config;
      openTrades, lastSnapshot := [], None;
    }

    ghost predicate Valid()
      reads this, openTrades
    {
      Distinct(openTrades) && forall t | t in openTrades :: t.isOpen
    }

    /** First pass over the open trades: which of them have turned negative. */
    method Reversals(q: Quotes) returns (ok: bool, toClose: seq<ArbitrageTrade>)
      requires config.closeOnSpreadReversal
      ensures ok <==> forall t | t in openTrades :: q.For(t.side).Some?
      ensures ok ==> toClose == Pick(config, q, openTrades, true)
    {
      toClose := [];
      for i := 0 to |openTrades|
        invariant toClose == Pick(config, q, openTrades[..i], true)
        invariant forall t | t in openTrades[..i] :: q.For(t.side).Some?
      {
        var t := openTrades[i];
        assert openTrades[..i + 1] == openTrades[..i] + [t];
        var spread := q.For(t.side);
        if spread.None? { return false, []; }
        if spread.value < 0.0 { toClose := toClose + [t]; }
      }
      assert openTrades[..|openTrades|] == openTrades;
      ok := true;
    }

    /** Close one trade and take it out of the list by value equality, which finds that very object. */
    method CloseOne(timestamp: string, t: ArbitrageTrade)
      requires Valid() && t in openTrades
      modifies `openTrades, t
      ensures Valid() && openTrades == Without(old(openTrades), [t])
      ensures t.Value() == ReversalClose(config, old(t.Value()), timestamp)
    {
      hide Distinct, Without;
      t.Close(timestamp, 0.0, config.takerFeeABps, config.takerFeeBBps, config.slippageBps);
      t.exitReason := Some("spread_reversal");
      var i := IndexOfEqual(openTrades, t);
      assert openTrades[i] == t;
      CutIsWithout(openTrades, i);
      WithoutDistinct(openTrades, [t]);
      WithoutMembers(openTrades, [t]);
      openTrades := openTrades[..i] + openTrades[i + 1..];
    }

    /** Second pass: close each trade the first pass picked. */
    method CloseReversed(timestamp: string, toClose: seq<ArbitrageTrade>) returns (changed: seq<ArbitrageTrade>)
      requires Valid() && Distinct(toClose) && forall t | t in toClose :: t in openTrades
      modifies `openTrades, set t | t in toClose
      ensures Valid() && openTrades == Without(old(openTrades), toClose)
      ensures changed == toClose
      ensures forall t | t in toClose :: t.Value() == ReversalClose(config, old(t.Value()), timestamp)
    {
      hide *;
      changed := [];
      ghost var list := openTrades;
      WithoutNothing(list, []);
      for k := 0 to |toClose|
        invariant Valid() && openTrades == Without(list, changed)
        invariant changed == toClose[..k]
        invariant forall t | t in changed :: t.Value() == ReversalClose(config, old(t.Value()), timestamp)
        invariant forall t | t in list && t !in changed :: t.Value() == old(t.Value())
      {
        var t := toClose[k];
        DistinctAt(toClose, k);
        WithoutKeeps(list, changed, t);
        CloseOne(timestamp, t);
        WithoutTwice(list, changed, [t]);
        changed := changed + [t];
      }
      assert toClose[..|toClose|] == toClose;
    }

    /** The closing half of a snapshot. */
    method CloseOnReversal(q: Quotes, timestamp: string) returns (ok: bool, changed: seq<ArbitrageTrade>)
      requires Valid()
      modifies `openTrades, set t | t in openTrades
      ensures Valid()
      ensures var was := old(Values(openTrades));
              && ok == !Undefined(config, q, was)
              && Values(openTrades) == (if ok then Kept(config, q, was) else was)
              && Values(changed) == (if ok then Closures(config, q, was, timestamp) else [])
      ensures forall t | t in openTrades :: t in old(openTrades)
      ensures forall t | t in changed :: t in old(openTrades) && !t.isOpen
      ensures ok ==> forall t | t in old(openTrades) ::
                t.Value() == Moved(config, q, old(t.Value()), timestamp) && (t.isOpen ==> t in openTrades)
      ensures Distinct(changed)
      ensures !config.closeOnSpreadReversal ==> ok && openTrades == old(openTrades) && changed == []
    {
      hide Distinct, Without, Kept, Closures, Pick;
      ghost var list, was := openTrades, Values(openTrades);
      ok, changed := true, [];
      DistinctEmpty<ArbitrageTrade>();
      if !config.closeOnSpreadReversal {
        NothingReverses(config, q, was, timestamp);
        return;
      }
      var toClose;
      ok, toClose := Reversals(q);
      if !ok { return; }
      PickDistinct(config, q, list, true);
      PickMembers(config, q, list, true);
      PickMembers(config, q, list, false);
      changed := CloseReversed(timestamp, toClose);
      PickIsWithout(config, q, list, toClose);
      PickKept(config, q, list, was);
      PickClosures(config, q, list, was, timestamp);
    }

    /** The opening half of a snapshot. */
    method OpenOnSignal(detection: Detection) returns (changed: seq<ArbitrageTrade>)
      requires Valid()
      modifies `openTrades
      ensures Valid() && openTrades == old(openTrades) + changed
      ensures var created := if detection.Signal? then [Created(detection.opp)] else [];
              Values(changed) == created && Values(openTrades) == old(Values(openTrades)) + created
      ensures |changed| <= 1 && forall t | t in changed :: fresh(t) && t.isOpen
    {
      changed := [];
      if detection.Signal? {
        var o := detection.opp;
        var trade := new ArbitrageTrade(o.timestamp, o.side, o.spreadBps, o.notionalUsd);
        DistinctExtend(openTrades, trade);
        openTrades, changed := openTrades + [trade], [trade];
      }
    }

    method Process(q: Quotes, s: Snapshot) returns (ok: bool, changed: seq<ArbitrageTrade>)
      requires Valid()
      modifies `openTrades, set t | t in openTrades
      ensures Valid()
      ensures var o := StepOn(config, q, old(Values(openTrades)), s);
              && ok == o.ok && Values(openTrades) == o.open
              && Values(changed) == if ok then o.closed + o.created else []
      ensures forall t | t in openTrades :: t in old(openTrades) || fresh(t)
      ensures ok ==> forall t | t in openTrades :: t in old(openTrades) || t in changed
      ensures ok ==> forall t | t in old(openTrades) ::
                t.Value() == Moved(config, q, old(t.Value()), s.timestamp) && (t.isOpen ==> t in openTrades)
      ensures Distinct(changed) && forall t | t in changed :: if t.isOpen then fresh(t) && t in openTrades else t in old(openTrades)
      ensures !config.closeOnSpreadReversal ==> openTrades == old(openTrades) + changed
    {
      hide Distinct, Kept, Closures, Values;
      DistinctEmpty<ArbitrageTrade>();
      ok, changed := CloseOnReversal(q, s.timestamp);
      if !ok { return; }
      ghost var closed := Values(changed);
      var detection := Detect(config, q, |openTrades|, s);
      if detection.ZeroDivision? { return false, []; }
      var created := OpenOnSignal(detection);
      assert Values(changed) == closed;
      ValuesAppend(changed, created);
      if created == [] {
        assert changed + created == changed;
      } else {
        assert created == [created[0]];
        DistinctExtend(changed, created[0]);
      }
      changed := changed + created;
    }

    /** Closes every trade whose side has turned negative, then opens at most one new trade. */
    method OnSnapshot(s: Snapshot) returns (ok: bool, changed: seq<ArbitrageTrade>)
      requires Valid()
      modifies this, set t | t in openTrades
      ensures Valid() && lastSnapshot == Some(s)
      ensures var o := Step(config, old(Values(openTrades)), s);
              && ok == o.ok && Values(openTrades) == o.open
              && Values(changed) == if ok then o.closed + o.created else []
      ensures forall t | t in openTrades :: t in old(openTrades) || fresh(t)
      ensures ok ==> forall t | t in openTrades :: t in old(openTrades) || t in changed
      ensures ok ==> forall t | t in old(openTrades) ::
                t.Value() == Moved(config, Quote(config, s), old(t.Value()), s.timestamp) && (t.isOpen ==> t in openTrades)
      ensures Distinct(changed) && forall t | t in changed :: if t.isOpen then fresh(t) && t in openTrades else t in old(openTrades)
      ensures !config.closeOnSpreadReversal ==> openTrades == old(openTrades) + changed
    {
      lastSnapshot := Some(s);
      ok, changed := Process(Quote(config, s), s);
    }
  }
}
