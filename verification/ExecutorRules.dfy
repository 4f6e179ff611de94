/** The executors' rules in prices, thresholds and replies alone: when they enter and exit, which way, how much, and for what profit. */
module ExecutorRules {
  import opened Prelude
  import opened Positions
  import Live = LiveExecutor
  import Paper = PaperExecutor

  // ---------------------------------------------------------------- the rules

  /** Positions still open, of one symbol or of all. */
  predicate StillOpen(p: Pos, only: Option<string>) { p.exit.None? && (only.None? || p.symbol == only.value) }

  function OpenIndices(ps: seq<Pos>, only: Option<string>): set<nat> {
    set i: nat | i < |ps| && StillOpen(ps[i], only)
  }

  lemma {:induction false} OpenCountIs(ps: seq<Pos>, only: Option<string>)
    ensures OpenCount(ps, only) == |OpenIndices(ps, only)|
  {
    if ps != [] {
      var n := |ps| - 1;
      OpenCountIs(ps[..n], only);
      assert OpenCount(ps, only) == OpenCount(ps[..n], only) + if StillOpen(ps[n], only) then 1 else 0;
      hide OpenCount, StillOpen;
      assert OpenIndices(ps, only) == OpenIndices(ps[..n], only) + if StillOpen(ps[n], only) then {n} else {};
    }
  }

  /** A profitable enough opportunity, with room for its symbol and in the portfolio. */
  predicate Allows(c: RiskConfig, ps: seq<Pos>, o: Opportunity, symbol: string) {
    && o.isOpportunity && o.netSpreadPct >= c.minNetSpreadPct(symbol)
    && |OpenIndices(ps, Some(symbol))| < c.symbolMaxOpen(symbol) && |OpenIndices(ps, None)| < c.portfolioMaxOpen
  }

  lemma CanOpenExactly(c: RiskConfig, ps: seq<Pos>, o: Opportunity, symbol: string)
    ensures CanOpen(c, ps, o, symbol) <==> Allows(c, ps, o, symbol)
  {
    OpenCountIs(ps, Some(symbol));
    OpenCountIs(ps, None);
    hide OpenCount, OpenIndices;
  }

  /** The spread has come back, or the position was held as long as it may. */
  predicate Due(c: RiskConfig, p: Pos, o: Opportunity, now: real) {
    o.netSpreadPct <= c.exitNetSpreadPct || (c.maxHoldingSeconds > 0.0 && p.openedAt + c.maxHoldingSeconds <= now)
  }

  lemma ShouldCloseExactly(c: RiskConfig, p: Pos, o: Opportunity, now: real)
    ensures ShouldClose(c, p, o, now) <==> Due(c, p, o, now)
  {
  }

  /** Some price to size by: the sum of both is positive, or it is zero and Upbit's own price is positive. */
  predicate Priced(o: Opportunity) {
    o.upbitPrice + o.binancePriceKrw > 0.0 || (o.upbitPrice + o.binancePriceKrw == 0.0 && o.upbitPrice > 0.0)
  }

  /** The size spends the notional at the middle of both prices, or at Upbit's where they cancel; zero where nothing can be sized. */
  lemma SizeExactly(c: RiskConfig, o: Opportunity)
    ensures var size, sum := SizeKrw(c, MidPrice(o)), o.upbitPrice + o.binancePriceKrw;
            if c.maxNotionalKrw > 0.0 && Priced(o)
            then size > 0.0 && size * (if sum == 0.0 then o.upbitPrice else sum / 2.0) == c.maxNotionalKrw
            else size == 0.0
  {
    var price := MidPrice(o);
    if c.maxNotionalKrw > 0.0 && Priced(o) { Divides(c.maxNotionalKrw, price); }
  }

  lemma Divides(a: real, b: real)
    requires a > 0.0 && b > 0.0
    ensures a / b > 0.0 && a / b * b == a
  {
    var q := a / b;
    assert q * b == a;
    if q <= 0.0 { NotPositive(q, b); }
  }

  lemma NotPositive(q: real, b: real)
    requires q <= 0.0 && b > 0.0
    ensures q * b <= 0.0
  {
  }

  /** The position an entry records: at the opportunity's prices, buying the cheaper venue. */
  predicate EntersAs(p: Pos, o: Opportunity, wall: real) {
    && p.symbol == o.symbol && p.entryUpbitPrice == o.upbitPrice && p.entryBinancePrice == o.binancePrice
    && p.entrySpreadPct == o.spreadPct && p.openedAt == wall && p.exit.None?
    && (p.direction == UpbitLong <==> o.upbitPrice <= o.binancePriceKrw)
  }

  /** Bought where it is cheaper, an entry closed where both venues agree earns the gap between the entry prices, never a loss. */
  lemma EntryEarnsTheGap(c: RiskConfig, p: Pos, o: Opportunity, wall: real, exit: Opportunity, closedAt: real)
    requires EntersAs(p, o, wall) && p.size >= 0.0
    requires o.binancePriceKrw == o.binancePrice * c.usdkrw && exit.upbitPrice == exit.binancePrice * c.usdkrw
    ensures var gap := o.upbitPrice - o.binancePriceKrw;
            var pnl := Closed(c, p, exit, closedAt).exit.value.pnlKrw;
            pnl == (if gap >= 0.0 then gap else -gap) * p.size && pnl >= 0.0
  {
    var gap := o.upbitPrice - o.binancePriceKrw;
    ExitEarns(c, p, exit, closedAt);
    var moved := exit.upbitPrice - exit.binancePrice * c.usdkrw;
    assert moved == 0.0;
  }

  /** What an exit pays in general: the change of Upbit's price over Binance's, in won, on the size, for or against. */
  lemma ExitEarns(c: RiskConfig, p: Pos, exit: Opportunity, closedAt: real)
    ensures var before := p.entryUpbitPrice - p.entryBinancePrice * c.usdkrw;
            var after := exit.upbitPrice - exit.binancePrice * c.usdkrw;
            Closed(c, p, exit, closedAt).exit.value.pnlKrw == (if p.direction == UpbitLong then after - before else before - after) * p.size
  {
    Legs(p.entryUpbitPrice, exit.upbitPrice, p.entryBinancePrice, exit.binancePrice, p.size, c.usdkrw);
  }

  lemma Legs(u: real, u': real, b: real, b': real, size: real, fx: real)
    ensures (u' - u) * size + (b - b') * size * fx == ((u' - b' * fx) - (u - b * fx)) * size
    ensures (u - u') * size + (b' - b) * size * fx == ((u - b * fx) - (u' - b' * fx)) * size
  {
  }

  /** What closing records; the percentage is of the Upbit entry notional. */
  lemma ExitRecords(c: RiskConfig, p: Pos, o: Opportunity, wall: real)
    ensures var q := Closed(c, p, o, wall);
            && q.exit.Some? && q == p.(exit := q.exit)
            && q.exit.value.upbitPrice == o.upbitPrice && q.exit.value.binancePrice == o.binancePrice
            && q.exit.value.spreadPct == o.spreadPct && q.exit.value.closedAt == wall
            && (if p.entryUpbitPrice * p.size == 0.0 then q.exit.value.pnlPct == 0.0
                else q.exit.value.pnlPct * (p.entryUpbitPrice * p.size) == q.exit.value.pnlKrw * 100.0)
  {
    var n, pnl := p.entryUpbitPrice * p.size, Closed(c, p, o, wall).exit.value.pnlKrw;
    if n != 0.0 {
      assert pnl / n * n == pnl;
      assert pnl / n * 100.0 * n == pnl * 100.0;
    }
  }

  // ---------------------------------------------------------------- the live executor

  predicate BothAccepted(x: Live.Setup, vs: Live.Venues) {
    x.dryRun || (x.world.upbitAccepts(vs.upbit.orders) && x.world.binanceAccepts(vs.binance.orders))
  }

  /** The live executor enters exactly where the rules allow it, something can be sized, and both legs are accepted. */
  lemma LiveEntersExactly(x: Live.Setup, s: Live.State, t: Live.Tick)
    ensures var s', o := Live.OpenOne(x, s, t), t.opp;
            if Allows(x.risk, s.positions, o, o.symbol) && x.risk.maxNotionalKrw > 0.0 && Priced(o) && BothAccepted(x, s.venues)
            then |s'.positions| == |s.positions| + 1 && s'.positions[..|s.positions|] == s.positions
                 && EntersAs(s'.positions[|s.positions|], o, t.wall)
                 && s'.positions[|s.positions|].size == SizeKrw(x.risk, MidPrice(o))
            else s'.positions == s.positions
  {
    CanOpenExactly(x.risk, s.positions, t.opp, t.opp.symbol);
    SizeExactly(x.risk, t.opp);
    hide CanOpen, Allows, SizeKrw, MidPrice, Live.UpbitFill;
  }

  /** Such an entry moves both venues: it buys the cheaper one and sells as much on the other. */
  lemma LiveEntryTrades(x: Live.Setup, s: Live.State, t: Live.Tick)
    requires !x.dryRun && t.opp.upbitPrice != 0.0 && |Live.OpenOne(x, s, t).positions| > |s.positions|
    ensures var s', o := Live.OpenOne(x, s, t), t.opp;
            var bought := if o.upbitPrice <= o.binancePriceKrw then s'.positions[|s.positions|].size else -s'.positions[|s.positions|].size;
            && Get(s'.venues.upbit.net, "KRW-" + o.symbol) == Get(s.venues.upbit.net, "KRW-" + o.symbol) + bought
            && Get(s'.venues.binance.net, o.symbol + "USDT") == Get(s.venues.binance.net, o.symbol + "USDT") - bought
  {
    var size, o := SizeKrw(x.risk, MidPrice(t.opp)), t.opp;
    hide CanOpen, SizeKrw, MidPrice, Live.UpbitFill;
    Live.LegFills(Some(EntryDirection(o)), size, o);
  }

  /** The closing loop closes exactly the open positions that are due and whose legs are both accepted. */
  lemma LiveExitsExactly(x: Live.Setup, s: Live.State, t: Live.Tick, i: nat)
    requires i < |s.positions|
    ensures var s', p := Live.CloseOne(x, s, t, i), s.positions[i];
            s'.positions == if p.exit.None? && Due(x.risk, p, t.opp, t.now) && BothAccepted(x, s.venues)
                            then s.positions[i := Closed(x.risk, p, t.opp, t.wall)] else s.positions
  {
    ShouldCloseExactly(x.risk, s.positions[i], t.opp, t.now);
    hide ShouldClose, Due, Closed, Live.UpbitFill;
  }

  // ---------------------------------------------------------------- the paper executor

  /** The symbol the rules are asked about: the one given, or the opportunity's own. */
  function Asked(t: Paper.Tick): string { if t.symbol == None || t.symbol == Some("") then t.opp.symbol else t.symbol.value }

  /** The debug entry is forced: the rules refuse, it is wanted, nothing is open, and it was not used yet. */
  predicate Forced(x: Paper.Setup, s: Paper.State, t: Paper.Tick) {
    && !Allows(x.risk, s.positions, t.opp, Asked(t)) && x.forceFirstEntry && !s.forceUsed
    && forall i :: 0 <= i < |s.positions| ==> s.positions[i].exit.Some?
  }

  /** The size of a paper entry: by the rules, and for a forced one the configured minimum, or a thousandth, if they give none. */
  lemma PaperSizeExactly(x: Paper.Setup, o: Opportunity, forced: bool)
    ensures Paper.EntrySize(x, o, forced) ==
              if x.risk.maxNotionalKrw > 0.0 && Priced(o) then SizeKrw(x.risk, MidPrice(o))
              else if !forced then 0.0 else if x.forceEntryMinSize == 0.0 then 1.0 / 1000.0 else x.forceEntryMinSize
  {
    SizeExactly(x.risk, o);
    hide SizeKrw, MidPrice;
  }

  /** The opening half enters exactly where the rules allow or force it, the symbol has no open position and the size is positive. */
  lemma PaperEntersExactly(x: Paper.Setup, s: Paper.State, t: Paper.Tick)
    ensures var ((s', signals), forced, o) := (Paper.Enter(x, s, t), Forced(x, s, t), t.opp);
            && s'.forceUsed == (s.forceUsed || forced)
            && (if (Allows(x.risk, s.positions, o, Asked(t)) || forced) && OpenIndices(s.positions, Some(o.symbol)) == {}
                   && Paper.EntrySize(x, o, forced) > 0.0
                then |s'.positions| == |s.positions| + 1 && s'.positions[..|s.positions|] == s.positions
                     && var p := s'.positions[|s.positions|];
                        EntersAs(p, o, t.wall) && p.size == Paper.EntrySize(x, o, forced)
                        && signals == [Paper.OpenSignal(o.symbol, p.direction, forced)]
                else s'.positions == s.positions && signals == [])
  {
    CanOpenExactly(x.risk, s.positions, t.opp, Asked(t));
    assert t.Symbol() == Asked(t);
    NoneOpen(s.positions, t.opp.symbol);
    hide CanOpen, Allows, Paper.EntrySize, OpenIndices;
  }

  lemma NoneOpen(ps: seq<Pos>, symbol: string)
    ensures Paper.OpenIn(ps, symbol) <==> OpenIndices(ps, Some(symbol)) != {}
    ensures Paper.AnyOpen(ps) <==> !(forall i :: 0 <= i < |ps| ==> ps[i].exit.Some?)
  {
    if Paper.OpenIn(ps, symbol) {
      var i: nat :| i < |ps| && ps[i].Open() && ps[i].symbol == symbol;
      assert i in OpenIndices(ps, Some(symbol));
    }
  }

  /** The closing half closes exactly the open positions of the asked symbol that are due. */
  lemma PaperExitsExactly(x: Paper.Setup, p: Pos, t: Paper.Tick)
    ensures Paper.Closes(x, p, t) <==> p.exit.None? && p.symbol == Asked(t) && Due(x.risk, p, t.opp, t.now)
  {
    ShouldCloseExactly(x.risk, p, t.opp, t.now);
  }
}
