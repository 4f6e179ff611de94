/** Live orders on two venues: entries with rollback, exits, and what the venues hold compared with the positions. */
module LiveExecutor {
  import opened Prelude
  import opened Positions

  // ---------------------------------------------------------------- venues and orders

  /** Net quantity held per market, and how many orders were sent. */
  datatype Venue = Venue(net: map<string, real>, orders: nat)

  datatype Venues = Venues(upbit: Venue, binance: Venue)

  /** Whether each venue accepts its n-th order; an accepted order is filled in full at the quoted price. */
  datatype World = World(upbitAccepts: nat -> bool, binanceAccepts: nat -> bool)

  /** A bid is sent by notional, an ask by volume. */
  datatype UpbitPlan = Bid(notional: real) | Ask(volume: real)
  datatype BinanceSide = Buy | Sell

  function UpbitFill(plan: UpbitPlan, quote: real): real {
    match plan
    case Bid(notional) => if quote == 0.0 then 0.0 else notional / quote
    case Ask(volume) => -volume
  }

  function BinanceFill(side: BinanceSide, quantity: real): real { if side == Buy then quantity else -quantity }

  function Notional(size: real, price: real): real { size * price }

  function UpbitMarket(symbol: string): string { "KRW-" + symbol }
  function BinanceSymbol(symbol: string): string { symbol + "USDT" }

  function Send(v: Venue, accepts: nat -> bool, market: string, quantity: real): Venue {
    Venue(if accepts(v.orders) then v.net[market := Get(v.net, market) + quantity] else v.net, v.orders + 1)
  }

  // ---------------------------------------------------------------- plans

  function EntryUpbit(d: Option<Direction>, size: real, o: Opportunity): UpbitPlan {
    if d == Some(UpbitLong) then Bid(Notional(size, o.upbitPrice)) else Ask(size)
  }
  function EntryBinance(d: Option<Direction>): BinanceSide { if d == Some(UpbitLong) then Sell else Buy }

  function ExitUpbit(d: Direction, size: real, o: Opportunity): UpbitPlan {
    if d == UpbitLong then Ask(size) else Bid(Notional(size, o.upbitPrice))
  }
  function ExitBinance(d: Direction): BinanceSide { if d == UpbitLong then Buy else Sell }

  /** Undoes an Upbit entry leg; the same plan is used when an exit fails half way. */
  function RollbackUpbit(d: Option<Direction>, size: real, o: Opportunity): UpbitPlan {
    if d == Some(UpbitShort) then Bid(Notional(size, o.upbitPrice)) else Ask(size)
  }

  lemma BidFills(size: real, price: real)
    requires price != 0.0
    ensures UpbitFill(Bid(Notional(size, price)), price) == size
  {
    var n := Notional(size, price);
    assert n / price * price == n;
    var q := n / price;
    assert (q - size) * price == 0.0;
  }

  // ---------------------------------------------------------------- entry and exit, on values

  datatype Setup = Setup(risk: RiskConfig, world: World, dryRun: bool)

  /** Two legs in order; when the second is rejected, the rollback order for the first. */
  function TwoLegs(x: Setup, vs: Venues, o: Opportunity, first: UpbitPlan, side: BinanceSide, size: real, back: UpbitPlan): (r: (Venues, bool)) {
    if x.dryRun then (vs, true)
    else
      var w, market := x.world, UpbitMarket(o.symbol);
      var u := Send(vs.upbit, w.upbitAccepts, market, UpbitFill(first, o.upbitPrice));
      if !w.upbitAccepts(vs.upbit.orders) then (vs.(upbit := u), false)
      else
        var b := Send(vs.binance, w.binanceAccepts, BinanceSymbol(o.symbol), BinanceFill(side, size));
        if w.binanceAccepts(vs.binance.orders) then (Venues(u, b), true)
        else (Venues(Send(u, w.upbitAccepts, market, UpbitFill(back, o.upbitPrice)), b), false)
  }

  function Entry(x: Setup, vs: Venues, d: Option<Direction>, size: real, o: Opportunity): (Venues, bool) {
    if size <= 0.0 then (vs, false)
    else TwoLegs(x, vs, o, EntryUpbit(d, size, o), EntryBinance(d), size, RollbackUpbit(d, size, o))
  }

  function ExitLegs(x: Setup, vs: Venues, p: Pos, o: Opportunity): (Venues, bool) {
    TwoLegs(x, vs, o, ExitUpbit(p.direction, p.size, o), ExitBinance(p.direction), p.size,
            RollbackUpbit(Some(p.direction), p.size, o))
  }

  datatype State = State(venues: Venues, positions: seq<Pos>)

  datatype Tick = Tick(opp: Opportunity, now: real, wall: real)

  function CloseOne(x: Setup, s: State, t: Tick, i: nat): State
    requires i < |s.positions|
  {
    var p := s.positions[i];
    if p.Open() && ShouldClose(x.risk, p, t.opp, t.now) then
      var (vs, ok) := ExitLegs(x, s.venues, p, t.opp);
      State(vs, if ok then s.positions[i := Closed(x.risk, p, t.opp, t.wall)] else s.positions)
    else s
  }

  /** The closing loop, over the first `n` positions. */
  function CloseUpTo(x: Setup, s: State, t: Tick, n: nat): (r: State)
    requires n <= |s.positions|
    ensures |r.positions| == |s.positions|
  {
    if n == 0 then s else CloseOne(x, CloseUpTo(x, s, t, n - 1), t, n - 1)
  }

  function OpenOne(x: Setup, s: State, t: Tick): State {
    var o := t.opp;
    var size := SizeKrw(x.risk, MidPrice(o));
    if CanOpen(x.risk, s.positions, o, o.symbol) && size > 0.0 then
      var (vs, ok) := Entry(x, s.venues, Some(EntryDirection(o)), size, o);
      State(vs, if ok then s.positions + [Opened(o, Some(EntryDirection(o)), size, t.wall)] else s.positions)
    else s
  }

  datatype Signal = CloseSignal(symbol: string, direction: Direction) | OpenSignal(symbol: string, direction: Direction)

  /** What the closing loop reports of its first `n` positions: the exits that went through. */
  function CloseSignals(x: Setup, s: State, t: Tick, n: nat): seq<Signal>
    requires n <= |s.positions|
  {
    if n == 0 then []
    else
      var before := CloseUpTo(x, s, t, n - 1);
      var p := before.positions[n - 1];
      CloseSignals(x, s, t, n - 1)
      + if p.Open() && ShouldClose(x.risk, p, t.opp, t.now) && ExitLegs(x, before.venues, p, t.opp).1
        then [CloseSignal(p.symbol, p.direction)] else []
  }

  /** What a tick reports: the exits, then the entry if it went through. */
  function Signals(x: Setup, s: State, t: Tick): seq<Signal> {
    var closed := CloseUpTo(x, s, t, |s.positions|);
    var added := OpenOne(x, closed, t).positions[|s.positions|..];
    CloseSignals(x, s, t, |s.positions|) + if added == [] then [] else [OpenSignal(added[0].symbol, added[0].direction)]
  }

  function OnTick(x: Setup, s: State, t: Tick): State {
    OpenOne(x, CloseUpTo(x, s, t, |s.positions|), t)
  }

  function Run(x: Setup, s: State, ts: seq<Tick>): State {
    if ts == [] then s else OnTick(x, Run(x, s, ts[..|ts| - 1]), ts[|ts| - 1])
  }

  // ---------------------------------------------------------------- what a tick reports

  lemma {:induction false} CloseSignalsCount(x: Setup, s: State, t: Tick, n: nat)
    requires n <= |s.positions|
    ensures |CloseSignals(x, s, t, n)| + OpenCount(CloseUpTo(x, s, t, n).positions, None) == OpenCount(s.positions, None)
    ensures forall g | g in CloseSignals(x, s, t, n) :: g.CloseSignal?
  {
    hide ShouldClose, ExitLegs, PnlKrw, PnlPct, OpenCount;
    if n > 0 {
      CloseSignalsCount(x, s, t, n - 1);
      var before := CloseUpTo(x, s, t, n - 1);
      if before.positions[n - 1].Open() { OpenCountCloses(before.positions, n - 1, Closed(x.risk, before.positions[n - 1], t.opp, t.wall)); }
    }
  }

  lemma {:induction false} OpenCountCloses(ps: seq<Pos>, i: nat, p: Pos)
    requires i < |ps| && ps[i].Open() && !p.Open()
    ensures OpenCount(ps[i := p], None) == OpenCount(ps, None) - 1
  {
    var front := ps[..|ps| - 1];
    if i < |front| {
      OpenCountCloses(front, i, p);
      assert ps[i := p][..|ps| - 1] == front[i := p];
    } else {
      assert ps[i := p][..|ps| - 1] == front;
    }
  }

  /** The signals account for the open positions: each close takes one away, the open, which comes last, adds one. */
  lemma SignalsAccount(x: Setup, s: State, t: Tick)
    ensures var signals := Signals(x, s, t);
            var opens := if signals != [] && signals[|signals| - 1].OpenSignal? then 1 else 0;
            && OpenCount(OnTick(x, s, t).positions, None) == OpenCount(s.positions, None) + 2 * opens - |signals|
            && forall i :: 0 <= i < |signals| - opens ==> signals[i].CloseSignal?
  {
    hide CloseUpTo, CloseSignals, CanOpen, Entry, SizeKrw, MidPrice;
    var closed := CloseUpTo(x, s, t, |s.positions|);
    CloseSignalsCount(x, s, t, |s.positions|);
    var after, n, closes := OpenOne(x, closed, t).positions, |s.positions|, CloseSignals(x, s, t, |s.positions|);
    if |after| > n {
      assert after[..n] == closed.positions && after[n..] == [after[n]] && after[n].Open();
      assert Signals(x, s, t) == closes + [OpenSignal(after[n].symbol, after[n].direction)];
    } else {
      assert after == closed.positions && after[n..] == [];
      assert Signals(x, s, t) == closes + [] == closes;
      if closes != [] { assert closes[|closes| - 1] in closes; }
    }
  }

  // ---------------------------------------------------------------- a failed entry

  function UpbitNet(vs: Venues, symbol: string): real { Get(vs.upbit.net, UpbitMarket(symbol)) }
  function BinanceNet(vs: Venues, symbol: string): real { Get(vs.binance.net, BinanceSymbol(symbol)) }

  /** Net quantities are the same on both venues, in every market. */
  ghost predicate SameNets(vs: Venues, vs': Venues) {
    && (forall m :: Get(vs.upbit.net, m) == Get(vs'.upbit.net, m))
    && (forall m :: Get(vs.binance.net, m) == Get(vs'.binance.net, m))
  }

  /** An entry that fails restores both venues exactly when nothing was sold or bought, or the rollback of a directed entry is accepted. */
  lemma FailedEntryRestores(x: Setup, vs: Venues, d: Option<Direction>, size: real, o: Opportunity)
    requires o.upbitPrice != 0.0 && !Entry(x, vs, d, size, o).1
    ensures SameNets(vs, Entry(x, vs, d, size, o).0) <==>
              size <= 0.0 || !x.world.upbitAccepts(vs.upbit.orders)
              || (d.Some? && x.world.upbitAccepts(vs.upbit.orders + 1))
  {
    hide UpbitFill;
    if size > 0.0 && x.world.upbitAccepts(vs.upbit.orders) {
      var m, vs' := UpbitMarket(o.symbol), Entry(x, vs, d, size, o).0;
      var first, back := UpbitFill(EntryUpbit(d, size, o), o.upbitPrice), UpbitFill(RollbackUpbit(d, size, o), o.upbitPrice);
      LegFills(d, size, o);
      match d { case None => case Some(UpbitLong) => case Some(UpbitShort) => }
      assert UpbitNet(vs', o.symbol) == UpbitNet(vs, o.symbol) + first
               + if x.world.upbitAccepts(vs.upbit.orders + 1) then back else 0.0;
    }
  }

  /** What the Upbit leg of an entry and its rollback fill: opposite quantities, unless no direction is given. */
  lemma LegFills(d: Option<Direction>, size: real, o: Opportunity)
    requires o.upbitPrice != 0.0
    ensures UpbitFill(EntryUpbit(d, size, o), o.upbitPrice) == (if d == Some(UpbitLong) then size else -size)
    ensures UpbitFill(RollbackUpbit(d, size, o), o.upbitPrice) == (if d == Some(UpbitShort) then size else -size)
  {
    BidFills(size, o.upbitPrice);
  }

  // ---------------------------------------------------------------- what the venues hold against the positions

  function Signed(d: Direction, size: real): real { if d == UpbitLong then size else -size }

  /** The signed sizes of the OPEN positions of one symbol. */
  function Holdings(ps: seq<Pos>, symbol: string): real {
    if ps == [] then 0.0
    else
      var last := ps[|ps| - 1];
      Holdings(ps[..|ps| - 1], symbol) + if last.Open() && last.symbol == symbol then Signed(last.direction, last.size) else 0.0
  }

  lemma HoldingsAppend(ps: seq<Pos>, p: Pos, symbol: string)
    ensures Holdings(ps + [p], symbol)
         == Holdings(ps, symbol) + if p.Open() && p.symbol == symbol then Signed(p.direction, p.size) else 0.0
  {
    assert (ps + [p])[..|ps|] == ps;
  }

  lemma {:induction false} HoldingsClose(ps: seq<Pos>, i: nat, p: Pos, symbol: string)
    requires i < |ps| && ps[i].Open() && ps[i].symbol == symbol && !p.Open()
    ensures Holdings(ps[i := p], symbol) == Holdings(ps, symbol) - Signed(ps[i].direction, ps[i].size)
  {
    var front := ps[..|ps| - 1];
    if i < |front| {
      HoldingsClose(front, i, p, symbol);
      assert ps[i := p][..|ps| - 1] == front[i := p];
    } else {
      assert ps[i := p][..|ps| - 1] == front;
    }
  }

  /** The first leg went through and the second did not. */
  predicate HalfDone(x: Setup, vs: Venues) {
    !x.dryRun && x.world.upbitAccepts(vs.upbit.orders) && !x.world.binanceAccepts(vs.binance.orders)
  }

  /** What a half-done entry leaves on Upbit: its leg, unless the rollback is accepted. */
  function EntryFault(x: Setup, vs: Venues, d: Direction, size: real): real {
    if HalfDone(x, vs) && !x.world.upbitAccepts(vs.upbit.orders + 1) then Signed(d, size) else 0.0
  }

  /** What a half-done exit leaves on Upbit: its leg, and again if the rollback, which repeats it, is accepted. */
  function ExitFault(x: Setup, vs: Venues, p: Pos): real {
    var leg := -Signed(p.direction, p.size);
    if HalfDone(x, vs) then leg + if x.world.upbitAccepts(vs.upbit.orders + 1) then leg else 0.0 else 0.0
  }

  lemma EntryMoves(x: Setup, vs: Venues, d: Direction, size: real, o: Opportunity)
    requires !x.dryRun && o.upbitPrice != 0.0 && size > 0.0
    ensures var (vs', ok) := Entry(x, vs, Some(d), size, o);
            && UpbitNet(vs', o.symbol) == UpbitNet(vs, o.symbol) + (if ok then Signed(d, size) else 0.0) + EntryFault(x, vs, d, size)
            && BinanceNet(vs', o.symbol) == BinanceNet(vs, o.symbol) - if ok then Signed(d, size) else 0.0
  {
    hide UpbitFill;
    LegFills(Some(d), size, o);
  }

  /** A successful entry is recorded the way it moved Upbit exactly when it had a direction; without one it sold, recorded as long. */
  lemma RecordedAsMoved(x: Setup, vs: Venues, d: Option<Direction>, size: real, o: Opportunity, wall: real)
    requires !x.dryRun && o.upbitPrice != 0.0 && Entry(x, vs, d, size, o).1
    ensures var moved := UpbitNet(Entry(x, vs, d, size, o).0, o.symbol) - UpbitNet(vs, o.symbol);
            && (moved == Signed(Opened(o, d, size, wall).direction, size) <==> d.Some?)
            && (d.None? ==> moved == -size)
  {
    hide UpbitFill;
    LegFills(d, size, o);
    match d { case None => case Some(UpbitLong) => case Some(UpbitShort) => }
  }

  lemma ExitMoves(x: Setup, vs: Venues, p: Pos, o: Opportunity)
    requires !x.dryRun && o.upbitPrice != 0.0
    ensures var (vs', ok) := ExitLegs(x, vs, p, o);
            && UpbitNet(vs', o.symbol) == UpbitNet(vs, o.symbol) - (if ok then Signed(p.direction, p.size) else 0.0) + ExitFault(x, vs, p)
            && BinanceNet(vs', o.symbol) == BinanceNet(vs, o.symbol) + if ok then Signed(p.direction, p.size) else 0.0
  {
    hide UpbitFill;
    BidFills(p.size, o.upbitPrice);
    LegFills(Some(p.direction), p.size, o);
    assert UpbitFill(ExitUpbit(p.direction, p.size, o), o.upbitPrice) == -Signed(p.direction, p.size);
  }

  /** Upbit's excess over the positions, and Binance's. */
  function UpbitExcess(s: State, symbol: string): real { UpbitNet(s.venues, symbol) - Holdings(s.positions, symbol) }
  function BinanceExcess(s: State, symbol: string): real { BinanceNet(s.venues, symbol) + Holdings(s.positions, symbol) }

  predicate OneSymbol(ps: seq<Pos>, symbol: string) { forall i :: 0 <= i < |ps| ==> ps[i].symbol == symbol }

  function CloseFault(x: Setup, s: State, t: Tick, i: nat): real
    requires i < |s.positions|
  {
    var p := s.positions[i];
    if p.Open() && ShouldClose(x.risk, p, t.opp, t.now) then ExitFault(x, s.venues, p) else 0.0
  }

  function CloseFaults(x: Setup, s: State, t: Tick, n: nat): real
    requires n <= |s.positions|
  {
    if n == 0 then 0.0 else CloseFaults(x, s, t, n - 1) + CloseFault(x, CloseUpTo(x, s, t, n - 1), t, n - 1)
  }

  function OpenFault(x: Setup, s: State, t: Tick): real {
    var size := SizeKrw(x.risk, MidPrice(t.opp));
    if CanOpen(x.risk, s.positions, t.opp, t.opp.symbol) && size > 0.0
    then EntryFault(x, s.venues, EntryDirection(t.opp), size) else 0.0
  }

  function TickFaults(x: Setup, s: State, t: Tick): real {
    var n := |s.positions|;
    CloseFaults(x, s, t, n) + OpenFault(x, CloseUpTo(x, s, t, n), t)
  }

  function RunFaults(x: Setup, s: State, ts: seq<Tick>): real {
    if ts == [] then 0.0
    else
      var front := ts[..|ts| - 1];
      RunFaults(x, s, front) + TickFaults(x, Run(x, s, front), ts[|ts| - 1])
  }

  lemma {:induction false} ClosingDrifts(x: Setup, s: State, t: Tick, n: nat)
    requires n <= |s.positions| && !x.dryRun && t.opp.upbitPrice != 0.0 && OneSymbol(s.positions, t.opp.symbol)
    ensures var s', symbol := CloseUpTo(x, s, t, n), t.opp.symbol;
            && OneSymbol(s'.positions, symbol)
            && UpbitExcess(s', symbol) == UpbitExcess(s, symbol) + CloseFaults(x, s, t, n)
            && BinanceExcess(s', symbol) == BinanceExcess(s, symbol)
  {
    hide Holdings, ExitLegs, ExitFault, ShouldClose, PnlKrw, PnlPct;
    if n > 0 {
      ClosingDrifts(x, s, t, n - 1);
      var before := CloseUpTo(x, s, t, n - 1);
      var p := before.positions[n - 1];
      if p.Open() && ShouldClose(x.risk, p, t.opp, t.now) {
        ExitMoves(x, before.venues, p, t.opp);
        HoldingsClose(before.positions, n - 1, Closed(x.risk, p, t.opp, t.wall), t.opp.symbol);
      }
    }
  }

  lemma OpeningDrifts(x: Setup, s: State, t: Tick)
    requires !x.dryRun && t.opp.upbitPrice != 0.0 && OneSymbol(s.positions, t.opp.symbol)
    ensures var s', symbol := OpenOne(x, s, t), t.opp.symbol;
            && OneSymbol(s'.positions, symbol)
            && UpbitExcess(s', symbol) == UpbitExcess(s, symbol) + OpenFault(x, s, t)
            && BinanceExcess(s', symbol) == BinanceExcess(s, symbol)
  {
    hide Holdings, Entry, EntryFault, CanOpen, SizeKrw, MidPrice, EntryDirection;
    var size, d := SizeKrw(x.risk, MidPrice(t.opp)), EntryDirection(t.opp);
    if CanOpen(x.risk, s.positions, t.opp, t.opp.symbol) && size > 0.0 {
      EntryMoves(x, s.venues, d, size, t.opp);
      HoldingsAppend(s.positions, Opened(t.opp, Some(d), size, t.wall), t.opp.symbol);
    }
  }

  /**
   * In every single-symbol run, whatever the venues answer: Binance holds exactly the negation of the open positions,
   * and Upbit their sum plus what the half-done entries and exits of the run left behind.
   */
  lemma {:induction false} VenuesTrackPositions(x: Setup, s: State, ts: seq<Tick>, symbol: string)
    requires !x.dryRun && OneSymbol(s.positions, symbol)
    requires forall i :: 0 <= i < |ts| ==> ts[i].opp.symbol == symbol && ts[i].opp.upbitPrice != 0.0
    ensures var s' := Run(x, s, ts);
            && OneSymbol(s'.positions, symbol)
            && UpbitExcess(s', symbol) == UpbitExcess(s, symbol) + RunFaults(x, s, ts)
            && BinanceExcess(s', symbol) == BinanceExcess(s, symbol)
  {
    hide CloseUpTo, OpenOne, UpbitExcess, BinanceExcess, CloseFaults, OpenFault;
    if ts != [] {
      var front, t := ts[..|ts| - 1], ts[|ts| - 1];
      VenuesTrackPositions(x, s, front, symbol);
      var before := Run(x, s, front);
      ClosingDrifts(x, before, t, |before.positions|);
      OpeningDrifts(x, CloseUpTo(x, before, t, |before.positions|), t);
    }
  }

  /** From flat venues and no positions, both ledgers agree with the positions exactly when the faults cancel. */
  lemma LedgersAgreeExactly(x: Setup, s: State, ts: seq<Tick>, symbol: string)
    requires !x.dryRun && s.positions == [] && UpbitNet(s.venues, symbol) == 0.0 == BinanceNet(s.venues, symbol)
    requires forall i :: 0 <= i < |ts| ==> ts[i].opp.symbol == symbol && ts[i].opp.upbitPrice != 0.0
    ensures var s' := Run(x, s, ts);
            && BinanceNet(s'.venues, symbol) == -Holdings(s'.positions, symbol)
            && (UpbitNet(s'.venues, symbol) == Holdings(s'.positions, symbol) <==> RunFaults(x, s, ts) == 0.0)
  {
    VenuesTrackPositions(x, s, ts, symbol);
  }

  /** No exit of the closing loop is half done. */
  predicate CleanCloses(x: Setup, s: State, t: Tick, n: nat)
    requires n <= |s.positions|
  {
    n == 0 ||
    (CleanCloses(x, s, t, n - 1) &&
     var before := CloseUpTo(x, s, t, n - 1);
     before.positions[n - 1].Open() && ShouldClose(x.risk, before.positions[n - 1], t.opp, t.now) ==> !HalfDone(x, before.venues))
  }

  /** Every exit of the run is not half done, and every half-done entry is rolled back. */
  predicate CleanRun(x: Setup, s: State, ts: seq<Tick>) {
    ts == [] ||
    (var before, t := Run(x, s, ts[..|ts| - 1]), ts[|ts| - 1];
     var n := |before.positions|;
     var vs := CloseUpTo(x, before, t, n).venues;
     && CleanRun(x, s, ts[..|ts| - 1])
     && CleanCloses(x, before, t, n)
     && (Enters(x, State(vs, CloseUpTo(x, before, t, n).positions), t) && HalfDone(x, vs)
         ==> x.world.upbitAccepts(vs.upbit.orders + 1)))
  }

  /** An entry is attempted. */
  predicate Enters(x: Setup, s: State, t: Tick) {
    CanOpen(x.risk, s.positions, t.opp, t.opp.symbol) && SizeKrw(x.risk, MidPrice(t.opp)) > 0.0
  }

  lemma {:induction false} CleanClosesNoFault(x: Setup, s: State, t: Tick, n: nat)
    requires n <= |s.positions| && CleanCloses(x, s, t, n)
    ensures CloseFaults(x, s, t, n) == 0.0
  {
    hide ShouldClose, CloseOne;
    if n > 0 { CleanClosesNoFault(x, s, t, n - 1); }
  }

  /** Clean runs leave no fault ... */
  lemma {:induction false} CleanRunNoFault(x: Setup, s: State, ts: seq<Tick>)
    requires CleanRun(x, s, ts)
    ensures RunFaults(x, s, ts) == 0.0
  {
    hide CloseUpTo, CanOpen, SizeKrw, MidPrice, CloseFaults;
    if ts != [] {
      CleanRunNoFault(x, s, ts[..|ts| - 1]);
      var before := Run(x, s, ts[..|ts| - 1]);
      CleanClosesNoFault(x, before, ts[|ts| - 1], |before.positions|);
    }
  }

  // ---------------------------------------------------------------- ... and no other run is without a fault

  ghost predicate Sized(ps: seq<Pos>) { forall i :: 0 <= i < |ps| ==> ps[i].size > 0.0 }

  /** In terms of the replies: an entry leaves nothing exactly when it is not half done or its rollback is accepted. */
  lemma EntryFaultExactly(x: Setup, vs: Venues, d: Direction, size: real)
    requires size > 0.0
    ensures EntryFault(x, vs, d, size) == 0.0 <==> (HalfDone(x, vs) ==> x.world.upbitAccepts(vs.upbit.orders + 1))
  {
    match d { case UpbitLong => case UpbitShort => }
  }

  /** An exit leaves nothing exactly when it is not half done, whatever becomes of its rollback. */
  lemma ExitFaultExactly(x: Setup, vs: Venues, p: Pos)
    requires p.size > 0.0
    ensures ExitFault(x, vs, p) == 0.0 <==> !HalfDone(x, vs)
  {
    match p.direction { case UpbitLong => case UpbitShort => }
  }

  /** No single exit of the closing loop leaves anything. */
  predicate EvenCloses(x: Setup, s: State, t: Tick, n: nat)
    requires n <= |s.positions|
  {
    n == 0 || (EvenCloses(x, s, t, n - 1) && CloseFault(x, CloseUpTo(x, s, t, n - 1), t, n - 1) == 0.0)
  }

  /** No single entry or exit of the run does. */
  predicate EvenRun(x: Setup, s: State, ts: seq<Tick>) {
    ts == [] ||
    (var before, t := Run(x, s, ts[..|ts| - 1]), ts[|ts| - 1];
     && EvenRun(x, s, ts[..|ts| - 1])
     && EvenCloses(x, before, t, |before.positions|)
     && OpenFault(x, CloseUpTo(x, before, t, |before.positions|), t) == 0.0)
  }

  lemma {:induction false} EvenClosesExactly(x: Setup, s: State, t: Tick, n: nat)
    requires n <= |s.positions| && Sized(s.positions)
    ensures EvenCloses(x, s, t, n) <==> CleanCloses(x, s, t, n)
    ensures Sized(CloseUpTo(x, s, t, n).positions)
  {
    hide ShouldClose, ExitLegs, ExitFault, HalfDone, PnlKrw, PnlPct;
    if n > 0 {
      EvenClosesExactly(x, s, t, n - 1);
      var before := CloseUpTo(x, s, t, n - 1);
      ExitFaultExactly(x, before.venues, before.positions[n - 1]);
    }
  }

  lemma OpenFaultExactly(x: Setup, s: State, t: Tick)
    requires Sized(s.positions)
    ensures OpenFault(x, s, t) == 0.0 <==> (Enters(x, s, t) && HalfDone(x, s.venues) ==> x.world.upbitAccepts(s.venues.upbit.orders + 1))
    ensures Sized(OpenOne(x, s, t).positions)
  {
    hide CanOpen, SizeKrw, MidPrice, EntryDirection, Entry, EntryFault, HalfDone;
    if Enters(x, s, t) { EntryFaultExactly(x, s.venues, EntryDirection(t.opp), SizeKrw(x.risk, MidPrice(t.opp))); }
  }

  /** The clean runs are exactly those in which every entry and every exit keeps Upbit in step. */
  lemma {:induction false} CleanRunExactly(x: Setup, s: State, ts: seq<Tick>)
    requires Sized(s.positions)
    ensures EvenRun(x, s, ts) <==> CleanRun(x, s, ts)
    ensures Sized(Run(x, s, ts).positions)
  {
    hide CloseUpTo, OpenOne, OpenFault, Enters, HalfDone, EvenCloses, CleanCloses, Sized;
    if ts != [] {
      CleanRunExactly(x, s, ts[..|ts| - 1]);
      var before, t := Run(x, s, ts[..|ts| - 1]), ts[|ts| - 1];
      EvenClosesExactly(x, before, t, |before.positions|);
      OpenFaultExactly(x, CloseUpTo(x, before, t, |before.positions|), t);
    }
  }

  lemma {:induction false} CleanPrefix(x: Setup, s: State, ts: seq<Tick>, k: nat)
    requires CleanRun(x, s, ts) && k <= |ts|
    ensures CleanRun(x, s, ts[..k])
  {
    if k < |ts| {
      CleanPrefix(x, s, ts[..|ts| - 1], k);
      assert ts[..|ts| - 1][..k] == ts[..k];
    } else {
      assert ts[..k] == ts;
    }
  }

  /**
   * ... so after every tick of a clean single-symbol run from flat venues, both venues equal the open positions:
   * Upbit their signed sum, Binance its negation.
   */
  lemma CleanRunsAgree(x: Setup, s: State, ts: seq<Tick>, symbol: string, k: nat)
    requires !x.dryRun && s.positions == [] && UpbitNet(s.venues, symbol) == 0.0 == BinanceNet(s.venues, symbol)
    requires forall i :: 0 <= i < |ts| ==> ts[i].opp.symbol == symbol && ts[i].opp.upbitPrice != 0.0
    requires CleanRun(x, s, ts) && k <= |ts|
    ensures var s' := Run(x, s, ts[..k]);
            && UpbitNet(s'.venues, symbol) == Holdings(s'.positions, symbol)
            && BinanceNet(s'.venues, symbol) == -Holdings(s'.positions, symbol)
  {
    hide Run, RunFaults, CleanRun, Holdings;
    CleanPrefix(x, s, ts, k);
    CleanRunNoFault(x, s, ts[..k]);
    LedgersAgreeExactly(x, s, ts[..k], symbol);
  }

  // ---------------------------------------------------------------- single exits and their money

  /**
   * An exit keeps Upbit in step with the position exactly when its first leg is rejected, or both legs are accepted for
   * the position's own symbol, or the half-done legs hit another market: the closing loop does not look at the symbol.
   */
  lemma ExitKeepsStep(x: Setup, vs: Venues, p: Pos, t: Tick)
    requires !x.dryRun && t.opp.upbitPrice != 0.0 && p.Open() && p.size > 0.0
    ensures var (vs', ok) := ExitLegs(x, vs, p, t.opp);
            var held := if ok then 0.0 else Signed(p.direction, p.size);
            UpbitNet(vs', p.symbol) - held == UpbitNet(vs, p.symbol) - Signed(p.direction, p.size) <==>
              || !x.world.upbitAccepts(vs.upbit.orders)
              || (x.world.binanceAccepts(vs.binance.orders) == (t.opp.symbol == p.symbol))
  {
    hide UpbitFill;
    ExitMoves(x, vs, p, t.opp);
    MarketsDiffer(p.symbol, t.opp.symbol);
  }

  lemma MarketsDiffer(s: string, s': string)
    ensures UpbitMarket(s) == UpbitMarket(s') <==> s == s'
    ensures BinanceSymbol(s) == BinanceSymbol(s') <==> s == s'
  {
    assert UpbitMarket(s)[4..] == s && UpbitMarket(s')[4..] == s';
    assert BinanceSymbol(s)[..|BinanceSymbol(s)| - 4] == s && BinanceSymbol(s')[..|BinanceSymbol(s')| - 4] == s';
  }

  /** Cash moved by a fill. */
  function Cash(fill: real, price: real): real { -fill * price }

  /** Opening and closing a position pays out exactly the P&L it reports: the cash of its four fills. */
  lemma RoundTripPays(c: RiskConfig, d: Direction, size: real, o: Opportunity, exit: Opportunity, openedAt: real, closedAt: real)
    requires o.upbitPrice != 0.0 && exit.upbitPrice != 0.0
    ensures Closed(c, Opened(o, Some(d), size, openedAt), exit, closedAt).exit.value.pnlKrw
         == Cash(UpbitFill(EntryUpbit(Some(d), size, o), o.upbitPrice), o.upbitPrice)
            + Cash(UpbitFill(ExitUpbit(d, size, exit), exit.upbitPrice), exit.upbitPrice)
            + (Cash(BinanceFill(EntryBinance(Some(d)), size), o.binancePrice)
               + Cash(BinanceFill(ExitBinance(d), size), exit.binancePrice)) * c.usdkrw
  {
    hide UpbitFill;
    LegFills(Some(d), size, o);
    LegFills(Some(d), size, exit);
    BidFills(size, exit.upbitPrice);
    assert UpbitFill(ExitUpbit(d, size, exit), exit.upbitPrice) == -Signed(d, size) by { if d == UpbitLong {} }
    if d == UpbitLong { CashLegs(size, o, exit, c.usdkrw); } else { CashLegs(-size, o, exit, c.usdkrw); }
  }

  lemma CashLegs(q: real, o: Opportunity, exit: Opportunity, fx: real)
    ensures Cash(q, o.upbitPrice) + Cash(-q, exit.upbitPrice) == (exit.upbitPrice - o.upbitPrice) * q
    ensures Cash(-q, o.binancePrice) + Cash(q, exit.binancePrice) == (o.binancePrice - exit.binancePrice) * q
  {
  }

  // ---------------------------------------------------------------- the executor

  class LiveExecutor {
    const x: Setup
    var positions: seq<Position>
    var venues: Venues

    constructor (x: Setup, venues: Venues)
      ensures Valid() && this.x == x && Now() == State(venues, [])
    {
      this.x, this.venues, positions := x, venues, [];
    }

    ghost predicate Valid()
      reads this
    {
      Distinct(positions)
    }

    ghost function Now(): State
      reads this, positions
    {
      State(venues, Values(positions))
    }

    method PlaceUpbitOrder(market: string, plan: UpbitPlan, quote: real) returns (ok: bool)
      modifies `venues
      ensures ok == (x.dryRun || x.world.upbitAccepts(old(venues).upbit.orders))
      ensures venues == if x.dryRun then old(venues) else
                old(venues).(upbit := Send(old(venues).upbit, x.world.upbitAccepts, market, UpbitFill(plan, quote)))
    {
      if x.dryRun { return true; }
      ok := x.world.upbitAccepts(venues.upbit.orders);
      venues := venues.(upbit := Send(venues.upbit, x.world.upbitAccepts, market, UpbitFill(plan, quote)));
    }

    method PlaceBinanceOrder(symbol: string, side: BinanceSide, quantity: real) returns (ok: bool)
      modifies `venues
      ensures ok == (x.dryRun || x.world.binanceAccepts(old(venues).binance.orders))
      ensures venues == if x.dryRun then old(venues) else
                old(venues).(binance := Send(old(venues).binance, x.world.binanceAccepts, symbol, BinanceFill(side, quantity)))
    {
      if x.dryRun { return true; }
      ok := x.world.binanceAccepts(venues.binance.orders);
      venues := venues.(binance := Send(venues.binance, x.world.binanceAccepts, symbol, BinanceFill(side, quantity)));
    }

    /** One opposite order per executed leg; a rejected rollback order is only logged. */
    method RollbackEntry(d: Option<Direction>, size: real, o: Opportunity, executed: seq<string>)
      modifies `venues
      ensures var upbit, binance := old(venues).upbit, old(venues).binance;
              venues == if x.dryRun then old(venues) else Venues(
                if "upbit" !in executed then upbit
                else Send(upbit, x.world.upbitAccepts, UpbitMarket(o.symbol), UpbitFill(RollbackUpbit(d, size, o), o.upbitPrice)),
                if "binance" !in executed then binance
                else Send(binance, x.world.binanceAccepts, BinanceSymbol(o.symbol), -BinanceFill(EntryBinance(d), size)))
    {
      if x.dryRun { return; }
      if "upbit" in executed {
        var plan := Ask(size);
        if d == Some(UpbitShort) { plan := Bid(Notional(size, o.upbitPrice)); }
        var _ := PlaceUpbitOrder(UpbitMarket(o.symbol), plan, o.upbitPrice);
      }
      if "binance" in executed {
        var side := if d == Some(UpbitLong) then Buy else Sell;
        var _ := PlaceBinanceOrder(BinanceSymbol(o.symbol), side, size);
      }
    }

    /** Both legs in order; a rejection raises after the rollback. */
    method PlaceTwoLegs(o: Opportunity, first: UpbitPlan, side: BinanceSide, d: Option<Direction>, size: real) returns (ok: bool)
      modifies `venues
      ensures (venues, ok) == TwoLegs(x, old(venues), o, first, side, size, RollbackUpbit(d, size, o))
    {
      hide UpbitFill, RollbackUpbit;
      var executed: seq<string> := [];
      ok := PlaceUpbitOrder(UpbitMarket(o.symbol), first, o.upbitPrice);
      if ok {
        executed := executed + ["upbit"];
        ok := PlaceBinanceOrder(BinanceSymbol(o.symbol), side, size);
      }
      if !ok { RollbackEntry(d, size, o, executed); }
    }

    /** None stands for the raised error. */
    method ExecuteEntry(d: Option<Direction>, size: real, o: Opportunity, wall: real) returns (p: Option<Position>)
      requires Valid()
      modifies this
      ensures Valid()
      ensures var (vs, ok) := Entry(x, old(venues), d, size, o);
              && ok == p.Some?
              && Now() == State(vs, old(Values(positions)) + if ok then [Opened(o, d, size, wall)] else [])
      ensures positions == old(positions) + if p.Some? then [p.value] else []
      ensures p.Some? ==> fresh(p.value)
    {
      hide Distinct;
      p := None;
      if size > 0.0 {
        var ok := PlaceTwoLegs(o, EntryUpbit(d, size, o), EntryBinance(d), d, size);
        if ok {
          var position := new Position(o, d, size, wall);
          DistinctExtend(positions, position);
          positions, p := positions + [position], Some(position);
        }
      }
    }

    method ExecuteExit(p: Position, o: Opportunity, wall: real) returns (ok: bool)
      modifies `venues, p
      ensures (venues, ok) == ExitLegs(x, old(venues), old(p.Value()), o)
      ensures p.Value() == if ok then Closed(x.risk, old(p.Value()), o, wall) else old(p.Value())
    {
      ok := PlaceTwoLegs(o, ExitUpbit(p.direction, p.size, o), ExitBinance(p.direction), Some(p.direction), p.size);
      if ok { p.Close(x.risk, o, wall); }
    }

    method CloseAll(t: Tick) returns (signals: seq<Signal>)
      requires Valid()
      modifies `venues, set p | p in positions
      ensures Valid() && positions == old(positions)
      ensures Now() == CloseUpTo(x, old(Now()), t, |old(positions)|)
      ensures signals == CloseSignals(x, old(Now()), t, |old(positions)|)
    {
      hide Distinct, ShouldClose, ExitLegs, Closed;
      ghost var start := Now();
      signals := [];
      for i := 0 to |positions|
        invariant Valid() && positions == old(positions)
        invariant Now() == CloseUpTo(x, start, t, i) && signals == CloseSignals(x, start, t, i)
      {
        var p := positions[i];
        if p.Value().Open() && ShouldClose(x.risk, p.Value(), t.opp, t.now) {
          ghost var before := Values(positions);
          DistinctPairs(positions);
          var ok := ExecuteExit(p, t.opp, t.wall);
          assert Values(positions) == if ok then before[i := p.Value()] else before;
          if ok { signals := signals + [CloseSignal(p.symbol, p.direction)]; }
        }
      }
    }

    method OnOpportunity(t: Tick) returns (signals: seq<Signal>)
      requires Valid()
      modifies this, set p | p in positions
      ensures Valid() && Now() == OnTick(x, old(Now()), t) && signals == Signals(x, old(Now()), t)
      ensures old(positions) <= positions && forall p | p in positions :: p in old(positions) || fresh(p)
    {
      hide CloseUpTo, CloseSignals, CanOpen, Entry, Distinct;
      signals := CloseAll(t);
      ghost var closed := Now();
      var size := SizeKrw(x.risk, MidPrice(t.opp));
      if CanOpen(x.risk, Values(positions), t.opp, t.opp.symbol) && size > 0.0 {
        var p := ExecuteEntry(Some(EntryDirection(t.opp)), size, t.opp, t.wall);
        if p.Some? { signals := signals + [OpenSignal(p.value.symbol, p.value.direction)]; }
      }
      assert Values(positions) == OpenOne(x, closed, t).positions;
    }
  }
}
