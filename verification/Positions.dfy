/** Positions of the two-venue executors, and the risk rules that open and close them. */
module Positions {
  import opened Prelude

  datatype Direction = UpbitLong | UpbitShort

  datatype Opportunity = Opportunity(
    symbol: string, upbitPrice: real, binancePrice: real, binancePriceKrw: real,
    spreadPct: real, netSpreadPct: real, isOpportunity: bool)

  datatype Exit = Exit(upbitPrice: real, binancePrice: real, spreadPct: real, pnlKrw: real, pnlPct: real, closedAt: real)

  /** The value of a position; OPEN as long as there is no exit. */
  datatype Pos = Pos(
    symbol: string, direction: Direction, size: real,
    entryUpbitPrice: real, entryBinancePrice: real, entrySpreadPct: real, openedAt: real,
    exit: Option<Exit>)
  {
    predicate Open() { exit.None? }
  }

  /** Thresholds as the configuration resolves them, per symbol where the source looks them up per symbol. */
  datatype RiskConfig = RiskConfig(
    minNetSpreadPct: string -> real,
    symbolMaxOpen: string -> int,
    portfolioMaxOpen: int,
    exitNetSpreadPct: real,
    maxHoldingSeconds: real,
    maxNotionalKrw: real,
    usdkrw: real)

  // ---------------------------------------------------------------- profit and loss

  function PnlKrw(p: Pos, exitUpbit: real, exitBinance: real, usdkrw: real): real {
    var upbitLeg := if p.direction == UpbitShort then (p.entryUpbitPrice - exitUpbit) * p.size
                    else (exitUpbit - p.entryUpbitPrice) * p.size;
    var binanceLeg := if p.direction == UpbitShort then (exitBinance - p.entryBinancePrice) * p.size
                      else (p.entryBinancePrice - exitBinance) * p.size;
    upbitLeg + binanceLeg * usdkrw
  }

  function PnlPct(p: Pos, pnlKrw: real): real {
    var notional := p.entryUpbitPrice * p.size;
    if notional == 0.0 then 0.0 else pnlKrw / notional * 100.0
  }

  function Closed(c: RiskConfig, p: Pos, o: Opportunity, wall: real): Pos {
    var pnl := PnlKrw(p, o.upbitPrice, o.binancePrice, c.usdkrw);
    p.(exit := Some(Exit(o.upbitPrice, o.binancePrice, o.spreadPct, pnl, PnlPct(p, pnl), wall)))
  }

  function Opened(o: Opportunity, direction: Option<Direction>, size: real, wall: real): Pos {
    Pos(o.symbol, if direction.Some? then direction.value else UpbitLong, size,
        o.upbitPrice, o.binancePrice, o.spreadPct, wall, None)
  }

  // ---------------------------------------------------------------- risk rules

  function OpenCount(ps: seq<Pos>, only: Option<string>): nat {
    if ps == [] then 0
    else
      var last := ps[|ps| - 1];
      OpenCount(ps[..|ps| - 1], only)
      + if last.Open() && (only.None? || only.value == last.symbol) then 1 else 0
  }

  predicate CanOpen(c: RiskConfig, ps: seq<Pos>, o: Opportunity, symbol: string) {
    && o.isOpportunity
    && o.netSpreadPct >= c.minNetSpreadPct(symbol)
    && OpenCount(ps, Some(symbol)) < c.symbolMaxOpen(symbol)
    && OpenCount(ps, None) < c.portfolioMaxOpen
  }

  predicate ShouldClose(c: RiskConfig, p: Pos, o: Opportunity, now: real) {
    || o.netSpreadPct <= c.exitNetSpreadPct
    || (c.maxHoldingSeconds > 0.0 && now - p.openedAt >= c.maxHoldingSeconds)
  }

  function SizeKrw(c: RiskConfig, price: real): real {
    if price <= 0.0 || c.maxNotionalKrw <= 0.0 then 0.0 else c.maxNotionalKrw / price
  }

  /** `(upbit + binance_krw) / 2 or upbit` */
  function MidPrice(o: Opportunity): real {
    var mid := (o.upbitPrice + o.binancePriceKrw) / 2.0;
    if mid == 0.0 then o.upbitPrice else mid
  }

  function EntryDirection(o: Opportunity): Direction {
    if o.upbitPrice <= o.binancePriceKrw then UpbitLong else UpbitShort
  }

  // ---------------------------------------------------------------- the objects

  class Position {
    const symbol: string
    const direction: Direction
    const size: real
    const entryUpbitPrice: real
    const entryBinancePrice: real
    const entrySpreadPct: real
    const openedAt: real
    var exit: Option<Exit>

    constructor (o: Opportunity, direction: Option<Direction>, size: real, wall: real)
      ensures Value() == Opened(o, direction, size, wall)
    {
      symbol, this.size := o.symbol, size;
      this.direction := if direction.Some? then direction.value else UpbitLong;
      entryUpbitPrice, entryBinancePrice, entrySpreadPct := o.upbitPrice, o.binancePrice, o.spreadPct;
      openedAt, exit := wall, None;
    }

    function Value(): Pos
      reads this
    {
      Pos(symbol, direction, size, entryUpbitPrice, entryBinancePrice, entrySpreadPct, openedAt, exit)
    }

    method Close(c: RiskConfig, o: Opportunity, wall: real)
      modifies this
      ensures Value() == Closed(c, old(Value()), o, wall)
    {
      var pnlKrw := PnlKrw(Value(), o.upbitPrice, o.binancePrice, c.usdkrw);
      exit := Some(Exit(o.upbitPrice, o.binancePrice, o.spreadPct, pnlKrw, PnlPct(Value(), pnlKrw), wall));
    }
  }

  function Values(ps: seq<Position>): (vs: seq<Pos>)
    reads ps
    ensures |vs| == |ps|
    ensures forall i :: 0 <= i < |ps| ==> vs[i] == ps[i].Value()
  {
    seq(|ps|, i requires 0 <= i < |ps| reads ps => ps[i].Value())
  }
}
