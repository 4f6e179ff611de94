/** The P&L ledgers of a live session and the risk guard's decision, as values. */
module LiveLedger {
  import opened Prelude

  function GetInt(m: map<string, int>, k: string): int { if k in m then m[k] else 0 }

  function Reals(m: map<string, int>): map<string, real> { map k | k in m :: m[k] as real }

  lemma MapCountUpdate(m: map<string, int>, k: string)
    ensures MapSum(Reals(m[k := GetInt(m, k) + 1])) == MapSum(Reals(m)) + 1.0
  {
    assert Reals(m[k := GetInt(m, k) + 1]) == Reals(m)[k := (GetInt(m, k) + 1) as real];
    MapSumUpdate(Reals(m), k, (GetInt(m, k) + 1) as real);
  }

  // ---------------------------------------------------------------- the ledgers

  datatype Ledger = Ledger(
    totalPnl: real,
    closed: nat,
    winning: nat,
    perSymbolPnl: map<string, real>,
    perSymbolClosed: map<string, int>,
    perSymbolWinning: map<string, int>,
    initialCapital: real,
    equity: real,
    dailyLoss: real)

  function Fresh(capital: real): Ledger {
    Ledger(0.0, 0, 0, map[], map[], map[], capital, capital, 0.0)
  }

  /** What closing a trade writes: the winning count, the per-symbol maps and the equity ... */
  ghost function BookSymbol(l: Ledger, symbol: string, pnl: real): Ledger {
    var pnls := l.perSymbolPnl[symbol := Get(l.perSymbolPnl, symbol) + pnl];
    l.(winning := l.winning + if pnl > 0.0 then 1 else 0,
       perSymbolPnl := pnls,
       perSymbolClosed := l.perSymbolClosed[symbol := GetInt(l.perSymbolClosed, symbol) + 1],
       perSymbolWinning := if pnl > 0.0 then l.perSymbolWinning[symbol := GetInt(l.perSymbolWinning, symbol) + 1]
                           else l.perSymbolWinning,
       equity := l.initialCapital + MapSum(pnls))
  }

  /** ... and what booking it writes on top: the runner's totals and the guard's daily loss. */
  ghost function Book(l: Ledger, symbol: string, pnl: real): Ledger {
    BookSymbol(l, symbol, pnl).(
      totalPnl := l.totalPnl + pnl,
      closed := l.closed + 1,
      dailyLoss := l.dailyLoss + Loss(pnl))
  }

  /** Booking changes the symbol's entries and, of the rest, only these. */
  lemma BookTouches(l: Ledger, symbol: string, pnl: real)
    ensures var b := Book(l, symbol, pnl);
            && b.totalPnl == l.totalPnl + pnl && b.closed == l.closed + 1 && b.dailyLoss == l.dailyLoss + Loss(pnl)
            && b == BookSymbol(l, symbol, pnl).(totalPnl := b.totalPnl, closed := b.closed, dailyLoss := b.dailyLoss)
            && BookSymbol(l, symbol, pnl).totalPnl == l.totalPnl
            && BookSymbol(l, symbol, pnl).closed == l.closed
            && BookSymbol(l, symbol, pnl).dailyLoss == l.dailyLoss
  {
    hide MapSum;
  }

  datatype Close = Close(symbol: string, pnl: real)

  ghost function BookAll(l: Ledger, closes: seq<Close>): Ledger {
    if closes == [] then l
    else
      var last := closes[|closes| - 1];
      Book(BookAll(l, closes[..|closes| - 1]), last.symbol, last.pnl)
  }

  // ---------------------------------------------------------------- what the ledgers should say, from history alone

  /** Sum of `weigh` over the closes of one symbol, or of all symbols. */
  function Tally(closes: seq<Close>, only: Option<string>, weigh: real -> real): real {
    if closes == [] then 0.0
    else
      var last := closes[|closes| - 1];
      Tally(closes[..|closes| - 1], only, weigh)
      + if only.None? || only.value == last.symbol then weigh(last.pnl) else 0.0
  }

  function Pnl(pnl: real): real { pnl }
  function One(pnl: real): real { 1.0 }
  function Win(pnl: real): real { if pnl > 0.0 then 1.0 else 0.0 }
  function Gain(pnl: real): real { if pnl > 0.0 then pnl else 0.0 }
  function Loss(pnl: real): real { if pnl < 0.0 then -pnl else 0.0 }

  /** Each ledger is the tally its name promises. */
  ghost predicate TellsHistory(l: Ledger, closes: seq<Close>, capital: real) {
    && l.totalPnl == Tally(closes, None, Pnl)
    && l.closed as real == Tally(closes, None, One)
    && l.winning as real == Tally(closes, None, Win)
    && l.dailyLoss == Tally(closes, None, Loss)
    && l.initialCapital == capital
    && l.equity == capital + Tally(closes, None, Pnl)
    && forall symbol ::
         && Get(l.perSymbolPnl, symbol) == Tally(closes, Some(symbol), Pnl)
         && GetInt(l.perSymbolClosed, symbol) as real == Tally(closes, Some(symbol), One)
         && GetInt(l.perSymbolWinning, symbol) as real == Tally(closes, Some(symbol), Win)
  }

  /** The ledgers agree with one another. */
  ghost predicate Balanced(l: Ledger, gains: real) {
    && l.totalPnl == MapSum(l.perSymbolPnl)
    && l.equity == l.initialCapital + l.totalPnl
    && l.closed as real == MapSum(Reals(l.perSymbolClosed))
    && l.winning as real == MapSum(Reals(l.perSymbolWinning))
    && l.totalPnl == gains - l.dailyLoss
  }

  lemma BookKeepsBalance(l: Ledger, gains: real, symbol: string, pnl: real)
    requires Balanced(l, gains)
    ensures Balanced(Book(l, symbol, pnl), gains + Gain(pnl))
  {
    hide MapSum, Reals;
    MapSumUpdate(l.perSymbolPnl, symbol, Get(l.perSymbolPnl, symbol) + pnl);
    MapCountUpdate(l.perSymbolClosed, symbol);
    if pnl > 0.0 { MapCountUpdate(l.perSymbolWinning, symbol); }
  }

  /** After any sequence of closes from a fresh session, every ledger tells the history and they all agree. */
  lemma {:induction false} LedgersAgree(closes: seq<Close>, capital: real)
    ensures TellsHistory(BookAll(Fresh(capital), closes), closes, capital)
    ensures Balanced(BookAll(Fresh(capital), closes), Tally(closes, None, Gain))
  {
    if closes != [] {
      var front, last := closes[..|closes| - 1], closes[|closes| - 1];
      LedgersAgree(front, capital);
      BookKeepsBalance(BookAll(Fresh(capital), front), Tally(front, None, Gain), last.symbol, last.pnl);
    }
  }

  // ---------------------------------------------------------------- the risk guard

  datatype RiskLimits = RiskLimits(maxNotionalPerTrade: real, maxDailyLoss: real, maxOpenTrades: int)

  datatype Decision = Ok | TradeRejected | SessionStop

  function Check(limits: RiskLimits, dailyLoss: real, notional: real, active: int): Decision {
    if notional > limits.maxNotionalPerTrade then TradeRejected
    else if active >= limits.maxOpenTrades then TradeRejected
    else if dailyLoss >= limits.maxDailyLoss then SessionStop
    else Ok
  }

  lemma {:induction false} LossOnlyGrows(l: Ledger, closes: seq<Close>)
    ensures BookAll(l, closes).dailyLoss >= l.dailyLoss
  {
    if closes != [] { LossOnlyGrows(l, closes[..|closes| - 1]); }
  }

  /** One SESSION_STOP, and no later check of any trade is answered OK, whatever is booked in between. */
  lemma StopIsAbsorbing(limits: RiskLimits, l: Ledger, notional: real, active: int,
                        closes: seq<Close>, notional': real, active': int)
    requires Check(limits, l.dailyLoss, notional, active) == SessionStop
    ensures Check(limits, BookAll(l, closes).dailyLoss, notional', active') != Ok
  {
    LossOnlyGrows(l, closes);
  }
}
