/** The objects of a live session: risk guard and runner, updated in place and proved against LiveRunner. */
module LiveSession {
  import opened Prelude
  import opened ArbitrageCore
  import opened LiveLedger
  import opened LiveRunner

  datatype GuardState = GuardState(
    dailyLossUsd: real, perSymbolLoss: map<string, real>,
    perSymbolTradesRejected: map<string, int>, perSymbolTradesAllowed: map<string, int>)

  class RiskGuard {
    const limits: RiskLimits
    var dailyLossUsd: real
    var perSymbolLoss: map<string, real>
    var perSymbolTradesRejected: map<string, int>
    var perSymbolTradesAllowed: map<string, int>
    ghost var unattributed: real  // losses booked without naming a symbol

    constructor (limits: RiskLimits)
      ensures Valid() && this.limits == limits && dailyLossUsd == 0.0
    {
      this.limits := limits;
      dailyLossUsd, unattributed := 0.0, 0.0;
      perSymbolLoss, perSymbolTradesRejected, perSymbolTradesAllowed := map[], map[], map[];
    }

    /** The daily loss is what the symbols lost plus what was booked without a symbol. */
    ghost predicate Valid() reads this {
      dailyLossUsd == unattributed + MapSum(perSymbolLoss)
    }

    function CheckTradeAllowed(notional: real, active: int): (d: Decision)
      reads this
      ensures d == Ok <==> notional <= limits.maxNotionalPerTrade && active < limits.maxOpenTrades
                           && dailyLossUsd < limits.maxDailyLoss
      ensures d == SessionStop <==> notional <= limits.maxNotionalPerTrade && active < limits.maxOpenTrades
                                    && dailyLossUsd >= limits.maxDailyLoss
    {
      Check(limits, dailyLossUsd, notional, active)
    }

    method UpdateDailyLoss(pnl: real)
      requires Valid()
      modifies `dailyLossUsd, `unattributed
      ensures Valid() && dailyLossUsd == old(dailyLossUsd) + Loss(pnl)
    {
      if pnl < 0.0 {
        dailyLossUsd, unattributed := dailyLossUsd - pnl, unattributed - pnl;
      }
    }

    method CheckTradeAllowedForSymbol(symbol: string, notional: real, active: int) returns (d: Decision)
      modifies `perSymbolTradesRejected, `perSymbolTradesAllowed
      ensures d == CheckTradeAllowed(notional, active)
      ensures perSymbolTradesRejected == old(if d == TradeRejected
                then perSymbolTradesRejected[symbol := GetInt(perSymbolTradesRejected, symbol) + 1] else perSymbolTradesRejected)
      ensures perSymbolTradesAllowed == old(if d == Ok
                then perSymbolTradesAllowed[symbol := GetInt(perSymbolTradesAllowed, symbol) + 1] else perSymbolTradesAllowed)
    {
      d := CheckTradeAllowed(notional, active);
      match d
      case TradeRejected =>
        perSymbolTradesRejected := perSymbolTradesRejected[symbol := GetInt(perSymbolTradesRejected, symbol) + 1];
      case SessionStop =>
      case Ok =>
        perSymbolTradesAllowed := perSymbolTradesAllowed[symbol := GetInt(perSymbolTradesAllowed, symbol) + 1];
    }

    method UpdateSymbolLoss(symbol: string, pnl: real)
      requires Valid()
      modifies `dailyLossUsd, `perSymbolLoss
      ensures Valid() && dailyLossUsd == old(dailyLossUsd) + Loss(pnl)
      ensures pnl < 0.0 ==> perSymbolLoss == old(perSymbolLoss[symbol := Get(perSymbolLoss, symbol) - pnl])
      ensures pnl >= 0.0 ==> perSymbolLoss == old(perSymbolLoss)
    {
      if pnl < 0.0 {
        MapSumUpdate(perSymbolLoss, symbol, Get(perSymbolLoss, symbol) - pnl);
        perSymbolLoss := perSymbolLoss[symbol := Get(perSymbolLoss, symbol) - pnl];
        dailyLossUsd := dailyLossUsd - pnl;
      }
    }

    function GetState(): GuardState
      reads this
    {
      GuardState(dailyLossUsd, perSymbolLoss, perSymbolTradesRejected, perSymbolTradesAllowed)
    }

    method RestoreState(saved: GuardState)
      modifies this
      ensures Valid() && GetState() == saved
    {
      dailyLossUsd, perSymbolLoss := saved.dailyLossUsd, saved.perSymbolLoss;
      perSymbolTradesRejected, perSymbolTradesAllowed := saved.perSymbolTradesRejected, saved.perSymbolTradesAllowed;
      unattributed := dailyLossUsd - MapSum(perSymbolLoss);
    }
  }

  lemma SameShare(bps: real, loss: real, original: real)
    requires original != 0.0
    ensures -bps * (loss / original) * original == bps * -loss
  {
    var share := loss / original;
    assert share * original == loss;
    assert -bps * share * original == -bps * (share * original);
  }

  /** A tracked order: the live trade object, or what a snapshot kept of it. */
  datatype Order = Live(trade: ArbitrageTrade) | Saved(record: Trade)
  {
    function Record(): Trade
      reads if Live? then {trade} else {}
    {
      if Live? then trade.Value() else record
    }
  }

  datatype SavedState = SavedState(
    loopCount: nat,
    campaign: string,
    activeOrders: map<string, Trade>,
    totalTradesOpened: int,
    totalTradesClosed: nat,
    totalWinningTrades: nat,
    totalPnlUsd: real,
    perSymbolPnl: map<string, real>,
    perSymbolTradesOpened: map<string, int>,
    perSymbolTradesClosed: map<string, int>,
    perSymbolWinningTrades: map<string, int>,
    portfolioInitialCapital: real,
    portfolioEquity: real,
    riskGuard: GuardState)
  {
    /** The runner state a snapshot stands for; whether a stop was requested is not part of it. */
    ghost function State(stop: bool): LiveRunner.State {
      LiveRunner.State(
        Ledger(totalPnlUsd, totalTradesClosed, totalWinningTrades, perSymbolPnl, perSymbolTradesClosed,
               perSymbolWinningTrades, portfolioInitialCapital, portfolioEquity, riskGuard.dailyLossUsd),
        activeOrders.Keys, totalTradesOpened, perSymbolTradesOpened, stop)
    }
  }

  class ArbitrageLiveRunner {
    const engine: ArbitrageEngine
    const guard: RiskGuard
    const symbolB: string
    var campaign: string
    var loopCount: nat
    var sessionStopRequested: bool
    var activeOrders: map<string, Order>
    var totalTradesOpened: int
    var totalTradesClosed: nat
    var totalWinningTrades: nat
    var totalPnlUsd: real
    var perSymbolPnl: map<string, real>
    var perSymbolTradesOpened: map<string, int>
    var perSymbolTradesClosed: map<string, int>
    var perSymbolWinningTrades: map<string, int>
    var portfolioInitialCapital: real
    var portfolioEquity: real

    constructor (engine: ArbitrageEngine, limits: RiskLimits, symbolB: string)
      ensures this.engine == engine && fresh(guard) && guard.Valid() && guard.limits == limits && this.symbolB == symbolB
      ensures State() == FreshState(10000.0)
      ensures activeOrders == map[] && totalTradesOpened == 0 && perSymbolTradesOpened == map[] && !sessionStopRequested
      ensures campaign == "default" && loopCount == 0
    {
      this.engine, this.symbolB := engine, symbolB;
      guard := new RiskGuard(limits);
      campaign, loopCount, sessionStopRequested, activeOrders := "default", 0, false, map[];
      totalTradesOpened, totalTradesClosed, totalWinningTrades, totalPnlUsd := 0, 0, 0, 0.0;
      perSymbolPnl, perSymbolTradesOpened, perSymbolTradesClosed, perSymbolWinningTrades := map[], map[], map[], map[];
      portfolioInitialCapital, portfolioEquity := 10000.0, 10000.0;
    }

    ghost function State(): State
      reads this, guard
    {
      LiveRunner.State(
        Ledger(totalPnlUsd, totalTradesClosed, totalWinningTrades, perSymbolPnl, perSymbolTradesClosed,
               perSymbolWinningTrades, portfolioInitialCapital, portfolioEquity, guard.dailyLossUsd),
        activeOrders.Keys, totalTradesOpened, perSymbolTradesOpened, sessionStopRequested)
    }

    ghost function Params(): Params
      reads this
    {
      LiveRunner.Params(engine.config, guard.limits, campaign, symbolB)
    }

    method UpdatePortfolioMetrics(symbol: string, pnl: real)
      modifies `perSymbolPnl, `perSymbolTradesClosed, `perSymbolWinningTrades, `portfolioEquity
      ensures State() == old(State()).(
                ledger := BookSymbol(old(State()).ledger, symbol, pnl).(winning := totalWinningTrades))
    {
      hide MapSum, Get, GetInt;
      perSymbolPnl := perSymbolPnl[symbol := Get(perSymbolPnl, symbol) + pnl];
      perSymbolTradesClosed := perSymbolTradesClosed[symbol := GetInt(perSymbolTradesClosed, symbol) + 1];
      if pnl > 0.0 {
        perSymbolWinningTrades := perSymbolWinningTrades[symbol := GetInt(perSymbolWinningTrades, symbol) + 1];
      }
      var total := SumValues(perSymbolPnl);
      portfolioEquity := portfolioInitialCapital + total;
    }

    /** The campaign's loss cycle: a winning close is rewritten as a losing one. */
    method ForceLoss(trade: ArbitrageTrade, lossCycle: bool)
      requires trade.pnlUsd.Some?
      modifies trade
      ensures trade.pnlUsd == Some(FinalPnl(Params(), old(trade.pnlUsd.value), lossCycle))
      ensures !Forced(Params(), old(trade.pnlUsd.value), lossCycle) ==> trade.Value() == old(trade.Value())
      ensures Forced(Params(), old(trade.pnlUsd.value), lossCycle) ==>
                trade.Value() == old(trade.Value()).(pnlUsd := trade.pnlUsd, pnlBps := trade.pnlBps) && trade.pnlBps.Some?
                && trade.pnlBps.value * old(trade.pnlUsd.value)
                   == (if old(trade.pnlBps).Some? then old(trade.pnlBps).value else 0.0) * trade.pnlUsd.value
    {
      hide LossShare, LossAmount;
      var share := LossShare(campaign, symbolB);
      if trade.pnlUsd.value > 0.0 && lossCycle && share.Some? {
        var original := trade.pnlUsd.value;
        var lossAmount := LossAmount(original, share.value);
        trade.pnlUsd := Some(-lossAmount);
        SameShare(if trade.pnlBps.Some? then trade.pnlBps.value else 0.0, lossAmount, original);
        trade.pnlBps := Some(-(if trade.pnlBps.Some? then trade.pnlBps.value else 0.0) * (lossAmount / original));
      }
    }

    /** A trade without a P&L raises before anything is changed. */
    method ExecuteCloseTrade(trade: ArbitrageTrade, lossCycle: bool) returns (raised: bool)
      modifies this`perSymbolPnl, this`perSymbolTradesClosed, this`perSymbolWinningTrades, this`portfolioEquity,
               this`totalWinningTrades, this`activeOrders, trade
      ensures raised == old(trade.pnlUsd.None?)
      ensures raised ==> trade.pnlUsd == old(trade.pnlUsd) && State() == old(State())
      ensures !raised ==>
        var pnl, st := FinalPnl(Params(), old(trade.pnlUsd.value), lossCycle), old(State());
        && trade.pnlUsd == Some(pnl)
        && State() == st.(active := st.active - {trade.openTimestamp}, ledger := BookSymbol(st.ledger, symbolB, pnl))
    {
      hide MapSum, FinalPnl, Forced, Get, GetInt;
      if trade.pnlUsd.None? { return true; }
      raised := false;
      ForceLoss(trade, lossCycle);
      var pnl := trade.pnlUsd.value;
      if pnl > 0.0 { totalWinningTrades := totalWinningTrades + 1; }
      UpdatePortfolioMetrics(symbolB, pnl);
      activeOrders := activeOrders - {trade.openTimestamp};
    }

    /** Send both orders; only a fully accepted pair is tracked. */
    method ExecuteOpenTrade(trade: ArbitrageTrade, reply: OpenReply) returns (raised: bool)
      modifies `activeOrders, `totalTradesOpened, `perSymbolTradesOpened
      ensures raised == reply.Raised?
      ensures reply.Filled? ==>
                && activeOrders == old(activeOrders)[trade.openTimestamp := Live(trade)]
                && totalTradesOpened == old(totalTradesOpened) + 1
                && perSymbolTradesOpened == old(perSymbolTradesOpened[symbolB := GetInt(perSymbolTradesOpened, symbolB) + 1])
      ensures !reply.Filled? ==> unchanged(this)
    {
      raised := reply.Raised?;
      if reply.Filled? {
        activeOrders := activeOrders[trade.openTimestamp := Live(trade)];
        totalTradesOpened := totalTradesOpened + 1;
        perSymbolTradesOpened := perSymbolTradesOpened[symbolB := GetInt(perSymbolTradesOpened, symbolB) + 1];
      }
    }

    /** The closing branch of the loop. A raise inside is caught and logged. */
    method CloseAndBook(trade: ArbitrageTrade, lossCycle: bool)
      requires guard.Valid() && !trade.isOpen
      modifies this`perSymbolPnl, this`perSymbolTradesClosed, this`perSymbolWinningTrades, this`portfolioEquity,
               this`totalWinningTrades, this`activeOrders, this`totalTradesClosed, this`totalPnlUsd, guard, trade
      ensures guard.Valid()
      ensures Progress(State(), false)
           == ExecuteOne(old(Params()), Progress(old(State()), false), old(trade.Value()), NotExecuted, lossCycle)
    {
      hide MapSum, FinalPnl, BookSymbol;
      ghost var p, st, was := Params(), State(), trade.Value();
      var raised := ExecuteCloseTrade(trade, lossCycle);
      if !raised {
        totalTradesClosed := totalTradesClosed + 1;
        if trade.pnlUsd.Some? {
          totalPnlUsd := totalPnlUsd + trade.pnlUsd.value;
          guard.UpdateDailyLoss(trade.pnlUsd.value);
        }
        ghost var pnl := FinalPnl(p, was.pnlUsd.value, lossCycle);
        assert State().ledger == Book(st.ledger, symbolB, pnl) by { BookTouches(st.ledger, symbolB, pnl); }
      }
    }

    /** The opening branch, gated by the risk guard. */
    method OpenIfAllowed(trade: ArbitrageTrade, reply: OpenReply) returns (halted: bool)
      requires trade.isOpen
      modifies `activeOrders, `totalTradesOpened, `perSymbolTradesOpened, `sessionStopRequested
      ensures Progress(State(), halted)
           == ExecuteOne(old(Params()), Progress(old(State()), false), old(trade.Value()), reply, false)
    {
      hide MapSum, Book;
      halted := false;
      var decision := guard.CheckTradeAllowed(trade.notionalUsd, |activeOrders|);
      assert |activeOrders| == |activeOrders.Keys|;
      match decision
      case SessionStop =>
        sessionStopRequested, halted := true, true;
      case TradeRejected =>
      case Ok =>
        var raised := ExecuteOpenTrade(trade, reply);
        if !raised { totalTradesOpened := totalTradesOpened + 1; }
    }

    /** One trade of the list; `halted` is the loop's `break`. */
    method ExecuteTrade(trade: ArbitrageTrade, reply: OpenReply, lossCycle: bool) returns (halted: bool)
      requires guard.Valid()
      modifies this, guard, trade
      ensures guard.Valid() && campaign == old(campaign) && loopCount == old(loopCount)
      ensures Progress(State(), halted)
           == ExecuteOne(old(Params()), Progress(old(State()), false), old(trade.Value()), reply, lossCycle)
      ensures old(trade.isOpen) ==> trade.Value() == old(trade.Value())
    {
      hide State, MapSum, Check, FinalPnl, Book;
      halted := false;
      if trade.isOpen {
        halted := OpenIfAllowed(trade, reply);
      } else {
        CloseAndBook(trade, lossCycle);
      }
    }

    method ExecuteTrades(trades: seq<ArbitrageTrade>, w: World)
      requires guard.Valid() && Distinct(trades)
      modifies this, guard, set t | t in trades
      ensures guard.Valid() && campaign == old(campaign) && loopCount == old(loopCount)
      ensures State() == Execute(old(Params()), old(State()), old(Values(trades)), w).st
      ensures forall t | t in trades && old(t.isOpen) :: t.Value() == old(t.Value())
    {
      hide Execute, ExecuteOne, State, Distinct, MapSum, Book, Check, FinalPnl;
      ghost var p, st, was := Params(), State(), Values(trades);
      var i, halted := 0, false;
      NothingExecuted(p, st, w);
      assert was[..0] == [];
      while i < |trades| && !halted
        invariant i <= |trades| && guard.Valid() && campaign == old(campaign) && loopCount == old(loopCount)
        invariant Execute(p, st, was[..i], w) == Progress(State(), halted)
        invariant forall j :: 0 <= j < |trades| && (i <= j || was[j].isOpen) ==> trades[j].Value() == was[j]
        decreases |trades| - i
      {
        ExecuteUnfolds(p, st, was, i, w);
        DistinctPairs(trades);
        halted := ExecuteTrade(trades[i], w.reply(i), w.lossCycle(i));
        i := i + 1;
      }
      HaltedStays(p, st, was, i, w);
      assert was[..|was|] == was;
    }

    /** Engine and runner together. */
    ghost function Now(): Session
      reads this, guard, engine, engine.openTrades
    {
      Session(Values(engine.openTrades), State())
    }

    ghost predicate Valid()
      reads this, guard, engine, engine.openTrades
    {
      guard.Valid() && engine.Valid()
    }

    /** One cycle: snapshot, engine, orders. */
    method RunOnce(input: CycleInput) returns (ran: bool)
      requires Valid()
      modifies this, guard, engine, set t | t in engine.openTrades
      ensures Valid() && Params() == old(Params()) && ran == input.snapshot.Some?
      ensures loopCount == old(loopCount) + 1
      ensures Now() == Cycle(old(Params()), old(Now()), input)
      ensures forall t | t in engine.openTrades :: t in old(engine.openTrades) || fresh(t)
    {
      hide Step, Execute, MapSum, Distinct;
      loopCount := loopCount + 1;
      ran := input.snapshot.Some?;
      if !ran { return; }
      ghost var p, st := Params(), State();
      var ok, trades := engine.OnSnapshot(input.snapshot.value);
      ghost var open := Values(engine.openTrades);
      if !ok { trades := []; DistinctEmpty<ArbitrageTrade>(); }
      ExecuteTrades(trades, input.world);
      assert Values(engine.openTrades) == open;
    }

    /** The loop itself: the inputs last as long as the runtime limit lets it run. */
    method RunForever(inputs: seq<CycleInput>)
      requires Valid()
      modifies this, guard, engine, set t | t in engine.openTrades
      ensures Valid() && Now() == LiveRun(old(Params()), old(Now()), inputs)
      ensures loopCount <= old(loopCount) + |inputs| && (!sessionStopRequested ==> loopCount == old(loopCount) + |inputs|)
    {
      hide LiveRun, Cycle, MapSum;
      ghost var p, start := Params(), Now();
      var i := 0;
      StoppedStays(p, start, inputs, 0);
      while i < |inputs| && !sessionStopRequested
        invariant i <= |inputs| && Valid() && Params() == p && Now() == LiveRun(p, start, inputs[..i])
        invariant loopCount == old(loopCount) + i
        invariant forall t | t in engine.openTrades :: t in old(engine.openTrades) || fresh(t)
      {
        var _ := RunOnce(inputs[i]);
        RunUnfolds(p, start, inputs, i);
        i := i + 1;
      }
      StoppedStays(p, start, inputs, i);
    }

    // -------------------------------------------------------------- collecting and restoring

    method CollectOrders() returns (records: map<string, Trade>)
      ensures records.Keys == activeOrders.Keys
      ensures forall key | key in activeOrders :: records[key] == activeOrders[key].Record()
    {
      records := map[];
      var rest := activeOrders.Keys;
      while rest != {}
        invariant rest <= activeOrders.Keys && records.Keys == activeOrders.Keys - rest
        invariant forall key | key in records :: records[key] == activeOrders[key].Record()
      {
        var key :| key in rest;
        records, rest := records[key := activeOrders[key].Record()], rest - {key};
      }
    }

    /** What is saved stands for the state, and keeps each tracked trade's values. */
    method Collect() returns (saved: SavedState)
      ensures saved.State(sessionStopRequested) == State()
      ensures forall key | key in activeOrders :: saved.activeOrders[key] == activeOrders[key].Record()
      ensures saved.campaign == campaign && saved.loopCount == loopCount && saved.riskGuard == guard.GetState()
    {
      var records := CollectOrders();
      saved := SavedState(loopCount, campaign, records, totalTradesOpened, totalTradesClosed, totalWinningTrades,
                          totalPnlUsd, perSymbolPnl, perSymbolTradesOpened, perSymbolTradesClosed,
                          perSymbolWinningTrades, portfolioInitialCapital, portfolioEquity, guard.GetState());
    }

    method RestoreMetrics(saved: SavedState)
      modifies `totalTradesOpened, `totalTradesClosed, `totalWinningTrades, `totalPnlUsd, `perSymbolPnl,
               `perSymbolTradesOpened, `perSymbolTradesClosed, `perSymbolWinningTrades,
               `portfolioInitialCapital, `portfolioEquity
      ensures State() == saved.State(sessionStopRequested).(
                active := activeOrders.Keys,
                ledger := saved.State(false).ledger.(dailyLoss := guard.dailyLossUsd))
    {
      totalTradesOpened, totalTradesClosed := saved.totalTradesOpened, saved.totalTradesClosed;
      totalWinningTrades, totalPnlUsd := saved.totalWinningTrades, saved.totalPnlUsd;
      perSymbolPnl, perSymbolTradesOpened := saved.perSymbolPnl, saved.perSymbolTradesOpened;
      perSymbolTradesClosed, perSymbolWinningTrades := saved.perSymbolTradesClosed, saved.perSymbolWinningTrades;
      portfolioInitialCapital, portfolioEquity := saved.portfolioInitialCapital, saved.portfolioEquity;
    }

    /** The engine is not touched: its open trades are not part of a snapshot. */
    method Restore(saved: SavedState)
      modifies this, guard
      ensures guard.Valid() && guard.GetState() == saved.riskGuard
      ensures State() == saved.State(old(sessionStopRequested))
      ensures campaign == saved.campaign && loopCount == saved.loopCount
      ensures forall key | key in saved.activeOrders :: activeOrders[key] == Saved(saved.activeOrders[key])
    {
      hide MapSum;
      guard.RestoreState(saved.riskGuard);
      loopCount, campaign := saved.loopCount, saved.campaign;
      RestoreOrders(saved.activeOrders);
      RestoreMetrics(saved);
    }

    method RestoreOrders(records: map<string, Trade>)
      modifies `activeOrders
      ensures activeOrders.Keys == records.Keys
      ensures forall key | key in records :: activeOrders[key] == Saved(records[key])
    {
      activeOrders := map key | key in records :: Saved(records[key]);
    }
  }

  /** A second process takes over from the first: it has the same ledgers, tracked keys and guard, its own stop flag. */
  method Resume(from: ArbitrageLiveRunner, to: ArbitrageLiveRunner)
    requires from != to && from.guard != to.guard
    modifies to, to.guard
    ensures to.guard.Valid() && to.guard.GetState() == from.guard.GetState()
    ensures to.State() == from.State().(stop := old(to.sessionStopRequested))
    ensures to.campaign == from.campaign
    ensures from.guard.Valid() ==> to.guard.unattributed == from.guard.unattributed
  {
    hide MapSum;
    var saved := from.Collect();
    to.Restore(saved);
  }

  /** The stop flag is not saved, but the loss that earned it is: a resumed session still gets no OK. */
  lemma StopSurvivesRestart(p: Params, start: Session, before: seq<CycleInput>, resumed: Session, after: seq<CycleInput>,
                            notional: real, active: int)
    requires StopIsEarned(p, start.st) && LiveRun(p, start, before).st.stop
    requires resumed.st == LiveRun(p, start, before).st.(stop := false)
    ensures Check(p.limits, LiveRun(p, resumed, after).st.ledger.dailyLoss, notional, active) != Ok
  {
    hide LiveRun;
    RunEarnsStop(p, start, before);
    RunEarnsStop(p, resumed, after);
  }

  /** Resuming keeps the books balanced, over everything the resumed session goes on to close. */
  lemma ResumedLedgersAgree(p: Params, capital: real, before: seq<CycleInput>, resumed: Session, after: seq<CycleInput>)
    requires resumed.st == LiveRun(p, LiveRunner.Session([], FreshState(capital)), before).st.(stop := false)
    ensures var closes := SessionCloses(p, LiveRunner.Session([], FreshState(capital)), before) + SessionCloses(p, resumed, after);
            var l := LiveRun(p, resumed, after).st.ledger;
            TellsHistory(l, closes, capital) && Balanced(l, Tally(closes, None, Gain))
  {
    hide LiveRun, SessionCloses, BookAll, Tally;
    var start := LiveRunner.Session([], FreshState(capital));
    SessionBooks(p, start, before);
    SessionBooks(p, resumed, after);
    BookAllAppend(FreshState(capital).ledger, SessionCloses(p, start, before), SessionCloses(p, resumed, after));
    LedgersAgree(SessionCloses(p, start, before) + SessionCloses(p, resumed, after), capital);
  }
}
