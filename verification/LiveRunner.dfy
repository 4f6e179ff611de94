/** The live loop: engine trades become tracked orders and booked P&L, gated by the risk guard. */
module LiveRunner {
  import opened Prelude
  import opened ArbitrageCore
  import opened ArbitrageRuns
  import opened LiveLedger

  // ---------------------------------------------------------------- inputs the code does not control

  /** What became of sending the two orders of an open: both accepted, not sent, or a division raised outside the guard. */
  datatype OpenReply = Filled | NotExecuted | Raised

  /** Exchange replies and the wall-clock loss cycle, by position in the list being executed. */
  datatype World = World(reply: nat -> OpenReply, lossCycle: nat -> bool)

  datatype CycleInput = CycleInput(snapshot: Option<Snapshot>, world: World)

  datatype Params = Params(engine: Config, limits: RiskLimits, campaign: string, symbol: string)

  // ---------------------------------------------------------------- campaign-forced losses

  function Upper(c: char): char { if 'a' <= c <= 'z' then c - 'a' + 'A' else c }

  predicate HasEth(symbol: string) {
    exists i :: 0 <= i <= |symbol| - 3 && Upper(symbol[i]) == 'E' && Upper(symbol[i + 1]) == 'T' && Upper(symbol[i + 2]) == 'H'
  }

  /** Share of a winning close that the campaign turns into a loss; None if it forces none. */
  function LossShare(campaign: string, symbol: string): Option<real> {
    if campaign == "C3" || campaign == "M1" then Some(0.5)
    else if campaign == "M2" then if HasEth(symbol) then Some(0.5) else None
    else if campaign == "M3" then Some(if HasEth(symbol) then 0.8 else 0.4)
    else None
  }

  function Forced(p: Params, pnl: real, lossCycle: bool): bool {
    pnl > 0.0 && lossCycle && LossShare(p.campaign, p.symbol).Some?
  }

  function LossAmount(pnl: real, share: real): real { pnl * share }

  function FinalPnl(p: Params, pnl: real, lossCycle: bool): real {
    if Forced(p, pnl, lossCycle) then -LossAmount(pnl, LossShare(p.campaign, p.symbol).value) else pnl
  }

  // ---------------------------------------------------------------- executing a list of trades, on values

  datatype State = State(
    ledger: Ledger, active: set<string>, openedCount: int, perSymbolOpened: map<string, int>, stop: bool)

  /** `halted` is the loop's `break`. */
  datatype Progress = Progress(st: State, halted: bool)

  ghost function ExecuteOne(p: Params, e: Progress, t: Trade, reply: OpenReply, lossCycle: bool): Progress {
    if e.halted then e
    else if t.isOpen then
      match Check(p.limits, e.st.ledger.dailyLoss, t.notionalUsd, |e.st.active|)
      case SessionStop => Progress(e.st.(stop := true), true)
      case TradeRejected => e
      case Ok =>
        match reply
        case Filled =>
          e.(st := e.st.(active := e.st.active + {t.openTimestamp}, openedCount := e.st.openedCount + 2,
                         perSymbolOpened := e.st.perSymbolOpened[p.symbol := GetInt(e.st.perSymbolOpened, p.symbol) + 1]))
        case NotExecuted => e.(st := e.st.(openedCount := e.st.openedCount + 1))
        case Raised => e
    else if t.pnlUsd.None? then e
    else
      e.(st := e.st.(ledger := Book(e.st.ledger, p.symbol, FinalPnl(p, t.pnlUsd.value, lossCycle)),
                     active := e.st.active - {t.openTimestamp}))
  }

  ghost function Execute(p: Params, st: State, ts: seq<Trade>, w: World): Progress {
    if ts == [] then Progress(st, false)
    else
      var i := |ts| - 1;
      ExecuteOne(p, Execute(p, st, ts[..i], w), ts[i], w.reply(i), w.lossCycle(i))
  }

  lemma ExecuteUnfolds(p: Params, st: State, ts: seq<Trade>, i: nat, w: World)
    requires i < |ts|
    ensures Execute(p, st, ts[..i + 1], w) == ExecuteOne(p, Execute(p, st, ts[..i], w), ts[i], w.reply(i), w.lossCycle(i))
  {
    hide ExecuteOne;
    assert ts[..i + 1][..i] == ts[..i];
  }

  /** After the `break` the rest of the list is not looked at. */
  lemma {:induction false} HaltedStays(p: Params, st: State, ts: seq<Trade>, k: nat, w: World)
    requires k <= |ts| && (k == |ts| || Execute(p, st, ts[..k], w).halted)
    ensures Execute(p, st, ts, w) == Execute(p, st, ts[..k], w)
  {
    if k < |ts| {
      assert ts[..|ts| - 1][..k] == ts[..k];
      HaltedStays(p, st, ts[..|ts| - 1], k, w);
    } else {
      assert ts[..k] == ts;
    }
  }

  /** A stop request ends the list where it is made: nothing behind it is executed. */
  lemma {:induction false} StopHalts(p: Params, st: State, ts: seq<Trade>, k: nat, w: World)
    requires k <= |ts| && !st.stop && Execute(p, st, ts[..k], w).st.stop
    ensures Execute(p, st, ts, w) == Execute(p, st, ts[..k], w)
  {
    StoppedIsHalted(p, st, ts[..k], w);
    HaltedStays(p, st, ts, k, w);
  }

  lemma {:induction false} StoppedIsHalted(p: Params, st: State, ts: seq<Trade>, w: World)
    requires !st.stop
    ensures Execute(p, st, ts, w).halted == Execute(p, st, ts, w).st.stop
  {
    if ts != [] { StoppedIsHalted(p, st, ts[..|ts| - 1], w); }
  }

  /** The closes a list of trades books, in order. */
  function ClosesOf(p: Params, ts: seq<Trade>, w: World): seq<Close> {
    if ts == [] then []
    else
      var i := |ts| - 1;
      ClosesOf(p, ts[..i], w)
      + if !ts[i].isOpen && ts[i].pnlUsd.Some? then [Close(p.symbol, FinalPnl(p, ts[i].pnlUsd.value, w.lossCycle(i)))] else []
  }

  function Stamps(ts: seq<Trade>): set<string> {
    if ts == [] then {} else Stamps(ts[..|ts| - 1]) + {ts[|ts| - 1].openTimestamp}
  }

  ghost predicate AllClosed(ts: seq<Trade>) {
    forall i :: 0 <= i < |ts| ==> !ts[i].isOpen && ts[i].pnlUsd.Some?
  }

  lemma {:induction false} BookAllAppend(l: Ledger, xs: seq<Close>, ys: seq<Close>)
    ensures BookAll(l, xs + ys) == BookAll(BookAll(l, xs), ys)
  {
    if ys == [] {
      assert xs + ys == xs;
    } else {
      assert (xs + ys)[..|xs + ys| - 1] == xs + ys[..|ys| - 1];
      BookAllAppend(l, xs, ys[..|ys| - 1]);
    }
  }

  /** A list of closes is executed in full: nothing halts it, everything is booked, the keys are dropped. */
  lemma {:induction false} ClosesAreAllBooked(p: Params, st: State, ts: seq<Trade>, w: World)
    requires AllClosed(ts)
    ensures var e := Execute(p, st, ts, w);
            && !e.halted
            && e.st == st.(ledger := BookAll(st.ledger, ClosesOf(p, ts, w)),
                           active := st.active - Stamps(ts))
  {
    if ts != [] {
      var i := |ts| - 1;
      ClosesAreAllBooked(p, st, ts[..i], w);
      var last := Close(p.symbol, FinalPnl(p, ts[i].pnlUsd.value, w.lossCycle(i)));
      BookAllAppend(st.ledger, ClosesOf(p, ts[..i], w), [last]);
      assert BookAll(BookAll(st.ledger, ClosesOf(p, ts[..i], w)), [last])
          == Book(BookAll(st.ledger, ClosesOf(p, ts[..i], w)), last.symbol, last.pnl) by {
        assert [last][..0] == [];
      }
    }
  }

  /** What each campaign makes of a close in a loss cycle: half of a win is lost, or two fifths, or four fifths for ETH in M3. */
  lemma CampaignPnl(p: Params, pnl: real, lossCycle: bool)
    ensures FinalPnl(p, pnl, lossCycle) ==
              if pnl <= 0.0 || !lossCycle then pnl
              else if p.campaign == "C3" || p.campaign == "M1" || (p.campaign == "M2" && NamesEth(p.symbol)) then -pnl / 2.0
              else if p.campaign == "M3" then (if NamesEth(p.symbol) then -pnl * 4.0 / 5.0 else -pnl * 2.0 / 5.0)
              else pnl
  {
    EthIsNamed(p.symbol);
    hide HasEth, NamesEth;
  }

  /** The symbol has the letters of ETH in a row, in either case. */
  predicate NamesEth(symbol: string) {
    exists i :: 0 <= i < |symbol| - 2 && symbol[i] in {'E', 'e'} && symbol[i + 1] in {'T', 't'} && symbol[i + 2] in {'H', 'h'}
  }

  lemma EthIsNamed(symbol: string)
    ensures HasEth(symbol) <==> NamesEth(symbol)
  {
    forall c: char ensures (Upper(c) == 'E' <==> c in {'E', 'e'}) && (Upper(c) == 'T' <==> c in {'T', 't'})
                           && (Upper(c) == 'H' <==> c in {'H', 'h'}) {}
    hide Upper;
  }

  // ---------------------------------------------------------------- sessions

  /** The engine's open trades beside the runner's state. */
  datatype Session = Session(open: seq<Trade>, st: State)

  function FreshState(capital: real): State {
    State(LiveLedger.Fresh(capital), {}, 0, map[], false)
  }

  function Reported(o: Outcome): seq<Trade> { if o.ok then o.closed + o.created else [] }

  ghost function Cycle(p: Params, ss: Session, input: CycleInput): Session {
    if input.snapshot.None? then ss
    else
      var o := Step(p.engine, ss.open, input.snapshot.value);
      Session(o.open, Execute(p, ss.st, Reported(o), input.world).st)
  }

  /** `run_forever`: a requested stop is looked at before every cycle. */
  ghost function LiveRun(p: Params, ss: Session, inputs: seq<CycleInput>): Session {
    if inputs == [] then ss
    else
      var before := LiveRun(p, ss, inputs[..|inputs| - 1]);
      if before.st.stop then before else Cycle(p, before, inputs[|inputs| - 1])
  }

  lemma RunUnfolds(p: Params, ss: Session, inputs: seq<CycleInput>, i: nat)
    requires i < |inputs|
    ensures var before := LiveRun(p, ss, inputs[..i]);
            LiveRun(p, ss, inputs[..i + 1]) == if before.st.stop then before else Cycle(p, before, inputs[i])
  {
    hide Cycle;
    assert inputs[..i + 1][..i] == inputs[..i];
  }

  lemma EngineClosesAreClosed(c: Config, open: seq<Trade>, s: Snapshot)
    ensures AllClosed(Step(c, open, s).closed)
    ensures |Step(c, open, s).created| <= 1
    ensures forall t | t in Step(c, open, s).created :: t.isOpen
  {
    ClosureMembers(c, Quote(c, s), open, s.timestamp);
    forall i | 0 <= i < |Step(c, open, s).closed|
      ensures !Step(c, open, s).closed[i].isOpen && Step(c, open, s).closed[i].pnlUsd.Some?
    {
      assert Step(c, open, s).closed[i] in Step(c, open, s).closed;
    }
  }

  ghost function AfterCloses(p: Params, st: State, closed: seq<Trade>, w: World): State {
    st.(ledger := BookAll(st.ledger, ClosesOf(p, closed, w)), active := st.active - Stamps(closed))
  }

  /** What a cycle does to the state: all closes of the step, then at most one gated open. */
  lemma CycleBooksEveryClose(p: Params, st: State, o: Outcome, w: World)
    requires o.ok && AllClosed(o.closed) && |o.created| <= 1
    ensures var booked, n := AfterCloses(p, st, o.closed, w), |o.closed|;
            Execute(p, st, Reported(o), w).st ==
              if o.created == [] then booked
              else ExecuteOne(p, Progress(booked, false), o.created[0], w.reply(n), w.lossCycle(n)).st
  {
    hide ExecuteOne, ClosesOf, Stamps, BookAll;
    var ts := o.closed + o.created;
    ClosesAreAllBooked(p, st, o.closed, w);
    if o.created == [] {
      assert ts == o.closed;
    } else {
      assert ts[..|ts| - 1] == o.closed && ts[|ts| - 1] == o.created[0];
    }
  }

  /** The three bounds an open must meet, given the keys tracked and the loss booked by then. */
  predicate Fits(p: Params, t: Trade, tracked: int, loss: real) {
    t.notionalUsd <= p.limits.maxNotionalPerTrade && tracked < p.limits.maxOpenTrades && loss < p.limits.maxDailyLoss
  }

  /** Only the loss is at its limit. */
  predicate StopsAt(p: Params, t: Trade, tracked: int, loss: real) {
    t.notionalUsd <= p.limits.maxNotionalPerTrade && tracked < p.limits.maxOpenTrades && loss >= p.limits.maxDailyLoss
  }

  /**
   * What a cycle adds to the tracked orders: the created trade, exactly if it is within the per-trade notional, the count
   * and the loss limit after the step's closes, and both orders are accepted. The session stop is requested exactly if
   * only the loss is at its limit. A tracked open is counted twice, one that was not sent once.
   */
  lemma CycleOpensExactly(p: Params, ss: Session, input: CycleInput)
    requires input.snapshot.Some? && Step(p.engine, ss.open, input.snapshot.value).ok
    ensures var o := Step(p.engine, ss.open, input.snapshot.value);
            var kept, loss := ss.st.active - Stamps(o.closed), BookAll(ss.st.ledger, ClosesOf(p, o.closed, input.world)).dailyLoss;
            var st, reply := Cycle(p, ss, input).st, input.world.reply(|o.closed|);
            var opens := o.created != [] && Fits(p, o.created[0], |kept|, loss);
            && (forall key :: key in st.active <==> key in kept || (opens && reply == Filled && key == o.created[0].openTimestamp))
            && st.stop == (ss.st.stop || (o.created != [] && StopsAt(p, o.created[0], |kept|, loss)))
            && st.openedCount == ss.st.openedCount + (if opens then (if reply == Filled then 2 else if reply == NotExecuted then 1 else 0) else 0)
            && st.perSymbolOpened == (if opens && reply == Filled
                 then ss.st.perSymbolOpened[p.symbol := GetInt(ss.st.perSymbolOpened, p.symbol) + 1] else ss.st.perSymbolOpened)
  {
    hide Step, BookAll, ClosesOf, Execute, Stamps;
    var o := Step(p.engine, ss.open, input.snapshot.value);
    EngineClosesAreClosed(p.engine, ss.open, input.snapshot.value);
    CycleBooksEveryClose(p, ss.st, o, input.world);
    if o.created != [] { assert o.created[0] in o.created; }
  }

  /** A position larger than the per-trade notional is never tracked, in any run. */
  lemma {:induction false} OversizedNeverTracked(p: Params, capital: real, inputs: seq<CycleInput>)
    requires p.engine.maxPositionUsd > p.limits.maxNotionalPerTrade
    ensures LiveRun(p, Session([], FreshState(capital)), inputs).st.active == {}
  {
    hide Step, BookAll, ClosesOf, Execute, Stamps;
    if inputs != [] {
      var front, input := inputs[..|inputs| - 1], inputs[|inputs| - 1];
      OversizedNeverTracked(p, capital, front);
      var before := LiveRun(p, Session([], FreshState(capital)), front);
      if !before.st.stop && input.snapshot.Some? {
        var o := Step(p.engine, before.open, input.snapshot.value);
        CreatedAtFullSize(p.engine, before.open, input.snapshot.value);
        if o.ok {
          CycleOpensExactly(p, before, input);
          if o.created != [] { assert o.created[0] in o.created; }
        } else {
          NothingExecuted(p, before.st, input.world);
        }
      }
    }
  }

  lemma CreatedAtFullSize(c: Config, open: seq<Trade>, s: Snapshot)
    ensures forall t | t in Step(c, open, s).created :: t.notionalUsd == c.maxPositionUsd
  {
  }

  // ---------------------------------------------------------------- tracked orders agree with the engine

  lemma {:induction false} StampsSplit(c: Config, q: Quotes, open: seq<Trade>, ts: string)
    ensures Stamps(open) == Stamps(Kept(c, q, open)) + Stamps(Closures(c, q, open, ts))
  {
    if open != [] { StampsSplit(c, q, open[..|open| - 1], ts); }
  }

  lemma {:induction false} StampsSize(ts: seq<Trade>)
    ensures |Stamps(ts)| <= |ts|
  {
    if ts != [] { StampsSize(ts[..|ts| - 1]); }
  }

  lemma {:induction false} SubsetSize(a: set<string>, b: set<string>)
    requires a <= b
    ensures |a| <= |b|
    decreases |b|
  {
    if b != {} {
      var x :| x in b;
      SubsetSize(a - {x}, b - {x});
    }
  }

  /** Each tracked key is the opening timestamp of a trade the engine still holds open; the guard's count bound holds. */
  ghost predicate InSync(p: Params, ss: Session) {
    && ss.st.active <= Stamps(ss.open)
    && |ss.st.active| <= if p.limits.maxOpenTrades > 0 then p.limits.maxOpenTrades else 0
  }

  lemma OpenStaysInSync(p: Params, st: State, t: Trade, reply: OpenReply, lossCycle: bool, kept: seq<Trade>)
    requires InSync(p, Session(kept, st)) && t.isOpen
    ensures InSync(p, Session(kept + [t], ExecuteOne(p, Progress(st, false), t, reply, lossCycle).st))
  {
    assert (kept + [t])[..|kept|] == kept;
  }

  lemma CycleStaysInSync(p: Params, ss: Session, input: CycleInput)
    requires InSync(p, ss) && p.engine.exchangeAToBRate != 0.0
    ensures InSync(p, Cycle(p, ss, input))
  {
    hide Step, Quote, Kept, Closures, BookAll, ClosesOf, Execute, ExecuteOne;
    if input.snapshot.Some? {
      var c, s := p.engine, input.snapshot.value;
      var q, o := Quote(c, s), Step(c, ss.open, s);
      NoLostClose(c, ss.open, s);
      if o.ok {
        var kept, booked := Kept(c, q, ss.open), AfterCloses(p, ss.st, o.closed, input.world);
        EngineClosesAreClosed(c, ss.open, s);
        CycleBooksEveryClose(p, ss.st, o, input.world);
        StampsSplit(c, q, ss.open, s.timestamp);
        SubsetSize(booked.active, ss.st.active);
        assert InSync(p, Session(kept, booked));
        if o.created == [] {
          assert kept + o.created == kept;
        } else {
          var n := |o.closed|;
          assert o.created == [o.created[0]] && o.created[0] in o.created;
          OpenStaysInSync(p, booked, o.created[0], input.world.reply(n), input.world.lossCycle(n), kept);
        }
      } else {
        assert Execute(p, ss.st, [], input.world).st == ss.st by { NothingExecuted(p, ss.st, input.world); }
      }
    }
  }

  lemma NothingExecuted(p: Params, st: State, w: World)
    ensures Execute(p, st, [], w) == Progress(st, false)
  {
  }

  /** With a non-zero rate a step that raises has closed nothing, so no close goes unreported. */
  lemma NoLostClose(c: Config, open: seq<Trade>, s: Snapshot)
    requires c.exchangeAToBRate != 0.0
    ensures var o := Step(c, open, s);
            && (!o.ok ==> o.open == open && o.closed == [])
            && (o.ok ==> o.open == Kept(c, Quote(c, s), open) + o.created
                         && o.closed == Closures(c, Quote(c, s), open, s.timestamp))
  {
    if s.Valid() { OneDirectionPays(c, s); }
  }

  /** With rate zero a valid book raises and any other gives no signal: nothing is ever opened. */
  lemma {:induction false} ZeroRateOpensNothing(p: Params, capital: real, inputs: seq<CycleInput>)
    requires p.engine.exchangeAToBRate == 0.0
    ensures var ss := LiveRun(p, Session([], FreshState(capital)), inputs); ss.open == [] && ss.st.active == {}
  {
    hide BookAll, MapSum;
    if inputs != [] {
      var front, input := inputs[..|inputs| - 1], inputs[|inputs| - 1];
      ZeroRateOpensNothing(p, capital, front);
      var before := LiveRun(p, Session([], FreshState(capital)), front);
      if input.snapshot.Some? {
        ZeroRateStep(p.engine, input.snapshot.value);
        NothingExecuted(p, before.st, input.world);
      }
    }
  }

  lemma ZeroRateStep(c: Config, s: Snapshot)
    requires c.exchangeAToBRate == 0.0
    ensures var o := Step(c, [], s); o.open == [] && o.closed == [] && o.created == []
  {
    assert c.InA(s.bestAskB) == 0.0;
  }

  function OpenLimit(c: Config): nat {
    if c.maxOpenTrades > 0 then c.maxOpenTrades else 0
  }

  lemma CycleBounded(p: Params, ss: Session, input: CycleInput)
    requires |ss.open| <= OpenLimit(p.engine)
    ensures |Cycle(p, ss, input).open| <= OpenLimit(p.engine)
  {
    hide Execute;
    if input.snapshot.Some? { KeptMembers(p.engine, Quote(p.engine, input.snapshot.value), ss.open); }
  }

  lemma {:induction false} TrackedOrdersAgree(p: Params, capital: real, inputs: seq<CycleInput>)
    ensures var ss := LiveRun(p, Session([], FreshState(capital)), inputs);
            && InSync(p, ss)
            && |ss.st.active| <= |ss.open| <= OpenLimit(p.engine)
  {
    hide Cycle;
    var ss := LiveRun(p, Session([], FreshState(capital)), inputs);
    if p.engine.exchangeAToBRate == 0.0 {
      ZeroRateOpensNothing(p, capital, inputs);
    } else if inputs != [] {
      var before := LiveRun(p, Session([], FreshState(capital)), inputs[..|inputs| - 1]);
      TrackedOrdersAgree(p, capital, inputs[..|inputs| - 1]);
      var input := inputs[|inputs| - 1];
      if !before.st.stop {
        CycleStaysInSync(p, before, input);
        CycleBounded(p, before, input);
      }
    }
    StampsSize(ss.open);
    SubsetSize(ss.st.active, Stamps(ss.open));
  }

  // ---------------------------------------------------------------- every close is booked, and the ledgers agree

  /** No close the engine makes is dropped by the stop's `break`: the step's closes are booked, all of them. */
  lemma NoCloseDropped(p: Params, ss: Session, input: CycleInput)
    requires input.snapshot.Some?
    requires p.engine.exchangeAToBRate != 0.0 || Step(p.engine, ss.open, input.snapshot.value).ok
    ensures var o := Step(p.engine, ss.open, input.snapshot.value);
            && Cycle(p, ss, input).st.ledger == BookAll(ss.st.ledger, ClosesOf(p, o.closed, input.world))
            && Cycle(p, ss, input).st.active * Stamps(o.closed) <= Stamps(o.created)
  {
    hide Step, BookAll, ClosesOf, Execute;
    var c, s := p.engine, input.snapshot.value;
    var o := Step(c, ss.open, s);
    if o.ok {
      EngineClosesAreClosed(c, ss.open, s);
      CycleBooksEveryClose(p, ss.st, o, input.world);
      assert forall t | t in o.created :: t == o.created[0];
      if o.created != [] { assert o.created[0] in o.created; }
    } else {
      NoLostClose(c, ss.open, s);
      NothingExecuted(p, ss.st, input.world);
      NothingBooked(p, ss.st.ledger, input.world);
    }
  }

  lemma NothingBooked(p: Params, l: Ledger, w: World)
    ensures BookAll(l, ClosesOf(p, [], w)) == l
  {
  }

  /** The closes a session books, in order. */
  ghost function SessionCloses(p: Params, ss: Session, inputs: seq<CycleInput>): seq<Close> {
    if inputs == [] then []
    else
      var front, input := inputs[..|inputs| - 1], inputs[|inputs| - 1];
      var before := LiveRun(p, ss, front);
      SessionCloses(p, ss, front)
      + if before.st.stop || input.snapshot.None? then []
        else
          var o := Step(p.engine, before.open, input.snapshot.value);
          if o.ok then ClosesOf(p, o.closed, input.world) else []
  }

  lemma {:induction false} SessionBooks(p: Params, ss: Session, inputs: seq<CycleInput>)
    ensures LiveRun(p, ss, inputs).st.ledger == BookAll(ss.st.ledger, SessionCloses(p, ss, inputs))
  {
    hide Step, ClosesOf, Execute;
    if inputs != [] {
      var front, input := inputs[..|inputs| - 1], inputs[|inputs| - 1];
      SessionBooks(p, ss, front);
      var before := LiveRun(p, ss, front);
      assert SessionCloses(p, ss, front) + [] == SessionCloses(p, ss, front);
      if !before.st.stop && input.snapshot.Some? {
        var o := Step(p.engine, before.open, input.snapshot.value);
        if o.ok {
          NoCloseDropped(p, before, input);
          BookAllAppend(ss.st.ledger, SessionCloses(p, ss, front), ClosesOf(p, o.closed, input.world));
        } else {
          NothingExecuted(p, before.st, input.world);
        }
      }
    }
  }

  /** In every run of a fresh session the ledgers tell its history and agree with one another. */
  lemma SessionLedgersAgree(p: Params, capital: real, inputs: seq<CycleInput>)
    ensures var start := Session([], FreshState(capital));
            var closes := SessionCloses(p, start, inputs);
            var l := LiveRun(p, start, inputs).st.ledger;
            TellsHistory(l, closes, capital) && Balanced(l, Tally(closes, None, Gain))
  {
    var start := Session([], FreshState(capital));
    SessionBooks(p, start, inputs);
    LedgersAgree(SessionCloses(p, start, inputs), capital);
  }

  // ---------------------------------------------------------------- the session stop

  ghost predicate StopIsEarned(p: Params, st: State) {
    st.stop ==> st.ledger.dailyLoss >= p.limits.maxDailyLoss
  }

  lemma {:induction false} ExecuteEarnsStop(p: Params, st: State, ts: seq<Trade>, w: World)
    requires StopIsEarned(p, st)
    ensures var st' := Execute(p, st, ts, w).st;
            StopIsEarned(p, st') && st'.ledger.dailyLoss >= st.ledger.dailyLoss
  {
    hide MapSum;
    if ts != [] { ExecuteEarnsStop(p, st, ts[..|ts| - 1], w); }
  }

  /** Once a cycle has requested the stop, the loop runs no further cycle ... */
  lemma {:induction false} StoppedStays(p: Params, ss: Session, inputs: seq<CycleInput>, k: nat)
    requires k <= |inputs|
    ensures LiveRun(p, ss, inputs[..0]) == ss
    ensures k == |inputs| || LiveRun(p, ss, inputs[..k]).st.stop ==> LiveRun(p, ss, inputs) == LiveRun(p, ss, inputs[..k])
  {
    hide Cycle;
    assert inputs[..0] == [];
    if k < |inputs| {
      assert inputs[..|inputs| - 1][..k] == inputs[..k];
      StoppedStays(p, ss, inputs[..|inputs| - 1], k);
    } else {
      assert inputs[..k] == inputs;
    }
  }

  /** ... and no later check is answered OK. */
  lemma StopEndsTheRun(p: Params, ss: Session, inputs: seq<CycleInput>, k: nat, notional: real, active: int)
    requires k <= |inputs| && StopIsEarned(p, ss.st) && LiveRun(p, ss, inputs[..k]).st.stop
    ensures LiveRun(p, ss, inputs) == LiveRun(p, ss, inputs[..k])
    ensures Check(p.limits, LiveRun(p, ss, inputs).st.ledger.dailyLoss, notional, active) != Ok
  {
    hide LiveRun;
    StoppedStays(p, ss, inputs, k);
    RunEarnsStop(p, ss, inputs);
  }

  lemma {:induction false} RunEarnsStop(p: Params, ss: Session, inputs: seq<CycleInput>)
    requires StopIsEarned(p, ss.st)
    ensures var ss' := LiveRun(p, ss, inputs);
            StopIsEarned(p, ss'.st) && ss'.st.ledger.dailyLoss >= ss.st.ledger.dailyLoss
  {
    hide Step, Execute;
    if inputs != [] {
      var front, input := inputs[..|inputs| - 1], inputs[|inputs| - 1];
      RunEarnsStop(p, ss, front);
      var before := LiveRun(p, ss, front);
      if input.snapshot.Some? {
        ExecuteEarnsStop(p, before.st, Reported(Step(p.engine, before.open, input.snapshot.value)), input.world);
      }
    }
  }

  /** Closes at or above break-even that no campaign turns into losses never feed the daily loss. */
  lemma {:induction false} GainsFeedNoLoss(p: Params, st: State, ts: seq<Trade>, w: World)
    requires LossShare(p.campaign, p.symbol).None? && p.limits.maxDailyLoss > 0.0
    requires st.ledger.dailyLoss == 0.0 && !st.stop
    requires forall t | t in ts :: t.pnlUsd.Some? ==> t.pnlUsd.value >= 0.0
    ensures var st' := Execute(p, st, ts, w).st; st'.ledger.dailyLoss == 0.0 && !st'.stop
  {
    hide MapSum, LossShare;
    if ts != [] {
      assert ts[|ts| - 1] in ts;
      GainsFeedNoLoss(p, st, ts[..|ts| - 1], w);
    }
  }

  /** For campaigns that force no loss the stop is unreachable, whatever the market and the exchanges do. */
  lemma {:induction false} StopUnreachable(p: Params, capital: real, inputs: seq<CycleInput>)
    requires LossShare(p.campaign, p.symbol).None?
    requires p.limits.maxDailyLoss > 0.0 && p.engine.maxPositionUsd >= 0.0
    ensures var ss := LiveRun(p, Session([], FreshState(capital)), inputs);
            AllCovered(p.engine, ss.open) && ss.st.ledger.dailyLoss == 0.0 && !ss.st.stop
  {
    hide Step, Execute, LossShare;
    if inputs != [] {
      var front, input := inputs[..|inputs| - 1], inputs[|inputs| - 1];
      StopUnreachable(p, capital, front);
      var before := LiveRun(p, Session([], FreshState(capital)), front);
      if input.snapshot.Some? {
        var c, s := p.engine, input.snapshot.value;
        StepKeepsCovered(c, before.open, s);
        ClosesAtEdge(c, before.open, s);
        CreatedUnbooked(c, before.open, s);
        GainsFeedNoLoss(p, before.st, Reported(Step(c, before.open, s)), input.world);
      }
    }
  }

  lemma CreatedUnbooked(c: Config, open: seq<Trade>, s: Snapshot)
    ensures forall t | t in Step(c, open, s).created :: t.pnlUsd.None?
  {
  }
}
