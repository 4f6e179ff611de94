/** Offline replay of the engine over a recorded series of snapshots. */
module Backtest {
  import opened Prelude
  import opened ArbitrageCore
  import opened ArbitrageRuns

  datatype BacktestConfig = BacktestConfig(
    initialBalanceUsd: real, maxSteps: Option<int>, stopOnDrawdownPct: Option<real>)

  datatype BacktestResult = BacktestResult(
    totalTrades: nat,
    closedTrades: nat,
    openTrades: nat,
    finalBalanceUsd: real,
    realizedPnlUsd: real,
    maxDrawdownPct: real,
    winRate: real,
    avgPnlPerTradeUsd: real,
    stepsProcessed: nat,
    winningTrades: nat)

  // ---------------------------------------------------------------- peaks and drawdowns of any balance stream

  /** `peak` is the largest of the starting balance and the balances so far. */
  ghost predicate IsPeak(init: real, balances: seq<real>, peak: real) {
    && (peak == init || peak in balances)
    && init <= peak
    && forall b | b in balances :: b <= peak
  }

  function Peak(init: real, balances: seq<real>): real {
    if balances == [] then init
    else
      var before, last := Peak(init, balances[..|balances| - 1]), balances[|balances| - 1];
      if last > before then last else before
  }

  lemma {:induction false} PeakIsPrefixMaximum(init: real, balances: seq<real>)
    ensures IsPeak(init, balances, Peak(init, balances))
  {
    if balances != [] {
      var front, last := balances[..|balances| - 1], balances[|balances| - 1];
      PeakIsPrefixMaximum(init, front);
      assert balances == front + [last];
    }
  }

  function Drawdown(peak: real, balance: real): real {
    if peak > 0.0 then (peak - balance) / peak else 0.0
  }

  /** Drawdown after the j-th balance, against the prefix maximum. */
  function Fall(init: real, balances: seq<real>, j: nat): real
    requires j < |balances|
  {
    Drawdown(Peak(init, balances[..j + 1]), balances[j])
  }

  ghost predicate IsMaxDrawdown(init: real, balances: seq<real>, worst: real) {
    && worst >= 0.0
    && (forall j :: 0 <= j < |balances| ==> Fall(init, balances, j) <= worst)
    && (worst == 0.0 || exists j :: 0 <= j < |balances| && Fall(init, balances, j) == worst)
  }

  /** A drawdown is the part of the peak that is missing, none for a peak that is not positive. */
  lemma FallExactly(init: real, balances: seq<real>, j: nat, peak: real)
    requires j < |balances| && IsPeak(init, balances[..j + 1], peak)
    ensures if peak > 0.0 then Fall(init, balances, j) * peak == peak - balances[j] else Fall(init, balances, j) == 0.0
  {
    PeakIsPrefixMaximum(init, balances[..j + 1]);
    assert peak == Peak(init, balances[..j + 1]);
    if peak > 0.0 { assert (peak - balances[j]) / peak * peak == peak - balances[j]; }
  }

  lemma FallOfPrefix(init: real, balances: seq<real>, last: real, j: nat)
    requires j < |balances|
    ensures Fall(init, balances + [last], j) == Fall(init, balances, j)
  {
    assert (balances + [last])[..j + 1] == balances[..j + 1];
  }

  lemma ExtendMaxDrawdown(init: real, balances: seq<real>, worst: real, last: real)
    requires IsMaxDrawdown(init, balances, worst)
    ensures var fall := Fall(init, balances + [last], |balances|);
            IsMaxDrawdown(init, balances + [last], if fall > worst then fall else worst)
  {
    hide Fall;
    forall j: nat | j < |balances| ensures Fall(init, balances + [last], j) == Fall(init, balances, j) {
      FallOfPrefix(init, balances, last, j);
    }
  }

  /** Where the replay stops, given the balances it produced. */
  ghost predicate StopFires(cfg: BacktestConfig, balances: seq<real>, j: nat)
    requires j < |balances|
  {
    cfg.stopOnDrawdownPct.Some? && Fall(cfg.initialBalanceUsd, balances, j) * 100.0 >= cfg.stopOnDrawdownPct.value
  }

  /** The stop fires when what is missing of the peak, in percent, has reached the threshold. */
  lemma StopFiresExactly(cfg: BacktestConfig, balances: seq<real>, j: nat, peak: real)
    requires j < |balances| && IsPeak(cfg.initialBalanceUsd, balances[..j + 1], peak)
    ensures StopFires(cfg, balances, j) <==>
              cfg.stopOnDrawdownPct.Some? &&
              if peak > 0.0 then (peak - balances[j]) * 100.0 >= cfg.stopOnDrawdownPct.value * peak else 0.0 >= cfg.stopOnDrawdownPct.value
  {
    FallExactly(cfg.initialBalanceUsd, balances, j, peak);
    hide Fall, IsPeak;
    if peak > 0.0 && cfg.stopOnDrawdownPct.Some? {
      ScaledOrder(Fall(cfg.initialBalanceUsd, balances, j) * 100.0, cfg.stopOnDrawdownPct.value, peak);
    }
  }

  lemma ScaledOrder(x: real, y: real, n: real)
    requires n > 0.0
    ensures x >= y <==> x * n >= y * n
  {
    assert (x - y) * n == x * n - y * n;
    if x < y { assert (y - x) * n > 0.0; } else { assert (x - y) * n >= 0.0; }
  }

  ghost predicate StopsHere(cfg: BacktestConfig, balances: seq<real>, available: nat) {
    var n := |balances|;
    && n <= available
    && (cfg.maxSteps.Some? && n > 0 ==> n <= cfg.maxSteps.value)
    && (forall j :: 0 <= j < n - 1 ==> !StopFires(cfg, balances, j))
    && (n < available ==>
          || (n > 0 && StopFires(cfg, balances, n - 1))
          || (cfg.maxSteps.Some? && n >= cfg.maxSteps.value))
  }

  // ---------------------------------------------------------------- accounts of a replay

  function Pnls(ts: seq<Trade>): seq<real> {
    if ts == [] then []
    else Pnls(ts[..|ts| - 1]) + [if ts[|ts| - 1].pnlUsd.Some? then ts[|ts| - 1].pnlUsd.value else 0.0]
  }

  function Wins(ts: seq<Trade>): nat {
    if ts == [] then 0
    else
      var pnl := ts[|ts| - 1].pnlUsd;
      Wins(ts[..|ts| - 1]) + if pnl.Some? && pnl.value > 0.0 then 1 else 0
  }

  predicate Gained(t: Trade) { t.pnlUsd.Some? && t.pnlUsd.value > 0.0 }

  /** The wins are the trades with a positive P&L. */
  lemma {:induction false} WinsExactly(ts: seq<Trade>)
    ensures Wins(ts) == |set i: nat | i < |ts| && Gained(ts[i])|
  {
    if ts != [] {
      var n := |ts| - 1;
      WinsExactly(ts[..n]);
      assert Wins(ts) == Wins(ts[..n]) + if Gained(ts[n]) then 1 else 0;
      hide Wins, Gained;
      var before := set i: nat | i < n && Gained(ts[..n][i]);
      assert (set i: nat | i < |ts| && Gained(ts[i])) == before + if Gained(ts[n]) then {n} else {};
    }
  }

  lemma {:induction false} PnlsAppend(xs: seq<Trade>, ys: seq<Trade>)
    ensures Pnls(xs + ys) == Pnls(xs) + Pnls(ys)
  {
    if ys == [] {
      assert xs + ys == xs;
    } else {
      assert (xs + ys)[..|xs + ys| - 1] == xs + ys[..|ys| - 1];
      PnlsAppend(xs, ys[..|ys| - 1]);
    }
  }

  ghost predicate DistinctTimestamps(snaps: seq<Snapshot>) {
    forall i, j :: 0 <= i < j < |snaps| ==> snaps[i].timestamp != snaps[j].timestamp
  }

  // ---------------------------------------------------------------- membership by value

  /** What appending under a test by value keeps of a list. */
  function Dedup(ts: seq<Trade>): (r: seq<Trade>)
    ensures |r| <= |ts|
  {
    if ts == [] then [] else Include(Dedup(ts[..|ts| - 1]), ts[|ts| - 1])
  }

  /** Python's `not in` and `append`. */
  function Include(ts: seq<Trade>, t: Trade): seq<Trade> { if t in ts then ts else ts + [t] }

  lemma {:induction false} DedupMembers(ts: seq<Trade>)
    ensures forall t :: t in Dedup(ts) <==> t in ts
  {
    if ts != [] {
      DedupMembers(ts[..|ts| - 1]);
      assert ts == ts[..|ts| - 1] + [ts[|ts| - 1]];
    }
  }

  /** It keeps everything exactly when no two elements are equal. */
  lemma {:induction false} DedupKeepsAll(ts: seq<Trade>)
    ensures Dedup(ts) == ts <==> Distinct(ts)
    ensures |Dedup(ts)| == |ts| <==> Distinct(ts)
  {
    if ts != [] {
      var front, last := ts[..|ts| - 1], ts[|ts| - 1];
      DedupKeepsAll(front);
      DedupMembers(front);
      assert ts == front + [last];
    }
  }

  lemma DedupAppend(ts: seq<Trade>, t: Trade)
    ensures Dedup(ts + [t]) == Include(Dedup(ts), t)
  {
    assert (ts + [t])[..|ts|] == ts;
  }

  /** Appending more keeps what was there, and adds only elements of the new part. */
  lemma {:induction false} DedupGrows(xs: seq<Trade>, ys: seq<Trade>) returns (added: seq<Trade>)
    ensures Dedup(xs + ys) == Dedup(xs) + added
    ensures forall t | t in added :: t in ys
  {
    if ys == [] {
      added := [];
      assert xs + ys == xs;
    } else {
      var front, last := ys[..|ys| - 1], ys[|ys| - 1];
      added := DedupGrows(xs, front);
      assert xs + ys == (xs + front) + [last];
      DedupAppend(xs + front, last);
      if last !in Dedup(xs + front) { added := added + [last]; }
    }
  }

  // ---------------------------------------------------------------- what a replay reports, on values

  /** The two lists and the realised P&L, on values. */
  datatype Tally = Tally(all: seq<Trade>, closed: seq<Trade>, realized: real)

  /** One trade the engine reports. */
  function Report(y: Tally, t: Trade): Tally {
    var all := Include(y.all, t);
    if !t.isOpen && t.pnlUsd.Some? && t !in y.closed
    then Tally(all, y.closed + [t], y.realized + t.pnlUsd.value)
    else y.(all := all)
  }

  function ReportAll(y: Tally, ts: seq<Trade>): Tally {
    if ts == [] then y else Report(ReportAll(y, ts[..|ts| - 1]), ts[|ts| - 1])
  }

  lemma {:induction false} ReportTwice(y: Tally, xs: seq<Trade>, ys: seq<Trade>)
    ensures ReportAll(y, xs + ys) == ReportAll(ReportAll(y, xs), ys)
  {
    if ys == [] {
      assert xs + ys == xs;
    } else {
      assert (xs + ys)[..|xs + ys| - 1] == xs + ys[..|ys| - 1];
      ReportTwice(y, xs, ys[..|ys| - 1]);
    }
  }

  /** The closing pass reaches the listed trades too: they are the engine's objects. */
  function MovedAll(c: Config, q: Quotes, ts: seq<Trade>, timestamp: string): (r: seq<Trade>)
    ensures |r| == |ts| && forall i :: 0 <= i < |ts| ==> r[i] == Moved(c, q, ts[i], timestamp)
  {
    seq(|ts|, i requires 0 <= i < |ts| => Moved(c, q, ts[i], timestamp))
  }

  /** One snapshot's step, whose outcome is `o`. */
  function TallyStep(c: Config, y: Tally, s: Snapshot, o: Outcome): Tally {
    if o.ok then ReportAll(y.(all := MovedAll(c, Quote(c, s), y.all, s.timestamp)), o.closed + o.created) else y
  }

  function TallyAfter(c: Config, open: seq<Trade>, snaps: seq<Snapshot>): Tally {
    if snaps == [] then Tally([], [], 0.0)
    else TallyStep(c, TallyAfter(c, open, snaps[..|snaps| - 1]), snaps[|snaps| - 1], LastOutcome(c, open, snaps))
  }

  /** One more snapshot on top of a prefix. */
  lemma Extend(c: Config, open: seq<Trade>, fed: seq<Snapshot>, s: Snapshot)
    ensures var (o, now) := (Step(c, After(c, open, fed), s), fed + [s]);
            && Clean(c, open, now) == (Clean(c, open, fed) && o.ok)
            && After(c, open, now) == o.open
            && ClosedIn(c, open, now) == ClosedIn(c, open, fed) + (if o.ok then o.closed else [])
            && CreatedIn(c, open, now) == CreatedIn(c, open, fed) + o.created
            && TallyAfter(c, open, now) == TallyStep(c, TallyAfter(c, open, fed), s, o)
  {
    hide Step, TallyStep;
    assert (fed + [s])[..|fed|] == fed;
  }

  lemma StepReports(c: Config, open: seq<Trade>, s: Snapshot)
    ensures var o := Step(c, open, s);
            && |o.created| <= 1
            && (forall t | t in o.closed :: !t.isOpen && t.pnlUsd.Some?)
            && (forall t | t in o.created :: t.isOpen && t.openTimestamp == s.timestamp)
  {
    ClosureMembers(c, Quote(c, s), open, s.timestamp);
  }

  // ---------------------------------------------------------------- the closed trades and the money of any replay

  lemma {:induction false} ReportCloses(y: Tally, was: seq<Trade>, ts: seq<Trade>)
    requires y.closed == Dedup(was) && y.realized == Sum(Pnls(y.closed))
    requires forall t | t in ts :: !t.isOpen && t.pnlUsd.Some?
    ensures var now := ReportAll(y, ts); now.closed == Dedup(was + ts) && now.realized == Sum(Pnls(now.closed))
  {
    hide Dedup, Pnls, Sum;
    if ts == [] {
      assert was + ts == was;
    } else {
      var front, last := ts[..|ts| - 1], ts[|ts| - 1];
      ReportCloses(y, was, front);
      assert was + ts == (was + front) + [last];
      DedupAppend(was + front, last);
      PnlStep(ReportAll(y, front).closed, last);
    }
  }

  lemma PnlStep(ts: seq<Trade>, t: Trade)
    ensures Sum(Pnls(ts + [t])) == Sum(Pnls(ts)) + if t.pnlUsd.Some? then t.pnlUsd.value else 0.0
  {
    assert (ts + [t])[..|ts|] == ts;
  }

  lemma {:induction false} ReportOpens(y: Tally, ts: seq<Trade>)
    requires forall t | t in ts :: t.isOpen
    ensures ReportAll(y, ts).closed == y.closed && ReportAll(y, ts).realized == y.realized
  {
    if ts != [] { ReportOpens(y, ts[..|ts| - 1]); }
  }

  /** In every replay, whatever its timestamps: each closed trade of a new value is listed once and its P&L booked once. */
  lemma {:induction false} ClosedTally(c: Config, open: seq<Trade>, snaps: seq<Snapshot>)
    ensures var y := TallyAfter(c, open, snaps); y.closed == Dedup(ClosedIn(c, open, snaps)) && y.realized == Sum(Pnls(y.closed))
  {
    if snaps != [] {
      var fed, s := snaps[..|snaps| - 1], snaps[|snaps| - 1];
      ClosedTally(c, open, fed);
      var y, o, was := TallyAfter(c, open, fed), Step(c, After(c, open, fed), s), ClosedIn(c, open, fed);
      assert fed + [s] == snaps;
      Extend(c, open, fed, s);
      StepReports(c, After(c, open, fed), s);
      hide Step, Dedup, Pnls, Sum, ClosedIn, TallyAfter;
      if o.ok {
        var moved := y.(all := MovedAll(c, Quote(c, s), y.all, s.timestamp));
        ReportTwice(moved, o.closed, o.created);
        ReportCloses(moved, was, o.closed);
        ReportOpens(ReportAll(moved, o.closed), o.created);
      } else {
        assert was + [] == was;
      }
    }
  }

  /** Balance once every close among `snaps` has been booked: closes equal in value are booked once. */
  function Equity(c: Config, open: seq<Trade>, init: real, snaps: seq<Snapshot>): real {
    init + Sum(Pnls(Dedup(ClosedIn(c, open, snaps))))
  }

  ghost predicate IsEquityCurve(c: Config, open: seq<Trade>, init: real, snaps: seq<Snapshot>, balances: seq<real>) {
    && |balances| <= |snaps|
    && forall j :: 0 <= j < |balances| ==> balances[j] == Equity(c, open, init, snaps[..j + 1])
  }

  /** The result of a replay of exactly `snaps` by an engine that held `open`. */
  ghost predicate Reported(c: Config, open: seq<Trade>, init: real, snaps: seq<Snapshot>, r: BacktestResult) {
    var y := TallyAfter(c, open, snaps);
    && r.totalTrades == |y.all| && r.closedTrades == |y.closed| && r.openTrades == |After(c, open, snaps)|
    && r.realizedPnlUsd == y.realized && r.finalBalanceUsd == init + y.realized
    && r.winningTrades == Wins(y.closed)
  }

  /** The books are exact: each trade counted once, each close booked once. */
  ghost predicate Exact(c: Config, snaps: seq<Snapshot>) {
    var y := TallyAfter(c, [], snaps);
    |y.all| == |CreatedIn(c, [], snaps)| && y.closed == ClosedIn(c, [], snaps)
  }

  /** What a result then says: total is closed plus open, and the balance is the sum over exactly the closed trades. */
  lemma ExactAccounts(c: Config, init: real, snaps: seq<Snapshot>, r: BacktestResult)
    requires Clean(c, [], snaps) && Reported(c, [], init, snaps, r) && Exact(c, snaps)
    ensures r.totalTrades == |CreatedIn(c, [], snaps)| && r.closedTrades == |ClosedIn(c, [], snaps)|
    ensures r.totalTrades == r.closedTrades + r.openTrades
    ensures r.openTrades <= if c.maxOpenTrades > 0 then c.maxOpenTrades else 0
    ensures r.realizedPnlUsd == Sum(Pnls(ClosedIn(c, [], snaps))) && r.finalBalanceUsd == init + r.realizedPnlUsd
    ensures r.winningTrades == Wins(ClosedIn(c, [], snaps))
  {
    hide Sum, Pnls, Wins, Clean, After, ClosedIn, CreatedIn, Count, TallyAfter;
    ClosedTally(c, [], snaps);
    OpenCountBounded(c, snaps);
    TradesConserved(c, snaps, "");
  }

  // ---------------------------------------------------------------- distinct timestamps make value equality exact

  lemma {:induction false} CountMember(ts: seq<Trade>, i: nat)
    requires i < |ts|
    ensures Count(ts, ts[i].openTimestamp) >= 1
  {
    if i < |ts| - 1 { CountMember(ts[..|ts| - 1], i); }
  }

  lemma {:induction false} CountTwo(ts: seq<Trade>, i: nat, j: nat)
    requires i < j < |ts| && ts[i].openTimestamp == ts[j].openTimestamp
    ensures Count(ts, ts[i].openTimestamp) >= 2
  {
    if j < |ts| - 1 { CountTwo(ts[..|ts| - 1], i, j); } else { CountMember(ts[..|ts| - 1], i); }
  }

  lemma {:induction false} CreatedAtMostOnce(c: Config, snaps: seq<Snapshot>, stamp: string)
    requires DistinctTimestamps(snaps)
    ensures Count(CreatedIn(c, [], snaps), stamp) <= 1
    ensures Count(CreatedIn(c, [], snaps), stamp) == 1 ==> exists i :: 0 <= i < |snaps| && snaps[i].timestamp == stamp
  {
    if snaps != [] {
      var before, s := snaps[..|snaps| - 1], snaps[|snaps| - 1];
      CreatedAtMostOnce(c, before, stamp);
      var created := LastOutcome(c, [], snaps).created;
      CreatedStamp(c, Quote(c, s), After(c, [], before), s, stamp);
      CountAppend(CreatedIn(c, [], before), created, stamp);
    }
  }

  lemma CreatedStamp(c: Config, q: Quotes, open: seq<Trade>, s: Snapshot, stamp: string)
    ensures Count(StepOn(c, q, open, s).created, stamp) <= if s.timestamp == stamp then 1 else 0
  {
  }

  /** With distinct timestamps a trade that is still open has no namesake among the closed ones. */
  lemma OpenIsNotClosed(c: Config, snaps: seq<Snapshot>, i: nat, j: nat)
    requires Clean(c, [], snaps) && DistinctTimestamps(snaps)
    requires i < |After(c, [], snaps)| && j < |ClosedIn(c, [], snaps)|
    ensures After(c, [], snaps)[i].openTimestamp != ClosedIn(c, [], snaps)[j].openTimestamp
  {
    var stamp := After(c, [], snaps)[i].openTimestamp;
    TradesConserved(c, snaps, stamp);
    CreatedAtMostOnce(c, snaps, stamp);
    CountMember(After(c, [], snaps), i);
    CountMember(ClosedIn(c, [], snaps), j);
  }

  ghost predicate DistinctStamps(ts: seq<Trade>) {
    forall i, j :: 0 <= i < j < |ts| ==> ts[i].openTimestamp != ts[j].openTimestamp
  }

  /** ... and no two trades closed so far share their opening timestamp. */
  lemma ClosedStampsDiffer(c: Config, snaps: seq<Snapshot>)
    requires Clean(c, [], snaps) && DistinctTimestamps(snaps)
    ensures DistinctStamps(ClosedIn(c, [], snaps))
  {
    var closed := ClosedIn(c, [], snaps);
    forall i, j | 0 <= i < j < |closed| ensures closed[i].openTimestamp != closed[j].openTimestamp {
      if closed[i].openTimestamp == closed[j].openTimestamp {
        TradesConserved(c, snaps, closed[i].openTimestamp);
        CreatedAtMostOnce(c, snaps, closed[i].openTimestamp);
        CountTwo(closed, i, j);
      }
    }
  }

  lemma {:induction false} StampsAreDistinct(ts: seq<Trade>)
    requires DistinctStamps(ts)
    ensures Distinct(ts)
  {
    if ts != [] { StampsAreDistinct(ts[..|ts| - 1]); }
  }

  /** The listed trades that are open are the engine's open trades, and every listed trade bears one of the timestamps. */
  ghost predicate Listed(c: Config, snaps: seq<Snapshot>) {
    var y, open := TallyAfter(c, [], snaps).all, After(c, [], snaps);
    && (forall t | t in open :: t in y && t.isOpen)
    && (forall t | t in y :: Stamped(snaps, t.openTimestamp))
  }

  ghost predicate Stamped(snaps: seq<Snapshot>, stamp: string) {
    exists i :: 0 <= i < |snaps| && snaps[i].timestamp == stamp
  }

  lemma {:induction false} ReportKnown(y: Tally, ts: seq<Trade>)
    requires forall t | t in ts :: t in y.all
    ensures ReportAll(y, ts).all == y.all
  {
    if ts != [] { ReportKnown(y, ts[..|ts| - 1]); }
  }

  lemma MovedMember(c: Config, q: Quotes, ts: seq<Trade>, timestamp: string, t: Trade)
    requires t in ts
    ensures Moved(c, q, t, timestamp) in MovedAll(c, q, ts, timestamp)
  {
    var i :| 0 <= i < |ts| && ts[i] == t;
    assert MovedAll(c, q, ts, timestamp)[i] == Moved(c, q, t, timestamp);
  }

  /** Each close the step reports is that of a listed trade, and each trade it keeps is listed. */
  lemma ClosesListed(c: Config, open: seq<Trade>, s: Snapshot, all: seq<Trade>)
    requires forall t | t in open :: t in all && t.isOpen
    requires Step(c, open, s).ok
    ensures var (o, moved) := (Step(c, open, s), MovedAll(c, Quote(c, s), all, s.timestamp));
            && (forall t | t in o.closed :: t in moved)
            && (forall t | t in o.open :: t.isOpen && (t in moved || t in o.created))
  {
    var q, ts := Quote(c, s), s.timestamp;
    ClosureMembers(c, q, open, ts);
    KeptMembers(c, q, open);
    forall t | t in Closures(c, q, open, ts) ensures t in MovedAll(c, q, all, ts) {
      var i :| 0 <= i < |open| && Reverses(c, q, open[i].side) && t == ReversalClose(c, open[i], ts) by { ClosureAt(c, q, open, ts, t); }
      MovedMember(c, q, all, ts, open[i]);
    }
    forall t | t in Kept(c, q, open) ensures t in MovedAll(c, q, all, ts) { MovedMember(c, q, all, ts, t); }
  }

  lemma {:induction false} ClosureAt(c: Config, q: Quotes, open: seq<Trade>, ts: string, t: Trade)
    requires t in Closures(c, q, open, ts)
    ensures exists i :: 0 <= i < |open| && Reverses(c, q, open[i].side) && t == ReversalClose(c, open[i], ts)
  {
    var k := |open| - 1;
    if Reverses(c, q, open[k].side) && t == ReversalClose(c, open[k], ts) {
    } else {
      ClosureAt(c, q, open[..k], ts, t);
    }
  }

  /** A step lists the trade it created unless one of that value is listed, and nothing else. */
  lemma TotalStep(c: Config, fed: seq<Snapshot>, s: Snapshot)
    requires Listed(c, fed) && Step(c, After(c, [], fed), s).ok
    ensures var (y, o) := (TallyAfter(c, [], fed).all, Step(c, After(c, [], fed), s));
            var moved := MovedAll(c, Quote(c, s), y, s.timestamp);
            && TallyAfter(c, [], fed + [s]).all == (if o.created == [] || o.created[0] in moved then moved else moved + o.created)
            && (forall t | t in After(c, [], fed + [s]) :: t.isOpen && t in TallyAfter(c, [], fed + [s]).all)
  {
    var y, open := TallyAfter(c, [], fed), After(c, [], fed);
    var o, moved := Step(c, open, s), y.(all := MovedAll(c, Quote(c, s), y.all, s.timestamp));
    Extend(c, [], fed, s);
    StepReports(c, open, s);
    ClosesListed(c, open, s, y.all);
    hide Step, Clean, After, TallyAfter, ClosedIn, CreatedIn, Listed, MovedAll, Report, Quote;
    ReportTwice(moved, o.closed, o.created);
    ReportKnown(moved, o.closed);
    ReportOne(ReportAll(moved, o.closed), o.created);
  }

  lemma ReportOne(y: Tally, ts: seq<Trade>)
    requires |ts| <= 1
    ensures ReportAll(y, ts).all == if ts == [] || ts[0] in y.all then y.all else y.all + ts
  {
    if ts != [] { assert ts == [ts[0]] && ts[..0] == []; }
  }

  lemma ListedStep(c: Config, fed: seq<Snapshot>, s: Snapshot)
    requires Listed(c, fed) && Step(c, After(c, [], fed), s).ok
    ensures Listed(c, fed + [s])
  {
    var y, open, now := TallyAfter(c, [], fed).all, After(c, [], fed), fed + [s];
    TotalStep(c, fed, s);
    StepReports(c, open, s);
    hide Step, Clean, After, TallyAfter, CreatedIn, Quote, Moved, MovedAll, TallyStep;
    var moved, all := MovedAll(c, Quote(c, s), y, s.timestamp), TallyAfter(c, [], now).all;
    forall k | 0 <= k < |all| ensures Stamped(now, all[k].openTimestamp) {
      if k < |y| {
        assert all[k] == moved[k] && y[k] in y && Stamped(fed, y[k].openTimestamp);
        MovedStamp(c, Quote(c, s), y[k], s.timestamp);
        StampedLater(fed, s, y[k].openTimestamp);
      } else {
        assert now[|fed|].timestamp == s.timestamp == all[k].openTimestamp;
      }
    }
  }

  lemma StampedLater(fed: seq<Snapshot>, s: Snapshot, stamp: string)
    requires Stamped(fed, stamp)
    ensures Stamped(fed + [s], stamp)
  {
    var i :| 0 <= i < |fed| && fed[i].timestamp == stamp;
    assert (fed + [s])[i].timestamp == stamp;
  }

  /** With a new timestamp no trade the step creates has a listed namesake. */
  lemma CreatedUnlisted(c: Config, fed: seq<Snapshot>, s: Snapshot)
    requires Listed(c, fed) && DistinctTimestamps(fed + [s])
    ensures forall t | t in Step(c, After(c, [], fed), s).created ::
              t !in MovedAll(c, Quote(c, s), TallyAfter(c, [], fed).all, s.timestamp)
  {
    var y, open := TallyAfter(c, [], fed).all, After(c, [], fed);
    StepReports(c, open, s);
    hide Step, TallyAfter, After, ReversalClose, Quote;
    forall t | t in Step(c, open, s).created ensures t !in MovedAll(c, Quote(c, s), y, s.timestamp) {
      forall i | 0 <= i < |y| ensures Moved(c, Quote(c, s), y[i], s.timestamp) != t {
        assert y[i] in y && Stamped(fed, y[i].openTimestamp);
        NewTimestamp(fed, s, y[i].openTimestamp);
        MovedStamp(c, Quote(c, s), y[i], s.timestamp);
      }
    }
  }

  lemma NewTimestamp(fed: seq<Snapshot>, s: Snapshot, stamp: string)
    requires DistinctTimestamps(fed + [s]) && Stamped(fed, stamp)
    ensures stamp != s.timestamp
  {
    var i :| 0 <= i < |fed| && fed[i].timestamp == stamp;
    assert (fed + [s])[i].timestamp != (fed + [s])[|fed|].timestamp;
  }

  lemma MovedStamp(c: Config, q: Quotes, t: Trade, timestamp: string)
    ensures Moved(c, q, t, timestamp).openTimestamp == t.openTimestamp
  {
  }

  lemma {:induction false} DistinctTotals(c: Config, snaps: seq<Snapshot>)
    requires Clean(c, [], snaps) && DistinctTimestamps(snaps)
    ensures Listed(c, snaps) && |TallyAfter(c, [], snaps).all| == |CreatedIn(c, [], snaps)|
  {
    if snaps != [] {
      var fed, s := snaps[..|snaps| - 1], snaps[|snaps| - 1];
      DistinctTotals(c, fed);
      assert fed + [s] == snaps;
      hide Step, TallyAfter, Clean, CreatedIn, After, ClosedIn, Listed, DistinctTimestamps, TallyStep;
      Extend(c, [], fed, s);
      StepReports(c, After(c, [], fed), s);
      TotalStep(c, fed, s);
      ListedStep(c, fed, s);
      CreatedUnlisted(c, fed, s);
    }
  }

  /** Distinct timestamps make the books exact ... */
  lemma DistinctTimestampsExact(c: Config, snaps: seq<Snapshot>)
    requires Clean(c, [], snaps) && DistinctTimestamps(snaps)
    ensures Exact(c, snaps)
  {
    hide TallyAfter, ClosedIn, Dedup, Distinct, Clean;
    DistinctTotals(c, snaps);
    ClosedTally(c, [], snaps);
    ClosedStampsDiffer(c, snaps);
    StampsAreDistinct(ClosedIn(c, [], snaps));
    DedupKeepsAll(ClosedIn(c, [], snaps));
  }

  // ---------------------------------------------------------------- ... and nothing less does

  ghost predicate Carries(snaps: seq<Snapshot>, stamps: seq<string>) {
    |snaps| == |stamps| && forall i :: 0 <= i < |stamps| ==> snaps[i].timestamp == stamps[i]
  }

  /** An invalid book that neither closes a trade long on A nor opens one. */
  function IdleBook(c: Config, stamp: string): Snapshot
    requires c.exchangeAToBRate > 0.0
  {
    Snapshot(stamp, 0.0, 1.0, 1.0 / c.exchangeAToBRate, 2.0 / c.exchangeAToBRate)
  }

  /** An invalid book that closes every trade long on A and opens none. */
  function ShutBook(c: Config, stamp: string): Snapshot
    requires c.exchangeAToBRate > 0.0
  {
    Snapshot(stamp, 0.0, 2.0, 1.0 / c.exchangeAToBRate, 2.0 / c.exchangeAToBRate)
  }

  lemma IdleStep(c: Config, open: seq<Trade>, stamp: string)
    requires c.exchangeAToBRate > 0.0 && AllOn(open, LongAShortB)
    ensures Step(c, open, IdleBook(c, stamp)) == Outcome(true, open, [], [])
    ensures !Reverses(c, Quote(c, IdleBook(c, stamp)), LongAShortB)
  {
    var s := IdleBook(c, stamp);
    Requote(c, 1.0);
    BpsOf(c.InA(s.bestBidB) - s.bestAskA, s.bestAskA, 0.0);
    KeepsAll(c, Quote(c, s), open, stamp);
  }

  /** The same book at positions `i` and `j`, idle ones elsewhere. */
  function PairBooks(c: Config, stamps: seq<string>, i: nat, j: nat): (snaps: seq<Snapshot>)
    requires c.exchangeAToBRate > 0.0
    ensures |snaps| == |stamps|
  {
    seq(|stamps|, k requires 0 <= k < |stamps| =>
      if k == i || k == j then SameBook(c, stamps[k]) else IdleBook(c, stamps[k]))
  }

  /** What a run of nothing but trades `t` opened and none closed leaves: `n` open, one listed. */
  ghost predicate Holds(c: Config, fed: seq<Snapshot>, t: Trade, n: nat) {
    var open := seq(n, k => t);
    && Clean(c, [], fed) && After(c, [], fed) == open && CreatedIn(c, [], fed) == open && ClosedIn(c, [], fed) == []
    && TallyAfter(c, [], fed) == Tally(if n == 0 then [] else [t], [], 0.0)
  }

  lemma HoldsNothing(c: Config, t: Trade)
    ensures Holds(c, [], t, 0)
  {
  }

  lemma SameBookHolds(c: Config, fed: seq<Snapshot>, stamp: string, n: nat)
    requires c.exchangeAToBRate > 0.0 && n < c.maxOpenTrades && Holds(c, fed, SameTrade(c, stamp), n)
    ensures Holds(c, fed + [SameBook(c, stamp)], SameTrade(c, stamp), n + 1)
  {
    hide Step, SameBook, SameTrade, After, Clean, CreatedIn, ClosedIn, TallyAfter, Reverses, TallyStep;
    var t, s, open, y := SameTrade(c, stamp), SameBook(c, stamp), After(c, [], fed), TallyAfter(c, [], fed);
    SideOfSame(c, stamp);
    SameBookOpens(c, open, stamp);
    Extend(c, [], fed, s);
    OneReport(c, y, s, Step(c, open, s), t);
    assert open + [t] == seq(n + 1, k => t);
  }

  lemma IdleBookHolds(c: Config, fed: seq<Snapshot>, stamp: string, t: Trade, n: nat)
    requires c.exchangeAToBRate > 0.0 && Holds(c, fed, t, n) && t.side == LongAShortB
    ensures Holds(c, fed + [IdleBook(c, stamp)], t, n)
  {
    hide Step, IdleBook, After, Clean, CreatedIn, ClosedIn, TallyAfter, Reverses, TallyStep;
    var s, open, y := IdleBook(c, stamp), After(c, [], fed), TallyAfter(c, [], fed);
    IdleStep(c, open, stamp);
    Extend(c, [], fed, s);
    NoReport(c, y, s, Step(c, open, s));
  }

  lemma {:induction false} PairRun(c: Config, stamps: seq<string>, i: nat, j: nat, k: nat)
    requires c.exchangeAToBRate > 0.0 && c.maxOpenTrades >= 2
    requires i < j < |stamps| && stamps[i] == stamps[j] && k <= |stamps|
    ensures Holds(c, PairBooks(c, stamps, i, j)[..k], SameTrade(c, stamps[i]), if k <= i then 0 else if k <= j then 1 else 2)
  {
    hide Holds, SameBook, IdleBook, SameTrade;
    var snaps, t := PairBooks(c, stamps, i, j), SameTrade(c, stamps[i]);
    SideOfSame(c, stamps[i]);
    if k == 0 {
      assert snaps[..0] == [];
      HoldsNothing(c, t);
    } else {
      var fed := snaps[..k - 1];
      PairRun(c, stamps, i, j, k - 1);
      assert snaps[..k] == fed + [snaps[k - 1]];
      if k - 1 == i || k - 1 == j {
        SameBookHolds(c, fed, stamps[k - 1], if k - 1 == i then 0 else 1);
      } else {
        IdleBookHolds(c, fed, stamps[k - 1], t, if k <= i then 0 else if k <= j then 1 else 2);
      }
    }
  }

  /** A step that only creates `t`, and moves nothing that is listed. */
  lemma OneReport(c: Config, y: Tally, s: Snapshot, o: Outcome, t: Trade)
    requires t.isOpen && forall u | u in y.all :: u.isOpen ==> !Reverses(c, Quote(c, s), u.side)
    requires o.ok && o.closed == [] && o.created == [t]
    ensures TallyStep(c, y, s, o) == y.(all := Include(y.all, t))
  {
    assert MovedAll(c, Quote(c, s), y.all, s.timestamp) == y.all;
    assert o.closed + o.created == [t] && [t][..0] == [];
    assert ReportAll(y, [t]) == Report(ReportAll(y, []), t) == Report(y, t);
  }

  lemma NoReport(c: Config, y: Tally, s: Snapshot, o: Outcome)
    requires forall u | u in y.all :: !Reverses(c, Quote(c, s), u.side)
    requires o.ok && o.closed == [] && o.created == []
    ensures TallyStep(c, y, s, o) == y
  {
    assert MovedAll(c, Quote(c, s), y.all, s.timestamp) == y.all;
    assert o.closed + o.created == [];
  }

  /**
   * Where two trades may be open, the books are exact for all snapshots that carry given timestamps if and only if these
   * are pairwise distinct.
   */
  lemma ExactTimestamps(c: Config, stamps: seq<string>)
    requires c.exchangeAToBRate > 0.0 && c.maxOpenTrades >= 2
    ensures (forall snaps | Carries(snaps, stamps) && Clean(c, [], snaps) :: Exact(c, snaps)) <==>
            (forall i, j :: 0 <= i < j < |stamps| ==> stamps[i] != stamps[j])
  {
    hide Clean, Exact, SameBook, IdleBook;
    if i, j :| 0 <= i < j < |stamps| && stamps[i] == stamps[j] {
      var snaps := PairBooks(c, stamps, i, j);
      PairRun(c, stamps, i, j, |stamps|);
      assert snaps[..|stamps|] == snaps;
      PairCarries(c, stamps, i, j);
      TwoCreatedOneListed(c, snaps);
    } else {
      forall snaps | Carries(snaps, stamps) && Clean(c, [], snaps) ensures Exact(c, snaps) {
        DistinctTimestampsExact(c, snaps);
      }
    }
  }

  /** Where a run from an empty book stands. */
  ghost predicate At(c: Config, fed: seq<Snapshot>, open: seq<Trade>, closed: seq<Trade>, y: Tally) {
    Clean(c, [], fed) && After(c, [], fed) == open && ClosedIn(c, [], fed) == closed && TallyAfter(c, [], fed) == y
  }

  lemma OpenNext(c: Config, fed: seq<Snapshot>, gain: real, stamp: string, closed: seq<Trade>, y: Tally)
    requires c.exchangeAToBRate > 0.0 && c.maxOpenTrades >= 1 && gain >= 0.0 && gain * 10000.0 >= c.TotalCostBps()
    requires At(c, fed, [], closed, y) && forall u | u in y.all :: !u.isOpen
    ensures var t := NewTrade(c, gain, LongAShortB, stamp);
            At(c, fed + [PayingBook(c.exchangeAToBRate, gain, LongAShortB, stamp)], [t], closed, y.(all := y.all + [t]))
  {
    var s, t := PayingBook(c.exchangeAToBRate, gain, LongAShortB, stamp), NewTrade(c, gain, LongAShortB, stamp);
    assert t.isOpen;
    hide Step, PayingBook, NewTrade, After, Clean, ClosedIn, CreatedIn, TallyAfter, TallyStep;
    PayingBookOpens(c, [], gain, LongAShortB, stamp);
    Extend(c, [], fed, s);
    OneReport(c, y, s, Step(c, [], s), t);
    assert closed + [] == closed && [] + [t] == [t];
  }

  lemma ShutStep(c: Config, t: Trade, stamp: string)
    requires c.exchangeAToBRate > 0.0 && c.closeOnSpreadReversal && t.side == LongAShortB
    ensures var s := ShutBook(c, stamp);
            && Step(c, [t], s) == Outcome(true, [], [ReversalClose(c, t, stamp)], [])
            && Reverses(c, Quote(c, s), LongAShortB) && s.timestamp == stamp
  {
    var s := ShutBook(c, stamp);
    Requote(c, 1.0);
    Requote(c, 2.0);
    BpsOf(c.InA(s.bestBidB) - s.bestAskA, s.bestAskA, -0.5);
    ClosesOnly(c, Quote(c, s), t, stamp);
    hide Kept, Closures, Reverses, ReversalClose;
    assert !s.Valid();
  }

  lemma ClosesOnly(c: Config, q: Quotes, t: Trade, stamp: string)
    requires Reverses(c, q, t.side)
    ensures Kept(c, q, [t]) == [] && Closures(c, q, [t], stamp) == [ReversalClose(c, t, stamp)]
  {
    assert [t][..0] == [];
    assert Kept(c, q, [t]) == Kept(c, q, []) && Closures(c, q, [t], stamp) == Closures(c, q, [], stamp) + [ReversalClose(c, t, stamp)];
  }

  lemma ShutNext(c: Config, fed: seq<Snapshot>, t: Trade, later: string, listed: seq<Trade>, closed: seq<Trade>, y: Tally)
    requires c.exchangeAToBRate > 0.0 && c.closeOnSpreadReversal && t.side == LongAShortB && t.isOpen
    requires At(c, fed, [t], closed, y) && y.all == listed + [t] && forall v | v in listed :: !v.isOpen
    ensures var u := ReversalClose(c, t, later);
            At(c, fed + [ShutBook(c, later)], [], closed + [u], Booked(y.(all := listed), u))
  {
    var s, u := ShutBook(c, later), ReversalClose(c, t, later);
    assert !u.isOpen && u.pnlUsd.Some?;
    hide Step, ShutBook, ReversalClose, After, Clean, ClosedIn, CreatedIn, TallyAfter;
    ShutStep(c, t, later);
    Extend(c, [], fed, s);
    var moved := MovedAll(c, Quote(c, s), y.all, later);
    forall k | 0 <= k < |listed| ensures moved[k] == listed[k] { assert y.all[k] == listed[k] && listed[k] in listed; }
    assert moved == listed + [u] && moved[|listed|] == u && u in moved;
    assert [u] + [] == [u] && [u][..0] == [];
    assert ReportAll(y.(all := moved), [u]) == Report(y.(all := moved), u);
  }

  /** A close whose trade is listed: it is booked unless one of its value is. */
  function Booked(y: Tally, u: Trade): Tally {
    Tally(y.all + [u], Include(y.closed, u), y.realized + if u in y.closed || u.pnlUsd.None? then 0.0 else u.pnlUsd.value)
  }

  /** Open at `stamp`, close at `later`. */
  lemma RoundTrip(c: Config, fed: seq<Snapshot>, gain: real, stamp: string, later: string, closed: seq<Trade>, y: Tally)
    requires c.exchangeAToBRate > 0.0 && c.closeOnSpreadReversal && c.maxOpenTrades >= 1
    requires gain >= 0.0 && gain * 10000.0 >= c.TotalCostBps()
    requires At(c, fed, [], closed, y) && forall v | v in y.all :: !v.isOpen
    ensures var u := ReversalClose(c, NewTrade(c, gain, LongAShortB, stamp), later);
            At(c, fed + [PayingBook(c.exchangeAToBRate, gain, LongAShortB, stamp)] + [ShutBook(c, later)], [], closed + [u], Booked(y, u))
  {
    var t := NewTrade(c, gain, LongAShortB, stamp);
    assert t.isOpen && t.side == LongAShortB;
    hide At, ShutBook, PayingBook, NewTrade, ReversalClose, Booked;
    OpenNext(c, fed, gain, stamp, closed, y);
    var s := PayingBook(c.exchangeAToBRate, gain, LongAShortB, stamp);
    ShutNext(c, fed + [s], t, later, y.all, closed, y.(all := y.all + [t]));
  }

  lemma RoundTripTwice(c: Config, gain: real, stamp: string, later: string)
    requires c.exchangeAToBRate > 0.0 && c.closeOnSpreadReversal && c.maxOpenTrades >= 1
    requires gain >= 0.0 && gain * 10000.0 >= c.TotalCostBps()
    ensures var (s, e) := (PayingBook(c.exchangeAToBRate, gain, LongAShortB, stamp), ShutBook(c, later));
            var u := ReversalClose(c, NewTrade(c, gain, LongAShortB, stamp), later);
            u.pnlUsd.Some? && At(c, [s, e, s, e], [], [u, u], Tally([u, u], [u], u.pnlUsd.value))
  {
    var s, e := PayingBook(c.exchangeAToBRate, gain, LongAShortB, stamp), ShutBook(c, later);
    var u := ReversalClose(c, NewTrade(c, gain, LongAShortB, stamp), later);
    assert !u.isOpen && u.pnlUsd.Some?;
    hide At, ShutBook, ReversalClose, NewTrade, PayingBook, Booked, Pnls, Sum;
    EmptyRun(c);
    BookedTwice(u);
    RoundTrip(c, [], gain, stamp, later, [], Tally([], [], 0.0));
    assert [] + [s] + [e] == [s, e] && [] + [u] == [u];
    RoundTrip(c, [s, e], gain, stamp, later, [u], Tally([u], [u], u.pnlUsd.value));
    assert [s, e] + [s] + [e] == [s, e, s, e] && [u] + [u] == [u, u];
  }

  /** Two trades opened at one timestamp and closed at another are one closed trade to the replay, and one P&L is lost. */
  lemma ClosesMerge(c: Config, stamp: string, later: string)
    requires c.exchangeAToBRate > 0.0 && c.closeOnSpreadReversal && c.maxOpenTrades >= 1 && c.maxPositionUsd > 0.0
    ensures var book := PayingBook(c.exchangeAToBRate, Breakeven(c) + 1.0, LongAShortB, stamp);
            var snaps := [book, ShutBook(c, later), book, ShutBook(c, later)];
            var y, closed := TallyAfter(c, [], snaps), ClosedIn(c, [], snaps);
            Clean(c, [], snaps) && |y.all| == |closed| == 2 && |y.closed| == 1 && y.realized < Sum(Pnls(closed))
  {
    hide ShutBook, ReversalClose, NewTrade, PayingBook, Breakeven, Pnls, Sum, After, Clean, ClosedIn, TallyAfter;
    var gain := Breakeven(c) + 1.0;
    BreakevenCovers(c);
    GainKept(c, gain, stamp, later);
    RoundTripTwice(c, gain, stamp, later);
    BookedTwice(ReversalClose(c, NewTrade(c, gain, LongAShortB, stamp), later));
  }

  lemma BookedTwice(u: Trade)
    requires u.pnlUsd.Some?
    ensures Booked(Tally([], [], 0.0), u) == Tally([u], [u], u.pnlUsd.value)
    ensures Booked(Tally([u], [u], u.pnlUsd.value), u) == Tally([u, u], [u], u.pnlUsd.value)
    ensures Sum(Pnls([u, u])) == u.pnlUsd.value + u.pnlUsd.value
  {
    hide Pnls, Sum;
    PnlStep([u], u);
    PnlStep([], u);
    NoPnl();
    assert [] + [u] == [u] && [u] + [u] == [u, u];
  }

  lemma NoPnl()
    ensures Sum(Pnls([])) == 0.0
  {
  }

  lemma EmptyRun(c: Config)
    ensures At(c, [], [], [], Tally([], [], 0.0))
  {
  }

  lemma GainKept(c: Config, gain: real, stamp: string, later: string)
    requires gain * 10000.0 >= c.TotalCostBps() + 10000.0 && c.maxPositionUsd > 0.0
    ensures ReversalClose(c, NewTrade(c, gain, LongAShortB, stamp), later).pnlUsd.value > 0.0
  {
    var share := (gain * 10000.0 - c.TotalCostBps()) / 10000.0;
    assert share >= 1.0;
    assert share * c.maxPositionUsd > 0.0;
  }

  /** Whatever configuration and books come with them: only distinct timestamps make the books exact. */
  lemma ExactWhateverTheBooks(stamps: seq<string>)
    ensures (forall c, snaps | Carries(snaps, stamps) && Clean(c, [], snaps) :: Exact(c, snaps)) <==>
            (forall i, j :: 0 <= i < j < |stamps| ==> stamps[i] != stamps[j])
  {
    hide Clean, Exact;
    var c := Config(0.0, 0.0, 0.0, 0.0, 0.0, 2, false, 1.0);
    if i, j :| 0 <= i < j < |stamps| && stamps[i] == stamps[j] {
      ExactTimestamps(c, stamps);
    } else {
      forall c, snaps | Carries(snaps, stamps) && Clean(c, [], snaps) ensures Exact(c, snaps) {
        DistinctTimestampsExact(c, snaps);
      }
    }
  }

  lemma TwoCreatedOneListed(c: Config, snaps: seq<Snapshot>)
    requires |CreatedIn(c, [], snaps)| == 2 && |TallyAfter(c, [], snaps).all| == 1
    ensures !Exact(c, snaps)
  {
  }

  lemma PairCarries(c: Config, stamps: seq<string>, i: nat, j: nat)
    requires c.exchangeAToBRate > 0.0 && i < j < |stamps|
    ensures Carries(PairBooks(c, stamps, i, j), stamps)
  {
  }

  // ---------------------------------------------------------------- a replay never loses

  lemma {:induction false} SumNonNegative(xs: seq<real>)
    requires forall i :: 0 <= i < |xs| ==> xs[i] >= 0.0
    ensures Sum(xs) >= 0.0
  {
    if xs != [] { SumNonNegative(xs[..|xs| - 1]); }
  }

  lemma {:induction false} ClosesGain(c: Config, ts: seq<Trade>)
    requires c.maxPositionUsd >= 0.0 && forall t | t in ts :: ClosedAtEdge(c, t)
    ensures forall i :: 0 <= i < |Pnls(ts)| ==> Pnls(ts)[i] >= 0.0
  {
    if ts != [] {
      var front, last := ts[..|ts| - 1], ts[|ts| - 1];
      assert last in ts && ClosedAtEdge(c, last);
      ClosesGain(c, front);
    }
  }

  lemma EquityGrows(c: Config, open: seq<Trade>, init: real, snaps: seq<Snapshot>, i: nat)
    requires i < |snaps| && c.maxPositionUsd >= 0.0 && AllCovered(c, open)
    ensures Equity(c, open, init, snaps[..i]) <= Equity(c, open, init, snaps[..i + 1])
  {
    hide Step, Pnls, Sum, AllCovered;
    var before, now := snaps[..i], snaps[..i + 1];
    assert now == before + [snaps[i]];
    Extend(c, open, before, snaps[i]);
    NoLosingClose(c, open, now);
    var o := Step(c, After(c, open, before), snaps[i]);
    var earlier, news := ClosedIn(c, open, before), if o.ok then o.closed else [];
    var added := DedupGrows(earlier, news);
    forall t | t in added ensures ClosedAtEdge(c, t) { assert t in ClosedIn(c, open, now); }
    ClosesGain(c, added);
    SumNonNegative(Pnls(added));
    PnlsAppend(Dedup(earlier), added);
    SumAppend(Pnls(Dedup(earlier)), Pnls(added));
  }

  function LastOr(init: real, balances: seq<real>): real {
    if balances == [] then init else balances[|balances| - 1]
  }

  /** The balance never falls, from the starting one on. */
  predicate Rising(init: real, balances: seq<real>) {
    balances != [] ==>
      var front := balances[..|balances| - 1];
      Rising(init, front) && LastOr(init, front) <= balances[|balances| - 1]
  }

  lemma {:induction false} PeakOfRisingIsLast(init: real, balances: seq<real>)
    requires Rising(init, balances)
    ensures Peak(init, balances) == LastOr(init, balances)
  {
    if balances != [] { PeakOfRisingIsLast(init, balances[..|balances| - 1]); }
  }

  /** The engine's own equity curve never falls. */
  lemma {:induction false} EquityRises(c: Config, open: seq<Trade>, init: real, snaps: seq<Snapshot>, balances: seq<real>)
    requires IsEquityCurve(c, open, init, snaps, balances) && c.maxPositionUsd >= 0.0 && AllCovered(c, open)
    ensures Rising(init, balances)
  {
    hide Equity, AllCovered;
    if balances != [] {
      var k := |balances| - 1;
      EquityRises(c, open, init, snaps, balances[..k]);
      EquityGrows(c, open, init, snaps, k);
      EquityStarts(c, open, init, snaps);
    }
  }

  lemma NoDrawdownAtPeak(balance: real)
    ensures Drawdown(balance, balance) == 0.0
  {
  }

  /** Along that curve every drawdown is zero ... */
  lemma NeverUnderPeak(c: Config, open: seq<Trade>, init: real, snaps: seq<Snapshot>, balances: seq<real>, j: nat)
    requires IsEquityCurve(c, open, init, snaps, balances) && c.maxPositionUsd >= 0.0 && AllCovered(c, open) && j < |balances|
    ensures Fall(init, balances, j) == 0.0
  {
    hide Equity, AllCovered, Drawdown, Rising, Peak;
    EquityRises(c, open, init, snaps, balances[..j + 1]);
    PeakOfRisingIsLast(init, balances[..j + 1]);
    NoDrawdownAtPeak(balances[j]);
  }

  lemma EquityStarts(c: Config, open: seq<Trade>, init: real, snaps: seq<Snapshot>)
    ensures Equity(c, open, init, snaps[..0]) == init
  {
  }

  /** ... so the worst drawdown is zero and a positive drawdown stop never cuts a replay short. */
  lemma ReplayNeverLoses(c: Config, open: seq<Trade>, cfg: BacktestConfig, snaps: seq<Snapshot>, balances: seq<real>, worst: real)
    requires c.maxPositionUsd >= 0.0 && AllCovered(c, open)
    requires IsEquityCurve(c, open, cfg.initialBalanceUsd, snaps, balances)
    requires IsMaxDrawdown(cfg.initialBalanceUsd, balances, worst) && StopsHere(cfg, balances, |snaps|)
    ensures worst == 0.0
    ensures cfg.stopOnDrawdownPct.None? || cfg.stopOnDrawdownPct.value > 0.0 ==>
              |balances| == if cfg.maxSteps.None? || cfg.maxSteps.value >= |snaps| then |snaps|
                            else if cfg.maxSteps.value > 0 then cfg.maxSteps.value else 0
  {
    hide Fall, Equity, AllCovered;
    forall j: nat | j < |balances| ensures Fall(cfg.initialBalanceUsd, balances, j) == 0.0 {
      NeverUnderPeak(c, open, cfg.initialBalanceUsd, snaps, balances, j);
    }
  }

  // ---------------------------------------------------------------- the replay loop

  /** The two lists and the realised P&L, on objects. */
  datatype Lists = Lists(all: seq<ArbitrageTrade>, closed: seq<ArbitrageTrade>, realized: real)

  ghost function TallyOf(l: Lists): Tally
    reads l.all, l.closed
  {
    Tally(Values(l.all), Values(l.closed), l.realized)
  }

  /** Python's `not in` and `append` for one trade: membership is by value. */
  function TrackOne(l: Lists, t: ArbitrageTrade): Lists
    reads l.all, l.closed, t
  {
    var all := if ContainsEqual(l.all, t) then l.all else l.all + [t];
    if !t.isOpen && t.pnlUsd.Some? && !ContainsEqual(l.closed, t)
    then Lists(all, l.closed + [t], l.realized + t.pnlUsd.value)
    else l.(all := all)
  }

  function TrackAll(l: Lists, changed: seq<ArbitrageTrade>): (r: Lists)
    reads l.all, l.closed, changed
    ensures forall t | t in r.all :: t in l.all || t in changed
    ensures forall t | t in r.closed :: t in l.closed || (t in changed && !t.isOpen)
  {
    if changed == [] then l
    else
      var before := TrackAll(l, changed[..|changed| - 1]);
      assert forall k :: 0 <= k < |before.all| ==> before.all[k] in l.all || before.all[k] in changed;
      assert forall k :: 0 <= k < |before.closed| ==> before.closed[k] in l.closed || before.closed[k] in changed;
      TrackOne(before, changed[|changed| - 1])
  }

  /** The loop over what the engine reports. */
  method Track(l: Lists, changed: seq<ArbitrageTrade>) returns (r: Lists)
    ensures r == TrackAll(l, changed)
  {
    hide TrackOne;
    r := l;
    assert changed[..0] == [];
    for i := 0 to |changed|
      invariant r == TrackAll(l, changed[..i])
    {
      var trade := changed[i];
      assert changed[..i + 1][..i] == changed[..i];
      r := TrackOne(r, trade);
    }
    assert changed[..|changed|] == changed;
  }

  lemma ContainedInValues(ts: seq<ArbitrageTrade>, t: ArbitrageTrade)
    ensures ContainsEqual(ts, t) <==> t.Value() in Values(ts)
  {
    if ContainsEqual(ts, t) {
      var i :| 0 <= i < |ts| && ts[i].Value() == t.Value();
      assert Values(ts)[i] == t.Value();
    }
    if t.Value() in Values(ts) {
      var i :| 0 <= i < |ts| && Values(ts)[i] == t.Value();
      assert ts[i].Value() == t.Value();
    }
  }

  lemma TrackOneValue(l: Lists, t: ArbitrageTrade)
    ensures TallyOf(TrackOne(l, t)) == Report(TallyOf(l), t.Value())
  {
    ContainedInValues(l.all, t);
    ContainedInValues(l.closed, t);
    ValuesAppend(l.all, [t]);
    ValuesAppend(l.closed, [t]);
    assert Values([t]) == [t.Value()];
  }

  /** On values it is the fold the accounts are about. */
  lemma {:induction false} TrackValues(l: Lists, changed: seq<ArbitrageTrade>)
    ensures TallyOf(TrackAll(l, changed)) == ReportAll(TallyOf(l), Values(changed))
  {
    hide TrackOne, Report, TallyOf;
    if changed != [] {
      var front := changed[..|changed| - 1];
      TrackValues(l, front);
      assert Values(changed)[..|changed| - 1] == Values(front);
      TrackOneValue(TrackAll(l, front), changed[|changed| - 1]);
    }
  }

  /** What one more balance does to the peak, the drawdowns and the stop test. */
  lemma Grow(cfg: BacktestConfig, balances: seq<real>, last: real, worst: real)
    requires IsMaxDrawdown(cfg.initialBalanceUsd, balances, worst)
    ensures var init, now := cfg.initialBalanceUsd, balances + [last];
            var before := Peak(init, balances);
            var peak := if last > before then last else before;
            var fall := Drawdown(peak, last);
            && Peak(init, now) == peak && Fall(init, now, |balances|) == fall
            && IsMaxDrawdown(init, now, if fall > worst then fall else worst)
            && (forall j :: 0 <= j < |balances| ==> StopFires(cfg, now, j) == StopFires(cfg, balances, j))
  {
    hide IsMaxDrawdown, Drawdown;
    var init, now := cfg.initialBalanceUsd, balances + [last];
    assert now[..|balances|] == balances && now[..|balances| + 1] == now;
    ExtendMaxDrawdown(init, balances, worst, last);
    forall j: nat | j < |balances| ensures StopFires(cfg, now, j) == StopFires(cfg, balances, j) {
      FallOfPrefix(init, balances, last, j);
    }
  }

  lemma EmptyPeak(init: real)
    ensures IsMaxDrawdown(init, [], 0.0) && Peak(init, []) == init
  {
  }

  /** The running peak, worst drawdown, step count and stop flag fit the balances so far. */
  ghost predicate Marked(cfg: BacktestConfig, balances: seq<real>, peak: real, worst: real, steps: nat, stopped: bool) {
    var init, n := cfg.initialBalanceUsd, |balances|;
    && peak == Peak(init, balances) && IsMaxDrawdown(init, balances, worst)
    && (cfg.maxSteps.Some? && n > 0 ==> n <= cfg.maxSteps.value)
    && (forall j :: 0 <= j < n - 1 ==> !StopFires(cfg, balances, j))
    && stopped == (n > 0 && StopFires(cfg, balances, n - 1))
    && steps == if stopped then n - 1 else n
  }

  lemma MarkedAtStart(cfg: BacktestConfig)
    ensures Marked(cfg, [], cfg.initialBalanceUsd, 0.0, 0, false)
  {
    EmptyPeak(cfg.initialBalanceUsd);
  }

  lemma MarkGrows(cfg: BacktestConfig, balances: seq<real>, last: real, peak: real, worst: real, steps: nat)
    requires Marked(cfg, balances, peak, worst, steps, false)
    requires cfg.maxSteps.None? || steps < cfg.maxSteps.value
    ensures var higher := if last > peak then last else peak;
            var fall := Drawdown(higher, last);
            var fires := cfg.stopOnDrawdownPct.Some? && fall * 100.0 >= cfg.stopOnDrawdownPct.value;
            Marked(cfg, balances + [last], higher, if fall > worst then fall else worst, if fires then steps else steps + 1, fires)
  {
    hide IsMaxDrawdown, Drawdown, Peak, Fall;
    Grow(cfg, balances, last, worst);
  }

  lemma MarkedStops(cfg: BacktestConfig, balances: seq<real>, peak: real, worst: real, steps: nat, stopped: bool, available: nat)
    requires Marked(cfg, balances, peak, worst, steps, stopped) && |balances| <= available
    requires |balances| == available || stopped || (cfg.maxSteps.Some? && steps >= cfg.maxSteps.value)
    ensures StopsHere(cfg, balances, available) && IsMaxDrawdown(cfg.initialBalanceUsd, balances, worst)
    ensures steps == |balances| - (if balances != [] && StopFires(cfg, balances, |balances| - 1) then 1 else 0)
  {
  }

  /** The loop got past all these balances. */
  ghost predicate Unstopped(cfg: BacktestConfig, balances: seq<real>) {
    && (forall j :: 0 <= j < |balances| ==> !StopFires(cfg, balances, j))
    && (cfg.maxSteps.Some? ==> |balances| < cfg.maxSteps.value)
  }

  lemma MarkedGoesOn(cfg: BacktestConfig, balances: seq<real>, peak: real, worst: real, steps: nat)
    requires Marked(cfg, balances, peak, worst, steps, false) && (cfg.maxSteps.Some? ==> steps < cfg.maxSteps.value)
    ensures Unstopped(cfg, balances)
  {
  }

  lemma NoCurve(c: Config, open: seq<Trade>, init: real, snaps: seq<Snapshot>)
    ensures IsEquityCurve(c, open, init, snaps, [])
  {
  }

  /** The curve gains the balance of the lists. */
  lemma CurveGrows(c: Config, open: seq<Trade>, init: real, snaps: seq<Snapshot>, balances: seq<real>)
    requires |balances| < |snaps| && IsEquityCurve(c, open, init, snaps, balances)
    ensures var y := TallyAfter(c, open, snaps[..|balances| + 1]);
            IsEquityCurve(c, open, init, snaps, balances + [init + y.realized])
  {
    hide ClosedIn, Sum, Pnls, Dedup, TallyAfter;
    ClosedTally(c, open, snaps[..|balances| + 1]);
  }

  /** The closing pass moves the listed objects as it moves their values. */
  lemma ListsMove(c: Config, q: Quotes, timestamp: string, l: Lists, y: Tally)
    requires |y.all| == |l.all| && forall i :: 0 <= i < |l.all| ==> l.all[i].Value() == Moved(c, q, y.all[i], timestamp)
    requires Values(l.closed) == y.closed && l.realized == y.realized
    ensures TallyOf(l) == y.(all := MovedAll(c, q, y.all, timestamp))
  {
  }

  class ArbitrageBacktester {
    const engine: ArbitrageEngine
    const config: BacktestConfig

    constructor (engine: ArbitrageEngine, config: BacktestConfig)
      ensures this.engine == engine && this.config == config
    {
      this.engine, this.config := engine, config;
    }

    /** Engine and lists stand where feeding `fed` to an engine that held `open` takes them. */
    ghost predicate Follows(open: seq<Trade>, fed: seq<Snapshot>, l: Lists)
      reads engine, engine.openTrades, l.all, l.closed
    {
      && Clean(engine.config, open, fed)
      && Values(engine.openTrades) == After(engine.config, open, fed)
      && TallyOf(l) == TallyAfter(engine.config, open, fed)
      && (forall t | t in l.all && t.isOpen :: t in engine.openTrades)
      && (forall t | t in l.closed :: !t.isOpen)
    }

    lemma FollowsAtStart(l: Lists)
      requires l == Lists([], [], 0.0)
      ensures Follows(Values(engine.openTrades), [], l)
    {
    }

    lemma RealizedFollows(open: seq<Trade>, fed: seq<Snapshot>, l: Lists)
      requires Follows(open, fed, l)
      ensures l.realized == TallyAfter(engine.config, open, fed).realized && Clean(engine.config, open, fed)
    {
    }

    /** The engine's part of it: what becomes of the listed objects. */
    method FeedEngine(s: Snapshot, l: Lists) returns (ok: bool, changed: seq<ArbitrageTrade>)
      requires engine.Valid()
      requires (forall t | t in l.all && t.isOpen :: t in engine.openTrades) && (forall t | t in l.closed :: !t.isOpen)
      modifies engine, set t | t in engine.openTrades
      ensures engine.Valid() && forall t | t in engine.openTrades :: t in old(engine.openTrades) || fresh(t)
      ensures var o := Step(engine.config, old(Values(engine.openTrades)), s);
              && ok == o.ok && Values(engine.openTrades) == o.open && Values(changed) == if ok then o.closed + o.created else []
      ensures var y := old(TallyOf(l));
              ok ==> TallyOf(l) == y.(all := MovedAll(engine.config, Quote(engine.config, s), y.all, s.timestamp))
      ensures ok ==> forall t | (t in l.all || t in changed) && t.isOpen :: t in engine.openTrades
      ensures forall t | t in l.closed :: !t.isOpen
    {
      hide Step, Distinct, ReversalClose, Quote;
      ghost var y := TallyOf(l);
      ok, changed := engine.OnSnapshot(s);
      assert Values(l.closed) == y.closed;
      if ok { ListsMove(engine.config, Quote(engine.config, s), s.timestamp, l, y); }
    }

    /** Feed one snapshot to the engine and track what it reports. */
    method Feed(s: Snapshot, l: Lists, ghost open: seq<Trade>, ghost fed: seq<Snapshot>) returns (ok: bool, r: Lists)
      requires engine.Valid() && Follows(open, fed, l)
      modifies engine, set t | t in engine.openTrades
      ensures engine.Valid() && forall t | t in engine.openTrades :: t in old(engine.openTrades) || fresh(t)
      ensures ok == Clean(engine.config, open, fed + [s]) && Values(engine.openTrades) == After(engine.config, open, fed + [s])
      ensures ok ==> Follows(open, fed + [s], r)
    {
      hide Step, Distinct, TrackOne, TrackAll, TallyOf, Clean, After, ClosedIn, CreatedIn, TallyAfter, ReportAll;
      Extend(engine.config, open, fed, s);
      var changed;
      ok, changed := FeedEngine(s, l);
      r := l;
      if ok {
        r := Track(l, changed);
        TrackValues(l, changed);
      }
    }

    /** Python's `sum(1 for t in closed_trades if ...)`. */
    method CountWins(closed: seq<ArbitrageTrade>) returns (wins: nat)
      ensures wins == Wins(Values(closed)) && wins <= |closed|
    {
      wins := 0;
      for i := 0 to |closed|
        invariant wins == Wins(Values(closed[..i])) && wins <= i
      {
        if closed[i].pnlUsd.Some? && closed[i].pnlUsd.value > 0.0 { wins := wins + 1; }
        assert Values(closed[..i + 1])[..i] == Values(closed[..i]);
      }
      assert closed[..|closed|] == closed;
    }

    /** The result from the lists and the running figures. */
    method Summarise(l: Lists, maxDrawdown: real, steps: nat) returns (r: BacktestResult)
      ensures r.totalTrades == |l.all| && r.closedTrades == |l.closed| && r.openTrades == |engine.openTrades|
      ensures r.finalBalanceUsd == config.initialBalanceUsd + l.realized && r.realizedPnlUsd == l.realized && r.maxDrawdownPct == maxDrawdown * 100.0
      ensures r.stepsProcessed == steps && r.winningTrades == Wins(Values(l.closed)) && r.winningTrades <= r.closedTrades
      ensures r.winRate * r.closedTrades as real == r.winningTrades as real
      ensures r.closedTrades > 0 ==> r.avgPnlPerTradeUsd * r.closedTrades as real == r.realizedPnlUsd
      ensures r.closedTrades == 0 ==> r.winRate == 0.0 && r.avgPnlPerTradeUsd == 0.0
    {
      hide Wins;
      var wins := CountWins(l.closed);
      r := BacktestResult(|l.all|, |l.closed|, |engine.openTrades|, config.initialBalanceUsd + l.realized,
                          l.realized, maxDrawdown * 100.0,
                          if |l.closed| > 0 then wins as real / |l.closed| as real else 0.0,
                          if |l.closed| > 0 then l.realized / |l.closed| as real else 0.0,
                          steps, wins);
    }

    /** The loop over the snapshots. */
    method Replay(snaps: seq<Snapshot>)
      returns (ok: bool, l: Lists, peak: real, maxDrawdown: real, steps: nat, stopped: bool, ghost balances: seq<real>)
      requires engine.Valid()
      modifies engine, set t | t in engine.openTrades
      ensures var (c, init, open) := (engine.config, config.initialBalanceUsd, old(Values(engine.openTrades)));
              && IsEquityCurve(c, open, init, snaps, balances)
              && (ok ==> Follows(open, snaps[..|balances|], l) && init + l.realized == LastOr(init, balances))
              && (!ok ==> |balances| < |snaps| && Clean(c, open, snaps[..|balances|]) && !Clean(c, open, snaps[..|balances| + 1])
                          && Values(engine.openTrades) == After(c, open, snaps[..|balances| + 1]))
      ensures !ok ==> Unstopped(config, balances)
      ensures ok ==> Marked(config, balances, peak, maxDrawdown, steps, stopped)
      ensures |balances| <= |snaps|
      ensures ok ==> |balances| == |snaps| || stopped || (config.maxSteps.Some? && steps >= config.maxSteps.value)
    {
      hide Clean, After, TallyAfter, Drawdown, Distinct, Marked, Unstopped, IsEquityCurve, Follows;
      ghost var c, init, open := engine.config, config.initialBalanceUsd, Values(engine.openTrades);
      var balance := config.initialBalanceUsd;
      peak, maxDrawdown, l := balance, 0.0, Lists([], [], 0.0);
      var i := 0;
      ok, steps, stopped, balances := true, 0, false, [];
      MarkedAtStart(config);
      FollowsAtStart(l);
      assert snaps[..0] == [];
      NoCurve(c, open, init, snaps);
      while i < |snaps| && !stopped
        invariant i <= |snaps| && |balances| == i && ok
        invariant engine.Valid() && forall t | t in engine.openTrades :: t in old(engine.openTrades) || fresh(t)
        invariant Follows(open, snaps[..i], l) && IsEquityCurve(c, open, init, snaps, balances)
        invariant balance == init + l.realized && balance == LastOr(init, balances)
        invariant Marked(config, balances, peak, maxDrawdown, steps, stopped)
        decreases |snaps| - i
      {
        if config.maxSteps.Some? && steps >= config.maxSteps.value { break; }
        assert snaps[..i] + [snaps[i]] == snaps[..i + 1];
        RealizedFollows(open, snaps[..i], l);
        ok, l := Feed(snaps[i], l, open, snaps[..i]);
        if !ok {
          MarkedGoesOn(config, balances, peak, maxDrawdown, steps);
          return;
        }
        balance := config.initialBalanceUsd + l.realized;
        RealizedFollows(open, snaps[..i + 1], l);
        CurveGrows(c, open, init, snaps, balances);
        MarkGrows(config, balances, balance, peak, maxDrawdown, steps);
        if balance > peak { peak := balance; }
        var drawdown := Drawdown(peak, balance);
        balances, i := balances + [balance], i + 1;
        maxDrawdown := if drawdown > maxDrawdown then drawdown else maxDrawdown;
        if config.stopOnDrawdownPct.Some? && drawdown * 100.0 >= config.stopOnDrawdownPct.value {
          stopped := true;
        } else {
          steps := steps + 1;
        }
      }
    }

    /**
     * The replay. `balances` records the balance after each processed snapshot. It ends without a result exactly when
     * the engine raises, at the first snapshot at which it does.
     */
    method Run(snaps: seq<Snapshot>) returns (ok: bool, r: BacktestResult, ghost balances: seq<real>)
      requires engine.Valid()
      modifies engine, set t | t in engine.openTrades
      ensures var (c, init, open, n) := (engine.config, config.initialBalanceUsd, old(Values(engine.openTrades)), |balances|);
              && IsEquityCurve(c, open, init, snaps, balances)
              && (ok ==>
                    && Clean(c, open, snaps[..n]) && Values(engine.openTrades) == After(c, open, snaps[..n])
                    && Reported(c, open, init, snaps[..n], r) && r.finalBalanceUsd == LastOr(init, balances))
              && (!ok ==>
                    && n < |snaps| && Clean(c, open, snaps[..n]) && !Clean(c, open, snaps[..n + 1])
                    && Values(engine.openTrades) == After(c, open, snaps[..n + 1]) && Unstopped(config, balances))
      ensures ok ==>
        && (exists worst :: IsMaxDrawdown(config.initialBalanceUsd, balances, worst) && r.maxDrawdownPct == worst * 100.0)
        && StopsHere(config, balances, |snaps|)
        && r.stepsProcessed == |balances| - (if balances != [] && StopFires(config, balances, |balances| - 1) then 1 else 0)
        && r.winningTrades <= r.closedTrades
        && r.winRate * r.closedTrades as real == r.winningTrades as real
        && (r.closedTrades > 0 ==> r.avgPnlPerTradeUsd * r.closedTrades as real == r.realizedPnlUsd)
        && (r.closedTrades == 0 ==> r.winRate == 0.0 && r.avgPnlPerTradeUsd == 0.0)
    {
      hide Clean, After, TallyAfter, Fall, Wins, IsMaxDrawdown, Marked, IsEquityCurve, StopsHere, StopFires, Unstopped, Distinct;
      var l, peak, worst, steps, stopped;
      ok, l, peak, worst, steps, stopped, balances := Replay(snaps);
      if !ok {
        r := BacktestResult(0, 0, 0, 0.0, 0.0, 0.0, 0.0, 0.0, 0, 0);
        return;
      }
      r := Summarise(l, worst, steps);
      MarkedStops(config, balances, peak, worst, steps, stopped, |snaps|);
    }
  }

  /** One snapshot twice: the list of all trades counts one, though two are open. */
  method ReplaySameBookTwice(c: Config, cfg: BacktestConfig, stamp: string) returns (r: BacktestResult)
    requires c.exchangeAToBRate > 0.0 && c.maxOpenTrades >= 2
    requires cfg.maxSteps.None? && cfg.stopOnDrawdownPct.None?
    ensures r.totalTrades == 1 && r.openTrades == 2 && r.closedTrades == 0
  {
    hide SameBook, SameTrade, Clean, After, TallyAfter, Fall, IsMaxDrawdown, IsEquityCurve;
    var engine := new ArbitrageEngine(c);
    var tester := new ArbitrageBacktester(engine, cfg);
    ghost var stamps, snaps := [stamp, stamp], [SameBook(c, stamp), SameBook(c, stamp)];
    var ok; ghost var balances;
    assert Values(engine.openTrades) == [];
    ok, r, balances := tester.Run([SameBook(c, stamp), SameBook(c, stamp)]);
    assert PairBooks(c, stamps, 0, 1) == snaps;
    PairRun(c, stamps, 0, 1, if ok then 2 else |balances| + 1);
    assert snaps[..2] == snaps;
  }
}
