/** The watchdog: alerts from metrics, and counters that are functions of the history of evaluations. */
module Watchdog {
  import opened Prelude

  datatype Config = Config(
    maxWsLag: real, warnWsLag: real,
    maxRedisAge: real, warnRedisAge: real,
    maxLoopLatency: real, warnLoopLatency: real,
    maxSafetyRejections: int,
    warnResetCycles: int,
    errorResetCycles: int)

  /** A missing metric reads as zero. */
  datatype Metrics = Metrics(wsLag: Option<real>, redisAge: Option<real>, loopLatency: Option<real>, safetyRejections: Option<int>)

  datatype Level = Warn | Error | Critical
  datatype Alert = Alert(level: Level, component: string)

  function OrZero(x: Option<real>): real { if x.Some? then x.value else 0.0 }

  function MetricAlert(value: real, max: real, warn: real, component: string): seq<Alert> {
    if value > max then [Alert(Error, component)] else if value > warn then [Alert(Warn, component)] else []
  }

  function Rejections(m: Metrics): int { if m.safetyRejections.Some? then m.safetyRejections.value else 0 }

  function SafetyAlert(c: Config, m: Metrics): seq<Alert> {
    if Rejections(m) > c.maxSafetyRejections then [Alert(Warn, "Safety")] else []
  }

  function MetricAlerts(c: Config, m: Metrics): seq<Alert> {
    MetricAlert(OrZero(m.wsLag), c.maxWsLag, c.warnWsLag, "WebSocket")
    + MetricAlert(OrZero(m.redisAge), c.maxRedisAge, c.warnRedisAge, "Redis")
    + MetricAlert(OrZero(m.loopLatency), c.maxLoopLatency, c.warnLoopLatency, "MainLoop")
    + SafetyAlert(c, m)
  }

  function CountLevel(alerts: seq<Alert>, level: Level): nat {
    if alerts == [] then 0
    else CountLevel(alerts[..|alerts| - 1], level) + if alerts[|alerts| - 1].level == level then 1 else 0
  }

  lemma {:induction false} CountConcat(xs: seq<Alert>, ys: seq<Alert>, level: Level)
    ensures CountLevel(xs + ys, level) == CountLevel(xs, level) + CountLevel(ys, level)
  {
    if ys == [] {
      assert xs + ys == xs;
    } else {
      assert (xs + ys)[..|xs + ys| - 1] == xs + ys[..|ys| - 1];
      CountConcat(xs, ys[..|ys| - 1], level);
    }
  }

  /** The two thresholds of the three lag metrics. */
  predicate OverMax(c: Config, m: Metrics) {
    OrZero(m.wsLag) > c.maxWsLag || OrZero(m.redisAge) > c.maxRedisAge || OrZero(m.loopLatency) > c.maxLoopLatency
  }

  predicate OverWarn(c: Config, m: Metrics) {
    || OrZero(m.wsLag) > c.warnWsLag || OrZero(m.redisAge) > c.warnRedisAge || OrZero(m.loopLatency) > c.warnLoopLatency
    || Rejections(m) > c.maxSafetyRejections
  }

  /** An evaluation is bad exactly when a metric is over its maximum, and otherwise uneasy exactly when one is over its warning level. */
  lemma VerdictExactly(c: Config, m: Metrics)
    ensures Verdict(MetricAlerts(c, m)) == if OverMax(c, m) then Bad else if OverWarn(c, m) then Uneasy else Fine
  {
    hide CountLevel, MetricAlert, SafetyAlert;
    CountAlerts(c, m, Error);
    CountAlerts(c, m, Warn);
  }

  /** Which alerts there are: by name, over the maximum an error, over the warning level but not the maximum a warning. */
  lemma AlertsExactly(c: Config, m: Metrics, a: Alert)
    ensures a in MetricAlerts(c, m) <==>
              match a.component
              case "WebSocket" => Alerted(m.wsLag, c.maxWsLag, c.warnWsLag, a.level)
              case "Redis" => Alerted(m.redisAge, c.maxRedisAge, c.warnRedisAge, a.level)
              case "MainLoop" => Alerted(m.loopLatency, c.maxLoopLatency, c.warnLoopLatency, a.level)
              case "Safety" => a.level == Warn && c.maxSafetyRejections < (match m.safetyRejections case None => 0 case Some(n) => n)
              case _ => false
  {
  }

  predicate Alerted(metric: Option<real>, max: real, warn: real, level: Level) {
    var value := match metric case None => 0.0 case Some(v) => v;
    (level == Error && max < value) || (level == Warn && warn < value <= max)
  }

  /** How many alerts of a level the four checks give. */
  lemma CountAlerts(c: Config, m: Metrics, level: Level)
    ensures CountLevel(MetricAlerts(c, m), level)
         == OneAlert(OrZero(m.wsLag), c.maxWsLag, c.warnWsLag, level) + OneAlert(OrZero(m.redisAge), c.maxRedisAge, c.warnRedisAge, level)
            + OneAlert(OrZero(m.loopLatency), c.maxLoopLatency, c.warnLoopLatency, level)
            + if level == Warn && Rejections(m) > c.maxSafetyRejections then 1 else 0
  {
    hide CountLevel, MetricAlert, SafetyAlert, OneAlert, OrZero;
    var a := MetricAlert(OrZero(m.wsLag), c.maxWsLag, c.warnWsLag, "WebSocket");
    var b := MetricAlert(OrZero(m.redisAge), c.maxRedisAge, c.warnRedisAge, "Redis");
    var d := MetricAlert(OrZero(m.loopLatency), c.maxLoopLatency, c.warnLoopLatency, "MainLoop");
    CountConcat(a, b, level);
    CountConcat(a + b, d, level);
    CountConcat(a + b + d, SafetyAlert(c, m), level);
    CountMetric(OrZero(m.wsLag), c.maxWsLag, c.warnWsLag, "WebSocket", level);
    CountMetric(OrZero(m.redisAge), c.maxRedisAge, c.warnRedisAge, "Redis", level);
    CountMetric(OrZero(m.loopLatency), c.maxLoopLatency, c.warnLoopLatency, "MainLoop", level);
    CountSafety(c, m, level);
  }

  function OneAlert(value: real, max: real, warn: real, level: Level): nat {
    if level == Error && value > max then 1 else if level == Warn && warn < value <= max then 1 else 0
  }

  lemma CountMetric(value: real, max: real, warn: real, component: string, level: Level)
    ensures CountLevel(MetricAlert(value, max, warn, component), level) == OneAlert(value, max, warn, level)
  {
  }

  lemma CountSafety(c: Config, m: Metrics, level: Level)
    ensures CountLevel(SafetyAlert(c, m), level)
         == if level == Warn && Rejections(m) > c.maxSafetyRejections then 1 else 0
  {
  }

  // ---------------------------------------------------------------- histories

  /** An evaluation that found an error, only warnings, or neither; or a reset asked for from outside. */
  datatype Event = Bad | Uneasy | Fine | ManualReset

  function Verdict(alerts: seq<Alert>): Event {
    if CountLevel(alerts, Error) > 0 then Bad else if CountLevel(alerts, Warn) > 0 then Uneasy else Fine
  }

  /** Errors since the last evaluation that was fine; warnings and resets in between do not clear it. */
  function ErrorsSinceFine(h: seq<Event>): nat {
    if h == [] || h[|h| - 1] == Fine then 0
    else ErrorsSinceFine(h[..|h| - 1]) + if h[|h| - 1] == Bad then 1 else 0
  }

  /** How many events at the end of the history are all `e`. */
  function TrailingRun(h: seq<Event>, e: Event): nat {
    if h == [] || h[|h| - 1] != e then 0 else 1 + TrailingRun(h[..|h| - 1], e)
  }

  /** Counting a run with an automatic reset every `size`; a size of zero or less resets at once. */
  function Cycles(run: nat, size: int): nat { if size <= 0 then 0 else run % size }

  function Errors(h: seq<Event>): nat {
    if h == [] then 0 else Errors(h[..|h| - 1]) + if h[|h| - 1] == Bad then 1 else 0
  }

  /** Some stretch of the history without a fine evaluation holds three errors. */
  ghost predicate ThreeErrors(h: seq<Event>) {
    exists i, j :: 0 <= i <= j <= |h| && Fine !in h[i..j] && Errors(h[i..j]) >= 3
  }

  lemma CycleStep(run: nat, size: int)
    ensures Cycles(run + 1, size) == if Cycles(run, size) + 1 >= size then 0 else Cycles(run, size) + 1
  {
    if size > 0 {
      var q, r := run / size, run % size;
      assert run + 1 == q * size + (r + 1);
      if r + 1 < size { ModIs(run + 1, size, q, r + 1); } else { ModIs(run + 1, size, q + 1, 0); }
    }
  }

  lemma ModIs(a: nat, n: nat, q: nat, r: nat)
    requires n > 0 && r < n && a == q * n + r
    ensures a % n == r
  {
    var p := a / n;
    if p > q { MulOrder(q + 1, p, n); } else if p < q { MulOrder(p + 1, q, n); }
  }

  lemma HistoryGrows(h: seq<Event>, e: Event)
    ensures ErrorsSinceFine(h + [e]) == if e == Fine then 0 else ErrorsSinceFine(h) + if e == Bad then 1 else 0
    ensures forall x :: TrailingRun(h + [e], x) == if x == e then TrailingRun(h, x) + 1 else 0
  {
    assert (h + [e])[..|h|] == h;
  }

  /** The stretch since the last fine evaluation. */
  lemma {:induction false} LastStretch(h: seq<Event>) returns (i: nat)
    ensures i <= |h| && Fine !in h[i..] && Errors(h[i..]) == ErrorsSinceFine(h)
  {
    if h == [] || h[|h| - 1] == Fine {
      i := |h|;
    } else {
      var front := h[..|h| - 1];
      i := LastStretch(front);
      assert h[i..][..|h[i..]| - 1] == front[i..];
      assert h[i..] == front[i..] + [h[|h| - 1]];
    }
  }

  /** No stretch that ends now and has no fine evaluation holds more errors. */
  lemma {:induction false} StretchBound(h: seq<Event>, i: nat)
    requires i <= |h| && Fine !in h[i..]
    ensures Errors(h[i..]) <= ErrorsSinceFine(h)
  {
    if i < |h| {
      var front := h[..|h| - 1];
      assert h[i..] == front[i..] + [h[|h| - 1]] && h[i..][..|h[i..]| - 1] == front[i..];
      assert h[|h| - 1] in h[i..];
      StretchBound(front, i);
    }
  }

  /** Three errors have occurred in one stretch by now if they had before, or the current stretch holds three. */
  lemma ThreeErrorsGrow(h: seq<Event>, e: Event)
    ensures ThreeErrors(h + [e]) <==> ThreeErrors(h) || ErrorsSinceFine(h + [e]) >= 3
  {
    var h' := h + [e];
    if ThreeErrors(h) {
      var i, j :| 0 <= i <= j <= |h| && Fine !in h[i..j] && Errors(h[i..j]) >= 3;
      assert h'[i..j] == h[i..j];
    }
    if ErrorsSinceFine(h') >= 3 {
      var i := LastStretch(h');
      assert h'[i..|h'|] == h'[i..];
    }
    if ThreeErrors(h') {
      var i, j :| 0 <= i <= j <= |h'| && Fine !in h'[i..j] && Errors(h'[i..j]) >= 3;
      if j <= |h| {
        assert h'[i..j] == h[i..j];
      } else {
        assert h'[i..j] == h'[i..];
        StretchBound(h', i);
      }
    }
  }

  // ---------------------------------------------------------------- the watchdog

  class Watchdog {
    const config: Config
    var isHealthy: bool
    var alerts: seq<Alert>
    var consecutiveErrors: nat
    var shouldShutdown: bool
    var warnCycleCount: nat
    var errorCycleCount: nat
    var consecutiveWarnCount: nat
    ghost var history: seq<Event>

    constructor (config: Config)
      ensures Valid() && history == [] && this.config == config
      ensures isHealthy && alerts == [] && consecutiveWarnCount == 0
    {
      this.config := config;
      isHealthy, alerts, consecutiveErrors, shouldShutdown := true, [], 0, false;
      warnCycleCount, errorCycleCount, consecutiveWarnCount, history := 0, 0, 0, [];
      new;
      assert !ThreeErrors([]);
    }

    /** Every counter and the shutdown request are functions of the history. */
    ghost predicate Valid()
      reads this
    {
      && consecutiveErrors == ErrorsSinceFine(history)
      && (shouldShutdown <==> ThreeErrors(history))
      && errorCycleCount == Cycles(TrailingRun(history, Bad), config.errorResetCycles)
      && warnCycleCount == Cycles(TrailingRun(history, Uneasy), config.warnResetCycles)
    }

    /** Clears the cycle counters only; errors count on towards a shutdown. */
    method SoftReset()
      modifies `warnCycleCount, `errorCycleCount, `consecutiveWarnCount
      ensures warnCycleCount == errorCycleCount == consecutiveWarnCount == 0
    {
      warnCycleCount, errorCycleCount, consecutiveWarnCount := 0, 0, 0;
    }

    /** A reset from outside. */
    method ResetNow()
      requires Valid()
      modifies `warnCycleCount, `errorCycleCount, `consecutiveWarnCount, `history
      ensures Valid() && history == old(history) + [ManualReset]
    {
      hide ThreeErrors;
      HistoryGrows(history, ManualReset);
      ThreeErrorsGrow(history, ManualReset);
      ErrorsLatched(history);
      SoftReset();
      history := history + [ManualReset];
    }

    method Evaluate(m: Metrics)
      requires Valid()
      modifies this
      ensures Valid()
      ensures var metric := MetricAlerts(config, m);
              && history == old(history) + [Verdict(metric)]
              && alerts == metric + (if Verdict(metric) == Bad && consecutiveErrors >= 3 then [Alert(Critical, "Watchdog")] else [])
              && isHealthy == (CountLevel(metric, Error) == 0)
      ensures old(shouldShutdown) ==> shouldShutdown
    {
      hide CountLevel, ThreeErrors;
      alerts := [];
      CheckMetric(OrZero(m.wsLag), config.maxWsLag, config.warnWsLag, "WebSocket");
      CheckMetric(OrZero(m.redisAge), config.maxRedisAge, config.warnRedisAge, "Redis");
      CheckMetric(OrZero(m.loopLatency), config.maxLoopLatency, config.warnLoopLatency, "MainLoop");
      alerts := alerts + SafetyAlert(config, m);
      assert alerts == MetricAlerts(config, m);
      Judge(CountLevel(alerts, Error), CountLevel(alerts, Warn));
    }

    method CheckMetric(value: real, max: real, warn: real, component: string)
      modifies `alerts
      ensures alerts == old(alerts) + MetricAlert(value, max, warn, component)
    {
      if value > max {
        alerts := alerts + [Alert(Error, component)];
      } else if value > warn {
        alerts := alerts + [Alert(Warn, component)];
      }
    }

    method Judge(errors: nat, warns: nat)
      requires Valid()
      modifies this
      ensures Valid()
      ensures var e := if errors > 0 then Bad else if warns > 0 then Uneasy else Fine;
              && history == old(history) + [e]
              && alerts == old(alerts) + (if e == Bad && consecutiveErrors >= 3 then [Alert(Critical, "Watchdog")] else [])
              && isHealthy == (errors == 0)
              && consecutiveWarnCount ==
                 if e == Fine || (e == Bad && old(errorCycleCount) + 1 >= config.errorResetCycles)
                    || (e == Uneasy && old(warnCycleCount) + 1 >= config.warnResetCycles) then 0
                 else if e == Uneasy then warns else old(consecutiveWarnCount)
      ensures old(shouldShutdown) ==> shouldShutdown
    {
      hide ThreeErrors, TrailingRun, ErrorsSinceFine, Cycles;
      ghost var e := if errors > 0 then Bad else if warns > 0 then Uneasy else Fine;
      HistoryGrows(history, e);
      ThreeErrorsGrow(history, e);
      ErrorsLatched(history);
      CycleStep(TrailingRun(history, Bad), config.errorResetCycles);
      CycleStep(TrailingRun(history, Uneasy), config.warnResetCycles);
      NoCycle(config.errorResetCycles);
      NoCycle(config.warnResetCycles);
      isHealthy := errors == 0;
      if errors > 0 {
        consecutiveErrors := consecutiveErrors + 1;
        errorCycleCount := errorCycleCount + 1;
        warnCycleCount := 0;
        if errorCycleCount >= config.errorResetCycles { SoftReset(); }
        if consecutiveErrors >= 3 {
          shouldShutdown := true;
          alerts := alerts + [Alert(Critical, "Watchdog")];
        }
      } else if warns > 0 {
        warnCycleCount := warnCycleCount + 1;
        errorCycleCount := 0;
        consecutiveWarnCount := warns;
        if warnCycleCount >= config.warnResetCycles { SoftReset(); }
      } else {
        consecutiveErrors, warnCycleCount, errorCycleCount, consecutiveWarnCount := 0, 0, 0, 0;
      }
      history := history + [e];
    }
  }

  lemma NoCycle(size: int)
    ensures Cycles(0, size) == 0
  {
  }

  /** Three errors in the current stretch are three errors in some stretch. */
  lemma ErrorsLatched(h: seq<Event>)
    ensures ErrorsSinceFine(h) >= 3 ==> ThreeErrors(h)
  {
    if ErrorsSinceFine(h) >= 3 {
      var i := LastStretch(h);
      assert h[i..|h|] == h[i..];
    }
  }
}
