/** The paper executor: simulated entries and exits under the risk rules, with one forced debug entry. */
module PaperExecutor {
  import opened Prelude
  import opened Positions

  datatype Setup = Setup(risk: RiskConfig, forceFirstEntry: bool, forceEntryMinSize: real)

  /** `symbol` overrides the opportunity's own symbol when it is given and not empty. */
  datatype Tick = Tick(opp: Opportunity, symbol: Option<string>, now: real, wall: real)
  {
    function Symbol(): string { if symbol.Some? && symbol.value != "" then symbol.value else opp.symbol }
  }

  datatype State = State(positions: seq<Pos>, forceUsed: bool)

  datatype Signal = CloseSignal(symbol: string, direction: Direction)
                  | OpenSignal(symbol: string, direction: Direction, forced: bool)

  // ---------------------------------------------------------------- one opportunity, on values

  predicate Closes(x: Setup, p: Pos, t: Tick) {
    p.Open() && p.symbol == t.Symbol() && ShouldClose(x.risk, p, t.opp, t.now)
  }

  function Mark(x: Setup, p: Pos, t: Tick): Pos { if Closes(x, p, t) then Closed(x.risk, p, t.opp, t.wall) else p }

  /** The positions as the closing loop leaves them, closed ones still in the list. */
  function Marked(x: Setup, ps: seq<Pos>, t: Tick): (r: seq<Pos>)
    ensures |r| == |ps|
  {
    if ps == [] then [] else [Mark(x, ps[0], t)] + Marked(x, ps[1..], t)
  }

  function Survivors(x: Setup, ps: seq<Pos>, t: Tick): seq<Pos> {
    if ps == [] then []
    else if Closes(x, ps[0], t) then Survivors(x, ps[1..], t)
    else [ps[0]] + Survivors(x, ps[1..], t)
  }

  function CloseSignals(x: Setup, ps: seq<Pos>, t: Tick): seq<Signal> {
    if ps == [] then []
    else if Closes(x, ps[0], t) then [CloseSignal(ps[0].symbol, ps[0].direction)] + CloseSignals(x, ps[1..], t)
    else CloseSignals(x, ps[1..], t)
  }

  predicate AnyOpen(ps: seq<Pos>) { exists i :: 0 <= i < |ps| && ps[i].Open() }

  predicate OpenIn(ps: seq<Pos>, symbol: string) { exists i :: 0 <= i < |ps| && ps[i].Open() && ps[i].symbol == symbol }

  /** The debug entry: once, when the rules refuse and nothing is open. */
  predicate Forces(x: Setup, s: State, t: Tick) {
    !CanOpen(x.risk, s.positions, t.opp, t.Symbol()) && x.forceFirstEntry && !AnyOpen(s.positions) && !s.forceUsed
  }

  function EntrySize(x: Setup, o: Opportunity, forced: bool): real {
    var size := SizeKrw(x.risk, MidPrice(o));
    if size <= 0.0 && forced then (if x.forceEntryMinSize == 0.0 then 0.001 else x.forceEntryMinSize) else size
  }

  /** The opening half: at most one entry, and the forced flag. */
  function Enter(x: Setup, s: State, t: Tick): (State, seq<Signal>) {
    var forced := Forces(x, s, t);
    var s', size := s.(forceUsed := s.forceUsed || forced), EntrySize(x, t.opp, forced);
    if (CanOpen(x.risk, s.positions, t.opp, t.Symbol()) || forced) && !OpenIn(s.positions, t.opp.symbol) && size > 0.0 then
      var d := EntryDirection(t.opp);
      (s'.(positions := s.positions + [Opened(t.opp, Some(d), size, t.wall)]), [OpenSignal(t.opp.symbol, d, forced)])
    else (s', [])
  }

  function Step(x: Setup, s: State, t: Tick): (State, seq<Signal>) {
    var (s', opens) := Enter(x, s.(positions := Survivors(x, s.positions, t)), t);
    (s', CloseSignals(x, s.positions, t) + opens)
  }

  function Run(x: Setup, ts: seq<Tick>): State {
    if ts == [] then State([], false) else Step(x, Run(x, ts[..|ts| - 1]), ts[|ts| - 1]).0
  }

  // ---------------------------------------------------------------- safety over every run

  ghost predicate AllOpen(ps: seq<Pos>) { forall i :: 0 <= i < |ps| ==> ps[i].Open() }

  ghost predicate OnePerSymbol(ps: seq<Pos>) { forall i, j :: 0 <= i < j < |ps| ==> ps[i].symbol != ps[j].symbol }

  predicate AllSized(ps: seq<Pos>) { forall i :: 0 <= i < |ps| ==> ps[i].size > 0.0 }

  function Limit(x: Setup): int { if x.risk.portfolioMaxOpen > 1 then x.risk.portfolioMaxOpen else 1 }

  ghost predicate Safe(x: Setup, s: State) {
    AllOpen(s.positions) && OnePerSymbol(s.positions) && AllSized(s.positions) && |s.positions| <= Limit(x)
  }

  lemma {:induction false} SurvivorsMembers(x: Setup, ps: seq<Pos>, t: Tick)
    ensures forall p | p in Survivors(x, ps, t) :: p in ps && !Closes(x, p, t)
    ensures forall p | p in ps :: Closes(x, p, t) || p in Survivors(x, ps, t)
  {
    if ps != [] { SurvivorsMembers(x, ps[1..], t); }
  }

  lemma {:induction false} SurvivorsSafe(x: Setup, ps: seq<Pos>, t: Tick)
    requires AllOpen(ps) && OnePerSymbol(ps) && AllSized(ps)
    ensures var r := Survivors(x, ps, t); AllOpen(r) && OnePerSymbol(r) && AllSized(r) && |r| <= |ps|
  {
    hide ShouldClose, Closes;
    if ps != [] {
      var p, rest := ps[0], Survivors(x, ps[1..], t);
      SurvivorsSafe(x, ps[1..], t);
      SurvivorsMembers(x, ps[1..], t);
      forall i | 0 <= i < |rest| ensures rest[i].symbol != p.symbol {
        assert rest[i] in ps[1..];
        var k :| 0 <= k < |ps[1..]| && ps[1..][k] == rest[i];
        assert ps[k + 1] == rest[i];
      }
    }
  }

  lemma {:induction false} AllOpenCounts(ps: seq<Pos>)
    requires AllOpen(ps)
    ensures OpenCount(ps, None) == |ps|
  {
    if ps != [] { AllOpenCounts(ps[..|ps| - 1]); }
  }

  /** Entering keeps the list safe, forced or not. */
  lemma EnterSafe(x: Setup, s: State, t: Tick)
    requires Safe(x, s)
    ensures Safe(x, Enter(x, s, t).0)
  {
    hide SizeKrw, MidPrice, EntryDirection;
    AllOpenCounts(s.positions);
    if s.positions != [] { assert s.positions[0].Open(); }
  }

  /** Every run: only OPEN positions remain after each call, at most one per symbol, within max(1, portfolio limit), sized above zero. */
  lemma {:induction false} RunIsSafe(x: Setup, ts: seq<Tick>)
    ensures Safe(x, Run(x, ts))
  {
    hide Enter, Survivors;
    if ts != [] {
      var before, t := Run(x, ts[..|ts| - 1]), ts[|ts| - 1];
      RunIsSafe(x, ts[..|ts| - 1]);
      SurvivorsSafe(x, before.positions, t);
      EnterSafe(x, before.(positions := Survivors(x, before.positions, t)), t);
    }
  }

  /** The state the opening half of the last tick saw. */
  function BeforeEntry(x: Setup, ts: seq<Tick>): State
    requires ts != []
  {
    var s, t := Run(x, ts[..|ts| - 1]), ts[|ts| - 1];
    s.(positions := Survivors(x, s.positions, t))
  }

  /** How often the debug entry fired in a run. */
  function Firings(x: Setup, ts: seq<Tick>): nat {
    if ts == [] then 0
    else Firings(x, ts[..|ts| - 1]) + if Forces(x, BeforeEntry(x, ts), ts[|ts| - 1]) then 1 else 0
  }

  /** The forced entry fires at most once in a run; when it does, nothing is open and the rules had refused. */
  lemma {:induction false} ForcedOnce(x: Setup, ts: seq<Tick>)
    ensures Firings(x, ts) == if Run(x, ts).forceUsed then 1 else 0
    ensures ts != [] && Forces(x, BeforeEntry(x, ts), ts[|ts| - 1]) ==>
              Firings(x, ts[..|ts| - 1]) == 0 && BeforeEntry(x, ts).positions == [] && |Run(x, ts).positions| <= 1
  {
    hide CanOpen, EntrySize, Closes;
    if ts != [] {
      var before, t := Run(x, ts[..|ts| - 1]), ts[|ts| - 1];
      ForcedOnce(x, ts[..|ts| - 1]);
      RunIsSafe(x, ts[..|ts| - 1]);
      SurvivorsSafe(x, before.positions, t);
      var ps := BeforeEntry(x, ts).positions;
      if ps != [] { assert ps[0].Open() && AnyOpen(ps); }
    }
  }

  function Opens(signals: seq<Signal>): nat {
    if signals == [] then 0 else Opens(signals[..|signals| - 1]) + if signals[|signals| - 1].OpenSignal? then 1 else 0
  }

  lemma {:induction false} CloseSignalsCount(x: Setup, ps: seq<Pos>, t: Tick)
    ensures |Survivors(x, ps, t)| + |CloseSignals(x, ps, t)| == |ps|
    ensures forall g | g in CloseSignals(x, ps, t) :: g.CloseSignal? && g.symbol == t.Symbol()
  {
    hide ShouldClose;
    if ps != [] { CloseSignalsCount(x, ps[1..], t); }
  }

  lemma {:induction false} NoOpens(signals: seq<Signal>)
    requires forall g | g in signals :: g.CloseSignal?
    ensures Opens(signals) == 0
  {
    if signals != [] {
      assert signals[|signals| - 1] in signals;
      NoOpens(signals[..|signals| - 1]);
    }
  }

  /** The signals account for the list: it grows by the opens and shrinks by the closes, all of the tick's own symbol. */
  lemma SignalsAccount(x: Setup, s: State, t: Tick)
    ensures var (s', signals) := Step(x, s, t);
            |s'.positions| == |s.positions| + 2 * Opens(signals) - |signals| && Opens(signals) <= 1
  {
    hide ShouldClose, CanOpen, EntrySize, Survivors, CloseSignals;
    var closes := CloseSignals(x, s.positions, t);
    CloseSignalsCount(x, s.positions, t);
    NoOpens(closes);
    var opens := Enter(x, s.(positions := Survivors(x, s.positions, t)), t).1;
    if opens == [] {
      assert closes + opens == closes;
    } else {
      assert (closes + opens)[..|closes + opens| - 1] == closes;
    }
  }

  // ---------------------------------------------------------------- removal by value

  function Filter(ps: seq<Pos>, open: bool): seq<Pos> {
    if ps == [] then []
    else if ps[0].Open() == open then [ps[0]] + Filter(ps[1..], open)
    else Filter(ps[1..], open)
  }

  /** Index of the first element equal to `p`: where `list.remove` cuts. */
  function FirstEqual(ps: seq<Pos>, p: Pos): (i: nat)
    requires p in ps
    ensures i < |ps| && ps[i] == p
  {
    if ps[0] == p then 0 else 1 + FirstEqual(ps[1..], p)
  }

  /** Removing the first closed value by equality takes out the first closed element, and no open one. */
  lemma {:induction false} RemoveFirstClosed(ps: seq<Pos>)
    requires Filter(ps, false) != []
    ensures Filter(ps, false)[0] in ps
    ensures var i := FirstEqual(ps, Filter(ps, false)[0]);
            && Filter(ps[..i] + ps[i + 1..], false) == Filter(ps, false)[1..]
            && Filter(ps[..i] + ps[i + 1..], true) == Filter(ps, true)
  {
    var p := Filter(ps, false)[0];
    if ps[0].Open() {
      RemoveFirstClosed(ps[1..]);
      var i := FirstEqual(ps[1..], p);
      assert (ps[..i + 1 + 0] + ps[i + 2..])[1..] == ps[1..][..i] + ps[1..][i + 1..];
      assert !p.Open() by { FilterMembers(ps[1..], false, p); }
      assert FirstEqual(ps, p) == i + 1;
    } else {
      assert FirstEqual(ps, p) == 0 && ps[..0] + ps[1..] == ps[1..];
    }
  }

  lemma {:induction false} FilterMembers(ps: seq<Pos>, open: bool, p: Pos)
    ensures p in Filter(ps, open) <==> p in ps && p.Open() == open
  {
    if ps != [] {
      FilterMembers(ps[1..], open, p);
      assert ps == [ps[0]] + ps[1..];
    }
  }

  lemma {:induction false} NothingClosed(ps: seq<Pos>)
    requires Filter(ps, false) == []
    ensures Filter(ps, true) == ps
  {
    if ps != [] { NothingClosed(ps[1..]); }
  }

  lemma {:induction false} SurvivorsAreOpen(x: Setup, ps: seq<Pos>, t: Tick)
    requires AllOpen(ps)
    ensures Filter(Marked(x, ps, t), true) == Survivors(x, ps, t)
  {
    hide ShouldClose, PnlKrw, PnlPct;
    if ps != [] {
      SurvivorsAreOpen(x, ps[1..], t);
      assert ps[0].Open();
      assert Marked(x, ps, t)[1..] == Marked(x, ps[1..], t);
    }
  }

  lemma {:induction false} FilterAppend(ps: seq<Pos>, p: Pos, open: bool)
    ensures Filter(ps + [p], open) == Filter(ps, open) + if p.Open() == open then [p] else []
  {
    if ps != [] {
      FilterAppend(ps[1..], p, open);
      assert (ps + [p])[1..] == ps[1..] + [p];
    }
  }

  lemma {:induction false} MarkedAppend(x: Setup, ps: seq<Pos>, p: Pos, t: Tick)
    ensures Marked(x, ps + [p], t) == Marked(x, ps, t) + [Mark(x, p, t)]
    ensures CloseSignals(x, ps + [p], t)
         == CloseSignals(x, ps, t) + if Closes(x, p, t) then [CloseSignal(p.symbol, p.direction)] else []
  {
    hide Closes, Mark;
    if ps != [] {
      MarkedAppend(x, ps[1..], p, t);
      assert (ps + [p])[1..] == ps[1..] + [p];
    }
  }

  lemma {:induction false} MarkedAt(x: Setup, ps: seq<Pos>, t: Tick, i: nat)
    requires i < |ps|
    ensures Marked(x, ps, t)[i] == Mark(x, ps[i], t)
  {
    hide Mark;
    if i > 0 { MarkedAt(x, ps[1..], t, i - 1); }
  }

  lemma NothingLooked(x: Setup, t: Tick)
    ensures Filter(Marked(x, [], t), false) == [] && CloseSignals(x, [], t) == []
  {
  }

  /** One more position looked at by the closing loop. */
  lemma LoopUnfolds(x: Setup, ps: seq<Pos>, t: Tick, i: nat)
    requires i < |ps| && ps[i].Open()
    ensures var p := ps[i];
            && Filter(Marked(x, ps[..i + 1], t), false)
               == Filter(Marked(x, ps[..i], t), false) + (if Closes(x, p, t) then [Mark(x, p, t)] else [])
            && CloseSignals(x, ps[..i + 1], t)
               == CloseSignals(x, ps[..i], t) + if Closes(x, p, t) then [CloseSignal(p.symbol, p.direction)] else []
  {
    hide Filter, Marked, CloseSignals, ShouldClose, PnlKrw, PnlPct;
    assert ps[..i + 1] == ps[..i] + [ps[i]];
    MarkedAppend(x, ps[..i], ps[i], t);
    FilterAppend(Marked(x, ps[..i], t), Mark(x, ps[i], t), false);
  }

  lemma SurvivorsOpen(x: Setup, ps: seq<Pos>, t: Tick)
    requires AllOpen(ps)
    ensures AllOpen(Survivors(x, ps, t))
  {
    SurvivorsMembers(x, ps, t);
    forall i | 0 <= i < |Survivors(x, ps, t)| ensures Survivors(x, ps, t)[i].Open() {
      assert Survivors(x, ps, t)[i] in ps;
    }
  }

  // ---------------------------------------------------------------- the executor

  class PaperExecutor {
    const x: Setup
    var positions: seq<Position>
    var forceEntryUsed: bool

    constructor (x: Setup)
      ensures Valid() && this.x == x && Now() == State([], false)
    {
      this.x, positions, forceEntryUsed := x, [], false;
    }

    ghost function Now(): State
      reads this, positions
    {
      State(Values(positions), forceEntryUsed)
    }

    ghost predicate Valid()
      reads this, positions
    {
      Distinct(positions) && AllOpen(Values(positions))
    }

    /** First loop: close the matching positions in place, collecting them and their signals. */
    method CloseMatching(t: Tick) returns (closed: seq<Position>, signals: seq<Signal>)
      requires Valid()
      modifies set p | p in positions
      ensures Values(positions) == Marked(x, old(Values(positions)), t)
      ensures Values(closed) == Filter(Values(positions), false)
      ensures signals == CloseSignals(x, old(Values(positions)), t)
    {
      hide Distinct, ShouldClose, Closed, Filter, Marked, CloseSignals;
      ghost var was := Values(positions);
      closed, signals := [], [];
      NothingLooked(x, t);
      assert was[..0] == [];
      for i := 0 to |positions|
        invariant forall j :: 0 <= j < |positions| ==>
                    positions[j].Value() == if j < i then Mark(x, was[j], t) else was[j]
        invariant forall p | p in closed :: p in positions[..i]
        invariant Values(closed) == Filter(Marked(x, was[..i], t), false)
        invariant signals == CloseSignals(x, was[..i], t)
      {
        var p := positions[i];
        ghost var before := Values(closed);
        LoopUnfolds(x, was, t, i);
        DistinctAt(positions, i);
        DistinctPairs(positions);
        if p.Value().Open() && p.symbol == t.Symbol() && ShouldClose(x.risk, p.Value(), t.opp, t.now) {
          p.Close(x.risk, t.opp, t.wall);
          assert Values(closed) == before;
          signals := signals + [CloseSignal(p.symbol, p.direction)];
          closed := closed + [p];
        }
      }
      assert was[..|was|] == was;
      forall i | 0 <= i < |was| ensures Marked(x, was, t)[i] == Mark(x, was[i], t) { MarkedAt(x, was, t, i); }
      assert Values(positions) == Marked(x, was, t);
    }

    /** Second loop: take each closed position out of the list, by value equality. */
    method RemoveClosed(closed: seq<Position>)
      requires Distinct(positions) && Values(closed) == Filter(Values(positions), false)
      modifies `positions
      ensures Distinct(positions) && Values(positions) == Filter(old(Values(positions)), true)
      ensures forall p | p in positions :: p in old(positions)
    {
      hide Distinct, Filter;
      ghost var open := Filter(Values(positions), true);
      for k := 0 to |closed|
        invariant Distinct(positions) && forall p | p in positions :: p in old(positions)
        invariant Filter(Values(positions), false) == Values(closed)[k..] && Filter(Values(positions), true) == open
      {
        ghost var now := Values(positions);
        assert Values(closed)[k..][0] == closed[k].Value();
        RemoveFirstClosed(now);
        var i := FirstEqual(Values(positions), closed[k].Value());
        CutKeepsDistinct(positions, i);
        positions := positions[..i] + positions[i + 1..];
        assert Values(positions) == now[..i] + now[i + 1..];
        assert Values(closed)[k..][1..] == Values(closed)[k + 1..];
      }
      NothingClosed(Values(positions));
    }

    method ExecuteEntry(t: Tick, d: Direction, size: real)
      requires Valid()
      modifies `positions
      ensures Valid() && Values(positions) == old(Values(positions)) + [Opened(t.opp, Some(d), size, t.wall)]
      ensures forall p | p in positions :: p in old(positions) || fresh(p)
    {
      hide Distinct;
      var position := new Position(t.opp, Some(d), size, t.wall);
      DistinctExtend(positions, position);
      positions := positions + [position];
    }

    /** The opening half. */
    method EnterIfAllowed(t: Tick) returns (signals: seq<Signal>)
      requires Valid()
      modifies `positions, `forceEntryUsed
      ensures Valid() && (Now(), signals) == Enter(x, old(Now()), t)
      ensures forall p | p in positions :: p in old(positions) || fresh(p)
    {
      hide Distinct, CanOpen, SizeKrw, MidPrice, EntryDirection;
      signals := [];
      var canOpen, forced := CanOpen(x.risk, Values(positions), t.opp, t.Symbol()), false;
      if !canOpen && x.forceFirstEntry && !AnyOpen(Values(positions)) && !forceEntryUsed {
        canOpen, forced, forceEntryUsed := true, true, true;
      }
      if canOpen {
        if OpenIn(Values(positions), t.opp.symbol) { return; }
        var size := SizeKrw(x.risk, MidPrice(t.opp));
        if size <= 0.0 && forced { size := if x.forceEntryMinSize == 0.0 then 0.001 else x.forceEntryMinSize; }
        if size <= 0.0 { return; }
        var d := EntryDirection(t.opp);
        ExecuteEntry(t, d, size);
        signals := [OpenSignal(t.opp.symbol, d, forced)];
      }
    }

    /** Close what the rules say, then open at most one position. */
    method OnOpportunity(t: Tick) returns (signals: seq<Signal>)
      requires Valid()
      modifies this, set p | p in positions
      ensures Valid() && (Now(), signals) == Step(x, old(Now()), t)
      ensures forall p | p in positions :: p in old(positions) || fresh(p)
    {
      hide Distinct, Marked, Survivors, Filter, Enter, CloseSignals;
      ghost var was := Values(positions);
      var closed;
      closed, signals := CloseMatching(t);
      RemoveClosed(closed);
      SurvivorsAreOpen(x, was, t);
      SurvivorsOpen(x, was, t);
      var opens := EnterIfAllowed(t);
      signals := signals + opens;
    }
  }
}
