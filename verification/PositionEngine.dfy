/** The position engine: opening and closing under count and exposure limits, and the daily profit. */
module PositionEngine {
  import opened Prelude

  datatype Side = Buy | Sell

  datatype Pos = Pos(symbol: string, side: Side, quantity: real, entryPrice: real, realizedPnl: real, closedAt: Option<real>)

  function Size(p: Pos): real { p.entryPrice * p.quantity }

  function Realized(p: Pos, exitPrice: real): real {
    if p.side == Buy then (exitPrice - p.entryPrice) * p.quantity else (p.entryPrice - exitPrice) * p.quantity
  }

  datatype Limits = Limits(maxOpen: int, maxExposure: real)

  /** Open positions by id, closed ones in order, and the profit since the last reset. */
  datatype Book = Book(open: map<string, Pos>, closed: seq<Pos>, dailyPnl: real)

  function Sizes(open: map<string, Pos>): map<string, real> { map id | id in open :: Size(open[id]) }

  ghost function Exposure(b: Book): real { MapSum(Sizes(b.open)) }

  /** The id comes from the clock, so it may be one that is already open. */
  datatype Action = Open(id: string, symbol: string, side: Side, quantity: real, entryPrice: real)
                  | Close(id: string, exitPrice: real, at: real)
                  | ResetDaily

  function NewPos(a: Action): Pos
    requires a.Open?
  {
    Pos(a.symbol, a.side, a.quantity, a.entryPrice, 0.0, None)
  }

  ghost predicate Allowed(l: Limits, b: Book, size: real) {
    |b.open| < l.maxOpen && Exposure(b) + size <= l.maxExposure
  }

  function ClosedPos(p: Pos, exitPrice: real, at: real): Pos {
    p.(realizedPnl := Realized(p, exitPrice), closedAt := Some(at))
  }

  ghost function Apply(l: Limits, b: Book, a: Action): Book {
    match a
    case Open(id, _, _, _, _) =>
      if Allowed(l, b, Size(NewPos(a))) then b.(open := b.open[id := NewPos(a)]) else b
    case Close(id, exitPrice, at) =>
      if id !in b.open then b
      else
        var p := ClosedPos(b.open[id], exitPrice, at);
        Book(b.open - {id}, b.closed + [p], b.dailyPnl + p.realizedPnl)
    case ResetDaily => b.(dailyPnl := 0.0)
  }

  ghost function Run(l: Limits, actions: seq<Action>): Book {
    if actions == [] then Book(map[], [], 0.0)
    else Apply(l, Run(l, actions[..|actions| - 1]), actions[|actions| - 1])
  }

  // ---------------------------------------------------------------- limits

  lemma SizesOfOpen(open: map<string, Pos>, id: string, p: Pos)
    ensures Sizes(open[id := p]) == Sizes(open)[id := Size(p)]
  {
  }

  lemma SizesWithout(open: map<string, Pos>, ids: set<string>)
    ensures Sizes(open - ids) == Sizes(open) - ids
  {
  }

  ghost predicate WithinLimits(l: Limits, b: Book) {
    && |b.open| <= (if l.maxOpen > 0 then l.maxOpen else 0)
    && Exposure(b) <= l.maxExposure
    && forall id | id in b.open :: Size(b.open[id]) >= 0.0
  }

  lemma SizeAt(open: map<string, Pos>, id: string)
    ensures id in Sizes(open) <==> id in open
    ensures Get(Sizes(open), id) == if id in open then Size(open[id]) else 0.0
  {
  }

  /** An allowed open adds its size to the exposure, less that of a position it overwrites. */
  lemma OpenAdds(l: Limits, b: Book, a: Action)
    requires a.Open? && Allowed(l, b, Size(NewPos(a)))
    ensures var b' := Apply(l, b, a);
            && b'.open == b.open[a.id := NewPos(a)]
            && Exposure(b') == Exposure(b) + Size(NewPos(a)) - if a.id in b.open then Size(b.open[a.id]) else 0.0
  {
    hide MapSum, Size, Sizes;
    SizesOfOpen(b.open, a.id, NewPos(a));
    MapSumUpdate(Sizes(b.open), a.id, Size(NewPos(a)));
    SizeAt(b.open, a.id);
  }

  lemma CloseReduces(l: Limits, b: Book, id: string, price: real, at: real)
    requires id in b.open
    ensures var b' := Apply(l, b, Close(id, price, at));
            && b'.open == b.open - {id}
            && Exposure(b') == Exposure(b) - Size(b.open[id])
            && |b'.open| == |b.open| - 1
  {
    hide MapSum, Size, Sizes, Realized;
    SizeAt(b.open, id);
    SizesWithout(b.open, {id});
    MapSumRemove(Sizes(b.open), id);
    assert (b.open - {id}).Keys == b.open.Keys - {id};
  }

  lemma ActionKeepsLimits(l: Limits, b: Book, a: Action)
    requires WithinLimits(l, b) && (a.Open? ==> Size(NewPos(a)) >= 0.0)
    ensures WithinLimits(l, Apply(l, b, a))
  {
    hide Exposure, Size, Realized;
    match a
    case Open(_, _, _, _, _) => if Allowed(l, b, Size(NewPos(a))) { OpenAdds(l, b, a); }
    case Close(id, exitPrice, at) => if id in b.open { CloseReduces(l, b, id, exitPrice, at); }
    case ResetDaily => ResetChangesNoSize(b);
  }

  lemma ResetChangesNoSize(b: Book)
    ensures Exposure(b.(dailyPnl := 0.0)) == Exposure(b)
  {
  }

  /** A negative size makes room that closing it takes away again: this run ends over the exposure limit. */
  lemma NegativeSizeOverruns(l: Limits) returns (actions: seq<Action>)
    requires l.maxOpen >= 2 && l.maxExposure >= 0.0
    ensures Exposure(Run(l, actions)) > l.maxExposure
  {
    var e := l.maxExposure + 1.0;
    var a, b, c := Open("a", "BTC", Buy, -1.0, e), Open("b", "BTC", Buy, 1.0, l.maxExposure + e), Close("a", 0.0, 0.0);
    actions := [a, b, c];
    assert actions[..2] == [a, b] && [a, b][..1] == [a] && [a][..0] == [];
    assert Size(NewPos(a)) == -e && Size(NewPos(b)) == l.maxExposure + e;
    NothingOpen();
    hide Apply, Exposure, Size;
    OpenAdds(l, Run(l, []), a);
    OpenAdds(l, Run(l, [a]), b);
    CloseReduces(l, Run(l, [a, b]), "a", 0.0, 0.0);
  }

  lemma NothingOpen()
    ensures Exposure(Book(map[], [], 0.0)) == 0.0
  {
    assert Sizes(map[]) == map[];
  }

  /** With room for one position only, any size is fine: it opens into an empty book. */
  lemma {:induction false} OneAtATime(l: Limits, actions: seq<Action>)
    requires l.maxOpen <= 1 && l.maxExposure >= 0.0
    ensures |Run(l, actions).open| <= 1 && Exposure(Run(l, actions)) <= l.maxExposure
  {
    hide Exposure, Size;
    NothingOpen();
    if actions != [] {
      var b, a := Run(l, actions[..|actions| - 1]), actions[|actions| - 1];
      OneAtATime(l, actions[..|actions| - 1]);
      match a
      case Open(_, _, _, _, _) =>
        if Allowed(l, b, Size(NewPos(a))) {
          assert b.open == map[];
          OpenAdds(l, b, a);
        }
      case Close(id, exitPrice, at) =>
        if id in b.open {
          CloseReduces(l, b, id, exitPrice, at);
          EmptyExposure(Apply(l, b, a));
        }
      case ResetDaily => ResetChangesNoSize(b);
    }
  }

  lemma EmptyExposure(b: Book)
    requires |b.open| == 0
    ensures Exposure(b) == 0.0
  {
    assert Sizes(b.open) == map[];
  }

  /** Exactly which limits hold in all runs, whatever the sizes. */
  lemma ExposureBoundedExactly(l: Limits)
    requires l.maxExposure >= 0.0
    ensures (forall actions :: Exposure(Run(l, actions)) <= l.maxExposure) <==> l.maxOpen <= 1
  {
    if l.maxOpen <= 1 {
      forall actions ensures Exposure(Run(l, actions)) <= l.maxExposure { OneAtATime(l, actions); }
    } else {
      var actions := NegativeSizeOverruns(l);
    }
  }

  /** With sizes of zero or more every run keeps count and exposure within the limits, also when an id is overwritten. */
  lemma {:induction false} RunKeepsLimits(l: Limits, actions: seq<Action>)
    requires l.maxExposure >= 0.0
    requires forall i :: 0 <= i < |actions| && actions[i].Open? ==> Size(NewPos(actions[i])) >= 0.0
    ensures WithinLimits(l, Run(l, actions))
  {
    hide Apply;
    if actions == [] {
      assert Sizes(map[]) == map[];
    } else {
      RunKeepsLimits(l, actions[..|actions| - 1]);
      ActionKeepsLimits(l, Run(l, actions[..|actions| - 1]), actions[|actions| - 1]);
    }
  }

  // ---------------------------------------------------------------- what an action does, in prices and quantities

  /** What is invested in the open positions. */
  ghost function Invested(open: map<string, Pos>): real {
    MapSum(map id | id in open :: open[id].quantity * open[id].entryPrice)
  }

  lemma ExposureIsInvested(b: Book)
    ensures Exposure(b) == Invested(b.open)
  {
    assert Sizes(b.open) == map id | id in b.open :: b.open[id].quantity * b.open[id].entryPrice;
  }

  /** A position is opened exactly when there is room for one more and what it costs, and as it was asked for. */
  lemma OpensExactly(l: Limits, b: Book, id: string, symbol: string, side: Side, quantity: real, price: real)
    ensures var b' := Apply(l, b, Open(id, symbol, side, quantity, price));
            if |b.open| + 1 <= l.maxOpen && Invested(b.open) + quantity * price <= l.maxExposure
            then b' == b.(open := b.open[id := Pos(symbol, side, quantity, price, 0.0, None)])
            else b' == b
  {
    ExposureIsInvested(b);
    hide Exposure, Invested;
  }

  /** What was sold for, less what was bought for. */
  function Proceeds(p: Pos, exitPrice: real): real {
    var bought := p.quantity * (if p.side == Buy then p.entryPrice else exitPrice);
    var sold := p.quantity * (if p.side == Buy then exitPrice else p.entryPrice);
    sold - bought
  }

  /** A close pays the proceeds and moves the position to the closed ones. */
  lemma ClosePays(l: Limits, b: Book, id: string, exitPrice: real, at: real)
    ensures var b' := Apply(l, b, Close(id, exitPrice, at));
            if id !in b.open then b' == b
            else
              var p := b.open[id];
              b' == Book(b.open - {id},
                         b.closed + [Pos(p.symbol, p.side, p.quantity, p.entryPrice, Proceeds(p, exitPrice), Some(at))],
                         b.dailyPnl + Proceeds(p, exitPrice))
  {
    if id in b.open { RealizedIs(b.open[id], exitPrice); }
    hide Realized, Proceeds;
  }

  lemma RealizedIs(p: Pos, exitPrice: real)
    ensures Realized(p, exitPrice) == Proceeds(p, exitPrice)
  {
  }

  // ---------------------------------------------------------------- nothing is lost but what an id overwrites

  /** How many of the actions opened a position, and how many of these replaced one that was open. */
  ghost function Opens(l: Limits, actions: seq<Action>): (nat, nat) {
    if actions == [] then (0, 0)
    else
      var (opens, lost) := Opens(l, actions[..|actions| - 1]);
      var b, a := Run(l, actions[..|actions| - 1]), actions[|actions| - 1];
      if a.Open? && Allowed(l, b, Size(NewPos(a))) then (opens + 1, lost + if a.id in b.open then 1 else 0) else (opens, lost)
  }

  /** The profit realised since the last reset, from the closed positions of the run. */
  ghost function DayPnl(l: Limits, actions: seq<Action>): real {
    if actions == [] || actions[|actions| - 1].ResetDaily? then 0.0
    else
      var b, a := Run(l, actions[..|actions| - 1]), actions[|actions| - 1];
      DayPnl(l, actions[..|actions| - 1])
      + if a.Close? && a.id in b.open then Realized(b.open[a.id], a.exitPrice) else 0.0
  }

  /** Every opened position is open, closed or overwritten; the daily profit is that of the closes since the reset. */
  lemma {:induction false} PositionsConserved(l: Limits, actions: seq<Action>)
    ensures var (opens, lost) := Opens(l, actions);
            opens == |Run(l, actions).open| + |Run(l, actions).closed| + lost
    ensures Run(l, actions).dailyPnl == DayPnl(l, actions)
  {
    hide Allowed, Realized, Size;
    if actions != [] {
      var front, a := actions[..|actions| - 1], actions[|actions| - 1];
      PositionsConserved(l, front);
      var b := Run(l, front);
      if a.Close? && a.id in b.open { assert (b.open - {a.id}).Keys == b.open.Keys - {a.id}; }
      if a.Open? { assert b.open[a.id := NewPos(a)].Keys == b.open.Keys + {a.id}; }
    }
  }

  // ---------------------------------------------------------------- the objects

  class Position {
    const symbol: string
    const side: Side
    const quantity: real
    const entryPrice: real
    var realizedPnl: real
    var closedAt: Option<real>

    constructor (symbol: string, side: Side, quantity: real, entryPrice: real)
      ensures Value() == Pos(symbol, side, quantity, entryPrice, 0.0, None)
    {
      this.symbol, this.side, this.quantity, this.entryPrice := symbol, side, quantity, entryPrice;
      realizedPnl, closedAt := 0.0, None;
    }

    function Value(): Pos
      reads this
    {
      Pos(symbol, side, quantity, entryPrice, realizedPnl, closedAt)
    }
  }

  function Values(ps: seq<Position>): (vs: seq<Pos>)
    reads ps
    ensures |vs| == |ps|
    ensures forall i :: 0 <= i < |ps| ==> vs[i] == ps[i].Value()
  {
    seq(|ps|, i requires 0 <= i < |ps| reads ps => ps[i].Value())
  }

  class PositionEngine {
    const limits: Limits
    var openPositions: map<string, Position>
    var closedPositions: seq<Position>
    var dailyRealizedPnl: real

    constructor (limits: Limits)
      ensures Valid() && this.limits == limits && Now() == Book(map[], [], 0.0)
    {
      this.limits, openPositions, closedPositions, dailyRealizedPnl := limits, map[], [], 0.0;
    }

    /** An open position is one object, under one id, and not among the closed ones. */
    ghost predicate Valid()
      reads this
    {
      && (forall id, other | id in openPositions && other in openPositions :: openPositions[id] == openPositions[other] ==> id == other)
      && (forall id | id in openPositions :: openPositions[id] !in closedPositions)
    }

    ghost function OpenValues(): map<string, Pos>
      reads this, set id | id in openPositions :: openPositions[id]
    {
      map id | id in openPositions :: openPositions[id].Value()
    }

    ghost function Now(): Book
      reads this, closedPositions, set id | id in openPositions :: openPositions[id]
    {
      Book(OpenValues(), Values(closedPositions), dailyRealizedPnl)
    }

    method GetTotalExposure() returns (total: real)
      ensures total == Exposure(Now())
    {
      hide Size;
      total := 0.0;
      var rest := openPositions.Keys;
      ghost var sizes := Sizes(OpenValues());
      assert openPositions.Keys - rest == {} && sizes - {} == sizes;
      while rest != {}
        invariant rest <= openPositions.Keys
        invariant total + MapSum(sizes - (openPositions.Keys - rest)) == MapSum(sizes)
      {
        var id :| id in rest;
        ghost var left := sizes - (openPositions.Keys - rest);
        MapSumRemove(left, id);
        assert left - {id} == sizes - (openPositions.Keys - (rest - {id}));
        total := total + Size(openPositions[id].Value());
        rest := rest - {id};
      }
      assert sizes - openPositions.Keys == map[];
    }

    /** The count limit, then the exposure limit. */
    method Admits(size: real) returns (ok: bool)
      ensures ok == Allowed(limits, Now(), size)
    {
      hide Exposure;
      assert OpenValues().Keys == openPositions.Keys;
      if |openPositions| >= limits.maxOpen { return false; }
      var exposure := GetTotalExposure();
      ok := exposure + size <= limits.maxExposure;
    }

    method Register(id: string, position: Position)
      requires Valid() && position !in closedPositions
      requires forall other | other in openPositions :: openPositions[other] != position
      modifies `openPositions
      ensures Valid() && openPositions == old(openPositions)[id := position]
      ensures OpenValues() == old(OpenValues())[id := position.Value()]
    {
      openPositions := openPositions[id := position];
    }

    method OpenPosition(id: string, symbol: string, side: Side, quantity: real, entryPrice: real) returns (p: Option<Position>)
      requires Valid()
      modifies `openPositions
      ensures Valid() && p.Some? == old(Allowed(limits, Now(), Size(Pos(symbol, side, quantity, entryPrice, 0.0, None))))
      ensures Now() == Apply(limits, old(Now()), Open(id, symbol, side, quantity, entryPrice))
      ensures p.Some? ==> fresh(p.value) && openPositions == old(openPositions)[id := p.value]
    {
      hide Allowed;
      p := None;
      ghost var a := Open(id, symbol, side, quantity, entryPrice);
      var size := Size(Pos(symbol, side, quantity, entryPrice, 0.0, None));
      var admitted := Admits(size);
      assert admitted == Allowed(limits, old(Now()), Size(NewPos(a)));
      if !admitted { return; }
      var position := new Position(symbol, side, quantity, entryPrice);
      p := Some(position);
      Register(id, position);
    }

    method ClosePosition(id: string, exitPrice: real, at: real) returns (ok: bool)
      requires Valid()
      modifies this, set other | other in openPositions :: openPositions[other]
      ensures Valid() && ok == old(id in openPositions)
      ensures Now() == Apply(limits, old(Now()), Close(id, exitPrice, at))
      ensures openPositions == old(openPositions) - {id}
    {
      hide MapSum, Realized;
      if id !in openPositions { return false; }
      ghost var open, closed := OpenValues(), Values(closedPositions);
      var position := openPositions[id];
      var pnl := Realized(position.Value(), exitPrice);
      position.realizedPnl, position.closedAt := pnl, Some(at);
      dailyRealizedPnl := dailyRealizedPnl + pnl;
      closedPositions := closedPositions + [position];
      openPositions := openPositions - {id};
      assert OpenValues() == open - {id};
      assert Values(closedPositions) == closed + [position.Value()];
      ok := true;
    }

    method ResetDailyPnl()
      requires Valid()
      modifies `dailyRealizedPnl
      ensures Valid() && Now() == Apply(limits, old(Now()), ResetDaily)
    {
      dailyRealizedPnl := 0.0;
    }
  }
}
