/** Planning a tuning session: one job per combination of the grids, cut to the job limit. */
module TuningPlanner {
  import opened Prelude
  import opened Cartesian

  datatype Value = Number(number: real) | Text(text: string) | NoValue

  datatype ParamGrid = ParamGrid(name: string, values: seq<real>)

  datatype SessionConfig = SessionConfig(
    dataFile: string,
    minSpreadBps: Option<real>,
    takerFeeABps: Option<real>,
    takerFeeBBps: Option<real>,
    slippageBps: Option<real>,
    maxPositionUsd: Option<real>,
    maxOpenTrades: Option<int>,
    initialBalanceUsd: real,
    stopOnDrawdownPct: Option<real>,
    grids: seq<ParamGrid>,
    maxJobs: Option<int>,
    tagPrefix: Option<string>)
  {
    /** An empty prefix counts as none. */
    predicate Tagged() { tagPrefix.Some? && tagPrefix.value != "" }
  }

  datatype JobPlan = JobPlan(jobId: string, config: map<string, Value>, outputJson: string)

  function Names(grids: seq<ParamGrid>): (r: seq<string>)
    ensures |r| == |grids|
  {
    seq(|grids|, i requires 0 <= i < |grids| => grids[i].name)
  }

  function Axes(grids: seq<ParamGrid>): (r: seq<seq<real>>)
    ensures |r| == |grids|
  {
    seq(|grids|, i requires 0 <= i < |grids| => grids[i].values)
  }

  /** No limit takes everything. */
  function Limited<T>(xs: seq<T>, limit: Option<int>): (r: seq<T>)
    ensures r <= xs
    ensures limit.None? ==> r == xs
    ensures limit.Some? && limit.value >= 0 ==> |r| == if limit.value < |xs| then limit.value else |xs|
    ensures limit.Some? && limit.value < 0 ==> |r| == if -limit.value < |xs| then |xs| - -limit.value else 0
  {
    if limit.None? then xs else Cut(xs, limit.value)
  }

  // ---------------------------------------------------------------- job ids

  function DigitChar(d: nat): char
    requires d < 10
  {
    '0' + d as char
  }

  function Decimal(n: nat): string {
    if n < 10 then [DigitChar(n)] else Decimal(n / 10) + [DigitChar(n % 10)]
  }

  function Zeros(n: nat): (s: string)
    ensures |s| == n
  {
    if n == 0 then "" else "0" + Zeros(n - 1)
  }

  /** `f"{n:04d}"` */
  function Padded(n: nat): string {
    var d := Decimal(n);
    if |d| < 4 then Zeros(4 - |d|) + d else d
  }

  /** The number a digit string spells. */
  function Spelled(s: string): int {
    if s == "" then 0 else 10 * Spelled(s[..|s| - 1]) + (s[|s| - 1] as int - '0' as int)
  }

  lemma {:induction false} DecimalSpells(n: nat)
    ensures Spelled(Decimal(n)) == n
  {
    if n >= 10 { DecimalSpells(n / 10); }
  }

  lemma {:induction false} ZerosSpellNothing(n: nat, s: string)
    ensures Spelled(Zeros(n) + s) == Spelled(s)
  {
    if s != "" {
      ZerosSpellNothing(n, s[..|s| - 1]);
      assert (Zeros(n) + s)[..|Zeros(n) + s| - 1] == Zeros(n) + s[..|s| - 1];
    } else if n > 0 {
      ZerosSpellNothing(n - 1, "");
      assert Zeros(n) + s == "0" + Zeros(n - 1) == Zeros(n - 1) + "0" by { ZerosShift(n - 1); }
      assert (Zeros(n - 1) + "0")[..n - 1] == Zeros(n - 1) + "";
    }
  }

  lemma {:induction false} ZerosShift(n: nat)
    ensures "0" + Zeros(n) == Zeros(n) + "0"
  {
    if n > 0 {
      ZerosShift(n - 1);
      assert "0" + Zeros(n) == "0" + (Zeros(n - 1) + "0") == ("0" + Zeros(n - 1)) + "0";
    }
  }

  lemma PaddedSpells(n: nat)
    ensures Spelled(Padded(n)) == n
  {
    DecimalSpells(n);
    if |Decimal(n)| < 4 { ZerosSpellNothing(4 - |Decimal(n)|, Decimal(n)); }
  }

  function JobId(c: SessionConfig, idx: nat): string {
    (if c.Tagged() then c.tagPrefix.value else "job") + "_" + Padded(idx + 1)
  }

  function OutputPath(c: SessionConfig, jobId: string): string {
    if c.Tagged() then "outputs/tuning/" + c.tagPrefix.value + "/" + jobId + ".json"
    else "outputs/tuning/" + jobId + ".json"
  }

  /** Ids and output paths are distinct, also past the four padded digits. */
  lemma JobIdsDistinct(c: SessionConfig, i: nat, j: nat)
    ensures JobId(c, i) == JobId(c, j) <==> i == j
    ensures OutputPath(c, JobId(c, i)) == OutputPath(c, JobId(c, j)) <==> i == j
  {
    hide Padded;
    PaddedSpells(i + 1);
    PaddedSpells(j + 1);
    var head := (if c.Tagged() then c.tagPrefix.value else "job") + "_";
    assert JobId(c, i)[|head|..] == Padded(i + 1) && JobId(c, j)[|head|..] == Padded(j + 1);
    var path := if c.Tagged() then "outputs/tuning/" + c.tagPrefix.value + "/" else "outputs/tuning/";
    PathHoldsId(path, JobId(c, i));
    PathHoldsId(path, JobId(c, j));
  }

  /** The id is the tag or "job", and the running number from one in four digits or as many as it takes; the path is under the tag. */
  lemma JobSpelled(c: SessionConfig, idx: nat)
    ensures var tag := if c.tagPrefix == None || c.tagPrefix == Some("") then None else c.tagPrefix;
            var number := Padded(idx + 1);
            && JobId(c, idx) == (if tag.Some? then tag.value else "job") + "_" + number
            && (forall id :: OutputPath(c, id) == "outputs/tuning/" + (if tag.Some? then tag.value + "/" else "") + id + ".json")
            && Spelled(number) == idx + 1 && |number| >= 4 && (|number| > 4 ==> number[0] != '0')
            && forall i :: 0 <= i < |number| ==> '0' <= number[i] <= '9'
  {
    PaddedSpells(idx + 1);
    PaddedShape(idx + 1);
    hide Padded, Spelled;
    forall id ensures OutputPath(c, id) == "outputs/tuning/" + (if c.Tagged() then c.tagPrefix.value + "/" else "") + id + ".json" {
      if c.Tagged() {
        assert "outputs/tuning/" + c.tagPrefix.value + "/" == "outputs/tuning/" + (c.tagPrefix.value + "/");
      } else {
        assert "outputs/tuning/" + "" == "outputs/tuning/";
      }
    }
  }

  lemma {:induction false} DecimalShape(n: nat)
    ensures Decimal(n) != "" && (n > 0 ==> Decimal(n)[0] != '0')
    ensures forall i :: 0 <= i < |Decimal(n)| ==> '0' <= Decimal(n)[i] <= '9'
  {
    if n >= 10 { DecimalShape(n / 10); }
  }

  lemma {:induction false} ZerosShape(n: nat)
    ensures forall i :: 0 <= i < n ==> Zeros(n)[i] == '0'
  {
    if n > 0 { ZerosShape(n - 1); }
  }

  lemma PaddedShape(n: nat)
    requires n > 0
    ensures |Padded(n)| >= 4 && (|Padded(n)| > 4 ==> Padded(n)[0] != '0')
    ensures forall i :: 0 <= i < |Padded(n)| ==> '0' <= Padded(n)[i] <= '9'
  {
    DecimalShape(n);
    if |Decimal(n)| < 4 { ZerosShape(4 - |Decimal(n)|); }
  }

  lemma PathHoldsId(path: string, id: string)
    ensures (path + id + ".json")[|path|..|path + id + ".json"| - 5] == id
  {
  }

  // ---------------------------------------------------------------- configurations

  function Put(m: map<string, Value>, key: string, value: Option<real>): map<string, Value> {
    if value.Some? then m[key := Number(value.value)] else m
  }

  /** Fixed parameters, before the grid values override them. */
  function Fixed(c: SessionConfig): map<string, Value> {
    var m := map[
      "data_file" := Text(c.dataFile),
      "initial_balance_usd" := Number(c.initialBalanceUsd),
      "max_open_trades" := if c.maxOpenTrades.Some? then Number(c.maxOpenTrades.value as real) else NoValue];
    Put(Put(Put(Put(Put(Put(m, "min_spread_bps", c.minSpreadBps), "taker_fee_a_bps", c.takerFeeABps),
                    "taker_fee_b_bps", c.takerFeeBBps), "slippage_bps", c.slippageBps),
            "max_position_usd", c.maxPositionUsd), "stop_on_drawdown_pct", c.stopOnDrawdownPct)
  }

  /** Which fixed parameters there are, by name: three always, the other six where they are set. */
  lemma FixedExactly(c: SessionConfig, key: string)
    ensures (if key in Fixed(c) then Some(Fixed(c)[key]) else None) ==
              match key
              case "data_file" => Some(Text(c.dataFile))
              case "initial_balance_usd" => Some(Number(c.initialBalanceUsd))
              case "max_open_trades" => Some(if c.maxOpenTrades == None then NoValue else Number(c.maxOpenTrades.value as real))
              case "min_spread_bps" => IfSet(c.minSpreadBps)
              case "taker_fee_a_bps" => IfSet(c.takerFeeABps)
              case "taker_fee_b_bps" => IfSet(c.takerFeeBBps)
              case "slippage_bps" => IfSet(c.slippageBps)
              case "max_position_usd" => IfSet(c.maxPositionUsd)
              case "stop_on_drawdown_pct" => IfSet(c.stopOnDrawdownPct)
              case _ => None
  {
  }

  function IfSet(value: Option<real>): Option<Value> { match value case None => None case Some(v) => Some(Number(v)) }

  function Numbers(combo: map<string, real>): map<string, Value> { map name | name in combo :: Number(combo[name]) }

  function BuildConfig(c: SessionConfig, combo: map<string, real>): map<string, Value> {
    var config := Fixed(c) + Numbers(combo);
    if c.Tagged() then config["tag" := Text(c.tagPrefix.value)] else config
  }

  /** A tag prefix wins over grid values, these over fixed parameters. */
  lemma ConfigPrecedence(c: SessionConfig, combo: map<string, real>, key: string)
    ensures var config, hidden := BuildConfig(c, combo), c.Tagged() && key == "tag";
            && (hidden ==> key in config && config[key] == Text(c.tagPrefix.value))
            && (!hidden && key in combo ==> key in config && config[key] == Number(combo[key]))
            && (!hidden && key !in combo ==> (key in config <==> key in Fixed(c)) && (key in config ==> config[key] == Fixed(c)[key]))
  {
    hide Fixed;
  }

  function Combinations(grids: seq<ParamGrid>): (r: seq<map<string, real>>)
    ensures |r| == Volume(Axes(grids))
  {
    ProductLength(Axes(grids));
    var tuples := Product(Axes(grids));
    seq(|tuples|, k requires 0 <= k < |tuples| =>
      ProductDecodes(Axes(grids), k);
      Zip(Names(grids), tuples[k]))
  }

  /** The configuration of the k-th combination. */
  function ConfigAt(c: SessionConfig, k: nat): map<string, Value>
    requires k < Volume(Axes(c.grids))
  {
    BuildConfig(c, Zip(Names(c.grids), Decode(Axes(c.grids), k)))
  }

  /** One job per combination, in lexicographic order, cut to the limit; job k decodes k. */
  method GenerateJobs(c: SessionConfig) returns (jobs: seq<JobPlan>)
    ensures |jobs| == |Limited(Combinations(c.grids), c.maxJobs)| <= Volume(Axes(c.grids))
    ensures forall k :: 0 <= k < |jobs| ==>
              && jobs[k].jobId == JobId(c, k)
              && jobs[k].config == ConfigAt(c, k)
              && jobs[k].outputJson == OutputPath(c, JobId(c, k))
  {
    hide BuildConfig, JobId, OutputPath, Decode;
    var combinations := Combinations(c.grids);
    if c.maxJobs.Some? { combinations := Cut(combinations, c.maxJobs.value); }
    jobs := [];
    for idx := 0 to |combinations|
      invariant |jobs| == idx
      invariant forall k :: 0 <= k < idx ==>
                  && jobs[k].jobId == JobId(c, k)
                  && jobs[k].config == ConfigAt(c, k)
                  && jobs[k].outputJson == OutputPath(c, JobId(c, k))
    {
      ProductDecodes(Axes(c.grids), idx);
      var jobId := JobId(c, idx);
      jobs := jobs + [JobPlan(jobId, BuildConfig(c, combinations[idx]), OutputPath(c, jobId))];
    }
  }

  // ---------------------------------------------------------------- every configuration once

  /** The tag written last hides a grid of that name. */
  predicate TagHides(c: SessionConfig, i: nat)
    requires i < |c.grids|
  {
    c.Tagged() && c.grids[i].name == "tag"
  }

  lemma ConfigHolds(c: SessionConfig, k: nat, i: nat)
    requires k < Volume(Axes(c.grids)) && i < |c.grids| && Distinct(Names(c.grids)) && !TagHides(c, i)
    ensures c.grids[i].name in ConfigAt(c, k)
    ensures ConfigAt(c, k)[c.grids[i].name] == Number(Decode(Axes(c.grids), k)[i])
  {
    hide Fixed, Decode, Distinct, Zip;
    ZipAt(Names(c.grids), Decode(Axes(c.grids), k), i);
  }

  /** Grids of distinct names, each with distinct values and at least one. */
  ghost predicate Proper(grids: seq<ParamGrid>) {
    Distinct(Names(grids)) && forall i :: 0 <= i < |grids| ==> Distinct(grids[i].values) && grids[i].values != []
  }

  ghost predicate ConfigsDistinct(c: SessionConfig) {
    forall k: nat, k': nat :: k < Volume(Axes(c.grids)) && k' < Volume(Axes(c.grids)) && ConfigAt(c, k) == ConfigAt(c, k') ==> k == k'
  }

  /** No two combinations give the same configuration, unless a tag prefix hides a grid of several values named "tag". */
  lemma ConfigsDistinctExactly(c: SessionConfig)
    requires Proper(c.grids)
    ensures ConfigsDistinct(c) <==> forall i :: 0 <= i < |c.grids| && TagHides(c, i) ==> |c.grids[i].values| == 1
  {
    hide ConfigAt, Distinct;
    if i :| 0 <= i < |c.grids| && TagHides(c, i) && |c.grids[i].values| != 1 {
      var k, k' := HiddenPair(c, i);
    } else {
      forall k: nat, k': nat | k < Volume(Axes(c.grids)) && k' < Volume(Axes(c.grids)) && ConfigAt(c, k) == ConfigAt(c, k')
        ensures k == k'
      {
        SameConfigSameTuple(c, k, k');
        DecodeInjective(Axes(c.grids), k, k');
      }
    }
  }

  lemma SameConfigSameTuple(c: SessionConfig, k: nat, k': nat)
    requires Proper(c.grids) && k < Volume(Axes(c.grids)) && k' < Volume(Axes(c.grids)) && ConfigAt(c, k) == ConfigAt(c, k')
    requires forall i :: 0 <= i < |c.grids| && TagHides(c, i) ==> |c.grids[i].values| == 1
    ensures Decode(Axes(c.grids), k) == Decode(Axes(c.grids), k')
  {
    hide ConfigAt, Distinct;
    var axes := Axes(c.grids);
    forall i | 0 <= i < |c.grids| ensures Decode(axes, k)[i] == Decode(axes, k')[i] {
      if TagHides(c, i) {
        assert Digits(axes, k)[i] < |axes[i]| && Digits(axes, k')[i] < |axes[i]|;
      } else {
        ConfigHolds(c, k, i);
        ConfigHolds(c, k', i);
      }
    }
  }

  /** Two combinations that differ only in the hidden grid. */
  lemma HiddenPair(c: SessionConfig, i: nat) returns (k: nat, k': nat)
    requires Proper(c.grids) && i < |c.grids| && TagHides(c, i) && |c.grids[i].values| > 1
    ensures k < Volume(Axes(c.grids)) && k' < Volume(Axes(c.grids)) && k != k' && ConfigAt(c, k) == ConfigAt(c, k')
  {
    hide Fixed, Decode, Distinct, Zip, Product;
    var axes := Axes(c.grids);
    var a := seq(|axes|, j requires 0 <= j < |axes| => axes[j][0]);
    var b := a[i := axes[i][1]];
    k := IndexOf(axes, a);
    k' := IndexOf(axes, b);
    DistinctPairs(axes[i]);
    assert a[i] != b[i];
    ZipsAgree(Names(c.grids), a, b, i);
    assert Numbers(Zip(Names(c.grids), a)) - {"tag"} == Numbers(Zip(Names(c.grids), b)) - {"tag"};
    TagCovers(Fixed(c), Numbers(Zip(Names(c.grids), a)), Numbers(Zip(Names(c.grids), b)), Text(c.tagPrefix.value));
  }

  lemma TagCovers(m: map<string, Value>, x: map<string, Value>, y: map<string, Value>, tag: Value)
    requires x - {"tag"} == y - {"tag"}
    ensures (m + x)["tag" := tag] == (m + y)["tag" := tag]
  {
    forall name | name != "tag" ensures (name in x <==> name in y) && (name in x ==> x[name] == y[name]) {
      assert name in x <==> name in x - {"tag"};
      assert name in y <==> name in y - {"tag"};
      if name in x { assert x[name] == (x - {"tag"})[name] && y[name] == (y - {"tag"})[name]; }
    }
  }

  lemma IndexOf(axes: seq<seq<real>>, tuple: seq<real>) returns (k: nat)
    requires Picks(tuple, axes)
    ensures k < Volume(axes) && Decode(axes, k) == tuple
  {
    hide Product, Decode;
    ProductIsAllPicks(axes, tuple);
    ProductLength(axes);
    k :| k < |Product(axes)| && Product(axes)[k] == tuple;
    ProductDecodes(axes, k);
  }

  /** Changing the value of one name changes no other entry. */
  lemma {:induction false} ZipsAgree(names: seq<string>, a: seq<real>, b: seq<real>, i: nat)
    requires |names| == |a| == |b| && i < |names| && forall j :: 0 <= j < |names| && j != i ==> a[j] == b[j]
    ensures forall name | name != names[i] ::
              (name in Zip(names, a) <==> name in Zip(names, b))
              && (name in Zip(names, a) ==> Zip(names, a)[name] == Zip(names, b)[name])
  {
    var n := |names| - 1;
    if i < n {
      ZipsAgree(names[..n], a[..n], b[..n], i);
    } else {
      assert a[..n] == b[..n];
    }
  }
}
