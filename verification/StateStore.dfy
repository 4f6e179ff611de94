/** Session state in Redis: keys per category, isolation of sessions, and the fallback on repeated failures. */
module StateStore {
  import opened Prelude
  import opened Keyspace
  import opened RedisGlob

  // ---------------------------------------------------------------- keys of a session

  /** The key of a category; the source maps the known ones and keeps the rest under the state domain. */
  function KeyFor(kb: KeyBuilder, category: string): string {
    if category == "session" then Build(kb, StateDomain, "", "session")
    else if category == "positions" || category == "position" then Build(kb, StateDomain, "", "positions")
    else if category == "metrics" then Build(kb, MetricsDomain, "", "all")
    else if category == "risk_guard" then Build(kb, GuardDomain, "", "state")
    else if category == "orders" then Build(kb, StateDomain, "", "orders")
    else Build(kb, StateDomain, "", category)
  }

  function Pattern(kb: KeyBuilder): string { kb.Head() + "*" }

  const CATEGORIES: seq<string> := ["session", "positions", "metrics", "risk_guard"]

  /** The four loaded categories have four keys. */
  lemma CategoryKeysDiffer(kb: KeyBuilder, i: nat, j: nat)
    requires kb.Valid() && i < |CATEGORIES| && j < |CATEGORIES|
    ensures KeyFor(kb, CATEGORIES[i]) == KeyFor(kb, CATEGORIES[j]) <==> i == j
  {
    hide Build;
    if KeyFor(kb, CATEGORIES[i]) == KeyFor(kb, CATEGORIES[j]) {
      var (d, f) := Slot(CATEGORIES[i]);
      var (d', f') := Slot(CATEGORIES[j]);
      BuildInjective(kb, d, "", f, kb, d', "", f');
    }
  }

  /** Domain and field of a category. */
  function Slot(category: string): (Domain, string) {
    if category == "metrics" then (MetricsDomain, "all")
    else if category == "risk_guard" then (GuardDomain, "state")
    else (StateDomain, if category == "position" then "positions" else category)
  }

  lemma KeyOfSlot(kb: KeyBuilder, category: string)
    ensures KeyFor(kb, category) == Build(kb, Slot(category).0, "", Slot(category).1)
  {
    hide Build;
  }

  lemma BuildSpelled(kb: KeyBuilder, d: Domain, name: string, tail: string)
    requires name != "" && tail == d.Word() + "::" + name
    ensures Build(kb, d, "", name) == "arbitrage:" + kb.env + ":" + kb.sessionId + ":" + tail
  {
    assert d.Word() + Suffix("", name) == tail;
    HeadSpelled(kb);
  }

  lemma HeadSpelled(kb: KeyBuilder)
    ensures kb.Head() == "arbitrage:" + kb.env + ":" + kb.sessionId + ":"
    ensures Pattern(kb) == "arbitrage:" + kb.env + ":" + kb.sessionId + ":*"
  {
    assert PREFIX + ":" == "arbitrage:";
  }

  /** The keys of a session, spelled out. */
  lemma KeysSpelled(kb: KeyBuilder, category: string)
    ensures var head := "arbitrage:" + kb.env + ":" + kb.sessionId + ":";
            && KeyFor(kb, "metrics") == head + "metrics::all"
            && KeyFor(kb, "risk_guard") == head + "guard::state"
            && KeyFor(kb, "position") == KeyFor(kb, "positions") == head + "state::positions"
            && (category !in {"", "metrics", "risk_guard", "position"} ==> KeyFor(kb, category) == head + "state::" + category)
    ensures Pattern(kb) == "arbitrage:" + kb.env + ":" + kb.sessionId + ":*"
  {
    hide Build, Suffix, Pattern, KeyBuilder.Head;
    HeadSpelled(kb);
    BuildSpelled(kb, MetricsDomain, "all", "metrics::all");
    BuildSpelled(kb, GuardDomain, "state", "guard::state");
    BuildSpelled(kb, StateDomain, "positions", "state::positions");
    if category !in {"", "metrics", "risk_guard", "position"} { BuildSpelled(kb, StateDomain, category, "state::" + category); }
  }

  /** A load looks at the four categories of the session and at nothing else. */
  lemma LoadsTheFour(m: Redis, kb: KeyBuilder, category: string)
    ensures category in Load(m, kb) <==>
              category in {"session", "positions", "metrics", "risk_guard"} && KeyFor(kb, category) in m
    ensures category in Load(m, kb) ==> Load(m, kb)[category] == m[KeyFor(kb, category)]
  {
    hide KeyFor;
    assert LoadSome(m, kb, 4) == Load(m, kb);
    assert CATEGORIES[0] == "session" && CATEGORIES[1] == "positions" && CATEGORIES[2] == "metrics" && CATEGORIES[3] == "risk_guard";
    LoadStep(m, kb, 4);
    LoadStep(m, kb, 3);
    LoadStep(m, kb, 2);
    LoadStep(m, kb, 1);
  }

  lemma LoadStep(m: Redis, kb: KeyBuilder, n: nat)
    requires 0 < n <= |CATEGORIES|
    ensures var category, before := CATEGORIES[n - 1], LoadSome(m, kb, n - 1);
            LoadSome(m, kb, n) == if KeyFor(kb, category) in m then before[category := m[KeyFor(kb, category)]] else before
  {
  }

  lemma KeyHasHead(kb: KeyBuilder, category: string)
    ensures kb.Head() <= KeyFor(kb, category)
  {
    hide Build;
    KeyOfSlot(kb, category);
    BuildHasHead(kb, Slot(category).0, "", Slot(category).1);
  }

  lemma BuildHasHead(kb: KeyBuilder, d: Domain, symbol: string, field: string)
    ensures kb.Head() <= Build(kb, d, symbol, field)
  {
  }

  /** No key of one session starts like the keys of another. */
  lemma HeadsDiffer(kb: KeyBuilder, kb': KeyBuilder, key: string)
    requires kb.Valid() && kb'.Valid() && kb.Head() <= key && kb'.Head() <= key
    ensures kb == kb'
  {
    SameHead(kb, key[|kb.Head()|..], kb', key[|kb'.Head()|..]);
  }

  // ---------------------------------------------------------------- what saving, deleting and loading do to the database

  type Redis = map<string, string>

  /** `(category, serialised data)` in the order of the saved dictionary. */
  type Entries = seq<(string, string)>

  function SaveAll(m: Redis, kb: KeyBuilder, entries: Entries): Redis {
    if entries == [] then m
    else
      var last := entries[|entries| - 1];
      SaveAll(m, kb, entries[..|entries| - 1])[KeyFor(kb, last.0) := last.1]
  }

  function DeleteAll(m: Redis, kb: KeyBuilder): Redis {
    map key | key in m && !Glob(Pattern(kb), key) :: m[key]
  }

  /** The first `n` categories that are present. */
  function LoadSome(m: Redis, kb: KeyBuilder, n: nat): map<string, string>
    requires n <= |CATEGORIES|
  {
    if n == 0 then map[]
    else
      var category, before := CATEGORIES[n - 1], LoadSome(m, kb, n - 1);
      if KeyFor(kb, category) in m then before[category := m[KeyFor(kb, category)]] else before
  }

  function Load(m: Redis, kb: KeyBuilder): map<string, string> { LoadSome(m, kb, |CATEGORIES|) }

  datatype Op = Save(kb: KeyBuilder, entries: Entries) | Delete(kb: KeyBuilder)

  function Apply(m: Redis, op: Op): Redis {
    match op
    case Save(kb, entries) => SaveAll(m, kb, entries)
    case Delete(kb) => DeleteAll(m, kb)
  }

  function ApplyAll(m: Redis, ops: seq<Op>): Redis {
    if ops == [] then m else Apply(ApplyAll(m, ops[..|ops| - 1]), ops[|ops| - 1])
  }

  /** An operation of another session; deleting by pattern needs an id without glob characters. */
  predicate Foreign(op: Op, kb: KeyBuilder) {
    op.kb.Valid() && op.kb != kb && (op.Delete? ==> GlobFree(op.kb.sessionId))
  }

  /** Both databases hold the same values under the keys of the session. */
  ghost predicate SameUnder(head: string, m: Redis, m': Redis) {
    forall key | head <= key :: (key in m <==> key in m') && (key in m ==> m[key] == m'[key])
  }

  lemma {:induction false} SaveIsForeign(m: Redis, kb: KeyBuilder, other: KeyBuilder, entries: Entries)
    requires kb.Valid() && other.Valid() && kb != other
    ensures SameUnder(kb.Head(), m, SaveAll(m, other, entries))
  {
    hide KeyFor, KeyBuilder.Head;
    if entries != [] {
      SaveIsForeign(m, kb, other, entries[..|entries| - 1]);
      var written := KeyFor(other, entries[|entries| - 1].0);
      KeyHasHead(other, entries[|entries| - 1].0);
      if kb.Head() <= written { HeadsDiffer(kb, other, written); }
    }
  }

  lemma DeleteIsForeign(m: Redis, kb: KeyBuilder, other: KeyBuilder)
    requires kb.Valid() && other.Valid() && kb != other && GlobFree(other.sessionId)
    ensures SameUnder(kb.Head(), m, DeleteAll(m, other))
  {
    hide KeyBuilder.Head, Glob;
    HeadIsGlobFree(other);
    forall key | key in m && kb.Head() <= key ensures !Glob(Pattern(other), key) {
      PrefixPattern(other.Head(), key);
      if other.Head() <= key { HeadsDiffer(kb, other, key); }
    }
  }

  lemma HeadIsGlobFree(kb: KeyBuilder)
    requires kb.Valid() && GlobFree(kb.sessionId)
    ensures GlobFree(kb.Head())
  {
    hide GlobFree, Front;
    FrontIsGlobFree(kb);
    ColonIsGlobFree();
    GlobFreeConcat(Front(kb), kb.sessionId);
    GlobFreeConcat(Front(kb) + kb.sessionId, ":");
    assert kb.Head() == Front(kb) + kb.sessionId + ":" by { FrontOfHead(kb); }
  }

  /** What the key builder puts in front of a session id. */
  function Front(kb: KeyBuilder): string { PREFIX + ":" + kb.env + ":" }

  lemma FrontOfHead(kb: KeyBuilder)
    ensures kb.Head() == Front(kb) + kb.sessionId + ":"
  {
  }

  lemma ColonIsGlobFree()
    ensures GlobFree(":")
  {
  }

  predicate LowerCase(s: string) { forall i :: 0 <= i < |s| ==> 'a' <= s[i] <= 'z' }

  lemma LowerIsGlobFree(s: string)
    requires LowerCase(s)
    ensures GlobFree(s)
  {
  }

  lemma FrontIsGlobFree(kb: KeyBuilder)
    requires kb.Valid()
    ensures GlobFree(Front(kb))
  {
    assert LowerCase(kb.env) && LowerCase(PREFIX);
    LowerIsGlobFree(kb.env);
    LowerIsGlobFree(PREFIX);
    ColonIsGlobFree();
    hide GlobFree, ValidEnv, LowerCase;
    GlobFreeConcat(PREFIX, ":");
    GlobFreeConcat(PREFIX + ":", kb.env);
    GlobFreeConcat(PREFIX + ":" + kb.env, ":");
  }

  lemma {:induction false} ForeignKeeps(m: Redis, kb: KeyBuilder, ops: seq<Op>)
    requires kb.Valid() && forall i :: 0 <= i < |ops| ==> Foreign(ops[i], kb)
    ensures SameUnder(kb.Head(), m, ApplyAll(m, ops))
  {
    hide KeyBuilder.Head, SaveAll, DeleteAll;
    if ops != [] {
      var front, op := ops[..|ops| - 1], ops[|ops| - 1];
      ForeignKeeps(m, kb, front);
      match op
      case Save(other, entries) => SaveIsForeign(ApplyAll(m, front), kb, other, entries);
      case Delete(other) => DeleteIsForeign(ApplyAll(m, front), kb, other);
    }
  }

  lemma {:induction false} LoadsSame(m: Redis, m': Redis, kb: KeyBuilder, n: nat)
    requires n <= |CATEGORIES| && SameUnder(kb.Head(), m, m')
    ensures LoadSome(m, kb, n) == LoadSome(m', kb, n)
  {
    hide KeyFor, KeyBuilder.Head;
    if n > 0 {
      LoadsSame(m, m', kb, n - 1);
      KeyHasHead(kb, CATEGORIES[n - 1]);
    }
  }

  /** The entry a category is loaded from: the last one with its key. */
  function Lookup(entries: Entries, category: string): Option<string> {
    if entries == [] then None
    else if Slot(entries[|entries| - 1].0) == Slot(category) then Some(entries[|entries| - 1].1)
    else Lookup(entries[..|entries| - 1], category)
  }

  lemma {:induction false} SavedAt(m: Redis, kb: KeyBuilder, entries: Entries, category: string)
    requires kb.Valid() && Lookup(entries, category).Some?
    ensures KeyFor(kb, category) in SaveAll(m, kb, entries)
    ensures SaveAll(m, kb, entries)[KeyFor(kb, category)] == Lookup(entries, category).value
  {
    hide KeyFor, Build, Slot;
    var last := entries[|entries| - 1];
    KeyOfSlot(kb, category);
    KeyOfSlot(kb, last.0);
    if Slot(last.0) != Slot(category) {
      var x, y := Slot(last.0), Slot(category);
      if KeyFor(kb, last.0) == KeyFor(kb, category) {
        BuildInjective(kb, x.0, "", x.1, kb, y.0, "", y.1);
      }
      SavedAt(m, kb, entries[..|entries| - 1], category);
    }
  }

  lemma {:induction false} LoadsAll(m: Redis, kb: KeyBuilder, n: nat)
    requires n <= |CATEGORIES| && forall i :: 0 <= i < n ==> KeyFor(kb, CATEGORIES[i]) in m
    ensures forall i :: 0 <= i < n ==>
              CATEGORIES[i] in LoadSome(m, kb, n) && LoadSome(m, kb, n)[CATEGORIES[i]] == m[KeyFor(kb, CATEGORIES[i])]
  {
    hide KeyFor;
    if n > 0 {
      LoadsAll(m, kb, n - 1);
      forall i | 0 <= i < n - 1 ensures CATEGORIES[i] != CATEGORIES[n - 1] {}
    }
  }

  /** A fully saved session is loaded as saved, whatever is saved or deleted for other sessions in between. */
  lemma SessionsAreIsolated(m: Redis, kb: KeyBuilder, entries: Entries, ops: seq<Op>)
    requires kb.Valid() && forall i :: 0 <= i < |CATEGORIES| ==> Lookup(entries, CATEGORIES[i]).Some?
    requires forall i :: 0 <= i < |ops| ==> Foreign(ops[i], kb)
    ensures var r := Load(ApplyAll(SaveAll(m, kb, entries), ops), kb);
            forall i :: 0 <= i < |CATEGORIES| ==>
              CATEGORIES[i] in r && r[CATEGORIES[i]] == Lookup(entries, CATEGORIES[i]).value
  {
    hide KeyFor, Lookup, SaveAll, ApplyAll, LoadSome;
    var saved := SaveAll(m, kb, entries);
    ForeignKeeps(saved, kb, ops);
    LoadsSame(saved, ApplyAll(saved, ops), kb, |CATEGORIES|);
    forall i | 0 <= i < |CATEGORIES|
      ensures KeyFor(kb, CATEGORIES[i]) in saved && saved[KeyFor(kb, CATEGORIES[i])] == Lookup(entries, CATEGORIES[i]).value
    {
      SavedAt(m, kb, entries, CATEGORIES[i]);
    }
    LoadsAll(saved, kb, |CATEGORIES|);
  }

  /** Deleting a session leaves nothing of it to load. */
  lemma DeletedIsGone(m: Redis, kb: KeyBuilder)
    requires kb.Valid() && GlobFree(kb.sessionId)
    ensures Load(DeleteAll(m, kb), kb) == map[]
  {
    hide KeyFor, Glob, KeyBuilder.Head;
    HeadIsGlobFree(kb);
    forall i | 0 <= i < |CATEGORIES| ensures KeyFor(kb, CATEGORIES[i]) !in DeleteAll(m, kb) {
      KeyHasHead(kb, CATEGORIES[i]);
      PrefixPattern(kb.Head(), KeyFor(kb, CATEGORIES[i]));
    }
    NothingLoads(DeleteAll(m, kb), kb, |CATEGORIES|);
  }

  lemma {:induction false} NothingLoads(m: Redis, kb: KeyBuilder, n: nat)
    requires n <= |CATEGORIES| && forall i :: 0 <= i < n ==> KeyFor(kb, CATEGORIES[i]) !in m
    ensures LoadSome(m, kb, n) == map[]
  {
    hide KeyFor;
    if n > 0 { NothingLoads(m, kb, n - 1); }
  }

  /** The delete pattern of a session matches its own keys, all of them, and no key of another session. */
  ghost predicate DeletesExactly(kb: KeyBuilder) {
    forall other: KeyBuilder, category: string ::
      other.Valid() ==> (Glob(Pattern(kb), KeyFor(other, category)) <==> other == kb)
  }

  /** A delete removes exactly the keys of its session if and only if the session id has no glob character. */
  lemma DeleteExactly(kb: KeyBuilder)
    requires kb.Valid()
    ensures DeletesExactly(kb) <==> GlobFree(kb.sessionId)
  {
    hide KeyBuilder.Head, Glob, Pattern, KeyFor;
    if GlobFree(kb.sessionId) {
      HeadIsGlobFree(kb);
      forall other: KeyBuilder, category: string | other.Valid()
        ensures Glob(Pattern(kb), KeyFor(other, category)) <==> other == kb
      {
        var key := KeyFor(other, category);
        PatternIsPrefix(kb, key);
        KeyHasHead(other, category);
        if kb.Head() <= key { HeadsDiffer(kb, other, key); }
      }
    } else {
      var other, category := Misfit(kb);
    }
  }

  lemma PatternIsPrefix(kb: KeyBuilder, key: string)
    requires GlobFree(kb.Head())
    ensures Glob(Pattern(kb), key) <==> kb.Head() <= key
  {
    PrefixPattern(kb.Head(), key);
  }

  lemma SessionKeys(kb: KeyBuilder)
    ensures KeyFor(kb, "session") == Front(kb) + kb.sessionId + ":state::session"
    ensures KeyFor(kb, "metrics") == Front(kb) + kb.sessionId + ":metrics::all"
    ensures Pattern(kb) == Front(kb) + (kb.sessionId + ":*") && |Pattern(kb)| == |Front(kb)| + |kb.sessionId| + 2
  {
    assert StateDomain.Word() + Suffix("", "session") == "state::session";
    assert MetricsDomain.Word() + Suffix("", "all") == "metrics::all";
  }

  /** An id with a glob character: an own key the pattern misses, or a key of another session it matches. */
  lemma Misfit(kb: KeyBuilder) returns (other: KeyBuilder, category: string)
    requires kb.Valid() && !GlobFree(kb.sessionId)
    ensures other.Valid() && Glob(Pattern(kb), KeyFor(other, category)) != (other == kb)
  {
    hide KeyFor, Pattern, Glob, Front, GlobFree;
    var p, key := Pattern(kb), KeyFor(kb, "session");
    SessionKeys(kb);
    if !Glob(p, key) { return kb, "session"; }
    if !Glob(p, KeyFor(kb, "metrics")) { return kb, "metrics"; }
    if Scan(p).None? {
      StarlessLength(p, key);
      StarlessLength(p, KeyFor(kb, "metrics"));
      assert false;
    }
    FrontIsGlobFree(kb);
    PlainPrefix(Front(kb), kb.sessionId + ":*", key);
    category := "session";
    if Scan(p).value < |p| - 1 { other := AtStar(kb); } else { other := AtMark(kb); }
  }

  /** A star is reached before the own id is used up: insert a character there. */
  lemma AtStar(kb: KeyBuilder) returns (other: KeyBuilder)
    requires kb.Valid() && Glob(Pattern(kb), KeyFor(kb, "session"))
    requires Scan(Pattern(kb)).Some? && |Front(kb)| <= Scan(Pattern(kb)).value < |Pattern(kb)| - 1
    ensures other.Valid() && other != kb && Glob(Pattern(kb), KeyFor(other, "session"))
  {
    hide KeyFor, Pattern, Glob, Front, Scan;
    SessionKeys(kb);
    InsertAtStar(Pattern(kb), KeyFor(kb, "session"), "x");
    other := Inserted(kb, Scan(Pattern(kb)).value - |Front(kb)|, "x");
  }

  /** Otherwise only question marks are left to be glob characters: replace what one of them matches. */
  lemma AtMark(kb: KeyBuilder) returns (other: KeyBuilder)
    requires kb.Valid() && !GlobFree(kb.sessionId) && Glob(Pattern(kb), KeyFor(kb, "session"))
    requires Scan(Pattern(kb)) == Some(|Pattern(kb)| - 1)
    ensures other.Valid() && other != kb && Glob(Pattern(kb), KeyFor(other, "session"))
  {
    hide KeyFor, Pattern, Glob, Front, Scan, GlobFree;
    SessionKeys(kb);
    var i := NotPlain(kb.sessionId);
    var n := |Front(kb)|;
    assert Pattern(kb)[n + i] == kb.sessionId[i];
    SingleItems(Pattern(kb), n + i);
    ReplaceAtMark(Pattern(kb), KeyFor(kb, "session"), n + i, 'x');
    other := Replaced(kb, i, 'x');
  }

  lemma Inserted(kb: KeyBuilder, i: nat, u: string) returns (other: KeyBuilder)
    requires kb.Valid() && i <= |kb.sessionId| && u != "" && ':' !in u
    ensures other.Valid() && other != kb
    ensures var key, k := KeyFor(kb, "session"), |Front(kb)| + i;
            k <= |key| && KeyFor(other, "session") == key[..k] + u + key[k..]
  {
    other := KeyBuilder(kb.env, kb.sessionId[..i] + u + kb.sessionId[i..]);
    assert |other.sessionId| > |kb.sessionId|;
    hide KeyFor, Pattern, ValidEnv;
    SessionKeys(kb);
    SessionKeys(other);
    Around(Front(kb), kb.sessionId, i, u, ":state::session");
  }

  lemma Around(a: string, b: string, i: nat, u: string, c: string)
    requires i <= |b|
    ensures var s, k := a + b + c, |a| + i; s[..k] + u + s[k..] == a + (b[..i] + u + b[i..]) + c
  {
    var s, k := a + b + c, |a| + i;
    assert s[..k] == a + b[..i] && s[k..] == b[i..] + c;
  }

  lemma Replaced(kb: KeyBuilder, i: nat, x: char) returns (other: KeyBuilder)
    requires kb.Valid() && i < |kb.sessionId| && x != ':' && kb.sessionId[i] != x
    ensures other.Valid() && other != kb
    ensures var key, k := KeyFor(kb, "session"), |Front(kb)| + i;
            k < |key| && KeyFor(other, "session") == key[k := x]
  {
    other := KeyBuilder(kb.env, kb.sessionId[i := x]);
    assert other.sessionId[i] != kb.sessionId[i];
    hide KeyFor, Pattern, ValidEnv;
    SessionKeys(kb);
    SessionKeys(other);
  }

  /** Isolation alone does not need a plain id: this one matches nothing, so its delete leaves everything, its own keys too. */
  lemma EmptyClassDeletesNothing(kb: KeyBuilder, key: string)
    requires kb.Valid() && kb.sessionId == "s[]"
    ensures !Glob(Pattern(kb), key)
  {
    hide Pattern;
    SessionKeys(kb);
    FrontIsGlobFree(kb);
    GlobFreeConcat(Front(kb), "s");
    var front := Front(kb) + "s";
    assert Pattern(kb) == front + "[]:*";
    PlainPrefix(front, "[]:*", key);
    assert "[]:*"[1..] == "]:*";
    if front <= key && key[|front|..] != "" { assert !Hits("[]:*", key[|front|..][0]); }
  }

  // ---------------------------------------------------------------- failures and fallback

  const THRESHOLD: nat := 3

  /** What happens to the failure counter: a failed call, a call that succeeded, a recovery by health check. */
  datatype Event = Failed | Worked | Recovered

  /** Failures since the last success or recovery. */
  function Streak(history: seq<Event>): nat {
    if history == [] || history[|history| - 1] != Failed then 0 else 1 + Streak(history[..|history| - 1])
  }

  lemma StreakGrows(history: seq<Event>, e: Event)
    ensures Streak(history + [e]) == if e == Failed then 1 + Streak(history) else 0
  {
    assert (history + [e])[..|history|] == history;
  }

  type Snapshot = map<string, string>

  class StateStore {
    const env: string
    const redisAvailable: bool
    const dbAvailable: bool
    const snapshots: string -> Option<Snapshot>  // the latest snapshot the relational database has of a session
    const fails: nat -> bool                     // whether the n-th Redis command raises
    var redis: Redis
    var commands: nat
    var keyBuilder: Option<KeyBuilder>
    var failureCount: nat
    var fallbackMode: bool
    ghost var history: seq<Event>

    constructor (env: string, redisAvailable: bool, dbAvailable: bool, snapshots: string -> Option<Snapshot>,
                 fails: nat -> bool, redis: Redis)
      ensures Valid() && history == [] && this.env == env && this.redis == redis
    {
      this.env, this.redisAvailable, this.dbAvailable := env, redisAvailable, dbAvailable;
      this.snapshots, this.fails, this.redis := snapshots, fails, redis;
      commands, keyBuilder, failureCount, fallbackMode, history := 0, None, 0, false, [];
    }

    /** The counter is the failure streak, never beyond the threshold; fallback mode is exactly being there. */
    ghost predicate Valid()
      reads this
    {
      && failureCount == Streak(history) <= THRESHOLD
      && (fallbackMode <==> failureCount == THRESHOLD)
      && (keyBuilder.Some? ==> keyBuilder.value.Valid() && keyBuilder.value.env == env)
    }

    /** The memoised builder is the one a fresh construction gives; None where that raises. */
    method GetKeyBuilder(sessionId: string) returns (kb: Option<KeyBuilder>)
      requires Valid()
      modifies `keyBuilder
      ensures Valid() && kb == Create(env, sessionId)
    {
      if keyBuilder.None? || keyBuilder.value.sessionId != sessionId {
        var made := Create(env, sessionId);
        if made.None? { return None; }
        keyBuilder := made;
      }
      kb := keyBuilder;
    }

    /** One Redis command: whether it raises. */
    method Command() returns (raised: bool)
      modifies `commands
      ensures raised == fails(old(commands)) && commands == old(commands) + 1
    {
      raised := fails(commands);
      commands := commands + 1;
    }

    /** Whether the k-th command from now raises. */
    predicate Next(k: nat)
      reads this
    {
      fails(commands + k)
    }

    /** None of the next `n` commands, counted from `from`, raises. */
    ghost predicate Answers(from: nat, n: nat) {
      forall k: nat :: from <= k < from + n ==> !fails(k)
    }

    /** One of the commands from `from` up to, not including, `to` raises. */
    ghost predicate Raises(from: nat, to: nat) {
      exists k: nat :: from <= k < to && fails(k)
    }

    method RecordFailure()
      requires Valid() && !fallbackMode
      modifies `failureCount, `fallbackMode, `history
      ensures Valid() && history == old(history) + [Failed]
    {
      StreakGrows(history, Failed);
      failureCount, history := failureCount + 1, history + [Failed];
      if failureCount >= THRESHOLD { fallbackMode := true; }
    }

    method RecordSuccess()
      requires Valid() && !fallbackMode
      modifies `failureCount, `history
      ensures Valid() && history == old(history) + [Worked]
    {
      StreakGrows(history, Worked);
      failureCount, history := 0, history + [Worked];
    }

    /** The writing loop; `written` entries are stored when it stops: all of them, or up to the first command that raises. */
    method WriteAll(sessionId: string, entries: Entries) returns (ok: bool, written: nat)
      requires Valid()
      modifies `redis, `commands, `keyBuilder
      ensures Valid() && written <= |entries| && (ok <==> written == |entries|)
      ensures Create(env, sessionId).None? ==> written == 0 && commands == old(commands)
      ensures Create(env, sessionId).Some? ==>
                && Answers(old(commands), written)
                && (written < |entries| ==> fails(old(commands) + written))
                && commands == old(commands) + written + if written < |entries| then 1 else 0
      ensures redis == if written == 0 then old(redis) else SaveAll(old(redis), KeyBuilder(env, sessionId), entries[..written])
    {
      hide KeyFor;
      written := 0;
      while written < |entries|
        invariant Valid() && written <= |entries|
        invariant Create(env, sessionId).None? ==> written == 0
        invariant commands == old(commands) + written && Answers(old(commands), written)
        invariant redis == if written == 0 then old(redis) else SaveAll(old(redis), KeyBuilder(env, sessionId), entries[..written])
      {
        var kb := GetKeyBuilder(sessionId);
        if kb.None? { return false, written; }
        var raised := Command();
        if raised { return false, written; }
        assert entries[..written + 1][..written] == entries[..written];
        redis := redis[KeyFor(kb.value, entries[written].0) := entries[written].1];
        written := written + 1;
      }
      ok := true;
    }

    /** What a save needs to succeed. */
    ghost predicate Saves(sessionId: string, n: nat)
      reads this
    {
      redisAvailable && !fallbackMode && (n == 0 || Create(env, sessionId).Some?) && Answers(commands, n)
    }

    /** It succeeds exactly when it can; one that fails may have stored a prefix of the entries, up to the command that raised. */
    method SaveState(sessionId: string, entries: Entries) returns (ok: bool, ghost written: nat)
      requires Valid()
      modifies this
      ensures Valid() && written <= |entries|
      ensures ok == old(Saves(sessionId, |entries|)) && commands >= old(commands) && (old(fallbackMode) ==> fallbackMode)
      ensures redis == if written == 0 then old(redis) else SaveAll(old(redis), KeyBuilder(env, sessionId), entries[..written])
      ensures ok ==> written == |entries|
      ensures !redisAvailable || old(fallbackMode) || Create(env, sessionId).None? ==> written == 0 && commands == old(commands)
      ensures redisAvailable && !old(fallbackMode) && Create(env, sessionId).Some? ==>
                && Answers(old(commands), written)
                && (written < |entries| ==> fails(old(commands) + written))
                && commands == old(commands) + written + if written < |entries| then 1 else 0
      ensures history == old(history) + if redisAvailable && !old(fallbackMode) then [if ok then Worked else Failed] else []
    {
      hide SaveAll, Streak;
      ok, written := false, 0;
      if !redisAvailable || fallbackMode { return; }
      var stored;
      ok, stored := WriteAll(sessionId, entries);
      written := stored;
      if ok { RecordSuccess(); } else { RecordFailure(); }
    }

    /** The latest snapshot of the session itself, if there is a database. */
    function LoadFromSnapshot(sessionId: string): (r: Option<Snapshot>)
      ensures dbAvailable ==> r == snapshots(sessionId)
      ensures !dbAvailable ==> r == None
    {
      if dbAvailable then snapshots(sessionId) else None
    }

    /** The reading loop over the four categories; None exactly when the key builder or a command raises. */
    method ReadAll(sessionId: string) returns (state: Option<Snapshot>)
      requires Valid()
      modifies `commands, `keyBuilder
      ensures Valid() && commands >= old(commands)
      ensures state.Some? <==> Create(env, sessionId).Some? && Answers(old(commands), |CATEGORIES|)
      ensures state.None? && Create(env, sessionId).Some? ==> Raises(old(commands), commands)
      ensures state.Some? ==> state.value == Load(redis, KeyBuilder(env, sessionId)) && commands == old(commands) + |CATEGORIES|
    {
      hide KeyFor;
      var found: Snapshot := map[];
      for i := 0 to |CATEGORIES|
        invariant Valid() && (i > 0 ==> Create(env, sessionId).Some?)
        invariant commands == old(commands) + i && Answers(old(commands), i)
        invariant found == LoadSome(redis, KeyBuilder(env, sessionId), i)
      {
        var kb := GetKeyBuilder(sessionId);
        if kb.None? { return None; }
        var raised := Command();
        if raised {
          assert fails(commands - 1);
          return None;
        }
        var key := KeyFor(kb.value, CATEGORIES[i]);
        if key in redis { found := found[CATEGORIES[i] := redis[key]]; }
      }
      state := Some(found);
    }

    /** What a load needs to read Redis. */
    ghost predicate Reads(sessionId: string)
      reads this
    {
      redisAvailable && !fallbackMode && Create(env, sessionId).Some? && Answers(commands, |CATEGORIES|)
    }

    /** Redis where it can be read, the snapshot where it fails; an empty load moves the counter neither way. */
    method LoadState(sessionId: string) returns (state: Option<Snapshot>)
      requires Valid()
      modifies `commands, `keyBuilder, `failureCount, `fallbackMode, `history
      ensures Valid() && commands >= old(commands)
      ensures redisAvailable && !old(fallbackMode) && !old(Reads(sessionId)) && Create(env, sessionId).Some? ==>
                Raises(old(commands), commands)
      ensures !redisAvailable ==> state == None && history == old(history)
      ensures redisAvailable && old(fallbackMode) ==>
                state == (if dbAvailable then snapshots(sessionId) else None) && history == old(history)
      ensures redisAvailable && !old(fallbackMode) && !old(Reads(sessionId)) ==>
                history == old(history) + [Failed] && state == if dbAvailable then snapshots(sessionId) else None
      ensures old(Reads(sessionId)) ==>
                var stored := Load(redis, KeyBuilder(env, sessionId));
                if stored == map[] then state == None && history == old(history)
                else state == Some(stored) && history == old(history) + [Worked]
    {
      hide Load, Streak;
      if !redisAvailable { return None; }
      if fallbackMode { return LoadFromSnapshot(sessionId); }
      var read := ReadAll(sessionId);
      if read.None? {
        RecordFailure();
        return LoadFromSnapshot(sessionId);
      }
      if read.value == map[] { return None; }
      RecordSuccess();
      state := read;
    }

    /** The scan, and the delete if it found anything; works in fallback mode too, and leaves the counter alone. */
    method DeleteState(sessionId: string) returns (ok: bool)
      requires Valid()
      modifies `redis, `commands, `keyBuilder
      ensures Valid() && history == old(history) && commands >= old(commands)
      ensures ok <==>
                && redisAvailable && Create(env, sessionId).Some? && !fails(old(commands))
                && (DeleteAll(old(redis), KeyBuilder(env, sessionId)) == old(redis) || !fails(old(commands) + 1))
      ensures redis == if ok then DeleteAll(old(redis), KeyBuilder(env, sessionId)) else old(redis)
    {
      hide Glob, Pattern;
      if !redisAvailable { return false; }
      var made := GetKeyBuilder(sessionId);
      if made.None? { return false; }
      var kb := made.value;
      var raised := Command();
      if raised { return false; }
      var keys := set key | key in redis && Glob(Pattern(kb), key);
      DeletedKeys(redis, kb, keys);
      if keys != {} {
        raised := Command();
        if raised { return false; }
        redis := redis - keys;
      }
      ok := true;
    }

    /** The only way out of fallback mode, and it works whenever Redis answers. */
    method CheckHealth() returns (ok: bool)
      requires Valid()
      modifies `commands, `failureCount, `fallbackMode, `history
      ensures Valid() && ok == (redisAvailable && !fails(old(commands)))
      ensures fallbackMode == (old(fallbackMode) && !ok)
      ensures history == old(history) + if ok && old(fallbackMode) then [Recovered] else []
    {
      if !redisAvailable { return false; }
      var raised := Command();
      if raised { return false; }
      if fallbackMode {
        StreakGrows(history, Recovered);
        fallbackMode, failureCount, history := false, 0, history + [Recovered];
      }
      ok := true;
    }

    // -------------------------------------------------------------- end to end

    /** Saves and deletes of other sessions, one after the other: in Redis they amount to foreign operations. */
    method Serve(kb: KeyBuilder, requests: seq<Request>) returns (ghost ops: seq<Op>)
      requires Valid() && kb.Valid() && kb.env == env
      requires forall i :: 0 <= i < |requests| ==> requests[i].Foreign(kb)
      modifies this
      ensures Valid() && redis == ApplyAll(old(redis), ops) && commands >= old(commands)
      ensures forall i :: 0 <= i < |ops| ==> Foreign(ops[i], kb)
      ensures old(fallbackMode) ==> fallbackMode
      ensures redisAvailable && AllCreatable(requests) && !old(fallbackMode) && fallbackMode ==> Raises(old(commands), commands)
    {
      hide SaveAll, DeleteAll, Foreign, Streak;
      ops := [];
      for n := 0 to |requests|
        invariant Valid() && redis == ApplyAll(old(redis), ops) && commands >= old(commands)
        invariant forall i :: 0 <= i < |ops| ==> Foreign(ops[i], kb)
        invariant old(fallbackMode) ==> fallbackMode
        invariant redisAvailable && AllCreatable(requests) && !old(fallbackMode) && fallbackMode ==> Raises(old(commands), commands)
      {
        ghost var op := ServeOne(kb, requests[n]);
        if op.Some? {
          assert (ops + [op.value])[..|ops|] == ops;
          ops := ops + [op.value];
        }
      }
    }

    method ServeOne(kb: KeyBuilder, request: Request) returns (ghost op: Option<Op>)
      requires Valid() && kb.Valid() && kb.env == env && request.Foreign(kb)
      modifies this
      ensures Valid() && redis == (if op.None? then old(redis) else Apply(old(redis), op.value)) && commands >= old(commands)
      ensures op.Some? ==> Foreign(op.value, kb)
      ensures old(fallbackMode) ==> fallbackMode
      ensures redisAvailable && Create(env, request.sessionId).Some? && !old(fallbackMode) && fallbackMode ==>
                Raises(old(commands), commands)
    {
      hide SaveAll, DeleteAll, Streak;
      ghost var other := KeyBuilder(env, request.sessionId);
      op := None;
      match request {
        case SaveRequest(id, entries) =>
          ghost var before := history;
          var ok, written := SaveState(id, entries);
          if written > 0 { op := Some(Op.Save(other, entries[..written])); }
          if ok { StreakGrows(before, Worked); }
        case DeleteRequest(id) =>
          var ok := DeleteState(id);
          if ok { op := Some(Op.Delete(other)); }
      }
    }

    ghost predicate AllCreatable(requests: seq<Request>) {
      forall i :: 0 <= i < |requests| ==> Create(env, requests[i].sessionId).Some?
    }

    /** What was saved is there, category by category. */
    ghost predicate Holds(state: Option<Snapshot>, entries: Entries) {
      state.Some? && forall i :: 0 <= i < |CATEGORIES| ==>
        CATEGORIES[i] in state.value && Lookup(entries, CATEGORIES[i]) == Some(state.value[CATEGORIES[i]])
    }

    /**
     * Save, requests of other sessions, load. After a successful save the load returns what was saved or the database
     * snapshot, and the latter only if one of the commands in between raised or an id was one the key builder rejects.
     * Without Redis nothing is loaded, in fallback mode the snapshot; after a failed save what Redis then holds, if it can be read.
     */
    method SaveServeLoad(sessionId: string, entries: Entries, requests: seq<Request>)
      returns (saved: bool, ghost written: nat, ghost ops: seq<Op>, state: Option<Snapshot>)
      requires Valid() && Create(env, sessionId).Some?
      requires forall i :: 0 <= i < |CATEGORIES| ==> Lookup(entries, CATEGORIES[i]).Some?
      requires forall i :: 0 <= i < |requests| ==> requests[i].Foreign(KeyBuilder(env, sessionId))
      modifies this
      ensures Valid() && saved == old(Saves(sessionId, |entries|)) && commands >= old(commands)
      ensures saved ==> Holds(state, entries) || state == if dbAvailable then snapshots(sessionId) else None
      ensures saved && AllCreatable(requests) && !Raises(old(commands), commands) ==> Holds(state, entries)
      ensures redisAvailable && !old(fallbackMode) && !Raises(old(commands), commands) ==> saved
      ensures !redisAvailable ==> state == None
      ensures redisAvailable && old(fallbackMode) ==> state == if dbAvailable then snapshots(sessionId) else None
      ensures var kb := KeyBuilder(env, sessionId);
              && written <= |entries| && (forall i :: 0 <= i < |ops| ==> Foreign(ops[i], kb))
              && redis == ApplyAll(if written == 0 then old(redis) else SaveAll(old(redis), kb, entries[..written]), ops)
              && (state == None || state == (if dbAvailable then snapshots(sessionId) else None) || state == Some(Load(redis, kb)))
    {
      hide SaveAll, DeleteAll, ApplyAll, Load, Lookup, Foreign, Streak;
      var kb := KeyBuilder(env, sessionId);
      ghost var was, before := redis, history;
      saved, written := SaveState(sessionId, entries);
      if saved { StreakGrows(before, Worked); }
      assert entries[..|entries|] == entries;
      assert entries != [] by { NoEntries(CATEGORIES[0]); }
      ops := Serve(kb, requests);
      if saved {
        SessionsAreIsolated(was, kb, entries, ops);
        assert CATEGORIES[0] in Load(redis, kb);
      }
      state := LoadState(sessionId);
    }
  }

  lemma NoEntries(category: string)
    ensures Lookup([], category).None?
  {
  }

  /** A request of a session; deleting needs an id without glob characters. */
  datatype Request = SaveRequest(sessionId: string, entries: Entries) | DeleteRequest(sessionId: string)
  {
    predicate Foreign(kb: KeyBuilder) { sessionId != kb.sessionId && (DeleteRequest? ==> GlobFree(sessionId)) }
  }

  /**
   * Two stores give the same answer for a session if they agree on what concerns it: mode, the replies to the load's four
   * commands, what Redis holds under the session's head and its own snapshot. What they hold for others is never seen.
   */
  method LoadsAlike(a: StateStore, b: StateStore, sessionId: string) returns (x: Option<Snapshot>, y: Option<Snapshot>)
    requires a != b && a.Valid() && b.Valid() && a.env == b.env
    requires a.redisAvailable == b.redisAvailable && a.fallbackMode == b.fallbackMode && a.dbAvailable == b.dbAvailable
    requires a.dbAvailable ==> a.snapshots(sessionId) == b.snapshots(sessionId)
    requires forall k: nat :: k < |CATEGORIES| ==> a.Next(k) == b.Next(k)
    requires Create(a.env, sessionId).Some? ==> SameUnder(KeyBuilder(a.env, sessionId).Head(), a.redis, b.redis)
    modifies a, b
    ensures x == y
  {
    hide Load, Streak, SameUnder;
    assert a.Answers(a.commands, |CATEGORIES|) <==> b.Answers(b.commands, |CATEGORIES|) by { AnswersAlike(a, b, |CATEGORIES|); }
    if Create(a.env, sessionId).Some? { LoadsSameAll(a.redis, b.redis, KeyBuilder(a.env, sessionId)); }
    x := a.LoadState(sessionId);
    y := b.LoadState(sessionId);
  }

  lemma LoadsSameAll(m: Redis, m': Redis, kb: KeyBuilder)
    requires SameUnder(kb.Head(), m, m')
    ensures Load(m, kb) == Load(m', kb)
  {
    LoadsSame(m, m', kb, |CATEGORIES|);
  }

  lemma AnswersAlike(a: StateStore, b: StateStore, n: nat)
    requires forall k: nat :: k < n ==> a.Next(k) == b.Next(k)
    ensures a.Answers(a.commands, n) <==> b.Answers(b.commands, n)
  {
    if !a.Answers(a.commands, n) {
      var k: nat :| a.commands <= k < a.commands + n && a.fails(k);
      assert a.Next(k - a.commands) && b.fails(b.commands + (k - a.commands));
    }
    if !b.Answers(b.commands, n) {
      var k: nat :| b.commands <= k < b.commands + n && b.fails(k);
      assert b.Next(k - b.commands) && a.fails(a.commands + (k - b.commands));
    }
  }

  lemma DeletedKeys(m: Redis, kb: KeyBuilder, keys: set<string>)
    requires keys == set key | key in m && Glob(Pattern(kb), key)
    ensures m - keys == DeleteAll(m, kb) && (keys == {} <==> DeleteAll(m, kb) == m)
  {
    hide Glob, Pattern;
    if key :| key in keys { assert key !in DeleteAll(m, kb); }
  }

  /**
   * Three saves into a fresh store end in fallback mode, with nothing stored, when the environment or the session id is one
   * the key builder rejects, and otherwise only if a command raised. The documented default environment is such a one.
   */
  method SaveThrice(store: StateStore, sessionId: string, entries: Entries)
    requires store.Valid() && store.redisAvailable && store.history == [] && entries != []
    modifies store
    ensures store.Valid() && store.commands >= old(store.commands)
    ensures Create(store.env, sessionId).None? ==> store.fallbackMode && store.redis == old(store.redis)
    ensures Create(store.env, sessionId).Some? && store.fallbackMode ==> store.Raises(old(store.commands), store.commands)
    ensures store.env == "paper" ==> Create(store.env, sessionId).None?
  {
    hide SaveAll;
    ghost var rejected := Create(store.env, sessionId).None?;
    for i := 0 to 3
      invariant store.Valid() && store.commands >= old(store.commands)
      invariant rejected ==> store.redis == old(store.redis) && store.failureCount == i
      invariant !rejected && store.failureCount > 0 ==> store.Raises(old(store.commands), store.commands)
    {
      ghost var before := store.history;
      var ok, written := store.SaveState(sessionId, entries);
      StreakGrows(before, if ok then Worked else Failed);
    }
  }
}
