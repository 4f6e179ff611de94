/** Redis keys: building, validating and parsing them, and what each direction keeps. */
module Keyspace {
  import opened Prelude

  datatype Domain = StateDomain | MetricsDomain | GuardDomain | CooldownDomain | PortfolioDomain | SnapshotDomain | WsDomain
  {
    function Word(): (w: string)
      ensures w != "" && ':' !in w && '\n' !in w
    {
      match this
      case StateDomain => "state"
      case MetricsDomain => "metrics"
      case GuardDomain => "guard"
      case CooldownDomain => "cooldown"
      case PortfolioDomain => "portfolio"
      case SnapshotDomain => "snapshot"
      case WsDomain => "ws"
    }
  }

  const PREFIX := "arbitrage"

  predicate ValidEnv(env: string) { env == "development" || env == "staging" || env == "production" }

  datatype KeyBuilder = KeyBuilder(env: string, sessionId: string)
  {
    predicate Valid() { ValidEnv(env) && sessionId != "" && ':' !in sessionId }

    /** Everything in front of the domain. */
    function Head(): string { PREFIX + ":" + env + ":" + sessionId + ":" }
  }

  /** The constructor: None where the source raises. */
  function Create(env: string, sessionId: string): (r: Option<KeyBuilder>)
    ensures r.Some? <==> KeyBuilder(env, sessionId).Valid()
    ensures r.Some? <==> env in {"development", "staging", "production"} && sessionId != "" && ':' !in sessionId
    ensures r.Some? ==> r.value == KeyBuilder(env, sessionId)
  {
    if !ValidEnv(env) then None
    else if sessionId == "" || ':' in sessionId then None
    else Some(KeyBuilder(env, sessionId))
  }

  function Join(parts: seq<string>): string {
    if parts == [] then "" else if |parts| == 1 then parts[0] else parts[0] + ":" + Join(parts[1..])
  }

  /** What follows the domain in a key. */
  function Suffix(symbol: string, field: string): string {
    if symbol == "" && field == "" then ""
    else if field == "" then ":" + symbol
    else ":" + symbol + ":" + field
  }

  function Build(kb: KeyBuilder, domain: Domain, symbol: string, field: string): string {
    kb.Head() + domain.Word() + Suffix(symbol, field)
  }

  /** The keys, spelled out. */
  lemma KeySpelled(kb: KeyBuilder, domain: Domain, symbol: string, field: string)
    ensures var key := "arbitrage:" + kb.env + ":" + kb.sessionId + ":" + Named(domain);
            Build(kb, domain, symbol, field) ==
              if field != "" then key + ":" + symbol + ":" + field else if symbol != "" then key + ":" + symbol else key
  {
    assert domain.Word() == Named(domain);
    assert kb.Head() == "arbitrage:" + kb.env + ":" + kb.sessionId + ":";
    hide Domain.Word, Named;
  }

  function Named(domain: Domain): string {
    match domain
    case StateDomain => "state"
    case MetricsDomain => "metrics"
    case GuardDomain => "guard"
    case CooldownDomain => "cooldown"
    case PortfolioDomain => "portfolio"
    case SnapshotDomain => "snapshot"
    case WsDomain => "ws"
  }

  method BuildKey(kb: KeyBuilder, domain: Domain, symbol: string, field: string) returns (key: string)
    ensures key == Build(kb, domain, symbol, field)
  {
    var parts := [PREFIX, kb.env, kb.sessionId, domain.Word()];
    if symbol != "" || field != "" {
      parts := parts + [symbol];
      if field != "" { parts := parts + [field]; }
    }
    assert parts == [PREFIX, kb.env, kb.sessionId] + ([domain.Word()] + SuffixParts(symbol, field));
    key := Join(parts);
    JoinedHead(kb, domain.Word(), SuffixParts(symbol, field));
    JoinedSuffix(domain.Word(), symbol, field);
  }

  function SuffixParts(symbol: string, field: string): seq<string> {
    if symbol == "" && field == "" then [] else if field == "" then [symbol] else [symbol, field]
  }

  lemma JoinedHead(kb: KeyBuilder, word: string, rest: seq<string>)
    ensures Join([PREFIX, kb.env, kb.sessionId] + ([word] + rest)) == kb.Head() + Join([word] + rest)
  {
    var tail := [word] + rest;
    JoinCons(PREFIX, [kb.env, kb.sessionId] + tail);
    JoinCons(kb.env, [kb.sessionId] + tail);
    JoinCons(kb.sessionId, tail);
    assert [PREFIX, kb.env, kb.sessionId] + tail == [PREFIX] + ([kb.env, kb.sessionId] + tail);
    assert [kb.env, kb.sessionId] + tail == [kb.env] + ([kb.sessionId] + tail);
    assert PREFIX + ":" + (kb.env + ":" + (kb.sessionId + ":" + Join(tail))) == kb.Head() + Join(tail);
  }

  lemma JoinedSuffix(word: string, symbol: string, field: string)
    ensures Join([word] + SuffixParts(symbol, field)) == word + Suffix(symbol, field)
  {
    if symbol == "" && field == "" {
      assert [word] + SuffixParts(symbol, field) == [word] && word + "" == word;
    } else {
      JoinCons(word, SuffixParts(symbol, field));
      if field != "" { JoinCons(symbol, [field]); assert [symbol] + [field] == [symbol, field]; }
    }
  }

  lemma JoinCons(first: string, rest: seq<string>)
    requires rest != []
    ensures Join([first] + rest) == first + ":" + Join(rest)
  {
    assert ([first] + rest)[1..] == rest;
  }

  // ---------------------------------------------------------------- splitting at colons

  /** Length of the longest colon-free prefix: what a greedy `[^:]*` takes. */
  function Span(s: string): (n: nat)
    ensures n <= |s| && ':' !in s[..n]
    ensures n < |s| ==> s[n] == ':'
  {
    if s == "" || s[0] == ':' then 0 else
      assert s[..1 + Span(s[1..])] == [s[0]] + s[1..][..Span(s[1..])];
      1 + Span(s[1..])
  }

  lemma {:induction false} SpanIs(a: string, b: string)
    requires ':' !in a && (b == "" || b[0] == ':')
    ensures Span(a + b) == |a|
  {
    if a == "" {
      assert a + b == b;
    } else {
      assert (a + b)[1..] == a[1..] + b && a[0] in a;
      SpanIs(a[1..], b);
    }
  }

  /** The piece up to the first colon, and the rest; None without a colon. */
  function Take(s: string): (r: Option<(string, string)>)
    ensures r.Some? ==> ':' !in r.value.0 && s == r.value.0 + ":" + r.value.1
    ensures r.None? ==> ':' !in s
  {
    var n := Span(s);
    if n == |s| then assert s[..n] == s; None else Some((s[..n], s[n + 1..]))
  }

  lemma TakeIs(a: string, b: string)
    requires ':' !in a
    ensures Take(a + ":" + b) == Some((a, b))
  {
    assert a + ":" + b == a + (":" + b);
    SpanIs(a, ":" + b);
  }

  lemma TakeNothing(s: string)
    requires ':' !in s
    ensures Take(s) == None
  {
    SpanIs(s, "");
    assert s + "" == s;
  }

  // ---------------------------------------------------------------- the pattern

  datatype Parts = Parts(env: string, sessionId: string, tail: Tail)
  datatype Tail = Tail(domain: Domain, symbol: Option<string>, field: Option<string>)
  {
    predicate WellFormed() {
      && (symbol.Some? ==> ':' !in symbol.value)
      && (field.Some? ==> symbol.Some? && field.value != "" && '\n' !in field.value)
    }

    function Text(): string {
      domain.Word() + (if symbol.Some? then ":" + symbol.value else "") + if field.Some? then ":" + field.value else ""
    }

    /** Where a final newline goes: the symbol group takes it, everything else leaves it to the end anchor. */
    function WithNewline(): Tail {
      if symbol.Some? && field.None? then this.(symbol := Some(symbol.value + "\n")) else this
    }
  }

  function Head(env: string, sessionId: string): string { KeyBuilder(env, sessionId).Head() }

  predicate WellFormed(p: Parts) { KeyBuilder(p.env, p.sessionId).Valid() && p.tail.WellFormed() }

  /** The key a match of the pattern spells out. */
  function Text(p: Parts): string { Head(p.env, p.sessionId) + p.tail.Text() }

  // ---------------------------------------------------------------- the parser

  function DomainOf(w: string): (r: Option<Domain>)
    ensures r.Some? ==> w == r.value.Word()
    ensures r.None? ==> forall d: Domain :: w != d.Word()
  {
    if w == "state" then Some(StateDomain)
    else if w == "metrics" then Some(MetricsDomain)
    else if w == "guard" then Some(GuardDomain)
    else if w == "cooldown" then Some(CooldownDomain)
    else if w == "portfolio" then Some(PortfolioDomain)
    else if w == "snapshot" then Some(SnapshotDomain)
    else if w == "ws" then Some(WsDomain)
    else None
  }

  /** The end anchor also matches in front of one final newline. */
  function Chomp(s: string): string { if s != "" && s[|s| - 1] == '\n' then s[..|s| - 1] else s }

  function ParseTail(t: string): Option<Tail> {
    match Take(t)
    case None =>
      var d := DomainOf(Chomp(t));
      if d.None? then None else Some(Tail(d.value, None, None))
    case Some((word, rest)) =>
      var d := DomainOf(word);
      if d.None? then None
      else
        match Take(rest)
        case None => Some(Tail(d.value, Some(rest), None))
        case Some((symbol, last)) =>
          var field := Chomp(last);
          if field == "" || '\n' in field then None else Some(Tail(d.value, Some(symbol), Some(field)))
  }

  function Parse(key: string): Option<Parts> {
    match Take(key)
    case None => None
    case Some((prefix, rest)) =>
      if prefix != PREFIX then None
      else
        match Take(rest)
        case None => None
        case Some((env, rest)) =>
          if !ValidEnv(env) then None
          else
            match Take(rest)
            case None => None
            case Some((sessionId, t)) =>
              if sessionId == "" then None
              else
                var tail := ParseTail(t);
                if tail.None? then None else Some(Parts(env, sessionId, tail.value))
  }

  predicate ValidateKey(key: string) { Parse(key).Some? }

  lemma WordsDiffer(d: Domain, d': Domain)
    ensures d.Word() == d'.Word() <==> d == d'
  {
    var w, w' := d.Word(), d'.Word();
    if d != d' && |w| == |w'| { assert w[0] != w'[0]; }
  }

  lemma DomainOfWord(d: Domain)
    ensures DomainOf(d.Word()) == Some(d)
  {
    var r := DomainOf(d.Word());
    if r.Some? { WordsDiffer(d, r.value); }
  }

  lemma ChompIs(s: string)
    requires '\n' !in s
    ensures Chomp(s) == s && Chomp(s + "\n") == s
  {
    if s != "" { assert s[|s| - 1] in s; }
    assert (s + "\n")[..|s|] == s;
  }

  lemma Chomped(s: string)
    ensures s == Chomp(s) || s == Chomp(s) + "\n"
  {
  }

  /** The three forms a parsed tail can have. */
  lemma TailTexts(d: Domain, s: string, f: string)
    ensures Tail(d, None, None).Text() == d.Word()
    ensures Tail(d, Some(s), None).Text() == d.Word() + ":" + s
    ensures Tail(d, Some(s), Some(f)).Text() == d.Word() + ":" + (s + ":" + f)
    ensures Tail(d, Some(s), Some(f)).Text() + "\n" == d.Word() + ":" + (s + ":" + (f + "\n"))
  {
  }

  lemma TailSound(t: string)
    requires ParseTail(t).Some?
    ensures var x := ParseTail(t).value;
            && x.WellFormed()
            && (t == x.Text() || (t == x.Text() + "\n" && !(x.symbol.Some? && x.field.None?)))
  {
    hide Chomp, DomainOf, Tail.Text, Span, Domain.Word;
    var d := ParseTail(t).value.domain;
    match Take(t)
    case None =>
      Chomped(t);
      TailTexts(d, "", "");
    case Some((word, rest)) =>
      match Take(rest)
      case None =>
        TailTexts(d, rest, "");
      case Some((symbol, last)) =>
        Chomped(last);
        TailTexts(d, symbol, Chomp(last));
  }

  lemma TailComplete(x: Tail)
    requires x.WellFormed()
    ensures ParseTail(x.Text()) == Some(x)
    ensures ParseTail(x.Text() + "\n") == Some(x.WithNewline())
  {
    hide Take, Chomp, DomainOf;
    var w := x.domain.Word();
    DomainOfWord(x.domain);
    if x.symbol.None? {
      ChompIs(w);
      assert x.Text() == w;
      TakeNothing(w);
      TakeNothing(w + "\n");
    } else {
      var s := x.symbol.value;
      if x.field.None? {
        assert x.Text() == w + ":" + s && x.Text() + "\n" == w + ":" + (s + "\n");
        TakeIs(w, s);
        TakeIs(w, s + "\n");
        TakeNothing(s);
        TakeNothing(s + "\n");
      } else {
        var f := x.field.value;
        ChompIs(f);
        assert x.Text() == w + ":" + (s + ":" + f) && x.Text() + "\n" == w + ":" + (s + ":" + (f + "\n"));
        TakeIs(w, s + ":" + f);
        TakeIs(w, s + ":" + (f + "\n"));
        TakeIs(s, f);
        TakeIs(s, f + "\n");
      }
    }
  }

  lemma ParsePastHead(env: string, sessionId: string, t: string)
    requires KeyBuilder(env, sessionId).Valid()
    ensures Parse(Head(env, sessionId) + t)
         == if ParseTail(t).Some? then Some(Parts(env, sessionId, ParseTail(t).value)) else None
  {
    hide Take, ParseTail;
    assert Head(env, sessionId) + t == PREFIX + ":" + (env + ":" + (sessionId + ":" + t));
    TakeIs(PREFIX, env + ":" + (sessionId + ":" + t));
    TakeIs(env, sessionId + ":" + t);
    TakeIs(sessionId, t);
  }

  lemma Associate(env: string, sessionId: string, t: string)
    ensures PREFIX + ":" + (env + ":" + (sessionId + ":" + t)) == Head(env, sessionId) + t
  {
  }

  lemma ParsedHead(key: string) returns (t: string)
    requires Parse(key).Some?
    ensures var p := Parse(key).value;
            KeyBuilder(p.env, p.sessionId).Valid() && key == Head(p.env, p.sessionId) + t && ParseTail(t) == Some(p.tail)
  {
    hide Take, ParseTail, Span, ValidEnv;
    var p := Parse(key).value;
    var rest := Take(Take(key).value.1).value.1;
    t := Take(rest).value.1;
    Associate(p.env, p.sessionId, t);
  }

  // ---------------------------------------------------------------- parsing is matching

  /** Whatever the parser returns is a match, and a final newline left to the anchor only if no group could take it. */
  lemma ParseIsMatch(key: string)
    requires Parse(key).Some?
    ensures var p := Parse(key).value;
            && WellFormed(p)
            && (key == Text(p) || (key == Text(p) + "\n" && !(p.tail.symbol.Some? && p.tail.field.None?)))
  {
    hide ParseTail, Tail.Text, Parse;
    var t := ParsedHead(key);
    var p := Parse(key).value;
    TailSound(t);
    assert Head(p.env, p.sessionId) + (p.tail.Text() + "\n") == Text(p) + "\n";
  }

  /** Every match is found, with or without a final newline, and there is no other. */
  lemma MatchIsParsed(p: Parts)
    requires WellFormed(p)
    ensures Parse(Text(p)) == Some(p)
    ensures Parse(Text(p) + "\n") == Some(p.(tail := p.tail.WithNewline()))
  {
    hide ParseTail, Tail.Text, Parse;
    TailComplete(p.tail);
    ParsePastHead(p.env, p.sessionId, p.tail.Text());
    ParsePastHead(p.env, p.sessionId, p.tail.Text() + "\n");
    assert Head(p.env, p.sessionId) + (p.tail.Text() + "\n") == Text(p) + "\n";
  }

  /** A key is valid exactly when it spells out a match, give or take one final newline. */
  lemma ValidExactly(key: string)
    ensures ValidateKey(key) <==> exists p :: WellFormed(p) && (key == Text(p) || key == Text(p) + "\n")
  {
    hide Text, Parse;
    if ValidateKey(key) { ParseIsMatch(key); }
    forall p | WellFormed(p) && (key == Text(p) || key == Text(p) + "\n") ensures ValidateKey(key) { MatchIsParsed(p); }
  }

  // ---------------------------------------------------------------- round trips

  /** What a key built from these arguments should parse to: empty strings are absent where the key omits them. */
  function PartsOf(kb: KeyBuilder, domain: Domain, symbol: string, field: string): Parts {
    Parts(kb.env, kb.sessionId,
          Tail(domain,
               if symbol == "" && field == "" then None else Some(symbol),
               if field == "" then None else Some(field)))
  }

  lemma BuildSpells(kb: KeyBuilder, domain: Domain, symbol: string, field: string)
    ensures Build(kb, domain, symbol, field) == Text(PartsOf(kb, domain, symbol, field))
  {
  }

  /** Parsing a built key gives its parts back exactly for colon-free symbols and newline-free fields. */
  lemma RoundTrip(kb: KeyBuilder, domain: Domain, symbol: string, field: string)
    requires kb.Valid()
    ensures Parse(Build(kb, domain, symbol, field)) == Some(PartsOf(kb, domain, symbol, field))
            <==> ':' !in symbol && '\n' !in field
  {
    hide Text, Build, Parse, KeyBuilder.Head;
    var p := PartsOf(kb, domain, symbol, field);
    BuildSpells(kb, domain, symbol, field);
    if ':' !in symbol && '\n' !in field {
      MatchIsParsed(p);
    } else if Parse(Text(p)).Some? {
      ParseIsMatch(Text(p));
    }
  }

  lemma SameHead(kb: KeyBuilder, t: string, kb': KeyBuilder, t': string)
    requires kb.Valid() && kb'.Valid() && kb.Head() + t == kb'.Head() + t'
    ensures kb == kb' && t == t'
  {
    hide Take;
    HeadSplits(kb, t);
    HeadSplits(kb', t');
  }

  lemma HeadSplits(kb: KeyBuilder, t: string)
    requires kb.Valid()
    ensures Take(kb.Head() + t) == Some((PREFIX, kb.env + ":" + (kb.sessionId + ":" + t)))
    ensures Take(kb.env + ":" + (kb.sessionId + ":" + t)) == Some((kb.env, kb.sessionId + ":" + t))
    ensures Take(kb.sessionId + ":" + t) == Some((kb.sessionId, t))
  {
    hide Take;
    assert kb.Head() + t == PREFIX + ":" + (kb.env + ":" + (kb.sessionId + ":" + t));
    TakeIs(PREFIX, kb.env + ":" + (kb.sessionId + ":" + t));
    TakeIs(kb.env, kb.sessionId + ":" + t);
    TakeIs(kb.sessionId, t);
  }

  lemma TailSplits(d: Domain, symbol: string, field: string)
    requires ':' !in symbol
    ensures var t := d.Word() + Suffix(symbol, field);
            var rest := if field == "" then symbol else symbol + ":" + field;
            && Take(t) == (if symbol == "" && field == "" then None else Some((d.Word(), rest)))
            && (symbol == "" && field == "" ==> t == d.Word())
            && Take(rest) == (if field == "" then None else Some((symbol, field)))
  {
    hide Take, Domain.Word;
    var w, rest := d.Word(), if field == "" then symbol else symbol + ":" + field;
    if field == "" { TakeNothing(symbol); } else { TakeIs(symbol, field); }
    if symbol == "" && field == "" {
      assert w + Suffix(symbol, field) == w;
      TakeNothing(w);
    } else {
      assert w + Suffix(symbol, field) == w + ":" + rest;
      TakeIs(w, rest);
    }
  }

  /** Different arguments never collide: the key determines environment, session, domain, symbol and field. */
  lemma BuildInjective(kb: KeyBuilder, d: Domain, s: string, f: string, kb': KeyBuilder, d': Domain, s': string, f': string)
    requires kb.Valid() && kb'.Valid() && ':' !in s && ':' !in s'
    requires Build(kb, d, s, f) == Build(kb', d', s', f')
    ensures kb == kb' && d == d' && s == s' && f == f'
  {
    hide Take, Suffix, Domain.Word, KeyBuilder.Head;
    assert Build(kb, d, s, f) == kb.Head() + (d.Word() + Suffix(s, f));
    assert Build(kb', d', s', f') == kb'.Head() + (d'.Word() + Suffix(s', f'));
    SameHead(kb, d.Word() + Suffix(s, f), kb', d'.Word() + Suffix(s', f'));
    TailSplits(d, s, f);
    TailSplits(d', s', f');
    WordsDiffer(d, d');
  }

  function OrEmpty(s: Option<string>): string { if s.Some? then s.value else "" }

  function Rebuild(p: Parts): string {
    Build(KeyBuilder(p.env, p.sessionId), p.tail.domain, OrEmpty(p.tail.symbol), OrEmpty(p.tail.field))
  }

  predicate EndsLine(s: string) { s != "" && s[|s| - 1] == '\n' }

  /**
   * Rebuilding a parsed key gives it back exactly when it has not the trailing-colon form with empty symbol and no
   * field, and does not end in a newline outside the symbol.
   */
  lemma RebuildExactly(key: string)
    requires Parse(key).Some?
    ensures var x := Parse(key).value.tail;
            Rebuild(Parse(key).value) == key <==>
              && !(x.symbol == Some("") && x.field.None?)
              && (EndsLine(key) ==> x.symbol.Some? && x.field.None?)
  {
    hide Parse, Text, Rebuild, WellFormed;
    var p := Parse(key).value;
    ParseIsMatch(key);
    TextEndsLine(p);
    RebuiltText(p);
  }

  lemma RebuiltText(p: Parts)
    requires WellFormed(p)
    ensures if p.tail.symbol == Some("") && p.tail.field.None? then Text(p) == Rebuild(p) + ":" else Text(p) == Rebuild(p)
  {
    hide KeyBuilder.Head, Domain.Word;
  }

  /** A spelled-out match ends in a newline only inside its symbol. */
  lemma TextEndsLine(p: Parts)
    requires WellFormed(p)
    ensures EndsLine(Text(p)) ==> p.tail.symbol.Some? && p.tail.field.None?
  {
    var t, w := p.tail.Text(), p.tail.domain.Word();
    assert w[|w| - 1] in w;
    if p.tail.field.Some? {
      var f := p.tail.field.value;
      assert f[|f| - 1] in f;
      assert t[|t| - 1] == f[|f| - 1];
    }
  }
}
