/** Redis glob patterns: stars, question marks, bracket classes and backslash escapes. */
module RedisGlob {
  import opened Prelude

  // ---------------------------------------------------------------- matching

  /** Whether `c` is in the class whose text starts here, behind `[` and `^`; an unclosed class runs to the end. */
  predicate ClassHas(p: string, c: char) {
    if p == "" then false
    else if |p| >= 2 && p[0] == '\\' then p[1] == c || ClassHas(p[2..], c)
    else if p[0] == ']' then false
    else if |p| >= 3 && p[1] == '-' then (p[0] <= c <= p[2] || p[2] <= c <= p[0]) || ClassHas(p[3..], c)
    else p[0] == c || ClassHas(p[1..], c)
  }

  /** What follows that class. */
  function ClassEnd(p: string): (rest: string)
    ensures |rest| <= |p| && (p != "" ==> |rest| < |p|)
  {
    if p == "" then ""
    else if |p| >= 2 && p[0] == '\\' then ClassEnd(p[2..])
    else if p[0] == ']' then p[1..]
    else if |p| >= 3 && p[1] == '-' then ClassEnd(p[3..])
    else ClassEnd(p[1..])
  }

  predicate Negated(p: string) { |p| >= 2 && p[1] == '^' }

  function ClassText(p: string): string
    requires p != ""
  {
    if Negated(p) then p[2..] else p[1..]
  }

  /** Whether the first item of a pattern, not a star, matches `c`. */
  predicate Hits(p: string, c: char)
    requires p != ""
  {
    if p[0] == '?' then true
    else if p[0] == '[' then ClassHas(ClassText(p), c) != Negated(p)
    else if p[0] == '\\' && |p| >= 2 then p[1] == c
    else p[0] == c
  }

  /** The pattern behind its first item, not a star. */
  function Rest(p: string): (rest: string)
    requires p != ""
    ensures |rest| < |p|
    ensures p[0] == '[' || p[0] == '\\' ==> |rest| <= |p| - 2 || |p| == 1
    ensures p[0] != '[' && p[0] != '\\' ==> rest == p[1..]
  {
    if p[0] == '[' then ClassEnd(ClassText(p)) else if p[0] == '\\' && |p| >= 2 then p[2..] else p[1..]
  }

  predicate Glob(p: string, s: string)
    decreases |p| + |s|
  {
    if p == "" then s == ""
    else if p[0] == '*' then Glob(p[1..], s) || (s != "" && Glob(p, s[1..]))
    else s != "" && Hits(p, s[0]) && Glob(Rest(p), s[1..])
  }

  predicate GlobFree(s: string) { '*' !in s && '?' !in s && '[' !in s && '\\' !in s }

  lemma GlobFreeConcat(a: string, b: string)
    ensures GlobFree(a + b) <==> GlobFree(a) && GlobFree(b)
  {
    assert forall c | c in a :: c in a + b;
    assert forall c | c in b :: c in a + b;
  }

  // ---------------------------------------------------------------- single items

  lemma MarkMatches(p: string, s: string)
    ensures Glob("?" + p, s) <==> s != "" && Glob(p, s[1..])
  {
    assert ("?" + p)[1..] == p;
  }

  lemma EscapeMatches(c: char, p: string, s: string)
    ensures Glob("\\" + [c] + p, s) <==> s != "" && s[0] == c && Glob(p, s[1..])
  {
    assert ("\\" + [c] + p)[2..] == p;
  }

  /** What a bracket class lists. */
  datatype Member = One(c: char) | Escaped(c: char) | Span(from: char, to: char)

  function Spelled(m: Member): string {
    match m
    case One(c) => [c]
    case Escaped(c) => ['\\', c]
    case Span(from, to) => [from, '-', to]
  }

  function SpelledAll(ms: seq<Member>): string {
    if ms == [] then "" else Spelled(ms[0]) + SpelledAll(ms[1..])
  }

  predicate Covers(m: Member, c: char) {
    match m
    case One(d) => d == c
    case Escaped(d) => d == c
    case Span(from, to) => from <= c <= to || to <= c <= from
  }

  /** A member that opens with a character without a meaning of its own in a class. */
  predicate Opens(m: Member) {
    m.Escaped? || Spelled(m)[0] !in {']', '\\', '-'}
  }

  lemma MemberReads(m: Member, rest: string, c: char)
    requires Opens(m) && rest != "" && rest[0] != '-'
    ensures ClassHas(Spelled(m) + rest, c) <==> Covers(m, c) || ClassHas(rest, c)
    ensures ClassEnd(Spelled(m) + rest) == ClassEnd(rest)
  {
    assert (Spelled(m) + rest)[|Spelled(m)|..] == rest;
  }

  lemma {:induction false} ClassReads(ms: seq<Member>, p: string, c: char)
    requires forall m <- ms :: Opens(m)
    ensures ClassHas(SpelledAll(ms) + "]" + p, c) <==> exists m <- ms :: Covers(m, c)
    ensures ClassEnd(SpelledAll(ms) + "]" + p) == p
  {
    var text := SpelledAll(ms) + "]" + p;
    if ms == [] {
      assert text[1..] == p;
    } else {
      var m, rest := ms[0], SpelledAll(ms[1..]) + "]" + p;
      assert m in ms && text == Spelled(m) + rest;
      if |ms| > 1 { assert ms[1] in ms; }
      MemberReads(m, rest, c);
      ClassReads(ms[1..], p, c);
      assert ms == [m] + ms[1..];
      hide ClassHas, ClassEnd, Covers, Opens, SpelledAll;
    }
  }

  /** A class matches one character that a member covers, or behind `^` one that none covers. */
  lemma ClassMatches(ms: seq<Member>, p: string, s: string)
    requires forall m <- ms :: Opens(m)
    ensures Glob("[^" + SpelledAll(ms) + "]" + p, s)
            <==> s != "" && !(exists m <- ms :: Covers(m, s[0])) && Glob(p, s[1..])
    ensures (ms != [] ==> Spelled(ms[0])[0] != '^') ==>
              (Glob("[" + SpelledAll(ms) + "]" + p, s)
               <==> s != "" && (exists m <- ms :: Covers(m, s[0])) && Glob(p, s[1..]))
  {
    var text := SpelledAll(ms) + "]" + p;
    assert "[^" + SpelledAll(ms) + "]" + p == "[^" + text && ("[^" + text)[2..] == text;
    assert "[" + SpelledAll(ms) + "]" + p == "[" + text && ("[" + text)[1..] == text;
    ClassReads(ms, p, if s == "" then ' ' else s[0]);
    if ms != [] { assert text[0] == Spelled(ms[0])[0]; }
  }

  // ---------------------------------------------------------------- literal prefixes

  lemma {:induction false} StarMatches(s: string)
    ensures Glob("*", s)
  {
    if s != "" { StarMatches(s[1..]); }
  }

  /** A plain prefix of a pattern matches itself and nothing else. */
  lemma {:induction false} PlainPrefix(a: string, p: string, s: string)
    requires GlobFree(a)
    ensures Glob(a + p, s) <==> a <= s && Glob(p, s[|a|..])
    ensures Scan(a + p) == if Scan(p).None? then None else Some(|a| + Scan(p).value)
  {
    if a == "" {
      assert a + p == p && s[0..] == s;
    } else {
      assert (a + p)[1..] == a[1..] + p && a[0] in a && GlobFree(a[1..]);
      if s != "" {
        PlainPrefix(a[1..], p, s[1..]);
        assert a <= s <==> a[0] == s[0] && a[1..] <= s[1..];
        if a <= s { assert s[1..][|a| - 1..] == s[|a|..]; }
      } else {
        PlainPrefix(a[1..], p, s);
      }
    }
  }

  /** A plain prefix followed by a star matches exactly the strings with that prefix. */
  lemma PrefixPattern(prefix: string, s: string)
    requires GlobFree(prefix)
    ensures Glob(prefix + "*", s) <==> prefix <= s
  {
    PlainPrefix(prefix, "*", s);
    if prefix <= s { StarMatches(s[|prefix|..]); }
  }

  // ---------------------------------------------------------------- the first star

  /** How many items, of one character each, come before the first star. */
  function Scan(p: string): (r: Option<nat>)
    ensures r.Some? ==> r.value < |p|
    decreases |p|
  {
    if p == "" then None
    else if p[0] == '*' then Some(0)
    else
      var r := Scan(Rest(p));
      if r.None? then None else Some(r.value + 1)
  }

  /** The length of every match of a pattern without a star. */
  function Items(p: string): nat
    decreases |p|
  {
    if p == "" then 0 else 1 + Items(Rest(p))
  }

  lemma {:induction false} StarlessLength(p: string, s: string)
    requires Scan(p).None? && Glob(p, s)
    ensures |s| == Items(p)
    decreases |p|
  {
    if p != "" { StarlessLength(Rest(p), s[1..]); }
  }

  lemma {:induction false} StarAbsorbs(p: string, u: string, s: string)
    requires p != "" && p[0] == '*' && Glob(p, s)
    ensures Glob(p, u + s)
  {
    if u == "" {
      assert u + s == s;
    } else {
      StarAbsorbs(p, u[1..], s);
      assert (u + s)[1..] == u[1..] + s;
    }
  }

  /** Whatever is inserted where the first star starts to match is matched as well. */
  lemma {:induction false} InsertAtStar(p: string, s: string, u: string)
    requires Scan(p).Some? && Glob(p, s)
    ensures Scan(p).value <= |s| && Glob(p, s[..Scan(p).value] + u + s[Scan(p).value..])
    decreases |p|
  {
    var k := Scan(p).value;
    if p[0] == '*' {
      StarAbsorbs(p, u, s);
      assert s[..0] + u + s[0..] == u + s;
    } else {
      InsertAtStar(Rest(p), s[1..], u);
      var t := s[..k] + u + s[k..];
      assert t[0] == s[0] && t[1..] == s[1..][..k - 1] + u + s[1..][k - 1..];
    }
  }

  /** With one character per item up to a final star, the items before it are literals and question marks. */
  lemma {:induction false} SingleItems(p: string, i: nat)
    requires Scan(p) == Some(|p| - 1) && i < |p| - 1
    ensures p[i] != '*' && p[i] != '[' && p[i] != '\\'
    ensures Rest(p) == p[1..] && Scan(p[1..]) == Some(|p| - 2)
  {
    if i > 0 { SingleItems(p[1..], i - 1); }
  }

  /** Then a character matched by a question mark can be any other. */
  lemma {:induction false} ReplaceAtMark(p: string, s: string, i: nat, x: char)
    requires Scan(p) == Some(|p| - 1) && i < |p| - 1 && p[i] == '?' && Glob(p, s)
    ensures i < |s| && Glob(p, s[i := x])
  {
    SingleItems(p, 0);
    if i > 0 {
      ReplaceAtMark(p[1..], s[1..], i - 1, x);
      assert s[i := x][1..] == s[1..][i - 1 := x];
    } else {
      assert s[i := x][1..] == s[1..];
    }
  }

  lemma NotPlain(s: string) returns (i: nat)
    requires !GlobFree(s)
    ensures i < |s| && (s[i] == '*' || s[i] == '?' || s[i] == '[' || s[i] == '\\')
  {
    i :| i < |s| && (s[i] == '*' || s[i] == '?' || s[i] == '[' || s[i] == '\\');
  }
}
