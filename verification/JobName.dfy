/** Kubernetes job names: turning any ASCII id into a label of section 2.3.1 of RFC 1035. */
module JobName {
  // ---------------------------------------------------------------- characters

  predicate Ascii(s: string) { forall i :: 0 <= i < |s| ==> s[i] as int < 128 }

  predicate IsLetter(c: char) { 'a' <= c <= 'z' }
  predicate IsDigit(c: char) { '0' <= c <= '9' }
  predicate IsUpper(c: char) { 'A' <= c <= 'Z' }

  /** A letter, a digit or a hyphen. */
  predicate IsLdh(c: char) { IsLetter(c) || IsDigit(c) || c == '-' }

  function Clean(c: char): (r: char)
    ensures IsLdh(r)
  {
    if IsUpper(c) then c - 'A' + 'a' else if IsLetter(c) || IsDigit(c) then c else '-'
  }

  /** Lower-case letters and digits stay, everything else becomes a hyphen. */
  function Sanitize(s: string): (r: string)
    ensures |r| == |s| && forall i :: 0 <= i < |s| ==> r[i] == Clean(s[i])
  {
    seq(|s|, i requires 0 <= i < |s| => Clean(s[i]))
  }

  ghost predicate AllLdh(s: string) { forall i :: 0 <= i < |s| ==> IsLdh(s[i]) }

  ghost predicate AllHyphens(s: string) { forall i :: 0 <= i < |s| ==> s[i] == '-' }

  predicate HasDouble(s: string) { exists i :: 0 <= i < |s| - 1 && s[i] == '-' && s[i + 1] == '-' }

  lemma ConsDouble(c: char, s: string)
    ensures HasDouble([c] + s) <==> (c == '-' && s != "" && s[0] == '-') || HasDouble(s)
  {
    var r := [c] + s;
    assert r[1..] == s;
    if HasDouble(s) {
      var i :| 0 <= i < |s| - 1 && s[i] == '-' && s[i + 1] == '-';
      assert r[i + 1] == '-' && r[i + 2] == '-';
    }
    if c == '-' && s != "" && s[0] == '-' { assert r[0] == '-' && r[1] == '-'; }
    if HasDouble(r) {
      var i :| 0 <= i < |r| - 1 && r[i] == '-' && r[i + 1] == '-';
      if i > 0 { assert s[i - 1] == '-' && s[i] == '-'; }
    }
  }

  // ---------------------------------------------------------------- squeezing hyphens

  /** `s.replace("--", "-")`: non-overlapping, from the left. */
  function Replace(s: string): (r: string)
    ensures |r| <= |s| && (s != "" ==> r != "" && r[0] == s[0])
  {
    if |s| < 2 then s
    else if s[0] == '-' && s[1] == '-' then "-" + Replace(s[2..])
    else [s[0]] + Replace(s[1..])
  }

  /** Every run of hyphens as one hyphen. */
  function Collapse(s: string): (r: string)
    ensures |r| <= |s| && (s != "" ==> r != "" && r[0] == s[0])
  {
    if |s| < 2 then s
    else if s[0] == '-' && s[1] == '-' then Collapse(s[1..])
    else [s[0]] + Collapse(s[1..])
  }

  lemma {:induction false} ReplaceShortens(s: string)
    requires HasDouble(s)
    ensures |Replace(s)| < |s|
  {
    if !(s[0] == '-' && s[1] == '-') {
      var i :| 0 <= i < |s| - 1 && s[i] == '-' && s[i + 1] == '-';
      assert s[1..][i - 1] == '-' && s[1..][i] == '-';
      ReplaceShortens(s[1..]);
    }
  }

  lemma {:induction false} CollapseReplace(s: string)
    ensures Collapse(Replace(s)) == Collapse(s)
  {
    if |s| >= 2 {
      if s[0] == '-' && s[1] == '-' {
        var rest := s[2..];
        CollapseReplace(rest);
        HyphenInFront(Replace(rest));
        HyphenInFront(rest);
        assert s[1..] == "-" + rest;
      } else {
        CollapseReplace(s[1..]);
        assert ([s[0]] + Replace(s[1..]))[1..] == Replace(s[1..]);
      }
    }
  }

  lemma HyphenInFront(s: string)
    ensures Collapse("-" + s) == if s != "" && s[0] == '-' then Collapse(s) else "-" + Collapse(s)
  {
    assert ("-" + s)[1..] == s;
  }

  lemma {:induction false} CollapseFixes(s: string)
    requires !HasDouble(s)
    ensures Collapse(s) == s
  {
    if |s| >= 2 {
      ConsDouble(s[0], s[1..]);
      assert s == [s[0]] + s[1..];
      CollapseFixes(s[1..]);
    }
  }

  lemma {:induction false} CollapsedShape(s: string)
    ensures !HasDouble(Collapse(s))
    ensures AllLdh(s) ==> AllLdh(Collapse(s))
    ensures AllHyphens(s) <==> AllHyphens(Collapse(s))
  {
    hide HasDouble;
    if |s| >= 2 {
      CollapsedShape(s[1..]);
      ConsShape(s[0], s[1..]);
      ConsShape(s[0], Collapse(s[1..]));
      ConsDouble(s[0], Collapse(s[1..]));
      assert s == [s[0]] + s[1..];
    } else {
      ShortHasNone(s);
    }
  }

  lemma ShortHasNone(s: string)
    requires |s| < 2
    ensures !HasDouble(s)
  {
  }

  lemma ConsShape(c: char, s: string)
    ensures AllLdh([c] + s) <==> IsLdh(c) && AllLdh(s)
    ensures AllHyphens([c] + s) <==> c == '-' && AllHyphens(s)
  {
    assert ([c] + s)[0] == c;
    forall i | 0 <= i < |s| ensures ([c] + s)[i + 1] == s[i] {}
  }

  /** The loop ends, with every run of hyphens collapsed. */
  method Squeeze(s: string) returns (r: string)
    ensures r == Collapse(s)
  {
    r := s;
    while HasDouble(r)
      invariant Collapse(r) == Collapse(s)
      decreases |r|
    {
      ReplaceShortens(r);
      CollapseReplace(r);
      r := Replace(r);
    }
    CollapseFixes(r);
  }

  // ---------------------------------------------------------------- trimming

  function TrimLeft(s: string): string {
    if s != "" && s[0] == '-' then TrimLeft(s[1..]) else s
  }

  function TrimRight(s: string): (r: string)
    ensures r <= s
  {
    if s != "" && s[|s| - 1] == '-' then TrimRight(s[..|s| - 1]) else s
  }

  function Strip(s: string): string { TrimRight(TrimLeft(s)) }

  const LIMIT := 63

  function Limit(s: string): string { if |s| > LIMIT then TrimRight(s[..LIMIT]) else s }

  /** What the trimming steps leave: no double hyphen, hyphens only inside, at least one character. */
  ghost predicate Trimmed(s: string) {
    s != "" && AllLdh(s) && !HasDouble(s) && s[0] != '-' && s[|s| - 1] != '-'
  }

  lemma SuffixKeeps(s: string)
    requires s != "" && AllLdh(s) && !HasDouble(s)
    ensures AllLdh(s[1..]) && !HasDouble(s[1..])
  {
    ConsDouble(s[0], s[1..]);
    assert s == [s[0]] + s[1..];
  }

  lemma DoubleInPrefix(s: string, n: nat)
    requires n <= |s| && HasDouble(s[..n])
    ensures HasDouble(s)
  {
    var i :| 0 <= i < n - 1 && s[..n][i] == '-' && s[..n][i + 1] == '-';
    assert s[i] == '-' && s[i + 1] == '-';
  }

  lemma PrefixKeeps(s: string, n: nat)
    requires n <= |s| && AllLdh(s) && !HasDouble(s)
    ensures AllLdh(s[..n]) && !HasDouble(s[..n])
  {
    if HasDouble(s[..n]) { DoubleInPrefix(s, n); }
  }

  lemma {:induction false} TrimLeftShape(s: string)
    requires AllLdh(s) && !HasDouble(s)
    ensures var r := TrimLeft(s);
            AllLdh(r) && !HasDouble(r) && (r == "" <==> AllHyphens(s)) && (r != "" ==> r[0] != '-')
  {
    if s != "" && s[0] == '-' {
      SuffixKeeps(s);
      TrimLeftShape(s[1..]);
      assert s == [s[0]] + s[1..];
    }
  }

  lemma {:induction false} TrimRightShape(s: string)
    requires AllLdh(s) && !HasDouble(s) && s != "" && s[0] != '-'
    ensures Trimmed(TrimRight(s)) && TrimRight(s)[0] == s[0]
  {
    if s[|s| - 1] == '-' {
      PrefixKeeps(s, |s| - 1);
      TrimRightShape(s[..|s| - 1]);
    }
  }

  lemma LimitShape(s: string)
    requires Trimmed(s)
    ensures Trimmed(Limit(s)) && |Limit(s)| <= LIMIT && Limit(s)[0] == s[0]
  {
    if |s| > LIMIT {
      PrefixKeeps(s, LIMIT);
      TrimRightShape(s[..LIMIT]);
    }
  }

  // ---------------------------------------------------------------- the whole function

  /** A name that does not start with a letter gets a prefix. */
  function Prefixed(s: string): string { if s != "" && !IsLetter(s[0]) then "job-" + s else s }

  function Normalize(s: string): string { Limit(Prefixed(Limit(Strip(Collapse(Sanitize(s)))))) }

  method NormalizeJobName(jobId: string) returns (name: string)
    requires Ascii(jobId)
    ensures name == Normalize(jobId)
  {
    name := Sanitize(jobId);
    name := Squeeze(name);
    name := Strip(name);
    if |name| > LIMIT { name := TrimRight(name[..LIMIT]); }
    if name != "" && !IsLetter(name[0]) { name := "job-" + name; }
    if |name| > LIMIT { name := TrimRight(name[..LIMIT]); }
  }

  /** `<label> ::= <letter> [ [ <ldh-str> ] <let-dig> ]`, of at most 63 octets, in lower case. */
  ghost predicate IsLabel(s: string) {
    && 0 < |s| <= LIMIT
    && IsLetter(s[0])
    && AllLdh(s)
    && s[|s| - 1] != '-'
  }

  predicate HasAlnum(s: string) { exists i :: 0 <= i < |s| && (IsLetter(s[i]) || IsUpper(s[i]) || IsDigit(s[i])) }

  lemma SanitizedHyphens(s: string)
    ensures AllLdh(Sanitize(s)) && (AllHyphens(Sanitize(s)) <==> !HasAlnum(s))
  {
    forall i | 0 <= i < |s| ensures Clean(s[i]) == '-' <==> !(IsLetter(s[i]) || IsUpper(s[i]) || IsDigit(s[i])) {}
    if AllHyphens(Sanitize(s)) {
      forall i | 0 <= i < |s| ensures !(IsLetter(s[i]) || IsUpper(s[i]) || IsDigit(s[i])) {
        assert Sanitize(s)[i] == '-';
      }
    }
  }

  lemma PrefixedShape(s: string)
    requires Trimmed(s)
    ensures Trimmed(Prefixed(s)) && IsLetter(Prefixed(s)[0])
  {
    hide HasDouble;
    if !IsLetter(s[0]) {
      ConsDouble('-', s);
      ConsDouble('b', "-" + s);
      ConsDouble('o', "b" + ("-" + s));
      ConsDouble('j', "o" + ("b" + ("-" + s)));
      assert "job-" + s == "j" + ("o" + ("b" + ("-" + s)));
    }
  }

  /** Every ASCII id with a letter or a digit becomes a label without double hyphens, every other the empty name. */
  lemma NormalizeGivesLabel(s: string)
    requires Ascii(s)
    ensures if HasAlnum(s) then IsLabel(Normalize(s)) && !HasDouble(Normalize(s)) else Normalize(s) == ""
  {
    hide Collapse, TrimLeft, TrimRight, Limit, Prefixed, HasDouble, Sanitize, Trimmed;
    var clean := Sanitize(s);
    SanitizedHyphens(s);
    CollapsedShape(clean);
    TrimLeftShape(Collapse(clean));
    if HasAlnum(s) {
      TrimRightShape(TrimLeft(Collapse(clean)));
      var stripped := Strip(Collapse(clean));
      LimitShape(stripped);
      PrefixedShape(Limit(stripped));
      LimitShape(Prefixed(Limit(stripped)));
      TrimmedIsLabel(Normalize(s));
    } else {
      NothingLeft();
    }
  }

  lemma TrimmedIsLabel(s: string)
    requires Trimmed(s) && |s| <= LIMIT && IsLetter(s[0])
    ensures IsLabel(s) && !HasDouble(s)
  {
  }

  lemma NothingLeft()
    ensures TrimRight("") == "" && Limit("") == "" && Prefixed("") == ""
  {
  }

  lemma LabelsStay(s: string)
    requires IsLabel(s) && !HasDouble(s)
    ensures Normalize(s) == s
  {
    hide Collapse, HasDouble;
    CollapseFixes(s);
    assert Strip(s) == s && Limit(s) == s && Prefixed(s) == s;
    assert Sanitize(s) == s;
  }

  /** The names left alone are exactly the labels without double hyphens, and the empty one. */
  lemma FixedExactly(s: string)
    requires Ascii(s)
    ensures Normalize(s) == s <==> s == "" || (IsLabel(s) && !HasDouble(s))
  {
    hide Normalize;
    NormalizeGivesLabel(s);
    if IsLabel(s) && !HasDouble(s) { LabelsStay(s); }
    if s == "" { assert !HasAlnum(s); }
  }

  lemma NormalizeIdempotent(s: string)
    requires Ascii(s)
    ensures Normalize(Normalize(s)) == Normalize(s)
  {
    hide Normalize;
    NormalizeGivesLabel(s);
    if HasAlnum(s) { LabelsStay(Normalize(s)); } else { NormalizeGivesLabel(""); assert !HasAlnum(""); }
  }

  // ---------------------------------------------------------------- what of an id is kept

  /** The letters and digits of an id in order, in lower case. */
  function Kept(s: string): string {
    if s == "" then ""
    else if 'A' <= s[0] <= 'Z' then [(s[0] as int + 32) as char] + Kept(s[1..])
    else if 'a' <= s[0] <= 'z' || '0' <= s[0] <= '9' then [s[0]] + Kept(s[1..])
    else Kept(s[1..])
  }

  lemma {:induction false} KeptAppend(s: string, t: string)
    ensures Kept(s + t) == Kept(s) + Kept(t)
  {
    if s == "" {
      assert s + t == t;
    } else {
      assert (s + t)[1..] == s[1..] + t;
      KeptAppend(s[1..], t);
    }
  }

  lemma {:induction false} SanitizeKeeps(s: string)
    ensures Kept(Sanitize(s)) == Kept(s)
  {
    if s != "" {
      SanitizeKeeps(s[1..]);
      assert Sanitize(s)[1..] == Sanitize(s[1..]);
    }
  }

  lemma {:induction false} CollapseKeeps(s: string)
    ensures Kept(Collapse(s)) == Kept(s)
  {
    if |s| >= 2 {
      CollapseKeeps(s[1..]);
      if !(s[0] == '-' && s[1] == '-') { assert ([s[0]] + Collapse(s[1..]))[1..] == Collapse(s[1..]); }
    }
  }

  lemma {:induction false} TrimLeftKeeps(s: string)
    ensures Kept(TrimLeft(s)) == Kept(s)
  {
    if s != "" && s[0] == '-' { TrimLeftKeeps(s[1..]); }
  }

  lemma {:induction false} TrimRightKeeps(s: string)
    ensures Kept(TrimRight(s)) == Kept(s)
  {
    if s != "" && s[|s| - 1] == '-' {
      var front := s[..|s| - 1];
      TrimRightKeeps(front);
      KeptAppend(front, "-");
      assert s == front + "-";
    }
  }

  /** Cutting to the limit keeps the beginning, and takes away no more than one character beyond what is over it. */
  lemma LimitKeeps(s: string)
    requires !HasDouble(s)
    ensures Kept(Limit(s)) <= Kept(s)
    ensures |Limit(s)| < LIMIT - 1 ==> Limit(s) == s
  {
    if |s| > LIMIT {
      var head := s[..LIMIT];
      TrimRightKeeps(head);
      KeptAppend(head, s[LIMIT..]);
      assert s == head + s[LIMIT..];
      if HasDouble(head) { DoubleInPrefix(s, LIMIT); }
      TrimsAtMostOne(head);
    }
  }

  lemma TrimsAtMostOne(s: string)
    requires !HasDouble(s) && |s| >= 2
    ensures |TrimRight(s)| >= |s| - 1
  {
    if s[|s| - 1] == '-' { assert s[|s| - 2] != '-' && s[..|s| - 1][|s| - 2] != '-'; }
  }

  /** With the prefix an id gets that starts with a digit. */
  function Expected(s: string): string { if Kept(s) != "" && '0' <= Kept(s)[0] <= '9' then "job" + Kept(s) else Kept(s) }

  lemma PrefixedKeeps(s: string)
    requires s == "" || Trimmed(s)
    ensures Kept(Prefixed(s)) == Expected(s)
  {
    if s != "" {
      assert s[0] != '-' && IsLdh(s[0]);
      if !IsLetter(s[0]) {
        KeptAppend("job-", s);
        assert Kept("job-") == "job" by { KeptJob(); }
      }
    }
  }

  lemma KeptJob()
    ensures Kept("job-") == "job"
  {
    assert "job-"[1..] == "ob-" && "ob-"[1..] == "b-" && "b-"[1..] == "-" && "-"[1..] == "";
    assert Kept("-") == "" && Kept("b-") == "b" && Kept("ob-") == "ob";
  }

  /**
   * A name is made of the letters and digits of its id, in order and in lower case, after the prefix if the first is a
   * digit: of the first of them where the limit cuts, of all of them otherwise.
   */
  lemma NormalizeKeeps(s: string)
    requires Ascii(s)
    ensures Kept(Normalize(s)) <= Expected(s)
    ensures |Normalize(s)| < LIMIT - 1 ==> Kept(Normalize(s)) == Expected(s)
  {
    hide Collapse, TrimLeft, TrimRight, Limit, Prefixed, HasDouble, Sanitize, Trimmed, Kept;
    var clean := Sanitize(s);
    var t := Strip(Collapse(clean));
    SanitizedHyphens(s);
    CollapsedShape(clean);
    TrimLeftShape(Collapse(clean));
    SanitizeKeeps(s);
    CollapseKeeps(clean);
    TrimLeftKeeps(Collapse(clean));
    TrimRightKeeps(TrimLeft(Collapse(clean)));
    assert Kept(t) == Kept(s);
    if HasAlnum(s) {
      TrimRightShape(TrimLeft(Collapse(clean)));
      LimitShape(t);
      TrimmedHasNoDouble(t);
      LimitKeeps(t);
      KeepsPrefixed(t);
      PrefixedShape(Limit(t));
      TrimmedHasNoDouble(Prefixed(Limit(t)));
      LimitKeeps(Prefixed(Limit(t)));
      CutsShow(t);
    } else {
      NothingLeft();
      assert t == "";
      NothingKept();
    }
  }

  lemma TrimmedHasNoDouble(s: string)
    requires Trimmed(s)
    ensures !HasDouble(s)
  {
  }

  lemma NothingKept()
    ensures Kept("") == ""
  {
  }

  /** The prefix does not see the first cut. */
  lemma KeepsPrefixed(t: string)
    requires Trimmed(t) && Trimmed(Limit(t)) && Kept(Limit(t)) <= Kept(t)
    ensures Kept(Prefixed(Limit(t))) <= Expected(t)
    ensures Limit(t) == t ==> Kept(Prefixed(Limit(t))) == Expected(t)
  {
    PrefixedKeeps(Limit(t));
    assert Limit(t)[0] == t[0] by { LimitShape(t); }
    assert Kept(t) != "" && Kept(Limit(t)) != "";
  }

  /** A name that is short was not cut. */
  lemma CutsShow(t: string)
    requires Trimmed(t)
    ensures |Limit(Prefixed(Limit(t)))| < LIMIT - 1 ==> Limit(t) == t && Limit(Prefixed(Limit(t))) == Prefixed(Limit(t))
  {
    LimitShape(t);
    PrefixedShape(Limit(t));
    LimitKeeps(t);
    LimitKeeps(Prefixed(Limit(t)));
  }
}
