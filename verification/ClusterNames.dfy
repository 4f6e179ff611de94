/** Planned jobs on the cluster: exactly when the names their ids become are distinct, as the session loop needs them to be. */
module ClusterNames {
  import opened Prelude
  import opened TuningPlanner
  import opened JobName
  import Scheduler

  function IdHead(c: SessionConfig): string { if c.Tagged() then c.tagPrefix.value else "job" }

  /** The part of an id before its number, cleaned up but not cut: what every name of the plan starts with. */
  function CleanHead(c: SessionConfig): string { TrimLeft(Collapse(Sanitize(IdHead(c) + "_"))) }

  function NameHead(c: SessionConfig): string {
    var h := CleanHead(c);
    if h != "" && IsLetter(h[0]) then h else "job-" + h
  }

  // ---------------------------------------------------------------- numbers

  ghost predicate AllDigits(s: string) { forall i :: 0 <= i < |s| ==> IsDigit(s[i]) }

  lemma {:induction false} DecimalDigits(n: nat)
    ensures AllDigits(Decimal(n)) && Decimal(n) != ""
  {
    if n >= 10 { DecimalDigits(n / 10); }
  }

  lemma {:induction false} ZeroDigits(n: nat)
    ensures AllDigits(Zeros(n))
  {
    if n > 0 { ZeroDigits(n - 1); }
  }

  lemma PaddedDigits(n: nat)
    ensures AllDigits(Padded(n)) && |Padded(n)| >= 4 && (|Padded(n)| > 4 ==> Padded(n) == Decimal(n))
  {
    DecimalDigits(n);
    if |Decimal(n)| < 4 { ZeroDigits(4 - |Decimal(n)|); }
  }

  lemma {:induction false} DecimalGrows(m: nat, n: nat)
    requires m <= n
    ensures |Decimal(m)| <= |Decimal(n)|
  {
    if m >= 10 { DecimalGrows(m / 10, n / 10); } else { DecimalDigits(n); }
  }

  lemma PaddedGrows(m: nat, n: nat)
    requires m <= n
    ensures |Padded(m)| <= |Padded(n)|
  {
    DecimalGrows(m, n);
  }

  /** The first digits of a number are those of a smaller one. */
  lemma {:induction false} LeadingDigits(n: nat, k: nat) returns (v: nat)
    requires 0 < k < |Decimal(n)|
    ensures 0 < v < n && Decimal(v) == Decimal(n)[..k]
  {
    var front := Decimal(n / 10);
    assert Decimal(n)[..|front|] == front;
    if k == |front| {
      v := n / 10;
    } else {
      v := LeadingDigits(n / 10, k);
      assert Decimal(n)[..k] == front[..k];
    }
  }

  // ---------------------------------------------------------------- normalising around a number

  lemma SanitizeDigits(s: string, digits: string)
    requires AllDigits(digits)
    ensures Sanitize(s + digits) == Sanitize(s) + digits
  {
    forall i | 0 <= i < |digits| ensures Clean(digits[i]) == digits[i] {}
  }

  lemma {:induction false} CollapseDigits(s: string, digits: string)
    requires AllDigits(digits) && digits != ""
    ensures Collapse(s + digits) == Collapse(s) + digits
  {
    if s == "" {
      assert s + digits == digits;
      assert !HasDouble(digits);
      CollapseFixes(digits);
    } else {
      assert (s + digits)[1..] == s[1..] + digits;
      CollapseDigits(s[1..], digits);
      if |s| == 1 { assert IsDigit(digits[0]) && s + digits == s + (s[1..] + digits); }
    }
  }

  lemma {:induction false} TrimLeftDigits(s: string, digits: string)
    requires AllDigits(digits) && digits != ""
    ensures TrimLeft(s + digits) == TrimLeft(s) + digits
  {
    if s == "" {
      assert s + digits == digits && IsDigit(digits[0]);
    } else if s[0] == '-' {
      assert (s + digits)[1..] == s[1..] + digits;
      TrimLeftDigits(s[1..], digits);
    }
  }

  lemma TrimRightDigits(s: string, digits: string)
    requires AllDigits(digits) && digits != ""
    ensures TrimRight(s + digits) == s + digits
  {
    assert (s + digits)[|s + digits| - 1] == digits[|digits| - 1] && IsDigit(digits[|digits| - 1]);
  }

  /** Up to its stripping, normalising an id cleans the head and keeps the number. */
  lemma StrippedId(c: SessionConfig, i: nat)
    ensures var t := Strip(Collapse(Sanitize(JobId(c, i))));
            t == CleanHead(c) + Padded(i + 1) && Trimmed(t)
  {
    hide Sanitize, Collapse, TrimLeft, TrimRight, Padded, Trimmed, HasDouble, AllLdh, AllDigits, AllHyphens;
    var head, p := IdHead(c) + "_", Padded(i + 1);
    PaddedDigits(i + 1);
    assert JobId(c, i) == head + p;
    SanitizeDigits(head, p);
    CollapseDigits(Sanitize(head), p);
    TrimLeftDigits(Collapse(Sanitize(head)), p);
    TrimRightDigits(CleanHead(c), p);
    var clean := Sanitize(JobId(c, i));
    SanitizedHyphens(JobId(c, i));
    CollapsedShape(clean);
    TrimLeftShape(Collapse(clean));
    TrimRightShape(TrimLeft(Collapse(clean)));
  }

  lemma TrimsOne(s: string)
    requires !HasDouble(s) && |s| >= 2
    ensures |TrimRight(s)| >= |s| - 1
  {
    if s[|s| - 1] == '-' { assert s[|s| - 2] != '-' && s[..|s| - 1][|s| - 2] != '-'; }
  }

  /** Cutting before the prefix is put on makes no difference to the final cut. */
  lemma CutOnce(t: string)
    requires Trimmed(t)
    ensures Limit(Prefixed(Limit(t))) == Limit(Prefixed(t))
  {
    LimitShape(t);
    if !IsLetter(t[0]) && |t| > LIMIT {
      hide HasDouble, TrimRight;
      var u := Limit(t);
      PrefixKeeps(t, LIMIT);
      TrimsOne(t[..LIMIT]);
      assert u == t[..|u|];
      assert ("job-" + u)[..LIMIT] == "job-" + u[..LIMIT - 4] == "job-" + t[..LIMIT - 4] == ("job-" + t)[..LIMIT];
    }
  }

  /** The name of a planned job: its cleaned head and its number, cut to the limit. */
  lemma PlannedName(c: SessionConfig, i: nat)
    ensures Normalize(JobId(c, i)) == Limit(NameHead(c) + Padded(i + 1))
  {
    hide Sanitize, Collapse, Strip, Limit, Padded, Trimmed, CleanHead;
    var h, p := CleanHead(c), Padded(i + 1);
    StrippedId(c, i);
    PaddedDigits(i + 1);
    CutOnce(h + p);
    assert Prefixed(h + p) == NameHead(c) + p by {
      if h == "" { assert h + p == p && IsDigit(p[0]) && "job-" + "" == "job-"; }
      assert "job-" + (h + p) == "job-" + h + p;
    }
  }

  // ---------------------------------------------------------------- when the names are distinct

  ghost predicate NamesDistinct(c: SessionConfig, n: nat) {
    forall i: nat, j: nat :: i < j < n ==> Normalize(JobId(c, i)) != Normalize(JobId(c, j))
  }

  /** The name of the n-th job fits uncut. */
  predicate Fits(c: SessionConfig, n: nat) { |NameHead(c)| + |Padded(n)| <= LIMIT }

  lemma FittingName(c: SessionConfig, i: nat, n: nat)
    requires i < n && Fits(c, n)
    ensures Normalize(JobId(c, i)) == NameHead(c) + Padded(i + 1)
  {
    hide Normalize, NameHead, Padded;
    PlannedName(c, i);
    PaddedGrows(i + 1, n);
  }

  /** Without room for four digits the first two jobs share their name. */
  lemma NoRoomForDigits(c: SessionConfig)
    requires |NameHead(c)| > LIMIT - 4
    ensures Normalize(JobId(c, 0)) == Normalize(JobId(c, 1))
  {
    hide Normalize, NameHead, TrimRight;
    PlannedName(c, 0);
    PlannedName(c, 1);
    var h := NameHead(c);
    assert Padded(1) == "0001" && Padded(2) == "0002" by { FirstNumbers(); }
    assert (h + "0001")[..LIMIT] == (h + "000")[..LIMIT] == (h + "0002")[..LIMIT];
  }

  lemma FirstNumbers()
    ensures Padded(1) == "0001" && Padded(2) == "0002"
  {
    assert Decimal(1) == "1" && Decimal(2) == "2";
    assert Zeros(3) == "0" + Zeros(2) == "0" + ("0" + Zeros(1)) == "000";
  }

  /** A number that does not fit is cut to its first digits, which are the number of an earlier job. */
  lemma CutNumber(c: SessionConfig, n: nat) returns (i: nat)
    requires n > 0 && |NameHead(c)| <= LIMIT - 4 && !Fits(c, n)
    ensures i < n - 1 && Normalize(JobId(c, i)) == Normalize(JobId(c, n - 1))
  {
    hide Normalize, NameHead, Padded, TrimRight;
    var h, k := NameHead(c), LIMIT - |NameHead(c)|;
    PaddedDigits(n);
    var v := LeadingDigits(n, k);
    PaddedDigits(v);
    PaddedShort(v);
    i := v - 1;
    PlannedName(c, i);
    PlannedName(c, n - 1);
    assert (h + Padded(n))[..LIMIT] == h + Padded(n)[..k] == h + Padded(v);
    TrimRightDigits(h, Padded(v));
  }

  lemma PaddedShort(v: nat)
    requires |Decimal(v)| >= 4
    ensures Padded(v) == Decimal(v)
  {
  }

  /** The names of the first `n` planned jobs are pairwise distinct exactly when the last of them fits uncut. */
  lemma NamesDistinctExactly(c: SessionConfig, n: nat)
    requires Ascii(IdHead(c))
    ensures NamesDistinct(c, n) <==> n <= 1 || Fits(c, n)
  {
    hide Normalize, NameHead, Padded, JobId;
    if n > 1 && !Fits(c, n) {
      if |NameHead(c)| > LIMIT - 4 {
        NoRoomForDigits(c);
      } else {
        var i := CutNumber(c, n);
      }
    } else if n > 1 {
      forall i: nat, j: nat | i < j < n ensures Normalize(JobId(c, i)) != Normalize(JobId(c, j)) {
        FittingName(c, i, n);
        FittingName(c, j, n);
        PaddedSpells(i + 1);
        PaddedSpells(j + 1);
        var h := NameHead(c);
        assert (h + Padded(i + 1))[|h|..] == Padded(i + 1) && (h + Padded(j + 1))[|h|..] == Padded(j + 1);
      }
    }
  }

  /** A tag that is a valid name already, or none, is followed by a hyphen: the name fits exactly when the id does. */
  lemma ValidTagFits(c: SessionConfig, n: nat)
    requires n > 0 && (c.Tagged() ==> IsLabel(c.tagPrefix.value) && !HasDouble(c.tagPrefix.value))
    ensures NameHead(c) == IdHead(c) + "-"
    ensures Fits(c, n) <==> |JobId(c, n - 1)| <= LIMIT
  {
    hide Padded;
    var h := IdHead(c);
    if !c.Tagged() { assert h == "job" && !HasDouble("job"); }
    assert AllLdh(h) && IsLetter(h[0]) && !HasDouble(h);
    HyphenAfter(h);
    assert Sanitize(h + "_") == h + "-";
    CollapseFixes(h + "-");
  }

  lemma {:induction false} HyphenAfter(s: string)
    requires !HasDouble(s) && s != "" && s[|s| - 1] != '-'
    ensures !HasDouble(s + "-")
  {
    hide HasDouble;
    ConsDouble(s[0], s[1..]);
    assert s == [s[0]] + s[1..] && s + "-" == [s[0]] + (s[1..] + "-");
    ConsDouble(s[0], s[1..] + "-");
    if |s| > 1 {
      HyphenAfter(s[1..]);
      assert (s[1..] + "-")[0] == s[1..][0];
    } else {
      assert s[1..] + "-" == "-";
      ShortHasNone("-");
    }
  }

  /** A session over the first `n` planned jobs has the distinct names the session loop asks for exactly when they fit. */
  lemma PlanFeedsScheduler(c: SessionConfig, n: nat, w: Scheduler.World)
    requires Ascii(IdHead(c))
    requires forall i: nat | w.Accepts(i) :: i < n && w.submit(i) == Some(Normalize(JobId(c, i)))
    ensures n <= 1 || Fits(c, n) ==> w.DistinctNames()
    ensures (forall i: nat | i < n :: w.Accepts(i)) ==> (w.DistinctNames() <==> n <= 1 || Fits(c, n))
  {
    hide Normalize, JobId, Fits;
    NamesDistinctExactly(c, n);
    if NamesDistinct(c, n) {
      forall i: nat, j: nat | i < j && w.Accepts(i) && w.Accepts(j) ensures w.submit(i) != w.submit(j) {
        assert Normalize(JobId(c, i)) != Normalize(JobId(c, j));
      }
    }
    if w.DistinctNames() && forall i: nat | i < n :: w.Accepts(i) {
      forall i: nat, j: nat | i < j < n ensures Normalize(JobId(c, i)) != Normalize(JobId(c, j)) {
        assert w.Accepts(i) && w.Accepts(j) && w.submit(i) != w.submit(j);
      }
    }
  }
}
