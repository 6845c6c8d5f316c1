/**
 The glob matcher that selects models for a rule: '*' stands for any run of characters and
 nothing else is special. The matcher scans once, going back only to the last wildcard.
 */
module ModelPatterns {
  predicate IsSpace(c: char) {
    || '\t' <= c <= '\r' || c == ' ' || c == '\U{85}' || c == '\U{A0}' || c == '\U{1680}'
    || '\U{2000}' <= c <= '\U{200A}' || c == '\U{2028}' || c == '\U{2029}' || c == '\U{202F}'
    || c == '\U{205F}' || c == '\U{3000}'
  }

  function TrimLeft(s: string): string { if s != "" && IsSpace(s[0]) then TrimLeft(s[1..]) else s }

  function TrimRight(s: string): string {
    if s != "" && IsSpace(s[|s| - 1]) then TrimRight(s[..|s| - 1]) else s
  }

  function Trim(s: string): string { TrimRight(TrimLeft(s)) }

  predicate Tidy(s: string) { s != "" ==> !IsSpace(s[0]) && !IsSpace(s[|s| - 1]) }

  lemma {:induction false} TrimmedLeft(s: string)
    ensures var r := TrimLeft(s); r != "" ==> !IsSpace(r[0])
  {
    if s != "" && IsSpace(s[0]) { TrimmedLeft(s[1..]); }
  }

  lemma {:induction false} TrimmedRight(s: string)
    ensures var r := TrimRight(s); r != "" ==> !IsSpace(r[|r| - 1]) && r[0] == s[0]
  {
    if s != "" && IsSpace(s[|s| - 1]) { TrimmedRight(s[..|s| - 1]); }
  }

  lemma TrimIsTidy(s: string)
    ensures Tidy(Trim(s)) && (Tidy(s) ==> Trim(s) == s)
  {
    TrimmedLeft(s);
    TrimmedRight(TrimLeft(s));
  }

  // ---------------------------------------------------------------- what patterns mean

  /** A '*' stands for some run of the model, any other character for itself. */
  ghost predicate Matches(p: string, m: string)
    decreases |p|
  {
    if p == "" then m == ""
    else if p[0] == '*' then exists k :: 0 <= k <= |m| && Matches(p[1..], m[k..])
    else m != "" && m[0] == p[0] && Matches(p[1..], m[1..])
  }

  ghost predicate MatchesLater(p: string, m: string) {
    exists k :: 1 <= k <= |m| && Matches(p, m[k..])
  }

  predicate AllStars(p: string) { forall i :: 0 <= i < |p| ==> p[i] == '*' }

  /** Where the scan goes back to: the pattern after the last wildcard, and the rest of the
      model that wildcard was last taken to leave. */
  datatype Back = NoStar | Star(pattern: string, model: string)

  predicate Behind(q: string, s: string, back: Back) {
    back.Star? ==> |q| <= |back.pattern| && |s| <= |back.model|
  }

  /** The scan, on what is left of the pattern and of the model. */
  predicate Scan(q: string, s: string, back: Back)
    requires Behind(q, s, back)
    decreases if back.Star? then |back.model| else |s| + 1, if back.Star? then |back.pattern| else 0, |s|
  {
    if s == "" then AllStars(q)
    else if q != "" && q[0] == s[0] then Scan(q[1..], s[1..], back)
    else if q != "" && q[0] == '*' then Scan(q[1..], s, Star(q[1..], s))
    else if back.NoStar? then false
    else Scan(back.pattern, back.model[1..], Star(back.pattern, back.model[1..]))
  }

  predicate Accepts(pattern: string, model: string) {
    var p, m := Trim(pattern), Trim(model);
    p != "" && m != "" && (p == "*" || Scan(p, m, NoStar))
  }

  /** The scan at two positions, with the last wildcard at `star` taken to leave the model from `resume`. */
  ghost predicate ScanAt(p: string, m: string, i: int, j: int, star: int, resume: int)
    requires -1 <= star < i <= |p| && 0 <= resume <= j <= |m|
  {
    Scan(p[i..], m[j..], if star < 0 then NoStar else Star(p[star + 1..], m[resume..]))
  }

  lemma ScanMoves(p: string, m: string, i: int, j: int, star: int, resume: int)
    requires -1 <= star < i <= |p| && 0 <= resume <= j < |m|
    ensures i < |p| && p[i] == m[j] ==> ScanAt(p, m, i, j, star, resume) == ScanAt(p, m, i + 1, j + 1, star, resume)
    ensures i < |p| && p[i] != m[j] && p[i] == '*' ==> ScanAt(p, m, i, j, star, resume) == ScanAt(p, m, i + 1, j, i, j)
    ensures i == |p| || (p[i] != m[j] && p[i] != '*') ==>
              ScanAt(p, m, i, j, star, resume) == (star >= 0 && ScanAt(p, m, star + 1, resume + 1, star, resume + 1))
  {
    assert i < |p| ==> p[i..][1..] == p[i + 1..];
    assert m[j..][1..] == m[j + 1..];
    assert m[resume..][1..] == m[resume + 1..];
  }

  method ModelPatternMatches(pattern: string, model: string) returns (matched: bool)
    ensures matched == Accepts(pattern, model)
  {
    var p, m := Trim(pattern), Trim(model);
    hide Trim, AllStars, Scan;
    if p == "" || m == "" {
      return false;
    }
    if p == "*" {
      return true;
    }
    assert p[0..] == p && m[0..] == m;
    var i, j := 0, 0;
    var star, resume := -1, 0;
    assert ScanAt(p, m, i, j, star, resume) == Scan(p, m, NoStar);
    hide ScanAt;
    while j < |m|
      invariant -1 <= star < i <= |p| && 0 <= resume <= j <= |m|
      invariant ScanAt(p, m, i, j, star, resume) == Scan(p, m, NoStar)
      decreases |m| - resume, |p| - star, |m| - j
    {
      ScanMoves(p, m, i, j, star, resume);
      if i < |p| && p[i] == m[j] {
        i, j := i + 1, j + 1;
        continue;
      }
      if i < |p| && p[i] == '*' {
        star, resume, i := i, j, i + 1;
        continue;
      }
      if star < 0 {
        return false;
      }
      i, resume := star + 1, resume + 1;
      j := resume;
    }
    ScanAtEnd(p, m, i, star, resume);
    matched := RestIsStars(p, i);
  }

  lemma ScanAtEnd(p: string, m: string, i: int, star: int, resume: int)
    requires -1 <= star < i <= |p| && 0 <= resume <= |m|
    ensures ScanAt(p, m, i, |m|, star, resume) == AllStars(p[i..])
  {}

  method RestIsStars(p: string, start: nat) returns (all: bool)
    requires start <= |p|
    ensures all == AllStars(p[start..])
  {
    var i := start;
    while i < |p| && p[i] == '*'
      invariant i <= |p| && AllStars(p[i..]) == AllStars(p[start..])
    {
      assert p[i..] == [p[i]] + p[i + 1..];
      i := i + 1;
    }
    assert i < |p| ==> p[i..][0] != '*';
    return i == |p|;
  }

  // ---------------------------------------------------------------- soundness, for every model

  lemma StarSkips(p: string, m: string, k: nat)
    requires p != "" && p[0] == '*' && k <= |m| && Matches(p[1..], m[k..])
    ensures Matches(p, m)
  {}

  lemma {:induction false} AllStarsMatch(p: string, m: string)
    requires AllStars(p) && (p == "" ==> m == "")
    ensures Matches(p, m)
  {
    if p != "" {
      assert m[|m|..] == "";
      AllStarsMatch(p[1..], m[|m|..]);
      StarSkips(p, m, |m|);
    }
  }

  lemma {:induction false} OnlyStarsMatchNothing(p: string)
    requires Matches(p, "")
    ensures AllStars(p)
  {
    if p != "" {
      assert p[0] == '*';
      var k :| 0 <= k <= 0 && Matches(p[1..], ""[k..]);
      OnlyStarsMatchNothing(p[1..]);
      assert p == [p[0]] + p[1..];
    }
  }

  lemma {:induction false} ScanIsSound(q: string, s: string, back: Back)
    requires Behind(q, s, back) && Scan(q, s, back)
    ensures Matches(q, s) || (back.Star? && MatchesLater(back.pattern, back.model))
    decreases if back.Star? then |back.model| else |s| + 1, if back.Star? then |back.pattern| else 0, |s|
  {
    if s == "" {
      AllStarsMatch(q, s);
    } else if q != "" && q[0] == s[0] {
      ScanIsSound(q[1..], s[1..], back);
      if Matches(q[1..], s[1..]) && q[0] == '*' {
        StarSkips(q, s, 1);
      }
    } else if q != "" && q[0] == '*' {
      ScanIsSound(q[1..], s, Star(q[1..], s));
      if Matches(q[1..], s) {
        assert s[0..] == s;
        StarSkips(q, s, 0);
      } else {
        var k :| 1 <= k <= |s| && Matches(q[1..], s[k..]);
        StarSkips(q, s, k);
      }
    } else {
      var r := back.model;
      ScanIsSound(back.pattern, r[1..], Star(back.pattern, r[1..]));
      if !Matches(back.pattern, r[1..]) {
        var k :| 1 <= k <= |r[1..]| && Matches(back.pattern, r[1..][k..]);
        assert r[1..][k..] == r[k + 1..];
      }
    }
  }

  // ---------------------------------------------------------------- completeness

  predicate StarFree(m: string) { forall i :: 0 <= i < |m| ==> m[i] != '*' }

  /** No '*' except as the very last character. */
  predicate StarOnlyLast(m: string) { forall i :: 0 <= i < |m| - 1 ==> m[i] != '*' }

  /** The number of characters a pattern needs. */
  function Needs(p: string): nat {
    if p == "" then 0 else (if p[0] == '*' then 0 else 1) + Needs(p[1..])
  }

  lemma {:induction false} MatchNeeds(p: string, m: string)
    requires Matches(p, m)
    ensures Needs(p) <= |m|
  {
    if p != "" {
      if p[0] == '*' {
        var k :| 0 <= k <= |m| && Matches(p[1..], m[k..]);
        MatchNeeds(p[1..], m[k..]);
      } else {
        MatchNeeds(p[1..], m[1..]);
      }
    }
  }

  lemma {:induction false} NeedsOfJoin(u: string, q: string)
    ensures Needs(u + q) == Needs(u) + Needs(q)
    ensures StarOnlyLast(u) ==> Needs(u) >= |u| - 1
    ensures Needs(q) == 0 ==> AllStars(q)
    decreases |u| + |q|
  {
    if u != "" {
      assert (u + q)[1..] == u[1..] + q;
      NeedsOfJoin(u[1..], q);
    } else if q != "" {
      assert u + q == q;
      NeedsOfJoin("", q[1..]);
      assert "" + q[1..] == q[1..];
      assert q == [q[0]] + q[1..];
    } else {
      assert u + q == "";
    }
  }

  /** A literal prefix matches itself only. */
  lemma {:induction false} LiteralPrefix(u: string, q: string, m: string)
    requires StarFree(u) && Matches(u + q, m)
    ensures |u| <= |m| && m[..|u|] == u && Matches(q, m[|u|..])
  {
    if u == "" {
      assert u + q == q && m[0..] == m;
    } else {
      assert (u + q)[1..] == u[1..] + q && (u + q)[0] == u[0];
      LiteralPrefix(u[1..], q, m[1..]);
      assert m[1..][|u| - 1..] == m[|u|..];
      assert u == [u[0]] + u[1..];
      assert m[..|u|] == [m[0]] + m[1..][..|u| - 1];
    }
  }

  lemma {:induction false} LoneStar(p: string)
    requires Matches(p, "*")
    ensures AllStars(p)
  {
    if p[0] == '*' {
      var k :| 0 <= k <= 1 && Matches(p[1..], "*"[k..]);
      if k == 0 {
        assert "*"[0..] == "*";
        LoneStar(p[1..]);
      } else {
        assert "*"[1..] == "";
        OnlyStarsMatchNothing(p[1..]);
      }
      assert p == [p[0]] + p[1..];
    }
  }

  /** `u` is what was matched literally since the last wildcard. */
  ghost predicate Since(q: string, s: string, back: Back, u: string) {
    back.Star? ==> back.pattern == u + q && back.model == u + s && StarOnlyLast(back.model)
  }

  lemma {:induction false} ScanIsComplete(q: string, s: string, back: Back, u: string)
    requires Behind(q, s, back) && Since(q, s, back, u) && StarOnlyLast(s)
    requires Matches(q, s) || (back.Star? && MatchesLater(back.pattern, back.model))
    ensures Scan(q, s, back)
    decreases if back.Star? then |back.model| else |s| + 1, if back.Star? then |back.pattern| else 0, |s|
  {
    hide Matches;
    if s == "" {
      ScanEnds(q, back, u);
    } else if q != "" && q[0] == s[0] {
      assert back.Star? ==> back.pattern == (u + [q[0]]) + q[1..] && back.model == (u + [q[0]]) + s[1..];
      if Matches(q, s) {
        LiteralStep(q, s);
      }
      ScanIsComplete(q[1..], s[1..], back, u + [q[0]]);
    } else if q != "" && q[0] == '*' {
      if !Matches(q, s) {
        PassesOn(q, s, back, u);
      }
      StarChoice(q, s);
      ScanIsComplete(q[1..], s, Star(q[1..], s), "");
    } else {
      Mismatch(q, s);
      var r := back.model;
      var k :| 1 <= k <= |r| && Matches(back.pattern, r[k..]);
      assert k > 1 ==> r[k..] == r[1..][k - 1..];
      assert "" + back.pattern == back.pattern && "" + r[1..] == r[1..];
      ScanIsComplete(back.pattern, r[1..], Star(back.pattern, r[1..]), "");
    }
  }

  lemma ScanEnds(q: string, back: Back, u: string)
    requires Since(q, "", back, u)
    requires Matches(q, "") || (back.Star? && MatchesLater(back.pattern, back.model))
    ensures AllStars(q)
  {
    hide Matches;
    if Matches(q, "") {
      OnlyStarsMatchNothing(q);
    } else {
      var k :| 1 <= k <= |back.model| && Matches(back.pattern, back.model[k..]);
      assert back.model == u;
      MatchNeeds(back.pattern, back.model[k..]);
      NeedsOfJoin(u, q);
    }
  }

  lemma LiteralStep(q: string, s: string)
    requires q != "" && s != "" && q[0] == s[0] && StarOnlyLast(s) && Matches(q, s)
    ensures Matches(q[1..], s[1..])
  {
    if q[0] == '*' {
      assert |s| == 1 && s == "*";
      LoneStar(q);
      AllStarsMatch(q[1..], s[1..]);
    }
  }

  lemma StarChoice(q: string, s: string)
    requires q != "" && q[0] == '*' && Matches(q, s)
    ensures Matches(q[1..], s) || MatchesLater(q[1..], s)
  {
    var k :| 0 <= k <= |s| && Matches(q[1..], s[k..]);
    assert k == 0 ==> s[k..] == s;
  }

  lemma Mismatch(q: string, s: string)
    requires s != "" && (q == "" || (q[0] != s[0] && q[0] != '*'))
    ensures !Matches(q, s)
  {}

  /** What an older wildcard could still reach, the newer one reaches as well. */
  lemma PassesOn(q: string, s: string, back: Back, u: string)
    requires s != "" && q != "" && q[0] == '*' && Since(q, s, back, u)
    requires back.Star? && MatchesLater(back.pattern, back.model)
    ensures Matches(q, s)
  {
    hide Matches;
    var k :| 1 <= k <= |back.model| && Matches(back.pattern, back.model[k..]);
    var tail := back.model[k..];
    forall i | 0 <= i < |u| ensures u[i] != '*' { assert back.model[i] == u[i]; }
    LiteralPrefix(u, q, tail);
    assert tail[|u|..] == s[k..];
    var l := StarReaches(q, s[k..]);
    assert s[k..][l..] == s[k + l..];
    StarSkips(q, s, k + l);
  }

  /** Where the text a wildcard stands for ends. */
  lemma StarReaches(q: string, s: string) returns (l: nat)
    requires q != "" && q[0] == '*' && Matches(q, s)
    ensures l <= |s| && Matches(q[1..], s[l..])
  {
    var k :| 0 <= k <= |s| && Matches(q[1..], s[k..]);
    l := k;
  }

  lemma FirstIsLiteral(q: string, s: string)
    requires s != "" && (q == "" || q[0] != '*')
    ensures Matches(q, s) <==> q != "" && q[0] == s[0] && Matches(q[1..], s[1..])
  {}

  lemma ScanIsExact(p: string, m: string)
    ensures Scan(p, m, NoStar) ==> Matches(p, m)
    ensures StarOnlyLast(m) && Matches(p, m) ==> Scan(p, m, NoStar)
  {
    if Scan(p, m, NoStar) { ScanIsSound(p, m, NoStar); }
    if StarOnlyLast(m) && Matches(p, m) { ScanIsComplete(p, m, NoStar, ""); }
  }

  // ---------------------------------------------------------------- exactly when the matcher is right

  /** "*c" for some other character c, or "*cc...c*". */
  predicate StarRun(m: string) {
    && |m| >= 2 && m[0] == '*'
    && ((|m| == 2 && m[1] != '*')
        || (m[|m| - 1] == '*' && forall i :: 1 <= i < |m| - 1 ==> m[i] == m[1] && m[i] != '*'))
  }

  ghost predicate RightFor(model: string) {
    forall pattern :: Trim(pattern) != "" ==> (Accepts(pattern, model) <==> Matches(Trim(pattern), Trim(model)))
  }

  /** True answers are always right. */
  lemma AcceptsIsSound(pattern: string, model: string)
    requires Accepts(pattern, model)
    ensures Matches(Trim(pattern), Trim(model))
  {
    hide Trim;
    var p, m := Trim(pattern), Trim(model);
    if p == "*" { AllStarsMatch(p, m); } else { ScanIsExact(p, m); }
  }

  /** Every pattern is decided rightly for a model exactly when the model has no '*' before its
      last character, or is one of the few short runs that begin with '*'. */
  lemma GlobIsExact(model: string)
    requires Trim(model) != ""
    ensures RightFor(model) <==> StarOnlyLast(Trim(model)) || StarRun(Trim(model))
  {
    hide Trim, StarRun, StarOnlyLast;
    var m := Trim(model);
    if StarOnlyLast(m) || StarRun(m) {
      forall pattern | Trim(pattern) != "" ensures Accepts(pattern, model) <==> Matches(Trim(pattern), m) {
        var p := Trim(pattern);
        if Accepts(pattern, model) { AcceptsIsSound(pattern, model); }
        if Matches(p, m) && p != "*" {
          if StarOnlyLast(m) { ScanIsExact(p, m); } else { StarRunIsComplete(p, m); }
        }
      }
    } else {
      TrimIsTidy(model);
      var p := Misjudged(m);
      TrimIsTidy(p);
      assert !Accepts(p, model);
    }
  }

  /** What begins with '*' can only be matched by a wildcard, which then matches the rest too. */
  lemma {:induction false} LeadingStar(p: string, m: string)
    requires m != "" && m[0] == '*' && Matches(p, m)
    ensures p != "" && p[0] == '*' && Matches(p, m[1..])
  {
    var k :| 0 <= k <= |m| && Matches(p[1..], m[k..]);
    if k == 0 {
      assert m[0..] == m;
      LeadingStar(p[1..], m);
      assert m[1..][0..] == m[1..];
      StarSkips(p, m[1..], 0);
    } else {
      assert m[k..] == m[1..][k - 1..];
      StarSkips(p, m[1..], k - 1);
    }
  }

  /** A longer run before the closing '*' is matched by whatever matches a shorter one. */
  lemma {:induction false} RunGrows(q: string, s: string, m: string)
    requires s != "" && s[|s| - 1] == '*' && |s| <= |m| && m[|m| - 1] == '*'
    requires forall i :: 0 <= i < |m| - 1 ==> m[i] == m[0] && m[i] != '*'
    requires s == m[|m| - |s|..] && Matches(q, s)
    ensures Matches(q, m)
  {
    hide Matches;
    if q != "" && q[0] == '*' {
      var k := StarReaches(q, s);
      if k == |s| {
        OnlyStarsMatchNothing(q[1..]);
        AllStarsMatch(q, m);
      } else {
        RunGrows(q[1..], s[k..], m);
        assert m[0..] == m;
        StarSkips(q, m, 0);
      }
    } else if |s| > 1 {
      FirstIsLiteral(q, s);
      RunGrows(q[1..], s[1..], m[1..]);
      assert m[|m| - |s|] == m[0];
      FirstIsLiteral(q, m);
    } else {
      FirstIsLiteral(q, s);
    }
  }

  lemma StarTakes(p: string, s: string) returns (k: nat)
    requires p != "" && p[0] == '*' && Matches(p, s)
    ensures k <= |s| && Matches(p[1..], s[k..])
  {
    k :| 0 <= k <= |s| && Matches(p[1..], s[k..]);
  }

  lemma StarRunIsComplete(p: string, m: string)
    requires StarRun(m) && p != "*" && Matches(p, m)
    ensures Scan(p, m, NoStar)
  {
    hide Matches;
    LeadingStar(p, m);
    var rest := m[1..];
    var k := StarTakes(p, rest);
    if k == |rest| {
      OnlyStarsMatchNothing(p[1..]);
      AllStarsMatch(p[1..], rest);
    } else if m[|m| - 1] == '*' {
      RunGrows(p[1..], rest[k..], rest);
    } else {
      assert rest[0..] == rest;
    }
    ScanIsExact(p[1..], rest);
  }

  /** The scan gives up for good where literal text ends or differs before any wildcard. */
  lemma {:induction false} LiteralPrefixRejects(p: string, m: string, k: nat)
    requires k <= |p| && k < |m| && p[..k] == m[..k]
    requires k == |p| || (p[k] != m[k] && p[k] != '*')
    ensures !Scan(p, m, NoStar)
  {
    if k > 0 {
      assert p[0] == p[..k][0] == m[..k][0] == m[0];
      assert p[1..][..k - 1] == p[..k][1..] == m[..k][1..] == m[1..][..k - 1];
      LiteralPrefixRejects(p[1..], m[1..], k - 1);
    }
  }

  lemma {:induction false} LiteralMatchesItself(u: string, q: string, m: string)
    requires |u| <= |m| && m[..|u|] == u && Matches(q, m[|u|..])
    ensures Matches(u + q, m)
  {
    if u == "" {
      assert u + q == q && m[0..] == m;
    } else {
      assert (u + q)[1..] == u[1..] + q && (u + q)[0] == u[0] == m[..|u|][0] == m[0];
      assert m[1..][..|u| - 1] == m[..|u|][1..];
      assert m[1..][|u| - 1..] == m[|u|..];
      LiteralMatchesItself(u[1..], q, m[1..]);
      if u[0] == '*' { StarSkips(u + q, m, 1); }
    }
  }

  /** Outside those models some pattern that matches is refused. */
  lemma Misjudged(m: string) returns (p: string)
    requires m != "" && Tidy(m) && !StarOnlyLast(m) && !StarRun(m)
    ensures p != "" && p != "*" && Tidy(p) && Matches(p, m) && !Scan(p, m, NoStar)
  {
    var i := FirstStar(m, if m[0] == '*' then 1 else 0);
    if i < |m| - 1 {
      p := UpToStar(m, i);
    } else {
      p := AfterLeadingStar(m);
    }
  }

  function FirstStar(m: string, from: nat): (i: nat)
    requires from <= |m|
    ensures from <= i <= |m| && (i < |m| ==> m[i] == '*') && forall j :: from <= j < i ==> m[j] != '*'
    decreases |m| - from
  {
    if from == |m| || m[from] == '*' then from else FirstStar(m, from + 1)
  }

  /** For a model like "a*b" or "*a*b": the text up to an inner '*', which stands for the rest. */
  lemma UpToStar(m: string, i: nat) returns (p: string)
    requires 1 <= i < |m| - 1 && m[i] == '*' && Tidy(m)
    ensures p != "" && p != "*" && Tidy(p) && Matches(p, m) && !Scan(p, m, NoStar)
  {
    p := m[..i + 1];
    LiteralPrefixRejects(p, m, i + 1);
    AllStarsMatch("*", m[i..]);
    LiteralMatchesItself(m[..i], "*", m);
    assert p == m[..i] + "*";
  }

  /** For a model like "*ab": '*' and the last character; for one like "*ab*": some inner
      character that is not the first, between two '*'. */
  lemma AfterLeadingStar(m: string) returns (p: string)
    requires Tidy(m) && |m| >= 2 && m[0] == '*' && !StarRun(m) && forall j :: 1 <= j < |m| - 1 ==> m[j] != '*'
    ensures p != "" && p != "*" && Tidy(p) && Matches(p, m) && !Scan(p, m, NoStar)
  {
    var last := |m| - 1;
    if m[last] == '*' {
      var i :| 1 <= i < last && m[i] != m[1];
      p := ['*', m[i], '*'];
      LiteralPrefixRejects(p, m, 1);
      AllStarsMatch("*", m[i + 1..]);
      assert p[2..] == "*" && p[1..][1..] == "*" && m[i..][1..] == m[i + 1..];
      assert p[1..][0] == m[i..][0];
      assert Matches(p[1..], m[i..]);
      StarSkips(p, m, i);
    } else {
      p := ['*', m[last]];
      LiteralPrefixRejects(p, m, if m[last] == m[1] then 2 else 1);
      assert p[1..] == m[last..] == [m[last]];
      LiteralMatchesItself(p[1..], "", m[last..]);
      StarSkips(p, m, last);
    }
  }

  /** The documented pattern language fails on a model name that itself contains '*'. */
  lemma StarInModel()
    ensures Matches("a*", "a*b") && !Accepts("a*", "a*b")
  {
    TrimIsTidy("a*");
    TrimIsTidy("a*b");
    assert "a*b"[..2] == "a*";
    LiteralPrefixRejects("a*", "a*b", 2);
    AllStarsMatch("*", "*b");
    assert "a*b"[1..] == "*b" && "a*"[1..] == "*";
  }
}
