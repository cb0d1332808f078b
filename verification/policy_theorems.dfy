// What the path policy accepts.
module PolicyTheorems {
  import opened Common
  import opened Policy
  import opened PolicyGrammar

  // The version.

  const DIGITS := Cat(One(Digit), Many(Digit))

  ghost predicate IsDigits(s: string) {
    s != "" && forall i :: 0 <= i < |s| ==> Digit.Has(s[i])
  }

  lemma DigitsEndIs(s: string, i: nat, j: nat)
    requires i <= j <= |s| && (forall k :: i <= k < j ==> Digit.Has(s[k])) && (j < |s| ==> !Digit.Has(s[j]))
    ensures DigitsEnd(s, i) == j
  {
    var e := DigitsEnd(s, i);
    assert e >= j;
    assert e <= j;
  }

  /** path is a slash, then seg, then nothing or a slash. */
  ghost predicate StartsWith(path: string, seg: string) {
    && 1 + |seg| <= |path| && path[0] == '/' && '/' !in seg
    && (forall i :: 0 <= i < |seg| ==> path[1 + i] == seg[i])
    && (1 + |seg| < |path| ==> path[1 + |seg|] == '/')
  }

  /** The digits of the segment are the digits of the path it is in. */
  lemma DigitsInside(path: string, seg: string, i: nat)
    requires StartsWith(path, seg) && i <= |seg|
    ensures DigitsEnd(path, 1 + i) == 1 + DigitsEnd(seg, i)
  {
    var j := DigitsEnd(seg, i);
    forall k | 1 + i <= k < 1 + j ensures Digit.Has(path[k]) {
      assert path[1 + (k - 1)] == seg[k - 1];
    }
    if j < |seg| {
      assert path[1 + j] == seg[j];
    }
    DigitsEndIs(path, 1 + i, 1 + j);
  }

  /** A text is its first segment, and after a slash what comes after. */
  lemma {:induction false} HeadSegment(t: string)
    ensures var segs := Split(t);
            && |segs[0]| <= |t| && '/' !in segs[0] && (forall i :: 0 <= i < |segs[0]| ==> t[i] == segs[0][i])
            && (|segs[0]| < |t| <==> |segs| > 1)
            && (|segs[0]| < |t| ==> t[|segs[0]|] == '/' && Split(t[|segs[0]| + 1..]) == segs[1..])
  {
    if t != "" && t[0] != '/' {
      var u := t[1..];
      HeadSegment(u);
      var k := |Split(u)[0]|;
      assert Split(t)[0] == [t[0]] + Split(u)[0] && Split(t)[1..] == Split(u)[1..];
      hide Split;
      forall i | 0 < i < k + 1 ensures t[i] == Split(t)[0][i] {
        assert t[i] == u[i - 1] == Split(u)[0][i - 1];
      }
      if k < |u| {
        assert t[k + 1] == u[k] && t[k + 2..] == u[k + 1..];
      }
    }
  }

  lemma SecondOf(segs: seq<string>)
    requires |segs| > 0
    ensures ([""] + segs)[1] == segs[0] && ([""] + segs)[2..] == segs[1..]
  {
  }

  lemma SegmentsAfter(path: string, t: string, k: nat)
    requires |path| > 0 && t == path[1..] && k < |t|
    ensures path[1 + k] == t[k] && path[1 + k..][0] == t[k] && path[1 + k..][1..] == t[k + 1..]
  {
  }

  lemma StartOf(path: string, t: string, seg: string)
    requires |path| > 0 && path[0] == '/' && t == path[1..] && '/' !in seg
    requires |seg| <= |t| && (forall i :: 0 <= i < |seg| ==> t[i] == seg[i]) && (|seg| < |t| ==> t[|seg|] == '/')
    ensures StartsWith(path, seg)
  {
    assert forall i :: 0 <= i < |t| ==> path[1 + i] == t[i];
  }

  /** A path that begins with a slash is its first segment and what comes after. */
  lemma FirstSegment(path: string)
    requires |path| > 0 && path[0] == '/'
    ensures |Split(path)| > 1 && Split(path)[0] == ""
    ensures var seg := Split(path)[1];
            && StartsWith(path, seg) && (1 + |seg| < |path| <==> |Split(path)| > 2)
            && (1 + |seg| < |path| ==> Split(path[1 + |seg|..]) == [""] + Split(path)[2..])
  {
    hide Split;
    hide StartsWith;
    AfterSlash(path);
    var t := path[1..];
    HeadSegment(t);
    SecondOf(Split(t));
    var seg := Split(t)[0];
    StartOf(path, t, seg);
    if |seg| < |t| {
      SegmentsAfter(path, t, |seg|);
      AfterSlash(path[1 + |seg|..]);
    }
  }

  lemma VersionInside(path: string, seg: string)
    requires StartsWith(path, seg)
    ensures VersionEnd(path).Some? <==> IsVersion(seg)
    ensures IsVersion(seg) ==> VersionEnd(path).value - 1 == if 1 + |seg| < |path| then 1 + |seg| else |seg|
  {
    hide DigitsEnd;
    VersionLetter(path, seg);
    if |seg| > 0 && seg[0] == 'v' {
      DigitsInside(path, seg, 1);
      var j := DigitsEnd(seg, 1);
      if j < |seg| {
        assert path[1 + j] == seg[j];
        DigitsInside(path, seg, j + 1);
        var k := DigitsEnd(seg, j + 1);
        if k < |seg| {
          assert path[1 + k] == seg[k] && seg[k] in seg;
        }
      }
    }
  }

  lemma VersionLetter(path: string, seg: string)
    requires StartsWith(path, seg)
    ensures "/v" <= path <==> |seg| > 0 && seg[0] == 'v'
  {
    if |seg| > 0 {
      assert path[1 + 0] == seg[0];
    }
  }

  /** The version is found exactly when the first segment is one. */
  lemma VersionIsASegment(path: string)
    requires |path| > 0 && path[0] == '/'
    ensures VersionEnd(path).Some? <==> IsVersion(Split(path)[1])
    ensures IsVersion(Split(path)[1]) ==>
              VersionEnd(path).value - 1 == if |Split(path)| > 2 then 1 + |Split(path)[1]| else |Split(path)[1]|
  {
    hide *;
    FirstSegment(path);
    VersionInside(path, Split(path)[1]);
    StartIsLong(path, Split(path)[1]);
  }

  lemma StartIsLong(path: string, seg: string)
    requires StartsWith(path, seg)
    ensures 1 + |seg| <= |path|
  {
  }

  lemma DigitsMatch(s: string)
    ensures Matches(DIGITS, s) <==> IsDigits(s)
  {
    OneMany(Digit, Digit, s);
  }

  /** Two runs of digits with a dot between them can be told apart in one way only. */
  lemma DotIsWhereTheDigitsEnd(s: string, i: nat)
    requires i < |s| && s[i] == '.'
    ensures IsDigits(s[..i]) <==> 0 < i == DigitsEnd(s, 0)
  {
    if IsDigits(s[..i]) {
      forall k | 0 <= k < i ensures Digit.Has(s[k]) {
        assert s[..i][k] == s[k];
      }
      DigitsEndIs(s, 0, i);
    }
  }

  lemma DigitsToTheEnd(s: string, i: nat)
    requires i <= |s|
    ensures IsDigits(s[i..]) <==> i < DigitsEnd(s, i) == |s|
  {
    if IsDigits(s[i..]) {
      forall k | i <= k < |s| ensures Digit.Has(s[k]) {
        assert s[i..][k - i] == s[k];
      }
      DigitsEndIs(s, i, |s|);
    }
  }

  lemma CutMatch(t: string, i: nat)
    requires i < |t| && t[i] == '.'
    ensures CutAt(DIGITS, '.', DIGITS, t, i) <==> 0 < i == DigitsEnd(t, 0) && i + 1 < DigitsEnd(t, i + 1) == |t|
  {
    DigitsMatch(t[..i]);
    DigitsMatch(t[i + 1..]);
    DotIsWhereTheDigitsEnd(t, i);
    DigitsToTheEnd(t, i + 1);
  }

  lemma TwoNumbers(t: string)
    ensures Matches(Cat(DIGITS, Cat(Text("."), DIGITS)), t)
            <==> var j := DigitsEnd(t, 0); 0 < j < |t| && t[j] == '.' && j + 1 < DigitsEnd(t, j + 1) == |t|
  {
    assert "." == ['.'];
    CatSep(DIGITS, '.', DIGITS, t);
    hide Matches;
    var j := DigitsEnd(t, 0);
    if i: nat :| CutAt(DIGITS, '.', DIGITS, t, i) {
      CutMatch(t, i);
    }
    if j < |t| && t[j] == '.' {
      CutMatch(t, j);
    }
  }

  lemma {:induction false} DigitsShift(s: string, i: nat)
    requires 0 < i <= |s|
    ensures DigitsEnd(s, i) == 1 + DigitsEnd(s[1..], i - 1)
    decreases |s| - i
  {
    if i < |s| && Digit.Has(s[i]) {
      DigitsShift(s, i + 1);
    }
  }

  /** What the expression for the version matches as a whole. */
  lemma VersionMatch(s: string)
    ensures Matches(VERSION, s) <==> |s| > 0 && s[0] == '/' && IsVersion(s[1..])
  {
    CatText("/v", Cat(DIGITS, Cat(Text("."), DIGITS)), s);
    hide Matches;
    assert "/v" <= s <==> |s| > 1 && s[0] == '/' && s[1..][0] == 'v';
    if "/v" <= s {
      var t, seg := s[2..], s[1..];
      assert seg[1..] == t;
      TwoNumbers(t);
      DigitsShift(seg, 1);
      var j := DigitsEnd(seg, 1);
      if j < |seg| {
        DigitsShift(seg, j + 1);
      }
      hide DigitsEnd;
    }
  }

  /** A prefix that the whole expression matches, with what comes after the version. */
  ghost predicate IsMatch(path: string, e: nat) {
    || (e == |path| && Matches(VERSION, path))
    || (0 < e <= |path| && path[e - 1] == '/' && Matches(VERSION, path[..e - 1]))
  }

  lemma VersionOf(path: string, seg: string)
    requires StartsWith(path, seg) && IsVersion(seg)
    ensures VersionEnd(path) == Some(if 1 + |seg| < |path| then 2 + |seg| else 1 + |seg|)
  {
    hide *;
    VersionInside(path, seg);
    StartIsLong(path, seg);
  }

  lemma StartOfPrefix(path: string, k: nat)
    requires 0 < k <= |path| && path[0] == '/' && '/' !in path[1..k] && (k < |path| ==> path[k] == '/')
    ensures StartsWith(path, path[1..k])
  {
  }

  lemma MatchIsFound(path: string, e: nat)
    requires IsMatch(path, e)
    ensures VersionEnd(path) == Some(e)
  {
    var k := if e == |path| && Matches(VERSION, path) then e else e - 1;
    assert path[..|path|] == path;
    var v := path[..k];
    hide IsMatch;
    VersionMatch(v);
    hide Matches;
    assert k > 0 && v[1..] == path[1..k];
    VersionIsSafe(path[1..k]);
    hide IsVersion;
    hide VersionEnd;
    StartOfPrefix(path, k);
    VersionOf(path, path[1..k]);
  }

  lemma PrefixOfStart(path: string, seg: string)
    requires StartsWith(path, seg)
    ensures path[..1 + |seg|][1..] == seg && path[..1 + |seg|][0] == '/'
  {
    var v := path[..1 + |seg|][1..];
    assert forall i :: 0 <= i < |seg| ==> v[i] == path[1 + i];
  }

  lemma FoundStart(path: string)
    requires VersionEnd(path).Some?
    ensures |path| > 0 && path[0] == '/'
  {
  }

  lemma FoundIsMatch(path: string, e: nat)
    requires VersionEnd(path) == Some(e)
    ensures IsMatch(path, e)
  {
    FoundStart(path);
    hide *;
    FirstSegment(path);
    VersionIsASegment(path);
    var seg := Split(path)[1];
    StartIsLong(path, seg);
    PrefixOfStart(path, seg);
    VersionOf(path, seg);
    VersionMatch(path[..1 + |seg|]);
    ToMatch(path, seg);
  }

  lemma ToMatch(path: string, seg: string)
    requires StartsWith(path, seg) && Matches(VERSION, path[..1 + |seg|])
    ensures IsMatch(path, if 1 + |seg| < |path| then 2 + |seg| else 1 + |seg|)
  {
    hide Matches;
    assert path[..|path|] == path;
  }

  /** The scan finds the match of the expression: there is one at most. */
  lemma VersionEndIsTheMatch(path: string, e: nat)
    ensures VersionEnd(path) == Some(e) <==> IsMatch(path, e)
  {
    if IsMatch(path, e) {
      MatchIsFound(path, e);
    }
    if VersionEnd(path) == Some(e) {
      FoundIsMatch(path, e);
    }
  }

  /** Without its version a path is clean still, and has the segments after it. */
  lemma WithoutVersionSegments(path: string)
    requires |path| > 0 && path[0] == '/' && IsVersion(Split(path)[1])
    ensures WithoutVersion(path).Some? <==> |Split(path)| > 2
    ensures |Split(path)| > 2 ==> Split(WithoutVersion(path).value) == [""] + Split(path)[2..]
  {
    hide Split;
    hide VersionEnd;
    hide IsVersion;
    VersionIsASegment(path);
    FirstSegment(path);
    var seg := Split(path)[1];
    VersionIsSafe(seg);
    if |Split(path)| == 2 {
      assert path[|seg|..][0] == path[1 + (|seg| - 1)] == seg[|seg| - 1];
    }
  }

  lemma CleanSuffix(path: string, rest: string)
    requires Clean(path) && |Split(path)| > 2 && Split(rest) == [""] + Split(path)[2..]
    requires forall c :: c in rest ==> c in path
    ensures Clean(rest)
  {
    DoubleSlash(path);
    DoubleSlash(rest);
    hide Split;
    var segs := Split(path);
    assert forall i :: 1 <= i < |Split(rest)| ==> Split(rest)[i] == segs[i + 1];
  }

  lemma WithoutVersionIsClean(path: string)
    requires Clean(path) && |path| > 0 && path[0] == '/' && WithoutVersion(path).Some?
    ensures Clean(WithoutVersion(path).value)
  {
    VersionIsASegment(path);
    if IsVersion(Split(path)[1]) {
      WithoutVersionSegments(path);
      var e := VersionEnd(path).value;
      CleanSuffix(path, path[e - 1..]);
    }
  }

  lemma SomeRuleMatches(path: string)
    requires Clean(path)
    ensures (exists k :: 0 <= k < |RULES| && Matches(RULES[k], path))
            <==> |Split(path)| > 1 && Split(path)[0] == "" && SomeRule(Split(path)[1..])
  {
    forall k | 0 <= k < |RULES|
      ensures Matches(RULES[k], path) <==> |Split(path)| > 1 && Split(path)[0] == "" && Rule(k, Split(path)[1..])
    {
      RuleMatches(k, path);
    }
    hide Split;
    hide Rule;
    hide Matches;
  }

  /** In the grammar every segment after the first slash is something, and nothing that leads elsewhere. */
  ghost predicate SafeSegment(s: string) {
    s != "" && s != "." && s != ".." && '%' !in s && '\\' !in s && '/' !in s
  }

  lemma IdIsSafe(s: string)
    requires IsId(s)
    ensures SafeSegment(s)
  {
    assert IdChar.Has(s[0]);
    forall c | c in s ensures IdChar.Has(c) {
      var i :| 0 <= i < |s| && s[i] == c;
    }
  }

  lemma ImagePartIsSafe(s: string)
    requires IsImagePart(s)
    ensures SafeSegment(s)
  {
    forall c | c in s ensures ImageChar.Has(c) {
      var i :| 0 <= i < |s| && s[i] == c;
    }
  }

  lemma ImageRuleIsSafe(s: seq<string>, i: nat)
    requires Rule(8, s) && i < |s|
    ensures SafeSegment(s[i])
  {
    if 0 < i < |s| - 1 {
      assert s[1..|s| - 1][i - 1] == s[i];
      ImagePartIsSafe(s[i]);
    }
  }

  lemma IdRuleIsSafe(k: nat, s: seq<string>, i: nat)
    requires (k == 6 || k == 10 || k == 12) && Rule(k, s) && i < |s|
    ensures SafeSegment(s[i])
  {
    if i == 1 {
      IdIsSafe(s[i]);
    }
    hide IsId;
  }

  // The segments that the rules name.

  lemma ShortWordIsSafe(s: string)
    requires s in ["_ping", "info", "df", "json", "logs", "v1"]
    ensures SafeSegment(s)
  {
  }

  lemma WordIsSafe(s: string)
    requires s in ["version", "system", "events", "stats", "images", "agent"]
    ensures SafeSegment(s)
  {
  }

  lemma LongWordIsSafe(s: string)
    requires s in ["containers", "history", "networks", "volumes", "whoami"]
    ensures SafeSegment(s)
  {
  }

  lemma TextRuleIsSafe(k: nat, s: seq<string>, i: nat)
    requires k in {0, 1, 2, 3, 4, 5, 7, 9, 11, 13} && Rule(k, s) && i < |s|
    ensures SafeSegment(s[i])
  {
    hide SafeSegment;
    if s[i] in ["_ping", "info", "df", "json", "logs", "v1"] {
      ShortWordIsSafe(s[i]);
    } else if s[i] in ["version", "system", "events", "stats", "images", "agent"] {
      WordIsSafe(s[i]);
    } else {
      LongWordIsSafe(s[i]);
    }
  }

  lemma RuleIsSafe(k: nat, s: seq<string>, i: nat)
    requires k < |RULES| && Rule(k, s) && i < |s|
    ensures SafeSegment(s[i])
  {
    hide Rule;
    hide SafeSegment;
    if k == 8 {
      ImageRuleIsSafe(s, i);
    } else if k == 6 || k == 10 || k == 12 {
      IdRuleIsSafe(k, s, i);
    } else {
      TextRuleIsSafe(k, s, i);
    }
  }

  lemma VersionIsSafe(s: string)
    requires IsVersion(s)
    ensures SafeSegment(s)
  {
    var j := DigitsEnd(s, 1);
    forall c | c in s ensures c == 'v' || c == '.' || Digit.Has(c) {
      var i :| 0 <= i < |s| && s[i] == c;
    }
  }

  lemma GrammarIsSafe(segs: seq<string>, i: nat)
    requires InGrammar(segs) && 0 < i < |segs|
    ensures SafeSegment(segs[i])
  {
    var at := if IsVersion(segs[1]) then 2 else 1;
    if i < at {
      VersionIsSafe(segs[1]);
    } else {
      var rest := segs[at..];
      var k :| 0 <= k < |RULES| && Rule(k, rest);
      RuleIsSafe(k, rest, i - at);
      assert rest[i - at] == segs[i];
    }
  }

  lemma {:induction false} CharInSomeSegment(c: char, s: string)
    requires c != '/' && c in s
    ensures exists i :: 0 <= i < |Split(s)| && c in Split(s)[i]
  {
    var tail := Split(s[1..]);
    if c == s[0] {
      assert c in Split(s)[0];
    } else {
      CharInSomeSegment(c, s[1..]);
      var i :| 0 <= i < |tail| && c in tail[i];
      var j := if s[0] == '/' then i + 1 else i;
      assert c in Split(s)[j];
    }
  }

  lemma GrammarIsClean(path: string)
    requires InGrammar(Split(path))
    ensures Clean(path)
  {
    var segs := Split(path);
    forall i | 0 < i < |segs| ensures SafeSegment(segs[i]) {
      GrammarIsSafe(segs, i);
    }
    forall c | c in path ensures c != '%' && c != '\\' {
      if c != '/' {
        CharInSomeSegment(c, path);
      }
    }
    DoubleSlash(path);
    hide Split;
    hide InGrammar;
  }

  /** The checks and the regular expressions together accept exactly the grammar. */
  lemma AllowedIsGrammar(verb: string, path: string)
    ensures AllowedReadOnly(verb, path) <==> (verb == "GET" || verb == "HEAD") && InGrammar(Split(path))
  {
    if InGrammar(Split(path)) {
      GrammarIsClean(path);
    }
    if Clean(path) {
      CleanAllowedIsGrammar(path);
    }
    hide Split;
    hide InGrammar;
    hide Clean;
  }

  lemma CleanAllowedIsGrammar(path: string)
    requires Clean(path)
    ensures WithoutVersion(path).Some? && (exists k :: 0 <= k < |RULES| && Matches(RULES[k], WithoutVersion(path).value))
            <==> InGrammar(Split(path))
  {
    FirstChar(path);
    if |path| == 0 || path[0] != '/' {
      SomeRuleMatches(path);
      assert VersionEnd(path).None?;
    } else {
      FirstSegment(path);
      VersionIsASegment(path);
      if IsVersion(Split(path)[1]) {
        WithoutVersionSegments(path);
      }
      if WithoutVersion(path).Some? {
        WithoutVersionIsClean(path);
        SomeRuleMatches(WithoutVersion(path).value);
      }
      hide Split;
      hide VersionEnd;
      hide Clean;
      hide IsVersion;
      hide Matches;
      assert ([""] + Split(path)[2..])[1..] == Split(path)[2..];
    }
  }

  lemma NoSlashAtTheEnd(path: string)
    requires |Split(path)| > 1 && Split(path)[|Split(path)| - 1] != ""
    ensures |path| > 1 && path[|path| - 1] != '/'
  {
    SplitIsPlain(path);
    JoinSplit(path);
    hide Split;
    var segs := Split(path);
    var front, last := segs[..|segs| - 1], segs[|segs| - 1];
    assert segs == front + [last];
    JoinLast(front, last);
    hide Join;
    assert path[|path| - 1] == last[|last| - 1];
  }

  /** An accepted path leads nowhere else: no empty or dot segment, nothing encoded, no slash at the end. */
  lemma AcceptedIsSafe(verb: string, path: string)
    requires AllowedReadOnly(verb, path)
    ensures |path| > 1 && path[0] == '/' && path[|path| - 1] != '/'
    ensures forall i :: 0 < i < |Split(path)| ==> SafeSegment(Split(path)[i])
  {
    AllowedIsGrammar(verb, path);
    hide AllowedReadOnly;
    FirstChar(path);
    hide Split;
    forall i | 0 < i < |Split(path)| ensures SafeSegment(Split(path)[i]) {
      GrammarIsSafe(Split(path), i);
    }
    NoSlashAtTheEnd(path);
    hide InGrammar;
  }

  /** The one rule that segments can meet. */
  function RuleFor(s: seq<string>): nat {
    if |s| == 1 then
      if s[0] == "_ping" then 0
      else if s[0] == "version" then 1
      else if s[0] == "info" then 2
      else if s[0] == "events" then 4
      else if s[0] == "networks" then 9
      else 11
    else if |s| == 2 then
      if s[0] == "system" then 3
      else if s[0] == "containers" then 5
      else if s[0] == "images" then 7
      else if s[0] == "networks" then 10
      else 12
    else if |s| > 2 then
      if s[0] == "containers" then 6 else if s[0] == "images" then 8 else 13
    else 14
  }

  lemma OnlyRule(k: nat, s: seq<string>)
    requires k < |RULES| && Rule(k, s)
    ensures k == RuleFor(s)
  {
  }

  /** An accepted path matches exactly one of the fourteen. */
  lemma ExactlyOneRule(verb: string, path: string)
    requires AllowedReadOnly(verb, path)
    ensures exists k :: 0 <= k < |RULES| && Matches(RULES[k], WithoutVersion(path).value)
    ensures forall j, k :: 0 <= j < k < |RULES| ==>
              !(Matches(RULES[j], WithoutVersion(path).value) && Matches(RULES[k], WithoutVersion(path).value))
  {
    AcceptedIsSafe(verb, path);
    WithoutVersionIsClean(path);
    var rest := WithoutVersion(path).value;
    forall k | 0 <= k < |RULES| && Matches(RULES[k], rest) ensures k == RuleFor(Split(rest)[1..]) {
      RuleMatches(k, rest);
      OnlyRule(k, Split(rest)[1..]);
    }
    hide Matches;
    hide Split;
    hide Clean;
  }

  lemma VersionInFront(version: string, path: string)
    requires '/' !in version && |path| > 0 && path[0] == '/'
    ensures Split("/" + version + path) == ["", version] + Split(path)[1..]
    ensures Split(path) == [""] + Split(path)[1..]
  {
    var rest := path[1..];
    AfterSlash(path);
    UnderSplit(version, rest);
    hide Split;
    assert "/" + version + path == "/" + version + "/" + rest;
    assert ([""] + Split(rest))[1..] == Split(rest);
  }

  /** A version in front of a path that has none changes nothing. */
  lemma VersionChangesNothing(verb: string, version: string, path: string)
    requires IsVersion(version) && |path| > 0 && path[0] == '/' && VersionEnd(path).None?
    ensures AllowedReadOnly(verb, "/" + version + path) <==> AllowedReadOnly(verb, path)
  {
    AllowedIsGrammar(verb, path);
    AllowedIsGrammar(verb, "/" + version + path);
    VersionIsASegment(path);
    VersionIsSafe(version);
    VersionInFront(version, path);
    FirstSegment(path);
    hide AllowedReadOnly;
    hide Split;
    hide VersionEnd;
    hide IsVersion;
    hide SomeRule;
    assert Split("/" + version + path)[2..] == Split(path)[1..];
  }

  // What the app reads is accepted, and what would leak more is not.

  lemma NoVersionInFront(segs: seq<string>)
    requires |segs| > 0 && !IsVersion(segs[0])
    ensures InGrammar([""] + segs) <==> SomeRule(segs)
  {
    hide IsVersion;
    hide Rule;
    assert ([""] + segs)[1..] == segs;
  }

  lemma SplitPath(segs: seq<string>)
    requires |segs| > 0 && Plain(segs)
    ensures Split("/" + Join(segs)) == [""] + segs
  {
    var all := [""] + segs;
    assert all[1..] == segs;
    assert Join(all) == "" + "/" + Join(segs) == "/" + Join(segs);
    hide Join;
    SplitJoin(all);
  }

  /** A path without a version, by its segments. */
  lemma AllowedBySegments(verb: string, segs: seq<string>)
    requires |segs| > 0 && Plain(segs) && !IsVersion(segs[0])
    ensures AllowedReadOnly(verb, "/" + Join(segs)) <==> (verb == "GET" || verb == "HEAD") && SomeRule(segs)
  {
    hide *;
    SplitPath(segs);
    NoVersionInFront(segs);
    AllowedIsGrammar(verb, "/" + Join(segs));
  }

  /** What may be read, by the number of segments: one. */
  lemma OneSegmentReads(verb: string, a: string)
    requires '/' !in a && !IsVersion(a)
    ensures AllowedReadOnly(verb, "/" + a) <==>
              (verb == "GET" || verb == "HEAD") && a in ["_ping", "version", "info", "events", "networks", "volumes"]
  {
    assert Plain([a]) && Join([a]) == a;
    AllowedBySegments(verb, [a]);
    hide IsVersion;
    hide AllowedReadOnly;
    var s := [a];
    assert a == "_ping" ==> Rule(0, s);
    assert a == "version" ==> Rule(1, s);
    assert a == "info" ==> Rule(2, s);
    assert a == "events" ==> Rule(4, s);
    assert a == "networks" ==> Rule(9, s);
    assert a == "volumes" ==> Rule(11, s);
    assert forall k :: 0 <= k < |RULES| && Rule(k, s) ==> k == RuleFor(s) by {
      forall k | 0 <= k < |RULES| && Rule(k, s) ensures k == RuleFor(s) {
        OnlyRule(k, s);
      }
    }
  }

  /** Two. */
  lemma TwoSegmentReads(verb: string, a: string, b: string)
    requires '/' !in a && '/' !in b && !IsVersion(a)
    ensures AllowedReadOnly(verb, "/" + a + "/" + b) <==>
              && (verb == "GET" || verb == "HEAD")
              && ((a == "system" && b == "df") || (a in ["containers", "images"] && b == "json")
                  || (a in ["networks", "volumes"] && IsId(b)))
  {
    var s := [a, b];
    assert Plain(s) && s[1..] == [b] && "/" + Join(s) == "/" + a + "/" + b;
    AllowedBySegments(verb, s);
    hide IsVersion;
    hide AllowedReadOnly;
    hide IsId;
    hide IsImage;
    assert a == "system" && b == "df" ==> Rule(3, s);
    assert a == "containers" && b == "json" ==> Rule(5, s);
    assert a == "images" && b == "json" ==> Rule(7, s);
    assert a == "networks" && IsId(b) ==> Rule(10, s);
    assert a == "volumes" && IsId(b) ==> Rule(12, s);
    forall k | 0 <= k < |RULES| && Rule(k, s) ensures k == RuleFor(s) {
      OnlyRule(k, s);
    }
  }

  lemma JoinThree(a: string, b: string, c: string)
    ensures "/" + Join([a, b, c]) == "/" + a + "/" + b + "/" + c
  {
    assert [a, b, c][1..] == [b, c] && [b, c][1..] == [c];
    assert Join([b, c]) == b + "/" + c;
    assert Join([a, b, c]) == a + "/" + (b + "/" + c);
  }

  /** Three: the state, the output and the use of one container, the state and the history of an image, and who asks. */
  lemma ThreeSegmentReads(verb: string, a: string, b: string, c: string)
    requires '/' !in a && '/' !in b && '/' !in c && !IsVersion(a)
    ensures AllowedReadOnly(verb, "/" + a + "/" + b + "/" + c) <==>
              && (verb == "GET" || verb == "HEAD")
              && ((a == "containers" && IsId(b) && c in ["json", "logs", "stats"])
                  || (a == "images" && IsImage([b]) && c in ["json", "history"])
                  || (a == "agent" && b == "v1" && c == "whoami"))
  {
    var s := [a, b, c];
    assert Plain(s) && s[1..2] == [b];
    JoinThree(a, b, c);
    AllowedBySegments(verb, s);
    hide IsVersion;
    hide AllowedReadOnly;
    hide IsId;
    hide IsImage;
    hide Join;
    assert a == "containers" && IsId(b) && c in ["json", "logs", "stats"] ==> Rule(6, s);
    assert a == "images" && IsImage([b]) && c in ["json", "history"] ==> Rule(8, s);
    assert a == "agent" && b == "v1" && c == "whoami" ==> Rule(13, s);
    forall k | 0 <= k < |RULES| && Rule(k, s) ensures k == RuleFor(s) {
      OnlyRule(k, s);
    }
  }

  lemma LongRules(k: nat, segs: seq<string>)
    requires k < |RULES| && |segs| > 3
    ensures Rule(k, segs) <==> k == 8 && segs[0] == "images" && IsImage(segs[1..|segs| - 1]) && segs[|segs| - 1] in ["json", "history"]
  {
    hide IsId;
    hide IsImage;
  }

  lemma LongIsImage(segs: seq<string>)
    requires |segs| > 3
    ensures SomeRule(segs) <==> segs[0] == "images" && IsImage(segs[1..|segs| - 1]) && segs[|segs| - 1] in ["json", "history"]
  {
    hide Rule;
    hide IsImage;
    LongRules(8, segs);
    if SomeRule(segs) {
      var k :| 0 <= k < |RULES| && Rule(k, segs);
      LongRules(k, segs);
    }
  }

  /** More: only the state and the history of an image whose name has several parts. */
  lemma LongerReads(verb: string, segs: seq<string>)
    requires |segs| > 3 && Plain(segs) && !IsVersion(segs[0])
    ensures AllowedReadOnly(verb, "/" + Join(segs)) <==>
              && (verb == "GET" || verb == "HEAD")
              && segs[0] == "images" && IsImage(segs[1..|segs| - 1]) && segs[|segs| - 1] in ["json", "history"]
  {
    hide *;
    AllowedBySegments(verb, segs);
    LongIsImage(segs);
  }
}
