// The path policy is the grammar of segments.
module PolicyGrammar {
  import opened Policy

  // Splitting at the slashes and joining again.

  function Join(segs: seq<string>): string
    requires |segs| > 0
  {
    if |segs| == 1 then segs[0] else segs[0] + "/" + Join(segs[1..])
  }

  ghost predicate Plain(segs: seq<string>) {
    forall i :: 0 <= i < |segs| ==> '/' !in segs[i]
  }

  lemma {:induction false} JoinSplit(s: string)
    ensures Join(Split(s)) == s
  {
    if s != "" {
      JoinSplit(s[1..]);
      var rest := Split(s[1..]);
      assert s == [s[0]] + s[1..];
      if s[0] == '/' {
        assert ([""] + rest)[1..] == rest;
      } else {
        assert ([[s[0]] + rest[0]] + rest[1..])[1..] == rest[1..];
      }
    }
  }

  lemma {:induction false} SplitIsPlain(s: string)
    ensures Plain(Split(s))
  {
    if s != "" {
      SplitIsPlain(s[1..]);
    }
  }

  lemma {:induction false} SplitPlain(s: string)
    requires '/' !in s
    ensures Split(s) == [s]
  {
    if s != "" {
      SplitPlain(s[1..]);
      assert s == [s[0]] + s[1..];
    }
  }

  lemma PrependTo(c: char, x: seq<string>, y: seq<string>)
    requires |x| > 0
    ensures Prepend(c, x + y) == Prepend(c, x) + y
  {
    assert (x + y)[1..] == x[1..] + y;
  }

  lemma {:induction false} SplitSlash(a: string, b: string)
    ensures Split(a + "/" + b) == Split(a) + Split(b)
  {
    if a == "" {
      assert (a + "/" + b)[1..] == b;
    } else {
      SplitSlash(a[1..], b);
      assert (a + "/" + b)[1..] == a[1..] + "/" + b;
      PrependTo(a[0], Split(a[1..]), Split(b));
      hide Prepend;
    }
  }

  lemma {:induction false} SplitJoin(segs: seq<string>)
    requires |segs| > 0 && Plain(segs)
    ensures Split(Join(segs)) == segs
  {
    SplitPlain(segs[0]);
    if |segs| > 1 {
      SplitJoin(segs[1..]);
      SplitSlash(segs[0], Join(segs[1..]));
    }
  }

  lemma {:induction false} JoinLast(segs: seq<string>, last: string)
    requires |segs| > 0
    ensures Join(segs + [last]) == Join(segs) + "/" + last
  {
    if |segs| > 1 {
      JoinLast(segs[1..], last);
      assert (segs + [last])[1..] == segs[1..] + [last];
    }
  }

  /** A path is a fixed text exactly when its segments are those of the text. */
  lemma SameSegments(path: string, text: string, segs: seq<string>)
    requires |segs| > 0 && Plain(segs) && Join(segs) == text
    ensures path == text <==> Split(path) == segs
  {
    JoinSplit(path);
    SplitJoin(segs);
  }

  lemma AfterSlash(path: string)
    ensures |path| > 0 && path[0] == '/' ==> Split(path) == [""] + Split(path[1..])
  {
  }

  lemma UnderSplit(name: string, rest: string)
    requires '/' !in name
    ensures Split("/" + name + "/" + rest) == ["", name] + Split(rest)
  {
    var path := "/" + name + "/" + rest;
    assert path[0] == '/' && path[1..] == name + "/" + rest;
    AfterSlash(path);
    SplitSlash(name, rest);
    SplitPlain(name);
    hide Split;
    var r := Split(rest);
    assert [""] + ([name] + r) == ["", name] + r;
  }

  /** What is under one first segment. */
  lemma Under(path: string, name: string)
    requires '/' !in name
    ensures var t, segs := "/" + name + "/", Split(path);
            && (t <= path <==> |segs| > 2 && segs[0] == "" && segs[1] == name)
            && (t <= path ==> segs[2..] == Split(path[|t|..]))
  {
    hide Split;
    var t, segs := "/" + name + "/", Split(path);
    if t <= path {
      assert path == t + path[|t|..];
      UnderSplit(name, path[|t|..]);
    }
    if |segs| > 2 && segs[0] == "" && segs[1] == name {
      JoinSplit(path);
      assert segs[1..][1..] == segs[2..];
      assert Join(segs) == "" + "/" + (name + "/" + Join(segs[2..]));
      hide Join;
      assert path == t + Join(segs[2..]);
    }
  }

  // What the regular expressions match.

  lemma CatText(t: string, b: Re, s: string)
    ensures Matches(Cat(Text(t), b), s) <==> t <= s && Matches(b, s[|t|..])
  {
    if t <= s && Matches(b, s[|t|..]) {
      assert Matches(Text(t), s[..|t|]);
    }
  }

  lemma IsOneMany(a: Class, b: Class, s: string)
    requires s != "" && a.Has(s[0]) && forall i :: 0 < i < |s| ==> b.Has(s[i])
    ensures Matches(Cat(One(a), Many(b)), s)
  {
    var rest := s[1..];
    assert forall i :: 0 <= i < |rest| ==> rest[i] == s[i + 1];
    assert Matches(One(a), s[..1]) && Matches(Many(b), rest);
  }

  lemma OneMany(a: Class, b: Class, s: string)
    ensures Matches(Cat(One(a), Many(b)), s) <==> s != "" && a.Has(s[0]) && forall i :: 0 < i < |s| ==> b.Has(s[i])
  {
    if Matches(Cat(One(a), Many(b)), s) {
      var i :| 0 <= i <= |s| && Matches(One(a), s[..i]) && Matches(Many(b), s[i..]);
      forall j | 0 < j < |s| ensures b.Has(s[j]) {
        assert s[i..][j - 1] == s[j];
      }
    } else if s != "" && a.Has(s[0]) && forall i :: 0 < i < |s| ==> b.Has(s[i]) {
      IsOneMany(a, b, s);
      assert false;
    }
  }

  const UPPER_CASE := "ABCDEFGHIJKLMNOPQRSTUVWXYZ"
  const LOWER_CASE := "abcdefghijklmnopqrstuvwxyz"
  const DIGITS := "0123456789"

  lemma DigitsAre(c: char)
    ensures '0' <= c <= '9' <==> c in DIGITS
  {
    if '0' <= c <= '9' {
      assert DIGITS[(c - '0') as int] == c;
    }
  }

  lemma UpperCaseAt(k: nat)
    requires k < 26
    ensures UPPER_CASE[k] == 'A' + k as char
  {
  }

  lemma LowerCaseAt(k: nat)
    requires k < 26
    ensures LOWER_CASE[k] == 'a' + k as char
  {
  }

  lemma UpperCaseIs(c: char)
    ensures 'A' <= c <= 'Z' <==> c in UPPER_CASE
  {
    if 'A' <= c <= 'Z' {
      UpperCaseAt((c - 'A') as int);
    }
    if c in UPPER_CASE {
      var k :| 0 <= k < 26 && UPPER_CASE[k] == c;
      UpperCaseAt(k);
    }
  }

  lemma LowerCaseIs(c: char)
    ensures 'a' <= c <= 'z' <==> c in LOWER_CASE
  {
    if 'a' <= c <= 'z' {
      LowerCaseAt((c - 'a') as int);
    }
    if c in LOWER_CASE {
      var k :| 0 <= k < 26 && LOWER_CASE[k] == c;
      LowerCaseAt(k);
    }
  }

  /** The characters of the classes, one by one. */
  lemma ClassesAre(c: char)
    ensures Digit.Has(c) <==> c in DIGITS
    ensures AlNum.Has(c) <==> c in UPPER_CASE || c in LOWER_CASE || c in DIGITS
    ensures IdChar.Has(c) <==> c in UPPER_CASE || c in LOWER_CASE || c in DIGITS || c in "_.-"
    ensures ImageChar.Has(c) <==> c in UPPER_CASE || c in LOWER_CASE || c in DIGITS || c in "_.:@/-"
  {
    DigitsAre(c);
    UpperCaseIs(c);
    LowerCaseIs(c);
  }

  /** Something, a separator at i, and something else. */
  ghost predicate CutAt(a: Re, sep: char, b: Re, s: string, i: nat) {
    i < |s| && s[i] == sep && Matches(a, s[..i]) && Matches(b, s[i + 1..])
  }

  lemma SepRest(sep: char, b: Re, s: string, i: nat)
    requires i <= |s|
    ensures Matches(Cat(Text([sep]), b), s[i..]) <==> i < |s| && s[i] == sep && Matches(b, s[i + 1..])
  {
    CatText([sep], b, s[i..]);
    if i < |s| {
      assert s[i..][1..] == s[i + 1..];
    }
    hide Matches;
  }

  lemma CatSep(a: Re, sep: char, b: Re, s: string)
    ensures Matches(Cat(a, Cat(Text([sep]), b)), s) <==> exists i :: CutAt(a, sep, b, s, i)
  {
    var rest := Cat(Text([sep]), b);
    if Matches(Cat(a, rest), s) {
      var i :| 0 <= i <= |s| && Matches(a, s[..i]) && Matches(rest, s[i..]);
      SepRest(sep, b, s, i);
      assert CutAt(a, sep, b, s, i);
    }
    if i: nat :| CutAt(a, sep, b, s, i) {
      SepRest(sep, b, s, i);
      assert Matches(a, s[..i]) && Matches(rest, s[i..]);
    }
  }

  // Rule by rule.

  lemma TextRule(path: string, text: string, segs: seq<string>)
    requires |segs| > 0 && Plain(segs) && "/" + Join(segs) == text
    ensures path == text <==> |Split(path)| > 1 && Split(path)[0] == "" && Split(path)[1..] == segs
  {
    assert ([""] + segs)[1..] == segs;
    SameSegments(path, text, [""] + segs);
    assert |Split(path)| > 1 && Split(path)[0] == "" && Split(path)[1..] == segs ==> Split(path) == [""] + segs;
  }

  lemma IdMatch(s: string)
    ensures Matches(ID, s) <==> IsId(s)
    ensures IsId(s) ==> '/' !in s
  {
    OneMany(AlNum, IdChar, s);
  }

  lemma UnderId(path: string, name: string)
    requires '/' !in name
    ensures var segs := Split(path);
            Matches(Cat(Text("/" + name + "/"), ID), path)
            <==> |segs| == 3 && segs[0] == "" && segs[1] == name && IsId(segs[2])
  {
    var t, segs := "/" + name + "/", Split(path);
    CatText(t, ID, path);
    Under(path, name);
    if t <= path {
      var rest := path[|t|..];
      IdMatch(rest);
      JoinSplit(rest);
      if IsId(rest) {
        SplitPlain(rest);
      }
    }
  }

  lemma IdCutSplits(words: Re, s: string, i: nat)
    requires (forall w :: Matches(words, w) ==> '/' !in w) && CutAt(ID, '/', words, s, i)
    ensures Split(s) == [s[..i], s[i + 1..]] && IsId(s[..i])
  {
    hide Split;
    assert s == s[..i] + "/" + s[i + 1..];
    SplitSlash(s[..i], s[i + 1..]);
    IdMatch(s[..i]);
    SplitPlain(s[..i]);
    SplitPlain(s[i + 1..]);
    hide IsId;
  }

  lemma IdPartsCut(words: Re, s: string, id: string, w: string)
    requires Split(s) == [id, w] && IsId(id) && Matches(words, w)
    ensures CutAt(ID, '/', words, s, |id|)
  {
    JoinSplit(s);
    hide Split;
    hide IsId;
    assert [id, w][1..] == [w];
    assert s == id + "/" + w;
    IdMatch(id);
    assert s[..|id|] == id && s[|id| + 1..] == w;
  }

  lemma IdThenWord(words: Re, s: string)
    requires forall w :: Matches(words, w) ==> '/' !in w
    ensures (exists i :: CutAt(ID, '/', words, s, i))
            <==> |Split(s)| == 2 && IsId(Split(s)[0]) && Matches(words, Split(s)[1])
  {
    hide Split;
    hide IsId;
    if i: nat :| CutAt(ID, '/', words, s, i) {
      IdCutSplits(words, s, i);
    }
    if |Split(s)| == 2 && IsId(Split(s)[0]) && Matches(words, Split(s)[1]) {
      IdPartsCut(words, s, Split(s)[0], Split(s)[1]);
    }
  }

  ghost predicate ImageChars(s: string) {
    forall i :: 0 <= i < |s| ==> ImageChar.Has(s[i])
  }

  ghost predicate AllImageChars(parts: seq<string>) {
    forall i :: 0 <= i < |parts| ==> ImageChars(parts[i])
  }

  lemma ImageCharsCons(c: char, t: string)
    ensures ImageChars([c] + t) <==> ImageChar.Has(c) && ImageChars(t)
  {
    var s := [c] + t;
    assert s[0] == c;
    assert forall i :: 0 <= i < |t| ==> t[i] == s[i + 1];
    assert forall i :: 0 < i < |s| ==> s[i] == t[i - 1];
  }

  lemma AllImageCharsPrepend(c: char, parts: seq<string>)
    requires |parts| > 0
    ensures AllImageChars(Prepend(c, parts)) <==> ImageChar.Has(c) && AllImageChars(parts)
  {
    var all := Prepend(c, parts);
    if c == '/' {
      assert forall i :: 0 <= i < |parts| ==> parts[i] == all[i + 1];
      assert all[0] == "" && forall i :: 1 <= i < |all| ==> all[i] == parts[i - 1];
    } else {
      ImageCharsCons(c, parts[0]);
      hide ImageChars;
      assert all[0] == [c] + parts[0];
      assert forall i :: 1 <= i < |parts| ==> parts[i] == all[i];
      assert forall i :: 1 <= i < |all| ==> all[i] == parts[i];
    }
  }

  lemma {:induction false} ImageCharsInParts(s: string)
    ensures ImageChars(s) <==> AllImageChars(Split(s))
  {
    if s != "" {
      ImageCharsInParts(s[1..]);
      assert s == [s[0]] + s[1..];
      ImageCharsCons(s[0], s[1..]);
      AllImageCharsPrepend(s[0], Split(s[1..]));
      hide ImageChars;
    }
  }

  lemma FirstChar(s: string)
    ensures Split(s)[0] != "" <==> s != "" && s[0] != '/'
    ensures Split(s)[0] != "" ==> Split(s)[0][0] == s[0]
  {
  }

  ghost predicate Tidy(parts: seq<string>) {
    forall i :: 0 <= i < |parts| ==> parts[i] != "" && parts[i] != "." && parts[i] != ".."
  }

  lemma ImageMatch(s: string)
    requires Tidy(Split(s))
    ensures Matches(IMAGE, s) <==> IsImage(Split(s))
  {
    OneMany(AlNum, ImageChar, s);
    ImageCharsInParts(s);
    FirstChar(s);
    SplitIsPlain(s);
    hide Split;
    var parts := Split(s);
    assert ImageChars(s) && AlNum.Has(s[0]) ==> Matches(IMAGE, s);
    assert IsImage(parts) ==> AllImageChars(parts);
  }

  lemma CutAtSplits(words: Re, s: string, i: nat)
    requires forall w :: Matches(words, w) ==> '/' !in w
    requires Tidy(Split(s)[..|Split(s)| - 1]) && CutAt(IMAGE, '/', words, s, i)
    ensures |Split(s)| > 1 && IsImage(Split(s)[..|Split(s)| - 1]) && Matches(words, Split(s)[|Split(s)| - 1])
  {
    assert s == s[..i] + "/" + s[i + 1..];
    SplitSlash(s[..i], s[i + 1..]);
    SplitPlain(s[i + 1..]);
    hide Split;
    assert Split(s)[..|Split(s)| - 1] == Split(s[..i]);
    ImageMatch(s[..i]);
  }

  lemma PartsAreCutAt(words: Re, s: string, parts: seq<string>, w: string)
    requires Split(s) == parts + [w] && IsImage(parts) && Matches(words, w)
    ensures exists i :: CutAt(IMAGE, '/', words, s, i)
  {
    SplitIsPlain(s);
    JoinSplit(s);
    hide Split;
    assert forall i :: 0 <= i < |parts| ==> parts[i] == Split(s)[i];
    var img := Join(parts);
    JoinLast(parts, w);
    SplitJoin(parts);
    assert s == img + "/" + w;
    ImageMatch(img);
    assert s[..|img|] == img && s[|img| + 1..] == w;
    assert CutAt(IMAGE, '/', words, s, |img|);
  }

  lemma ImageThenWord(words: Re, s: string)
    requires forall w :: Matches(words, w) ==> '/' !in w
    requires Tidy(Split(s)[..|Split(s)| - 1])
    ensures (exists i :: CutAt(IMAGE, '/', words, s, i))
            <==> |Split(s)| > 1 && IsImage(Split(s)[..|Split(s)| - 1]) && Matches(words, Split(s)[|Split(s)| - 1])
  {
    var segs := Split(s);
    var parts, w := segs[..|segs| - 1], segs[|segs| - 1];
    if i: nat :| CutAt(IMAGE, '/', words, s, i) {
      CutAtSplits(words, s, i);
    }
    if |segs| > 1 && IsImage(parts) && Matches(words, w) {
      PartsAreCutAt(words, s, parts, w);
    }
  }

  lemma {:induction false} DoubleSlash(s: string)
    ensures HasDoubleSlash(s) <==> exists i :: 0 < i < |Split(s)| - 1 && Split(s)[i] == ""
  {
    if s != "" {
      DoubleSlash(s[1..]);
      DoubleSlashStep(s);
      FirstChar(s[1..]);
      var tail := Split(s[1..]);
      if s[0] == '/' {
        assert forall i :: 0 <= i < |tail| ==> Split(s)[i + 1] == tail[i];
      } else {
        assert forall i :: 1 <= i < |tail| ==> Split(s)[i] == tail[i];
      }
    }
  }

  lemma DoubleSlashStep(s: string)
    requires s != ""
    ensures HasDoubleSlash(s) <==> (|s| > 1 && s[0] == '/' && s[1] == '/') || HasDoubleSlash(s[1..])
  {
    if i :| 0 <= i < |s[1..]| - 1 && s[1..][i] == '/' && s[1..][i + 1] == '/' {
      assert s[i + 1] == '/' && s[i + 2] == '/';
    }
    if i :| 0 < i < |s| - 1 && s[i] == '/' && s[i + 1] == '/' {
      assert s[1..][i - 1] == '/' && s[1..][i] == '/';
    }
  }

  lemma CleanIsTidy(path: string)
    requires Clean(path)
    ensures forall i :: 0 < i < |Split(path)| - 1 ==> Tidy([Split(path)[i]])
  {
    DoubleSlash(path);
    forall i | 0 < i < |Split(path)| - 1 ensures Tidy([Split(path)[i]]) {
      assert Split(path)[i] in Split(path);
    }
  }

  const CONTAINER_WORDS := Or(Text("json"), Or(Text("logs"), Text("stats")))
  const IMAGE_WORDS := Or(Text("json"), Text("history"))

  lemma ContainerWord(w: string)
    ensures Matches(CONTAINER_WORDS, w) <==> w in ["json", "logs", "stats"]
  {
    assert Matches(CONTAINER_WORDS, w) <==> w == "json" || Matches(Or(Text("logs"), Text("stats")), w);
  }

  lemma ImageWord(w: string)
    ensures Matches(IMAGE_WORDS, w) <==> w in ["json", "history"]
  {
  }

  lemma WordsArePlain(w: string)
    ensures Matches(CONTAINER_WORDS, w) || Matches(IMAGE_WORDS, w) ==> '/' !in w
  {
    ContainerWord(w);
    ImageWord(w);
  }

  lemma ContainerRule(path: string)
    ensures Matches(RULES[6], path) <==> |Split(path)| > 1 && Split(path)[0] == "" && Rule(6, Split(path)[1..])
  {
    hide Matches;
    hide Split;
    hide IsId;
    var t, segs, words := "/containers/", Split(path), CONTAINER_WORDS;
    CatText(t, Cat(ID, Cat(Text("/"), words)), path);
    assert t == "/" + "containers" + "/";
    assert RULES[6] == Cat(Text(t), Cat(ID, Cat(Text("/"), words)));
    Under(path, "containers");
    forall w ensures Matches(words, w) ==> '/' !in w {
      WordsArePlain(w);
    }
    if t <= path {
      var rest := path[|t|..];
      CatSep(ID, '/', words, rest);
      IdThenWord(words, rest);
      if |Split(rest)| == 2 {
        ContainerWord(Split(rest)[1]);
      }
    }
  }

  lemma TidyUnder(path: string, rest: string)
    requires Clean(path) && |Split(path)| > 2 && Split(path)[2..] == Split(rest)
    ensures Tidy(Split(rest)[..|Split(rest)| - 1])
  {
    CleanIsTidy(path);
    hide Split;
    hide Clean;
    var segs, parts := Split(path), Split(rest)[..|Split(rest)| - 1];
    forall i | 0 <= i < |parts| ensures parts[i] != "" && parts[i] != "." && parts[i] != ".." {
      assert parts[i] == segs[i + 2];
      assert Tidy([segs[i + 2]]);
      assert [segs[i + 2]][0] == segs[i + 2];
    }
  }

  lemma ImageRule(path: string)
    requires Clean(path)
    ensures Matches(RULES[8], path) <==> |Split(path)| > 1 && Split(path)[0] == "" && Rule(8, Split(path)[1..])
  {
    hide Matches;
    hide Split;
    hide Clean;
    hide IsImage;
    var t, segs, words := "/images/", Split(path), IMAGE_WORDS;
    CatText(t, Cat(IMAGE, Cat(Text("/"), words)), path);
    assert t == "/" + "images" + "/";
    Under(path, "images");
    forall w ensures Matches(words, w) ==> '/' !in w {
      WordsArePlain(w);
    }
    assert RULES[8] == Cat(Text(t), Cat(IMAGE, Cat(Text("/"), words)));
    if t <= path {
      var rest := path[|t|..];
      TidyUnder(path, rest);
      hide Tidy;
      CatSep(IMAGE, '/', words, rest);
      ImageThenWord(words, rest);
      assert segs[1..][1..|segs[1..]| - 1] == Split(rest)[..|Split(rest)| - 1];
      ImageWord(Split(rest)[|Split(rest)| - 1]);
      hide IsImage;
    }
  }

  lemma TextRuleAt(k: nat, path: string, text: string, segs: seq<string>)
    requires k < |RULES| && RULES[k] == Text(text) && (forall s :: Rule(k, s) <==> s == segs)
    requires |segs| > 0 && Plain(segs) && "/" + Join(segs) == text
    ensures Matches(RULES[k], path) <==> |Split(path)| > 1 && Split(path)[0] == "" && Rule(k, Split(path)[1..])
  {
    TextRule(path, text, segs);
  }

  lemma OneSegment(k: nat, path: string, name: string)
    requires k < |RULES| && RULES[k] == Text("/" + name) && '/' !in name && (forall s :: Rule(k, s) <==> s == [name])
    ensures Matches(RULES[k], path) <==> |Split(path)| > 1 && Split(path)[0] == "" && Rule(k, Split(path)[1..])
  {
    TextRuleAt(k, path, "/" + name, [name]);
  }

  lemma TwoSegments(k: nat, path: string, a: string, b: string)
    requires k < |RULES| && RULES[k] == Text("/" + a + "/" + b) && '/' !in a && '/' !in b
    requires forall s :: Rule(k, s) <==> s == [a, b]
    ensures Matches(RULES[k], path) <==> |Split(path)| > 1 && Split(path)[0] == "" && Rule(k, Split(path)[1..])
  {
    assert [a, b][1..] == [b];
    assert "/" + Join([a, b]) == "/" + a + "/" + b;
    TextRuleAt(k, path, "/" + a + "/" + b, [a, b]);
  }

  lemma WhoamiRule(path: string)
    ensures Matches(RULES[13], path) <==> |Split(path)| > 1 && Split(path)[0] == "" && Rule(13, Split(path)[1..])
  {
    hide Split;
    hide Matches;
    var segs := ["agent", "v1", "whoami"];
    assert segs[1..] == ["v1", "whoami"] && segs[1..][1..] == ["whoami"];
    assert Join(segs) == "agent" + "/" + ("v1" + "/" + "whoami");
    TextRuleAt(13, path, "/agent/v1/whoami", segs);
  }

  lemma OneSegmentRules(k: nat, path: string)
    requires k in {0, 1, 2}
    ensures Matches(RULES[k], path) <==> |Split(path)| > 1 && Split(path)[0] == "" && Rule(k, Split(path)[1..])
  {
    hide Split;
    hide Matches;
    match k
    case 0 => OneSegment(k, path, "_ping");
    case 1 => OneSegment(k, path, "version");
    case 2 => OneSegment(k, path, "info");
  }

  lemma MoreOneSegmentRules(k: nat, path: string)
    requires k in {4, 9, 11}
    ensures Matches(RULES[k], path) <==> |Split(path)| > 1 && Split(path)[0] == "" && Rule(k, Split(path)[1..])
  {
    hide Split;
    hide Matches;
    match k
    case 4 => OneSegment(k, path, "events");
    case 9 => OneSegment(k, path, "networks");
    case 11 => OneSegment(k, path, "volumes");
  }

  lemma SystemRule(path: string)
    ensures Matches(RULES[3], path) <==> |Split(path)| > 1 && Split(path)[0] == "" && Rule(3, Split(path)[1..])
  {
    hide Split;
    hide Matches;
    TwoSegments(3, path, "system", "df");
  }

  lemma ContainersRule(path: string)
    ensures Matches(RULES[5], path) <==> |Split(path)| > 1 && Split(path)[0] == "" && Rule(5, Split(path)[1..])
  {
    hide Split;
    hide Matches;
    TwoSegments(5, path, "containers", "json");
  }

  lemma ImagesRule(path: string)
    ensures Matches(RULES[7], path) <==> |Split(path)| > 1 && Split(path)[0] == "" && Rule(7, Split(path)[1..])
  {
    hide Split;
    hide Matches;
    TwoSegments(7, path, "images", "json");
  }

  lemma IdRule(k: nat, path: string)
    requires k == 10 || k == 12
    ensures Matches(RULES[k], path) <==> |Split(path)| > 1 && Split(path)[0] == "" && Rule(k, Split(path)[1..])
  {
    hide Split;
    hide Matches;
    if k == 10 {
      assert "/networks/" == "/" + "networks" + "/";
      UnderId(path, "networks");
    } else {
      assert "/volumes/" == "/" + "volumes" + "/";
      UnderId(path, "volumes");
    }
  }

  /** Under the checks that come first, each regular expression is its rule for the segments. */
  lemma RuleMatches(k: nat, path: string)
    requires Clean(path) && k < |RULES|
    ensures Matches(RULES[k], path) <==> |Split(path)| > 1 && Split(path)[0] == "" && Rule(k, Split(path)[1..])
  {
    hide Split;
    hide Matches;
    hide Rule;
    if k == 6 {
      ContainerRule(path);
    } else if k == 8 {
      ImageRule(path);
    } else if k == 10 || k == 12 {
      IdRule(k, path);
    } else if k == 13 {
      WhoamiRule(path);
    } else if k == 3 {
      SystemRule(path);
    } else if k == 5 {
      ContainersRule(path);
    } else if k == 7 {
      ImagesRule(path);
    } else if k <= 2 {
      OneSegmentRules(k, path);
    } else {
      MoreOneSegmentRules(k, path);
    }
  }
}
