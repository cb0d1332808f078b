// Which requests a read-only device may send (agent/internal/policy/policy.go).
module Policy {
  import opened Common

  // Regular expressions, as far as the rules need them, and what they match as a whole.

  predicate IsAlNum(c: char) {
    'A' <= c <= 'Z' || 'a' <= c <= 'z' || '0' <= c <= '9'
  }

  datatype Class = Digit | AlNum | IdChar | ImageChar
  {
    predicate Has(c: char) {
      match this
      case Digit => '0' <= c <= '9'
      case AlNum => IsAlNum(c)
      case IdChar => IsAlNum(c) || c == '_' || c == '.' || c == '-'
      case ImageChar => IsAlNum(c) || c == '_' || c == '.' || c == ':' || c == '@' || c == '/' || c == '-'
    }
  }

  datatype Re = Text(t: string) | One(c: Class) | Many(c: Class) | Cat(a: Re, b: Re) | Or(a: Re, b: Re)

  predicate Matches(re: Re, s: string) {
    match re
    case Text(t) => s == t
    case One(c) => |s| == 1 && c.Has(s[0])
    case Many(c) => forall i :: 0 <= i < |s| ==> c.Has(s[i])
    case Cat(a, b) => exists i :: 0 <= i <= |s| && Matches(a, s[..i]) && Matches(b, s[i..])
    case Or(a, b) => Matches(a, s) || Matches(b, s)
  }

  const ID := Cat(One(AlNum), Many(IdChar))
  const IMAGE := Cat(One(AlNum), Many(ImageChar))
  const VERSION := Cat(Text("/v"), Cat(Cat(One(Digit), Many(Digit)), Cat(Text("."), Cat(One(Digit), Many(Digit)))))

  const RULES := [
    Text("/_ping"),
    Text("/version"),
    Text("/info"),
    Text("/system/df"),
    Text("/events"),
    Text("/containers/json"),
    Cat(Text("/containers/"), Cat(ID, Cat(Text("/"), Or(Text("json"), Or(Text("logs"), Text("stats")))))),
    Text("/images/json"),
    Cat(Text("/images/"), Cat(IMAGE, Cat(Text("/"), Or(Text("json"), Text("history"))))),
    Text("/networks"),
    Cat(Text("/networks/"), ID),
    Text("/volumes"),
    Cat(Text("/volumes/"), ID),
    Text("/agent/v1/whoami")
  ]

  function Prepend(c: char, segs: seq<string>): seq<string>
    requires |segs| > 0
  {
    if c == '/' then [""] + segs else [[c] + segs[0]] + segs[1..]
  }

  /** The parts between the slashes: strings.Split(s, "/"). */
  function Split(s: string): (segs: seq<string>)
    ensures |segs| > 0
  {
    if s == "" then [""] else Prepend(s[0], Split(s[1..]))
  }

  predicate HasDoubleSlash(s: string) {
    exists i :: 0 <= i < |s| - 1 && s[i] == '/' && s[i + 1] == '/'
  }

  predicate Clean(path: string) {
    '%' !in path && '\\' !in path && !HasDoubleSlash(path) && "." !in Split(path) && ".." !in Split(path)
  }

  /** Where the digits that begin at i end. */
  function DigitsEnd(s: string, i: nat): (j: nat)
    requires i <= |s|
    ensures i <= j <= |s|
    ensures forall k :: i <= k < j ==> Digit.Has(s[k])
    ensures j < |s| ==> !Digit.Has(s[j])
    decreases |s| - i
  {
    if i < |s| && Digit.Has(s[i]) then DigitsEnd(s, i + 1) else i
  }

  /** The end of the match of the version, with the slash after it if there is one: FindStringIndex. */
  function VersionEnd(path: string): (e: Option<nat>)
    ensures e.Some? ==> 0 < e.value <= |path|
  {
    if !("/v" <= path) then None
    else
      var j := DigitsEnd(path, 2);
      if j == 2 || j == |path| || path[j] != '.' then None
      else
        var k := DigitsEnd(path, j + 1);
        if k == j + 1 then None
        else if k == |path| then Some(k)
        else if path[k] == '/' then Some(k + 1)
        else None
  }

  /** The path without its version; None when there is nothing after the version. */
  function WithoutVersion(path: string): Option<string> {
    match VersionEnd(path)
    case None => Some(path)
    case Some(e) => var rest := path[e - 1..]; if rest[0] == '/' then Some(rest) else None
  }

  predicate AllowedReadOnly(verb: string, path: string) {
    && (verb == "GET" || verb == "HEAD")
    && Clean(path)
    && WithoutVersion(path).Some?
    && exists k :: 0 <= k < |RULES| && Matches(RULES[k], WithoutVersion(path).value)
  }

  // The same, said of the segments.

  predicate IsId(s: string) {
    s != "" && AlNum.Has(s[0]) && forall i :: 0 < i < |s| ==> IdChar.Has(s[i])
  }

  predicate IsImagePart(s: string) {
    s != "" && s != "." && s != ".." && forall i :: 0 <= i < |s| ==> ImageChar.Has(s[i]) && s[i] != '/'
  }

  /** The parts of an image reference: the first begins with a letter or a digit. */
  predicate IsImage(parts: seq<string>) {
    |parts| > 0 && (forall i :: 0 <= i < |parts| ==> IsImagePart(parts[i])) && AlNum.Has(parts[0][0])
  }

  predicate IsVersion(s: string) {
    && |s| > 0 && s[0] == 'v'
    && var j := DigitsEnd(s, 1);
       1 < j < |s| && s[j] == '.' && j + 1 < DigitsEnd(s, j + 1) == |s|
  }

  /** What each rule says of the segments after the first slash. */
  predicate Rule(k: nat, s: seq<string>) {
    match k
    case 0 => s == ["_ping"]
    case 1 => s == ["version"]
    case 2 => s == ["info"]
    case 3 => s == ["system", "df"]
    case 4 => s == ["events"]
    case 5 => s == ["containers", "json"]
    case 6 => |s| == 3 && s[0] == "containers" && IsId(s[1]) && s[2] in ["json", "logs", "stats"]
    case 7 => s == ["images", "json"]
    case 8 => |s| >= 3 && s[0] == "images" && IsImage(s[1..|s| - 1]) && s[|s| - 1] in ["json", "history"]
    case 9 => s == ["networks"]
    case 10 => |s| == 2 && s[0] == "networks" && IsId(s[1])
    case 11 => s == ["volumes"]
    case 12 => |s| == 2 && s[0] == "volumes" && IsId(s[1])
    case 13 => s == ["agent", "v1", "whoami"]
    case _ => false
  }

  predicate SomeRule(s: seq<string>) {
    exists k :: 0 <= k < |RULES| && Rule(k, s)
  }

  /** The grammar of the paths: nothing before the first slash, perhaps a version, then one of the rules. */
  predicate InGrammar(segs: seq<string>) {
    && |segs| > 1 && segs[0] == ""
    && if IsVersion(segs[1]) then SomeRule(segs[2..]) else SomeRule(segs[1..])
  }
}
