// The one-time pairing code (agent/internal/pairing/code.go).
//
// Text is a sequence of code points; where the bytes are no text, Go reads a
// code point above 127, which is refused like any other.
module Code {
  import opened Common

  type Byte = b: int | 0 <= b < 256

  const CODE_LEN := 12
  const ALPHABET := "0123456789ABCDEFGHJKMNPQRSTVWXYZ"

  predicate IsSymbol(c: char) {
    c in ALPHABET
  }

  /** Digits and upper-case letters without I, L, O and U. */
  predicate InAlphabet(c: char) {
    '0' <= c <= '9' || ('A' <= c <= 'Z' && c != 'I' && c != 'L' && c != 'O' && c != 'U')
  }

  predicate IsCanonical(code: string) {
    |code| == CODE_LEN && forall i :: 0 <= i < |code| ==> IsSymbol(code[i])
  }

  /** The symbol for a random byte: its five low bits. */
  function SymbolOf(b: Byte): char {
    ALPHABET[b % 32]
  }

  method NewCode(rand: seq<Byte>) returns (code: Option<string>)
    ensures code.Some? <==> |rand| >= CODE_LEN
    ensures code.Some? ==> IsCanonical(code.value) && forall i :: 0 <= i < CODE_LEN ==> code.value[i] == ALPHABET[rand[i] % 32]
  {
    if |rand| < CODE_LEN {
      return None;
    }
    var raw := rand[..CODE_LEN];
    var out := new char[CODE_LEN];
    for i := 0 to CODE_LEN
      invariant forall j :: 0 <= j < i ==> out[j] == SymbolOf(raw[j])
    {
      out[i] := ALPHABET[raw[i] % 32];
    }
    return Some(out[..]);
  }

  predicate IsSeparator(r: char) {
    r == '-' || r == ' '
  }

  /** How a character that a person typed is read. */
  function ReadAs(r: char): char {
    var u := if 'a' <= r <= 'z' then r - 'a' + 'A' else r;
    if u == 'O' then '0' else if u == 'I' || u == 'L' then '1' else u
  }

  predicate IsReadable(r: char) {
    IsSeparator(r) || IsSymbol(ReadAs(r))
  }

  function KeptOf(r: char): string {
    if IsSeparator(r) then "" else [ReadAs(r)]
  }

  function Kept(input: string): string {
    if input == "" then "" else KeptOf(input[0]) + Kept(input[1..])
  }

  predicate Readable(input: string) {
    forall i :: 0 <= i < |input| ==> IsReadable(input[i])
  }

  function Normal(input: string): Option<string> {
    if Readable(input) && |Kept(input)| == CODE_LEN then Some(Kept(input)) else None
  }

  lemma {:induction false} KeptAppend(a: string, b: string)
    ensures Kept(a + b) == Kept(a) + Kept(b)
  {
    if a == "" {
      assert a + b == b;
    } else {
      KeptAppend(a[1..], b);
      assert (a + b)[1..] == a[1..] + b && (a + b)[0] == a[0];
      hide KeptOf;
      var x, y, z := KeptOf(a[0]), Kept(a[1..]), Kept(b);
      assert x + (y + z) == (x + y) + z;
    }
  }

  method Normalize(input: string) returns (code: Option<string>)
    ensures code == Normal(input)
  {
    hide IsSymbol;
    var b := "";
    for i := 0 to |input|
      invariant forall j :: 0 <= j < i ==> IsReadable(input[j])
      invariant b == Kept(input[..i])
    {
      var r := input[i];
      assert input[..i + 1] == input[..i] + [r];
      KeptAppend(input[..i], [r]);
      if r > 127 as char {
        NotAscii(r);
        return None;
      }
      if 'a' <= r <= 'z' {
        r := r - 'a' + 'A';
      }
      if r == '-' || r == ' ' {
        continue;
      }
      if r == 'O' {
        r := '0';
      } else if r == 'I' || r == 'L' {
        r := '1';
      }
      if !IsSymbol(r) {
        return None;
      }
      b := b + [r];
    }
    assert input[..|input|] == input;
    if |b| != CODE_LEN {
      return None;
    }
    return Some(b);
  }

  lemma AlphabetIs(c: char)
    ensures IsSymbol(c) <==> InAlphabet(c)
  {
    forall k | 0 <= k < 32 ensures ALPHABET[k] == CharAt(k) && InAlphabet(CharAt(k)) {
      AlphabetAt(k);
    }
    if InAlphabet(c) {
      OneValue(c, ValueOf(c));
      assert ALPHABET[ValueOf(c)] == c;
    }
  }

  lemma NotAscii(r: char)
    requires r > 127 as char
    ensures !IsReadable(r)
  {
    AlphabetIs(r);
  }

  /** Format: three groups of four. */
  function Format(code: string): string {
    if |code| != CODE_LEN then code else code[0..4] + "-" + code[4..8] + "-" + code[8..12]
  }

  // What a person may type for a symbol.

  function Lower(c: char): char {
    if 'A' <= c <= 'Z' then c - 'A' + 'a' else c
  }

  predicate Spells(r: char, c: char) {
    r == c || r == Lower(c) || (c == '0' && r in "oO") || (c == '1' && r in "iIlL")
  }

  lemma ReadAsSpells(r: char, c: char)
    requires IsSymbol(c)
    ensures ReadAs(r) == c <==> Spells(r, c)
  {
    AlphabetIs(c);
    hide IsSymbol;
  }

  function WithoutSeparators(input: string): string {
    if input == "" then ""
    else (if input[0] == '-' || input[0] == ' ' then "" else [input[0]]) + WithoutSeparators(input[1..])
  }

  ghost predicate AllSymbols(s: string) {
    forall i :: 0 <= i < |s| ==> IsSymbol(s[i])
  }

  /** The code points of kept are those of typed, as they are read. */
  ghost predicate IsReadAs(kept: string, typed: string) {
    |kept| == |typed| && forall i :: 0 <= i < |kept| ==> kept[i] == ReadAs(typed[i])
  }

  lemma OneReadable(r: char)
    ensures Readable([r]) <==> AllSymbols(KeptOf(r))
  {
    assert Readable([r]) <==> IsReadable([r][0]);
    var k := KeptOf(r);
    assert AllSymbols(k) <==> k == "" || IsSymbol(k[0]);
  }

  lemma {:induction false} KeptIsRead(input: string)
    ensures IsReadAs(Kept(input), WithoutSeparators(input))
    ensures Readable(input) <==> AllSymbols(Kept(input))
  {
    hide IsSymbol;
    if input != "" {
      var first, rest := [input[0]], input[1..];
      assert input == first + rest;
      KeptIsRead(rest);
      ReadableAppend(first, rest);
      OneReadable(input[0]);
      SymbolsAppend(KeptOf(input[0]), Kept(rest));
      hide Readable;
      hide AllSymbols;
      hide ReadAs;
    }
  }

  lemma SymbolsAppend(a: string, b: string)
    ensures AllSymbols(a + b) <==> AllSymbols(a) && AllSymbols(b)
  {
    hide IsSymbol;
    var s := a + b;
    assert forall i :: 0 <= i < |a| ==> a[i] == s[i];
    assert forall i :: 0 <= i < |b| ==> b[i] == s[|a| + i];
    assert forall i :: |a| <= i < |s| ==> s[i] == b[i - |a|];
  }

  /** Accepted are the spellings of a code, with separators anywhere, and nothing else. */
  lemma NormalizeReadsSpellings(input: string, code: string)
    ensures Normal(input) == Some(code)
            <==> && IsCanonical(code) && |WithoutSeparators(input)| == CODE_LEN
                 && forall i :: 0 <= i < CODE_LEN ==> Spells(WithoutSeparators(input)[i], code[i])
  {
    hide IsSymbol;
    KeptIsRead(input);
    hide Readable;
    var typed := WithoutSeparators(input);
    if IsCanonical(code) && |typed| == CODE_LEN {
      forall i | 0 <= i < CODE_LEN ensures Kept(input)[i] == code[i] <==> Spells(typed[i], code[i]) {
        ReadAsSpells(typed[i], code[i]);
      }
      assert Kept(input) == code <==> forall i :: 0 <= i < CODE_LEN ==> Kept(input)[i] == code[i];
    }
    hide Spells;
    hide ReadAs;
  }

  /** Only ASCII is accepted. */
  lemma AcceptedIsAscii(input: string, i: nat)
    requires Normal(input).Some? && i < |input|
    ensures input[i] <= 127 as char
  {
    if input[i] > 127 as char {
      NotAscii(input[i]);
    }
  }

  /** What comes out is a canonical code, and reading it again gives the same. */
  lemma NormalizeIsIdempotent(input: string)
    requires Normal(input).Some?
    ensures IsCanonical(Normal(input).value) && Normal(Normal(input).value) == Normal(input)
  {
    KeptIsRead(input);
    CanonicalIsKept(Normal(input).value);
  }

  lemma SymbolIsKept(c: char)
    requires IsSymbol(c)
    ensures KeptOf(c) == [c] && Readable([c])
  {
    AlphabetIs(c);
    hide IsSymbol;
    assert ReadAs(c) == c;
    assert IsReadable(c);
  }

  lemma {:induction false} SymbolsAreKept(s: string)
    requires AllSymbols(s)
    ensures Kept(s) == s && Readable(s)
  {
    if s != "" {
      assert s == [s[0]] + s[1..];
      hide IsSymbol;
      SymbolsAppend([s[0]], s[1..]);
      SymbolsAreKept(s[1..]);
      SymbolIsKept(s[0]);
      ReadableAppend([s[0]], s[1..]);
      hide Readable;
      hide KeptOf;
    }
  }

  lemma CanonicalIsKept(code: string)
    requires IsCanonical(code)
    ensures Normal(code) == Some(code)
  {
    SymbolsAreKept(code);
  }

  /** A separator anywhere changes nothing. */
  lemma SeparatorsChangeNothing(a: string, sep: char, b: string)
    requires sep == '-' || sep == ' '
    ensures Normal(a + [sep] + b) == Normal(a + b)
  {
    hide IsSymbol;
    KeptAppend(a + [sep], b);
    KeptAppend(a, [sep]);
    KeptAppend(a, b);
    assert Kept([sep]) == "" && Kept(a) + "" == Kept(a);
    ReadableAppend(a + [sep], b);
    ReadableAppend(a, [sep]);
    ReadableAppend(a, b);
    assert Readable([sep]);
    hide Readable;
    hide Kept;
    assert Kept(a + [sep] + b) == Kept(a + b);
  }

  lemma ReadableAppend(a: string, b: string)
    ensures Readable(a + b) <==> Readable(a) && Readable(b)
  {
    var s := a + b;
    assert forall i :: 0 <= i < |a| ==> a[i] == s[i];
    assert forall i :: 0 <= i < |b| ==> b[i] == s[|a| + i];
    assert forall i :: |a| <= i < |s| ==> s[i] == b[i - |a|];
  }

  predicate SameLetter(r: char, q: char) {
    r == q || r == Lower(q) || q == Lower(r)
  }

  lemma SameLetterSame(r: char, q: char)
    requires SameLetter(r, q)
    ensures KeptOf(r) == KeptOf(q)
  {
  }

  lemma {:induction false} SameLettersKeep(a: string, b: string)
    requires |a| == |b| && forall i :: 0 <= i < |a| ==> SameLetter(a[i], b[i])
    ensures Kept(a) == Kept(b)
  {
    if a != "" {
      var x, y := a[1..], b[1..];
      assert forall i :: 0 <= i < |x| ==> x[i] == a[i + 1] && y[i] == b[i + 1];
      SameLettersKeep(x, y);
      SameLetterSame(a[0], b[0]);
      hide SameLetter;
      hide KeptOf;
    }
  }

  /** Nor does the case of any letter. */
  lemma CaseChangesNothing(a: string, b: string)
    requires |a| == |b| && forall i :: 0 <= i < |a| ==> SameLetter(a[i], b[i])
    ensures Normal(a) == Normal(b) && Kept(a) == Kept(b) && (Readable(a) <==> Readable(b))
  {
    SameLettersKeep(a, b);
    KeptIsRead(a);
    KeptIsRead(b);
    hide Readable;
    hide Kept;
  }

  lemma FormatIsGroups(code: string)
    requires |code| == CODE_LEN
    ensures var (a, b, c) := (code[0..4], code[4..8], code[8..12]);
            && Format(code) == a + ['-'] + (b + ['-'] + c)
            && a + (b + ['-'] + c) == (a + b) + ['-'] + c
            && (a + b) + c == code
  {
  }

  /** Reading what is shown gives the code back. */
  lemma FormatIsReadBack(code: string)
    requires IsCanonical(code)
    ensures Normal(Format(code)) == Some(code)
  {
    CanonicalIsKept(code);
    FormatIsGroups(code);
    hide *;
    var a, b, c := code[0..4], code[4..8], code[8..12];
    SeparatorsChangeNothing(a, '-', b + ['-'] + c);
    SeparatorsChangeNothing(a + b, '-', c);
  }

  /** What is shown are the twelve symbols in order, with a hyphen after the fourth and after the eighth. */
  lemma ShownInThreeGroups(code: string, i: nat)
    requires |code| == 12 && i < 14
    ensures |Format(code)| == 14
    ensures Format(code)[i] == if i < 4 then code[i] else if i == 4 || i == 9 then '-' else if i < 9 then code[i - 1] else code[i - 2]
  {
  }

  // Every symbol is as likely as any other.

  function ValueOf(c: char): (k: nat)
    requires InAlphabet(c)
    ensures k < 32
  {
    if '0' <= c <= '9' then (c - '0') as int
    else if c < 'I' then (c - 'A') as int + 10
    else if c < 'L' then (c - 'J') as int + 18
    else if c < 'O' then (c - 'M') as int + 20
    else if c < 'U' then (c - 'P') as int + 22
    else (c - 'V') as int + 27
  }

  function CharAt(k: nat): char
    requires k < 32
  {
    if k < 10 then '0' + k as char
    else if k < 18 then 'A' + (k - 10) as char
    else if k < 20 then 'J' + (k - 18) as char
    else if k < 22 then 'M' + (k - 20) as char
    else if k < 27 then 'P' + (k - 22) as char
    else 'V' + (k - 27) as char
  }

  lemma AlphabetAt(k: nat)
    requires k < 32
    ensures ALPHABET[k] == CharAt(k)
  {
  }

  lemma OneValue(c: char, k: nat)
    requires InAlphabet(c) && k < 32
    ensures CharAt(k) == c <==> k == ValueOf(c)
  {
  }

  ghost function BytesFor(c: char): set<int> {
    set b: int | 0 <= b < 256 && SymbolOf(b) == c
  }

  function EightFrom(k: nat): set<int> {
    {k, k + 32, k + 64, k + 96, k + 128, k + 160, k + 192, k + 224}
  }

  lemma EightIsEight(k: nat)
    ensures |EightFrom(k)| == 8
  {
    var four, more := {k, k + 32, k + 64, k + 96}, {k + 128, k + 160, k + 192, k + 224};
    assert EightFrom(k) == four + more && four !! more;
    assert |four| == 4 && |more| == 4;
  }

  lemma InEight(k: nat, b: int)
    requires k < 32
    ensures b in EightFrom(k) <==> 0 <= b < 256 && b % 32 == k
  {
    if 0 <= b < 256 {
      assert b == b / 32 * 32 + b % 32 && 0 <= b / 32 < 8;
    }
  }

  /** Each symbol comes from exactly eight of the 256 byte values. */
  lemma EightBytesEach(c: char)
    requires IsSymbol(c)
    ensures |BytesFor(c)| == 8
  {
    AlphabetIs(c);
    hide IsSymbol;
    var k := ValueOf(c);
    forall b: int | 0 <= b < 256 ensures SymbolOf(b) == c <==> b % 32 == k {
      AlphabetAt(b % 32);
      OneValue(c, b % 32);
    }
    hide SymbolOf;
    hide ValueOf;
    hide InAlphabet;
    forall b: int ensures b in BytesFor(c) <==> b in EightFrom(k) {
      InEight(k, b);
    }
    hide EightFrom;
    assert BytesFor(c) == EightFrom(k);
    EightIsEight(k);
  }
}
