// The address that pairing codes carry (agent/internal/config/advertise.go),
// and how it is printed (addressOf in agent/internal/admin/admin.go).
//
// What an IP address and what white space is comes from the Go library, as the
// functions isIP and isSpace.
module Addresses {
  import opened Common

  datatype Wrong =
    | NoClosingBracket | AfterBracket | TooManyColons
    | NoHost | HostHas(c: char) | WhiteSpace | ColonButNoIP
    | NoPort | BadPort | HasScheme

  datatype Result<+T> = Ok(value: T) | Err(wrong: Wrong)

  datatype HostPort = HostPort(host: string, port: string)

  datatype Advertise = Advertise(scheme: string, host: string, port: string)

  /** The tests of the library that the parser uses. */
  datatype Library = Library(isIP: string -> bool, isSpace: char -> bool)
  {
    /** All that is needed of it: an IP address with a colon has two, and the characters of a port are no white space. */
    ghost predicate Sound() {
      && (forall s :: isIP(s) && ':' in s ==> Colons(s) >= 2)
      && (forall c :: IsDigit(c) || c in ":[]" ==> !isSpace(c))
    }
  }

  predicate IsDigit(c: char) {
    '0' <= c <= '9'
  }

  function Colons(s: string): nat {
    if s == "" then 0 else (if s[0] == ':' then 1 else 0) + Colons(s[1..])
  }

  /** The first place of a character in s, or |s|: strings.IndexByte. */
  function IndexOf(s: string, c: char): (i: nat)
    ensures i <= |s| && (i < |s| ==> s[i] == c) && forall j :: 0 <= j < i ==> s[j] != c
  {
    if s == "" || s[0] == c then 0 else 1 + IndexOf(s[1..], c)
  }

  predicate IsBad(c: char) {
    c in "/?#@[]"
  }

  /** The first place of a character that must not be in a host, or |s|. */
  function IndexBad(s: string): (i: nat)
    ensures i <= |s| && (i < |s| ==> IsBad(s[i])) && forall j :: 0 <= j < i ==> !IsBad(s[j])
  {
    if s == "" || IsBad(s[0]) then 0 else 1 + IndexBad(s[1..])
  }

  predicate HasSpace(lib: Library, s: string) {
    exists i :: 0 <= i < |s| && lib.isSpace(s[i])
  }

  function CheckHost(lib: Library, host: string): Option<Wrong> {
    if host == "" then Some(NoHost)
    else if IndexBad(host) < |host| then Some(HostHas(host[IndexBad(host)]))
    else if HasSpace(lib, host) then Some(WhiteSpace)
    else if ':' in host && !lib.isIP(host) then Some(ColonButNoIP)
    else None
  }

  /** strconv.ParseUint in base ten, where it has a value at all. */
  function Number(s: string): nat
    requires forall i :: 0 <= i < |s| ==> IsDigit(s[i])
  {
    if s == "" then 0
    else
      assert IsDigit(s[|s| - 1]);
      10 * Number(s[..|s| - 1]) + (s[|s| - 1] as int - '0' as int)
  }

  /** A number from 1 to 65535; zeros in front are allowed. */
  predicate IsPort(port: string) {
    port != "" && (forall i :: 0 <= i < |port| ==> IsDigit(port[i])) && 1 <= Number(port) <= 65535
  }

  function CheckPort(port: string): Option<Wrong> {
    if port == "" then Some(NoPort)
    else if !IsPort(port) then Some(BadPort)
    else None
  }

  /** What the value is cut into before the parts are checked; the port is there when a colon announced one. */
  function Cut(lib: Library, value: string): Result<(string, Option<string>)> {
    if "[" <= value then
      var end := IndexOf(value, ']');
      if end == |value| then Err(NoClosingBracket)
      else
        var rest := value[end + 1..];
        if rest == "" then Ok((value[1..end], None))
        else if rest[0] != ':' then Err(AfterBracket)
        else Ok((value[1..end], Some(rest[1..])))
    else if lib.isIP(value) || ':' !in value then Ok((value, None))
    else if Colons(value) == 1 then
      var at := IndexOf(value, ':');
      Ok((value[..at], Some(if at < |value| then value[at + 1..] else "")))
    else Err(TooManyColons)
  }

  function SplitAddress(lib: Library, value: string): Result<HostPort> {
    match Cut(lib, value)
    case Err(e) => Err(e)
    case Ok((host, port)) =>
      if CheckHost(lib, host).Some? then Err(CheckHost(lib, host).value)
      else if port.Some? && CheckPort(port.value).Some? then Err(CheckPort(port.value).value)
      else Ok(HostPort(host, if port.Some? then port.value else ""))
  }

  function TrimLeft(lib: Library, s: string): string {
    if s != "" && lib.isSpace(s[0]) then TrimLeft(lib, s[1..]) else s
  }

  function TrimRight(lib: Library, s: string): string {
    if s != "" && lib.isSpace(s[|s| - 1]) then TrimRight(lib, s[..|s| - 1]) else s
  }

  function TrimSpace(lib: Library, s: string): string {
    TrimRight(lib, TrimLeft(lib, s))
  }

  predicate Contains(s: string, t: string) {
    exists i :: 0 <= i <= |s| && t <= s[i..]
  }

  /** ParseAdvertise when the agent serves its own certificate. */
  function ParseAdvertise(lib: Library, typed: string, listenPort: string): Result<Advertise> {
    var value := TrimSpace(lib, typed);
    if value == "" then Ok(Advertise("", "", listenPort))
    else if Contains(value, "://") then Err(HasScheme)
    else
      match SplitAddress(lib, value)
      case Err(e) => Err(e)
      case Ok(hp) => Ok(Advertise("", hp.host, if hp.port == "" then listenPort else hp.port))
  }

  function WithHost(lib: Library, a: Advertise, typed: string): Result<Advertise> {
    var value := TrimSpace(lib, typed);
    if value == "" then Ok(a)
    else if Contains(value, "://") then Err(HasScheme)
    else
      match SplitAddress(lib, value)
      case Err(e) => Err(e)
      case Ok(hp) => Ok(a.(host := hp.host, port := if hp.port == "" then a.port else hp.port))
  }

  function JoinHostPort(host: string, port: string): string {
    if ':' in host then "[" + host + "]:" + port else host + ":" + port
  }

  function AddressOf(a: Advertise): string {
    if a.host == "" then ""
    else (if a.scheme == "" then "" else a.scheme + "://") + JoinHostPort(a.host, a.port)
  }

  // What is accepted.

  predicate IsHost(lib: Library, host: string) {
    && host != "" && (forall i :: 0 <= i < |host| ==> host[i] !in "/?#@[]" && !lib.isSpace(host[i]))
    && (':' in host ==> lib.isIP(host))
  }

  /** The forms of an address: host, [host], host:port without a colon in the host, [host]:port. */
  predicate IsWritten(lib: Library, value: string, hp: HostPort) {
    && IsHost(lib, hp.host)
    && if hp.port == "" then value == hp.host || value == "[" + hp.host + "]"
       else IsPort(hp.port)
            && (value == "[" + hp.host + "]:" + hp.port || (':' !in hp.host && value == hp.host + ":" + hp.port))
  }

  lemma CheckHostIsExact(lib: Library, host: string)
    ensures CheckHost(lib, host) == None <==> IsHost(lib, host)
  {
  }

  lemma {:induction false} NoColons(s: string)
    ensures Colons(s) == 0 <==> ':' !in s
  {
    if s != "" {
      NoColons(s[1..]);
    }
  }

  lemma {:induction false} ColonsAppend(a: string, b: string)
    ensures Colons(a + b) == Colons(a) + Colons(b)
  {
    if a == "" {
      assert a + b == b;
    } else {
      ColonsAppend(a[1..], b);
      assert (a + b)[1..] == a[1..] + b;
    }
  }

  lemma OneColon(host: string, port: string)
    requires ':' !in host
    ensures Colons(host + ":" + port) == 1 + Colons(port)
  {
    ColonsAppend(host + ":", port);
    ColonsAppend(host, ":");
    NoColons(host);
  }

  lemma IndexIs(s: string, c: char, i: nat)
    requires i < |s| && s[i] == c && forall j :: 0 <= j < i ==> s[j] != c
    ensures IndexOf(s, c) == i
  {
  }

  lemma PortHasNoColon(port: string)
    requires IsPort(port)
    ensures ':' !in port && Colons(port) == 0
  {
    NoColons(port);
  }

  /** An address in one of the forms is cut in the right place. */
  lemma BareIsCut(lib: Library, hp: HostPort)
    requires lib.Sound() && IsHost(lib, hp.host)
    ensures Cut(lib, hp.host) == Ok((hp.host, None))
    ensures IsPort(hp.port) && ':' !in hp.host ==> Cut(lib, hp.host + ":" + hp.port) == Ok((hp.host, Some(hp.port)))
  {
    var value := hp.host + ":" + hp.port;
    assert value[0] == hp.host[0] != '[';
    if IsPort(hp.port) && ':' !in hp.host {
      PortHasNoColon(hp.port);
      OneColon(hp.host, hp.port);
      assert value[|hp.host|] == ':';
      IndexIs(value, ':', |hp.host|);
      assert value[..|hp.host|] == hp.host && value[|hp.host| + 1..] == hp.port;
      assert !lib.isIP(value);
    }
  }

  lemma BracketsAreCut(lib: Library, hp: HostPort)
    requires IsHost(lib, hp.host)
    ensures Cut(lib, "[" + hp.host + "]") == Ok((hp.host, None))
    ensures Cut(lib, "[" + hp.host + "]:" + hp.port) == Ok((hp.host, Some(hp.port)))
  {
    var open := "[" + hp.host + "]";
    forall j | 0 <= j < |hp.host| + 1 ensures open[j] != ']' {
      assert j > 0 ==> open[j] == hp.host[j - 1];
    }
    IndexIs(open, ']', |hp.host| + 1);
    var value := open + ":" + hp.port;
    assert value == "[" + hp.host + "]:" + hp.port;
    forall j | 0 <= j < |hp.host| + 1 ensures value[j] != ']' {
      assert value[j] == open[j];
    }
    IndexIs(value, ']', |hp.host| + 1);
    assert value[|hp.host| + 2..] == ":" + hp.port;
    assert value[1..|hp.host| + 1] == hp.host;
  }

  lemma BracketParts(value: string, end: nat)
    requires 0 < end < |value| && value[0] == '[' && value[end] == ']'
    ensures value == "[" + value[1..end] + "]" + value[end + 1..]
  {
  }

  lemma BracketPort(value: string, end: nat)
    requires 0 < end < |value| - 1 && value[0] == '[' && value[end] == ']' && value[end + 1] == ':'
    ensures value == "[" + value[1..end] + "]:" + value[end + 1..][1..]
  {
  }

  lemma ColonParts(value: string, at: nat)
    requires at < |value| && value[at] == ':'
    ensures value == value[..at] + ":" + value[at + 1..]
  {
  }

  /** Wherever a value is cut, it is put together from the parts. */
  lemma CutParts(lib: Library, value: string)
    requires lib.Sound() && Cut(lib, value).Ok?
    ensures var (host, port) := Cut(lib, value).value;
            match port
            case None => value == host || value == "[" + host + "]"
            case Some(p) => value == "[" + host + "]:" + p || (':' !in host && value == host + ":" + p)
  {
    hide lib.Sound;
    if "[" <= value {
      var end := IndexOf(value, ']');
      hide IndexOf;
      BracketParts(value, end);
      if end + 1 < |value| {
        BracketPort(value, end);
      }
    } else if !lib.isIP(value) && ':' in value {
      NoColons(value);
      var at := IndexOf(value, ':');
      hide IndexOf;
      hide Colons;
      ColonParts(value, at);
    }
  }

  /** SplitAddress accepts the four forms, with those parts, and nothing else. */
  lemma SplitIsExact(lib: Library, value: string, hp: HostPort)
    requires lib.Sound()
    ensures SplitAddress(lib, value) == Ok(hp) <==> IsWritten(lib, value, hp)
  {
    if Cut(lib, value).Ok? {
      CutParts(lib, value);
      CheckHostIsExact(lib, Cut(lib, value).value.0);
    }
    if IsWritten(lib, value, hp) {
      BareIsCut(lib, hp);
      BracketsAreCut(lib, hp);
      CheckHostIsExact(lib, hp.host);
    }
    hide Cut;
    hide CheckHost;
    hide IsHost;
  }

  // What the accepted ports and texts are, said without the functions that find out.

  /** A number as it is usually written. */
  function Decimal(n: nat): string {
    if n < 10 then ['0' + n as char] else Decimal(n / 10) + ['0' + (n % 10) as char]
  }

  function Zeros(k: nat): string {
    seq(k, _ => '0')
  }

  ghost predicate AllDigits(s: string) {
    forall i :: 0 <= i < |s| ==> IsDigit(s[i])
  }

  lemma NumberAppend(s: string, d: char)
    requires AllDigits(s) && IsDigit(d)
    ensures AllDigits(s + [d]) && Number(s + [d]) == 10 * Number(s) + (d as int - '0' as int)
  {
    assert (s + [d])[..|s|] == s;
  }

  lemma {:induction false} ZerosAreNothing(k: nat)
    ensures AllDigits(Zeros(k)) && Number(Zeros(k)) == 0
  {
    if k > 0 {
      ZerosAreNothing(k - 1);
      assert Zeros(k) == Zeros(k - 1) + ['0'];
      NumberAppend(Zeros(k - 1), '0');
    }
  }

  lemma {:induction false} DecimalIsRead(k: nat, n: nat)
    ensures AllDigits(Zeros(k) + Decimal(n)) && Number(Zeros(k) + Decimal(n)) == n && Decimal(n) != ""
  {
    if n < 10 {
      ZerosAreNothing(k);
      NumberAppend(Zeros(k), '0' + n as char);
    } else {
      DecimalIsRead(k, n / 10);
      NumberAppend(Zeros(k) + Decimal(n / 10), '0' + (n % 10) as char);
      assert Zeros(k) + Decimal(n) == (Zeros(k) + Decimal(n / 10)) + ['0' + (n % 10) as char];
    }
  }

  lemma {:induction false} DigitsAreDecimal(s: string) returns (k: nat)
    requires AllDigits(s)
    ensures if Number(s) == 0 then s == Zeros(|s|) else s == Zeros(k) + Decimal(Number(s))
  {
    k := 0;
    if s != "" {
      var front, d := s[..|s| - 1], s[|s| - 1];
      assert s == front + [d];
      k := DigitsAreDecimal(front);
      NumberAppend(front, d);
      if Number(front) == 0 {
        k := |front|;
        assert Zeros(|s|) == Zeros(|front|) + ['0'];
      } else {
        assert Zeros(k) + (Decimal(Number(front)) + [d]) == (Zeros(k) + Decimal(Number(front))) + [d];
      }
    }
  }

  /** The ports are the numbers from 1 to 65535, as they are written, with any zeros in front. */
  lemma PortsAreNumbers(port: string)
    ensures IsPort(port) <==> exists k, n :: 1 <= n <= 65535 && port == Zeros(k) + Decimal(n)
  {
    if IsPort(port) {
      var k := DigitsAreDecimal(port);
      assert port == Zeros(k) + Decimal(Number(port));
    }
    forall k, n | 1 <= n <= 65535 && port == Zeros(k) + Decimal(n) ensures IsPort(port) {
      DecimalIsRead(k, n);
    }
  }

  lemma {:induction false} TrimLeftIsExact(lib: Library, s: string) returns (i: nat)
    ensures i <= |s| && TrimLeft(lib, s) == s[i..] && (i < |s| ==> !lib.isSpace(s[i]))
    ensures forall k :: 0 <= k < i ==> lib.isSpace(s[k])
  {
    i := 0;
    if s != "" && lib.isSpace(s[0]) {
      var rest := TrimLeftIsExact(lib, s[1..]);
      i := rest + 1;
      assert s[1..][rest..] == s[i..];
      assert forall k :: 0 < k < i ==> s[k] == s[1..][k - 1];
    }
  }

  lemma {:induction false} TrimRightIsExact(lib: Library, s: string) returns (j: nat)
    ensures j <= |s| && TrimRight(lib, s) == s[..j] && (j > 0 ==> !lib.isSpace(s[j - 1]))
    ensures forall k :: j <= k < |s| ==> lib.isSpace(s[k])
  {
    j := |s|;
    if s != "" && lib.isSpace(s[|s| - 1]) {
      var front := s[..|s| - 1];
      j := TrimRightIsExact(lib, front);
      assert front[..j] == s[..j];
      assert forall k :: j <= k < |s| - 1 ==> s[k] == front[k];
    }
  }

  /** What is trimmed away is the white space at both ends, and all of it. */
  lemma TrimIsExact(lib: Library, s: string) returns (i: nat, j: nat)
    ensures i <= j <= |s| && TrimSpace(lib, s) == s[i..j]
    ensures i < j ==> !lib.isSpace(s[i]) && !lib.isSpace(s[j - 1])
    ensures forall k :: 0 <= k < i || j <= k < |s| ==> lib.isSpace(s[k])
  {
    i := TrimLeftIsExact(lib, s);
    var rest := s[i..];
    var n := TrimRightIsExact(lib, rest);
    j := i + n;
    assert rest[..n] == s[i..j];
    assert forall k :: i <= k < |s| ==> s[k] == rest[k - i];
  }

  /**
   * The agent takes nothing, for no address, or one of the written forms
   * without a scheme; the port it listens on stands in for one that is missing.
   */
  lemma ParsedIsExact(lib: Library, typed: string, listenPort: string, a: Advertise)
    requires lib.Sound()
    ensures ParseAdvertise(lib, typed, listenPort) == Ok(a) <==>
            var value := TrimSpace(lib, typed);
            if value == "" then a == Advertise("", "", listenPort)
            else
              && !Contains(value, "://")
              && exists hp :: IsWritten(lib, value, hp) && a == Advertise("", hp.host, if hp.port == "" then listenPort else hp.port)
  {
    var value := TrimSpace(lib, typed);
    if SplitAddress(lib, value).Ok? {
      SplitIsExact(lib, value, SplitAddress(lib, value).value);
    }
    forall hp | IsWritten(lib, value, hp) ensures SplitAddress(lib, value) == Ok(hp) {
      SplitIsExact(lib, value, hp);
    }
    hide SplitAddress;
    hide TrimSpace;
    hide IsWritten;
    hide Contains;
  }

  lemma CutReason(lib: Library, value: string)
    requires Cut(lib, value).Err?
    ensures value != ""
    ensures match Cut(lib, value).wrong
            case NoClosingBracket => value[0] == '[' && ']' !in value
            case AfterBracket => value[0] == '[' && exists i :: 0 < i < |value| - 1 && value[i] == ']' && value[i + 1] != ':'
            case TooManyColons => value[0] != '[' && Colons(value) > 1 && !lib.isIP(value)
            case _ => false
  {
    NoColons(value);
    hide Colons;
    if "[" <= value {
      var end := IndexOf(value, ']');
      if end < |value| {
        assert value[end + 1..] != "" ==> value[end + 1..][0] == value[end + 1];
      }
    }
  }

  /** The parts that a value is cut into are parts of it. */
  lemma PartsAreInside(lib: Library, value: string)
    requires Cut(lib, value).Ok?
    ensures var (host, port) := Cut(lib, value).value;
            && (forall i :: 0 <= i < |host| ==> host[i] in value)
            && (host == "" ==> value == "" || value[0] == ':' || "[]" <= value)
            && (':' in host ==> value != "" && (value[0] == '[' || (host == value && lib.isIP(value))))
            && (port.Some? ==> ':' in value && (port.value == "" ==> value[|value| - 1] == ':'))
  {
    NoColons(value);
    hide Colons;
    if "[" <= value {
      var end := IndexOf(value, ']');
      if end < |value| {
        assert forall i :: 1 <= i < end ==> value[1..end][i - 1] == value[i];
        assert value[end + 1..] != "" ==> value[end + 1..][0] == value[end + 1];
      }
    }
  }

  lemma HostReason(lib: Library, host: string)
    requires CheckHost(lib, host).Some?
    ensures match CheckHost(lib, host).value
            case NoHost => host == ""
            case HostHas(c) => (exists i :: 0 <= i < |host| && host[i] == c) && c in "/?#@[]"
            case WhiteSpace => exists i :: 0 <= i < |host| && lib.isSpace(host[i])
            case ColonButNoIP => ':' in host && !lib.isIP(host)
            case _ => false
  {
  }

  lemma SplitFails(lib: Library, value: string)
    requires SplitAddress(lib, value).Err?
    ensures match Cut(lib, value)
            case Err(e) => SplitAddress(lib, value).wrong == e
            case Ok((host, port)) =>
              if CheckHost(lib, host).Some? then SplitAddress(lib, value).wrong == CheckHost(lib, host).value
              else port.Some? && SplitAddress(lib, value).wrong == if port.value == "" then NoPort else BadPort
  {
    hide Cut;
    hide CheckHost;
    hide IsPort;
  }

  /** The reason of a refusal is true of what was typed. */
  lemma ReasonIsTrue(lib: Library, value: string)
    requires SplitAddress(lib, value).Err?
    ensures match SplitAddress(lib, value).wrong
            case NoClosingBracket => value != "" && value[0] == '[' && ']' !in value
            case AfterBracket => value != "" && value[0] == '[' && exists i :: 0 < i < |value| - 1 && value[i] == ']' && value[i + 1] != ':'
            case TooManyColons => value != "" && value[0] != '[' && Colons(value) > 1 && !lib.isIP(value)
            case NoHost => value == "" || value[0] == ':' || "[]" <= value
            case HostHas(c) => c in value && c in "/?#@[]"
            case WhiteSpace => exists c :: c in value && lib.isSpace(c)
            case ColonButNoIP => value != "" && value[0] == '[' && ':' in value
            case NoPort => value != "" && value[|value| - 1] == ':'
            case BadPort => ':' in value
            case HasScheme => false
  {
    hide *;
    SplitFails(lib, value);
    if Cut(lib, value).Err? {
      CutReason(lib, value);
    } else {
      var (host, port) := Cut(lib, value).value;
      PartsAreInside(lib, value);
      if CheckHost(lib, host).Some? {
        HostReason(lib, host);
      }
    }
  }

  // Printing and reading back.

  /** An address with a port is read back as it was, with brackets around a host with colons and none around any other. */
  lemma JoinedIsReadBack(lib: Library, hp: HostPort)
    requires lib.Sound() && IsHost(lib, hp.host) && IsPort(hp.port)
    ensures SplitAddress(lib, JoinHostPort(hp.host, hp.port)) == Ok(hp)
    ensures "[" <= JoinHostPort(hp.host, hp.port) <==> ':' in hp.host
  {
    SplitIsExact(lib, JoinHostPort(hp.host, hp.port), hp);
    assert !IsBad(hp.host[0]);
    hide SplitAddress;
    hide IsPort;
    assert hp.host[0] == (hp.host + ":" + hp.port)[0];
  }

  /** Whatever was accepted with a port can be printed and read again. */
  lemma AcceptedIsReadBack(lib: Library, value: string)
    requires lib.Sound() && SplitAddress(lib, value).Ok?
    ensures var hp := SplitAddress(lib, value).value;
            hp.port != "" ==> SplitAddress(lib, JoinHostPort(hp.host, hp.port)) == Ok(hp)
  {
    var hp := SplitAddress(lib, value).value;
    SplitIsExact(lib, value, hp);
    hide SplitAddress;
    if hp.port != "" {
      JoinedIsReadBack(lib, hp);
    }
  }

  lemma TrimNothing(lib: Library, s: string)
    requires s != "" ==> !lib.isSpace(s[0]) && !lib.isSpace(s[|s| - 1])
    ensures TrimSpace(lib, s) == s
  {
  }

  lemma {:induction false} TrimRightKeeps(lib: Library, a: string, b: string)
    requires a != "" && !lib.isSpace(a[|a| - 1])
    ensures exists k :: 0 <= k <= |b| && TrimRight(lib, a + b) == a + b[..k]
  {
    var s := a + b;
    if lib.isSpace(s[|s| - 1]) {
      assert s[|s| - 1] == b[|b| - 1];
      assert s[..|s| - 1] == a + b[..|b| - 1];
      TrimRightKeeps(lib, a, b[..|b| - 1]);
      var k :| 0 <= k <= |b| - 1 && TrimRight(lib, a + b[..|b| - 1]) == a + b[..|b| - 1][..k];
      assert b[..|b| - 1][..k] == b[..k];
    } else {
      assert b[..|b|] == b;
    }
  }

  /** The host with what stands around it and the colon; the port comes after it. */
  function Front(host: string): string {
    if ':' in host then "[" + host + "]:" else host + ":"
  }

  /** Of a printed address only the end of the port can be trimmed away. */
  lemma TrimmedAddress(lib: Library, host: string, port: string)
    requires lib.Sound() && IsHost(lib, host)
    ensures exists k :: 0 <= k <= |port| && TrimSpace(lib, JoinHostPort(host, port)) == Front(host) + port[..k]
    ensures IsPort(port) ==> TrimSpace(lib, JoinHostPort(host, port)) == JoinHostPort(host, port)
  {
    var s, front := JoinHostPort(host, port), Front(host);
    assert s == front + port;
    assert s[0] == front[0] && !lib.isSpace(host[0]);
    assert front[0] == host[0] || front[0] == '[';
    assert front[|front| - 1] == ':';
    assert TrimLeft(lib, s) == s;
    TrimRightKeeps(lib, front, port);
    if IsPort(port) {
      assert s[|s| - 1] == port[|port| - 1];
      assert IsDigit(port[|port| - 1]);
      TrimNothing(lib, s);
    }
  }

  lemma NoScheme(lib: Library, host: string, port: string)
    requires IsHost(lib, host) && IsPort(port)
    ensures !Contains(JoinHostPort(host, port), "://")
  {
    var s := JoinHostPort(host, port);
    forall i | 0 <= i < |s| ensures s[i] != '/' {
      var at := if ':' in host then i - 1 else i;
      if 0 <= at < |host| {
        assert s[i] == host[at] && !IsBad(host[at]);
      } else if at >= |host| + (if ':' in host then 2 else 1) {
        var j := at - |host| - if ':' in host then 2 else 1;
        assert s[i] == port[j] && IsDigit(port[j]);
      }
    }
    forall i | 0 <= i <= |s| ensures !("://" <= s[i..]) {
      if i + 1 < |s| {
        assert s[i..][1] == s[i + 1];
      }
    }
  }

  lemma PrintedPortIsParsed(lib: Library, host: string, port: string, listenPort: string)
    requires lib.Sound() && IsHost(lib, host) && IsPort(port)
    ensures ParseAdvertise(lib, JoinHostPort(host, port), listenPort) == Ok(Advertise("", host, port))
    ensures forall a :: WithHost(lib, a, JoinHostPort(host, port)) == Ok(a.(host := host, port := port))
  {
    TrimmedAddress(lib, host, port);
    NoScheme(lib, host, port);
    JoinedIsReadBack(lib, HostPort(host, port));
    hide SplitAddress;
    hide TrimSpace;
    hide IsHost;
    hide Contains;
  }

  lemma BadPortIsNotParsed(lib: Library, host: string, port: string)
    requires lib.Sound() && IsHost(lib, host) && !IsPort(port)
    ensures ParseAdvertise(lib, JoinHostPort(host, port), port) != Ok(Advertise("", host, port))
  {
    TrimmedAddress(lib, host, port);
    var value := TrimSpace(lib, JoinHostPort(host, port));
    var k :| 0 <= k <= |port| && value == Front(host) + port[..k];
    assert host[0] != '[' by {
      assert !IsBad(host[0]);
    }
    if SplitAddress(lib, value).Ok? {
      var hp := SplitAddress(lib, value).value;
      SplitIsExact(lib, value, hp);
      hide SplitAddress;
      hide TrimSpace;
      assert value[0] == Front(host)[0];
      assert hp.host == host ==> hp.port != "";
    }
  }

  lemma ParsedHost(lib: Library, typed: string, listenPort: string)
    requires lib.Sound() && ParseAdvertise(lib, typed, listenPort).Ok?
    ensures var a := ParseAdvertise(lib, typed, listenPort).value;
            a.scheme == "" && (a.host == "" ==> a.port == listenPort) && (a.host != "" ==> IsHost(lib, a.host))
            && (a.host == "" <==> TrimSpace(lib, typed) == "")
            && (IsPort(a.port) || a.port == listenPort)
  {
    var value := TrimSpace(lib, typed);
    if SplitAddress(lib, value).Ok? {
      SplitIsExact(lib, value, SplitAddress(lib, value).value);
    }
    hide SplitAddress;
    hide TrimSpace;
  }

  lemma PrintedAddress(a: Advertise)
    requires a.scheme == "" && a.host != ""
    ensures AddressOf(a) == JoinHostPort(a.host, a.port) && a == Advertise("", a.host, a.port)
  {
    hide JoinHostPort;
    assert "" + JoinHostPort(a.host, a.port) == JoinHostPort(a.host, a.port);
  }

  /** With a scheme the address is a URL: the scheme, "://", and the address without it. */
  lemma PrintedWithScheme(a: Advertise)
    requires a.scheme != "" && a.host != ""
    ensures AddressOf(a) == a.scheme + "://" + AddressOf(a.(scheme := ""))
  {
    hide JoinHostPort;
    var rest := JoinHostPort(a.host, a.port);
    assert "" + rest == rest;
  }

  lemma NothingPrinted(lib: Library, a: Advertise)
    requires a.scheme == "" && a.host == ""
    ensures ParseAdvertise(lib, AddressOf(a), a.port) == Ok(a) && WithHost(lib, a, AddressOf(a)) == Ok(a)
  {
    assert TrimSpace(lib, "") == "";
    hide SplitAddress;
  }

  /**
   * What the agent prints as its address is parsed to the same again, if and
   * only if there is no host, and so nothing is printed, or the port is a number.
   */
  lemma PrintedIsParsedIff(lib: Library, typed: string, listenPort: string)
    requires lib.Sound() && ParseAdvertise(lib, typed, listenPort).Ok?
    ensures var a := ParseAdvertise(lib, typed, listenPort).value;
            ParseAdvertise(lib, AddressOf(a), listenPort) == Ok(a) <==> a.host == "" || IsPort(a.port)
  {
    hide *;
    ParsedHost(lib, typed, listenPort);
    var a := ParseAdvertise(lib, typed, listenPort).value;
    if a.host == "" {
      NothingPrinted(lib, a);
    } else {
      PrintedAddress(a);
      if IsPort(a.port) {
        PrintedPortIsParsed(lib, a.host, a.port, listenPort);
      } else {
        BadPortIsNotParsed(lib, a.host, a.port);
      }
    }
  }

  // A library that knows no IP addresses and one kind of white space, for an example.
  const SMALL_LIBRARY := Library(s => false, c => c == ' ')

  const SERVICE := Advertise("", "nas", "https")

  lemma SmallLibraryIsSound()
    ensures SMALL_LIBRARY.Sound()
  {
  }

  lemma NasIsParsed()
    requires SMALL_LIBRARY.Sound()
    ensures ParseAdvertise(SMALL_LIBRARY, "nas", "https") == Ok(SERVICE)
  {
    var lib := SMALL_LIBRARY;
    TrimNothing(lib, "nas");
    assert IsWritten(lib, "nas", HostPort("nas", ""));
    SplitIsExact(lib, "nas", HostPort("nas", ""));
    hide SplitAddress;
    assert !Contains("nas", "://");
  }

  lemma HttpsIsNoPort()
    ensures !IsPort("https")
  {
    assert !IsDigit("https"[0]);
  }

  /** With the name of a service for a port the promise fails: "nas" is advertised as "nas:https", which is refused. */
  lemma ServiceNameIsNotReadBack()
    ensures SMALL_LIBRARY.Sound()
    ensures ParseAdvertise(SMALL_LIBRARY, "nas", "https") == Ok(SERVICE)
    ensures AddressOf(SERVICE) == "nas:https"
    ensures ParseAdvertise(SMALL_LIBRARY, AddressOf(SERVICE), "https") != Ok(SERVICE)
  {
    assert AddressOf(SERVICE) == "nas:https";
    hide *;
    SmallLibraryIsSound();
    NasIsParsed();
    HttpsIsNoPort();
    PrintedIsParsedIff(SMALL_LIBRARY, "nas", "https");
  }

  /** WithHost takes and refuses what ParseAdvertise does, for the same reasons. */
  lemma SameRefusals(lib: Library, a: Advertise, typed: string)
    ensures var (w, p) := (WithHost(lib, a, typed), ParseAdvertise(lib, typed, a.port));
            && (w.Err? <==> p.Err?) && (w.Err? ==> w == p)
            && (w.Ok? && p.value.host != "" ==> w.value == p.value.(scheme := a.scheme))
            && (w.Ok? && p.value.host == "" && lib.Sound() ==> w.value == a)
  {
    var value := TrimSpace(lib, typed);
    if lib.Sound() && SplitAddress(lib, value).Ok? {
      SplitIsExact(lib, value, SplitAddress(lib, value).value);
    }
    hide SplitAddress;
    hide TrimSpace;
  }

  lemma PrintedIsNotNothing(lib: Library, host: string, port: string)
    requires lib.Sound() && IsHost(lib, host)
    ensures TrimSpace(lib, JoinHostPort(host, port)) != ""
  {
    TrimmedAddress(lib, host, port);
    hide TrimSpace;
    hide IsHost;
  }

  /** Typed again as the host of a pairing, the printed address changes nothing, on the same condition. */
  lemma WithPrintedHost(lib: Library, typed: string, listenPort: string)
    requires lib.Sound() && ParseAdvertise(lib, typed, listenPort).Ok?
    ensures var a := ParseAdvertise(lib, typed, listenPort).value;
            WithHost(lib, a, AddressOf(a)) == Ok(a) <==> a.host == "" || IsPort(a.port)
  {
    hide *;
    ParsedHost(lib, typed, listenPort);
    var a := ParseAdvertise(lib, typed, listenPort).value;
    if a.host == "" {
      NothingPrinted(lib, a);
    } else {
      PrintedAddress(a);
      if IsPort(a.port) {
        PrintedPortIsParsed(lib, a.host, a.port, listenPort);
      } else {
        BadPortIsNotParsed(lib, a.host, a.port);
        PrintedIsNotNothing(lib, a.host, a.port);
        SameRefusals(lib, a, AddressOf(a));
        if ParseAdvertise(lib, AddressOf(a), a.port).Ok? {
          ParsedHost(lib, AddressOf(a), a.port);
        }
      }
    }
  }
}
