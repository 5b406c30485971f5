/** Parsing and printing of WebSocket and HTTP URIs (section 3 of RFC 3986). */
module Uri {
  import opened Bytes

  const DEFAULT_PORT: nat := 80
  const DEFAULT_SECURE_PORT: nat := 443

  type Port = p: nat | p < 0x1_0000

  datatype Parts = Parts(scheme: string, secure: bool, host: string, port: Port, resource: string)

  function DefaultPort(secure: bool): Port {
    if secure then DEFAULT_SECURE_PORT else DEFAULT_PORT
  }

  // ---------------------------------------------------------------- numbers

  predicate IsDigit(c: char) {
    '0' <= c <= '9'
  }

  predicate IsSpace(c: char) {
    c as int == 32 || 9 <= c as int <= 13
  }

  /** The number that the digits at the front of a text spell after a number already read. */
  function DigitsOnto(n: nat, t: string): nat
    decreases |t|
  {
    if t == [] || !IsDigit(t[0]) then n else DigitsOnto(10 * n + (t[0] as int - '0' as int), t[1..])
  }

  /** `atoi`: white space, a sign, digits, and anything. */
  function Atoi(t: string): int
    decreases |t|
  {
    if t != [] && IsSpace(t[0]) then Atoi(t[1..])
    else if t != [] && t[0] == '-' then 0 - DigitsOnto(0, t[1..])
    else if t != [] && t[0] == '+' then DigitsOnto(0, t[1..])
    else DigitsOnto(0, t)
  }

  function Decimal(n: nat): (s: string)
    ensures s != [] && forall c :: c in s ==> IsDigit(c)
  {
    if n < 10 then [('0' as int + n) as char] else Decimal(n / 10) + [('0' as int + n % 10) as char]
  }

  lemma {:induction false} DigitsAppend(n: nat, s: string, c: char)
    requires (forall d :: d in s ==> IsDigit(d)) && IsDigit(c)
    ensures DigitsOnto(n, s + [c]) == 10 * DigitsOnto(n, s) + (c as int - '0' as int)
    decreases |s|
  {
    if s == [] {
      assert s + [c] == [c] && [c][1..] == [];
    } else {
      assert (s + [c])[1..] == s[1..] + [c];
      assert s[0] in s && IsDigit(s[0]);
      DigitsAppend(10 * n + (s[0] as int - '0' as int), s[1..], c);
    }
  }

  lemma {:induction false} DecimalReads(n: nat)
    ensures DigitsOnto(0, Decimal(n)) == n
  {
    if n >= 10 {
      DecimalReads(n / 10);
      DigitsAppend(0, Decimal(n / 10), ('0' as int + n % 10) as char);
    } else {
      var s := Decimal(n);
      assert s[1..] == [];
    }
  }

  lemma AtoiReads(n: nat)
    ensures Atoi(Decimal(n)) == n
  {
    DecimalReads(n);
    assert Decimal(n)[0] in Decimal(n);
    assert IsDigit(Decimal(n)[0]);
  }

  // ---------------------------------------------------------------- reading

  /** A scheme, whether it is secure, and what follows it; at least one character must. */
  function SchemeOf(s: string): (r: Option<(string, bool, string)>)
    ensures r.Some? ==> r.value.2 != []
  {
    if |s| >= 7 && "wss://" <= s then Some(("wss", true, s[6..]))
    else if |s| >= 6 && "ws://" <= s then Some(("ws", false, s[5..]))
    else if |s| >= 8 && "http://" <= s then Some(("http", false, s[7..]))
    else if |s| >= 9 && "https://" <= s then Some(("https", true, s[8..]))
    else None
  }

  datatype AfterHost = PortNext | ResourceNext

  /** A host name or an IPv4 address: everything up to a colon, a slash or the end. */
  function PlainHost(t: string): (r: (string, AfterHost, string))
    ensures |r.2| <= |t|
    ensures ':' !in r.0 && '/' !in r.0
  {
    if t == [] then ([], ResourceNext, [])
    else if t[0] == '/' then ([], ResourceNext, t[1..])
    else if t[0] == ':' then ([], PortNext, t[1..])
    else
      var (host, after, rest) := PlainHost(t[1..]);
      ([t[0]] + host, after, rest)
  }

  /** Everything up to a closing bracket, if there is one. */
  function UpToBracket(t: string): (r: Option<(string, string)>)
    ensures r.Some? ==> r.value.0 + "]" + r.value.1 == t && ']' !in r.value.0
  {
    if t == [] then None
    else if t[0] == ']' then Some(([], t[1..]))
    else
      match UpToBracket(t[1..])
      case None => None
      case Some((host, rest)) => Some(([t[0]] + host, rest))
  }

  function HostOf(t: string): Option<(string, AfterHost, string)>
    requires t != []
  {
    if t[0] != '[' then Some(PlainHost(t))
    else
      match UpToBracket(t[1..])
      case None => None
      case Some((host, rest)) =>
        if rest == [] then Some((host, ResourceNext, rest))
        else if rest[0] == '/' then Some((host, ResourceNext, rest[1..]))
        else if rest[0] == ':' then Some((host, PortNext, rest[1..]))
        else None
  }

  /** Everything up to a slash, which is consumed. */
  function PortText(t: string): (string, string) {
    if t == [] then ([], [])
    else if t[0] == '/' then ([], t[1..])
    else
      var (port, rest) := PortText(t[1..]);
      ([t[0]] + port, rest)
  }

  /** An empty port is the default one.  A number is converted to 32 bits without a sign, and one that is
    * then zero or too large is an error. */
  function PortOf(port: string, secure: bool): Option<Port> {
    if port == [] then Some(DefaultPort(secure))
    else
      var n := Atoi(port) % 0x1_0000_0000;
      if n > 65535 || n == 0 then None else Some(n)
  }

  function Parse(s: string): Option<Parts> {
    match SchemeOf(s)
    case None => None
    case Some((scheme, secure, t)) =>
      match HostOf(t)
      case None => None
      case Some((host, after, rest)) =>
        var (port, resource) := if after.PortNext? then PortText(rest) else ([], rest);
        match PortOf(port, secure)
        case None => None
        case Some(p) => Some(Parts(scheme, secure, host, p, "/" + resource))
  }

  // ---------------------------------------------------------------- printing

  function HostPort(u: Parts): string {
    if u.port == DefaultPort(u.secure) then u.host else u.host + ":" + Decimal(u.port)
  }

  function Str(u: Parts): string {
    u.scheme + "://" + HostPort(u) + u.resource
  }

  predicate KnownScheme(u: Parts) {
    (u.scheme, u.secure) in {("ws", false), ("wss", true), ("http", false), ("https", true)}
  }

  /** A host that the parser reads as it stands. */
  predicate Plain(host: string) {
    ':' !in host && '/' !in host && (host != [] ==> host[0] != '[')
  }

  predicate Rooted(resource: string) {
    resource != [] && resource[0] == '/'
  }

  // ---------------------------------------------------------------- round trip

  lemma SchemePrinted(u: Parts, t: string)
    requires KnownScheme(u) && t != []
    ensures SchemeOf(u.scheme + "://" + t) == Some((u.scheme, u.secure, t))
  {
    var s := u.scheme + "://" + t;
    if u.scheme == "ws" {
      assert s == "ws://" + t && s[2] == ':';
    } else if u.scheme == "wss" {
      assert s == "wss://" + t;
    } else if u.scheme == "http" {
      assert s == "http://" + t && s[0] == 'h';
    } else {
      assert s == "https://" + t && s[0] == 'h' && s[4] == 's';
    }
  }

  lemma {:induction false} PlainHostReads(host: string, rest: string)
    requires ':' !in host && '/' !in host && rest != [] && (rest[0] == ':' || rest[0] == '/')
    ensures PlainHost(host + rest) == (host, if rest[0] == ':' then PortNext else ResourceNext, rest[1..])
    decreases |host|
  {
    if host == [] {
      assert host + rest == rest;
    } else {
      assert (host + rest)[1..] == host[1..] + rest;
      PlainHostReads(host[1..], rest);
      assert host == [host[0]] + host[1..];
    }
  }

  lemma {:induction false} PortTextReads(port: string, rest: string)
    requires '/' !in port
    ensures PortText(port + "/" + rest) == (port, rest)
    decreases |port|
  {
    var t := port + "/" + rest;
    if port == [] {
      assert t == "/" + rest && t[1..] == rest;
    } else {
      assert t[1..] == port[1..] + "/" + rest;
      PortTextReads(port[1..], rest);
      assert port == [port[0]] + port[1..];
    }
  }

  lemma PortPrinted(port: Port, secure: bool)
    requires port > 0
    ensures PortOf(Decimal(port), secure) == Some(port)
    ensures '/' !in Decimal(port) && Decimal(port) != []
  {
    AtoiReads(port);
    hide Decimal, Atoi;
    assert !IsDigit('/');
  }

  /** What a printed URI says after the host. */
  function AfterHostText(u: Parts): string {
    (if u.port == DefaultPort(u.secure) then [] else ":" + Decimal(u.port)) + u.resource
  }

  lemma StrParts(u: Parts)
    ensures Str(u) == u.scheme + "://" + (u.host + AfterHostText(u))
  {
    hide Decimal;
  }

  /** Parsing recovers every component of a URI with a plain host, among them a default port that is not
    * printed. */
  lemma PlainRecovered(u: Parts)
    requires KnownScheme(u) && u.port > 0 && Rooted(u.resource) && Plain(u.host)
    ensures Parse(Str(u)) == Some(u)
  {
    StrParts(u);
    var rest := AfterHostText(u);
    var t := u.host + rest;
    SchemePrinted(u, t);
    HostPrinted(u);
    PortRead(u);
    hide *;
    ParseUnfolds(Str(u), u.scheme, u.secure, t, u.host, rest[1..]);
  }

  lemma HostPrinted(u: Parts)
    requires Rooted(u.resource) && Plain(u.host)
    ensures AfterHostText(u) != []
    ensures HostOf(u.host + AfterHostText(u))
         == Some((u.host, if u.port == DefaultPort(u.secure) then ResourceNext else PortNext, AfterHostText(u)[1..]))
  {
    hide Decimal, PlainHost;
    var rest := AfterHostText(u);
    assert rest[0] == ':' || rest[0] == '/';
    PlainHostReads(u.host, rest);
    assert (u.host + rest)[0] == if u.host == [] then rest[0] else u.host[0];
  }

  /** The port and the resource of a printed URI, read from where the host ends. */
  lemma PortRead(u: Parts)
    requires u.port > 0 && Rooted(u.resource)
    ensures AfterHostText(u) != []
    ensures var (port, resource) := if u.port == DefaultPort(u.secure) then ([], AfterHostText(u)[1..])
        else PortText(AfterHostText(u)[1..]);
      PortOf(port, u.secure) == Some(u.port) && "/" + resource == u.resource
  {
    assert u.resource == "/" + u.resource[1..];
    if u.port != DefaultPort(u.secure) {
      PortPrinted(u.port, u.secure);
      hide Decimal, PortOf;
      PortTextReads(Decimal(u.port), u.resource[1..]);
      assert AfterHostText(u)[1..] == Decimal(u.port) + "/" + u.resource[1..];
    } else {
      assert AfterHostText(u) == u.resource;
    }
  }

  lemma ParseUnfolds(s: string, scheme: string, secure: bool, t: string, host: string, rest: string)
    requires SchemeOf(s) == Some((scheme, secure, t)) && t != []
    ensures forall after :: HostOf(t) == Some((host, after, rest)) ==>
      var (port, resource) := if after == PortNext then PortText(rest) else ([], rest);
      Parse(s) == match PortOf(port, secure)
                  case None => None
                  case Some(p) => Some(Parts(scheme, secure, host, p, "/" + resource))
  {
  }

  /** What is parsed has a known scheme, a port that is not zero and a resource that starts with a slash;
    * and its host is plain unless it came in brackets. */
  lemma ParsedShape(s: string)
    requires Parse(s).Some?
    ensures var u := Parse(s).value;
      && KnownScheme(u) && u.port > 0 && Rooted(u.resource)
      && (SchemeOf(s).value.2[0] != '[' ==> Plain(u.host))
  {
    var t := SchemeOf(s).value.2;
    if t[0] != '[' {
      PlainHostStart(t);
    }
    hide PlainHost, UpToBracket, PortText, Atoi;
  }

  lemma PlainHostStart(t: string)
    ensures PlainHost(t).0 != [] ==> t != [] && PlainHost(t).0[0] == t[0]
  {
  }

  /** A printed host in brackets loses them, so it is not read as it stands. */
  lemma BracketsLost(u: Parts)
    requires KnownScheme(u) && Rooted(u.resource) && u.host != [] && u.host[0] == '['
    ensures Parse(Str(u)).None? || Parse(Str(u)).value.host != u.host
  {
    StrParts(u);
    SchemePrinted(u, u.host + AfterHostText(u));
    AfterHostStarts(u);
    NotUpToBracket(u.host, AfterHostText(u));
    hide UpToBracket, PortText, PortOf, AfterHostText, SchemeOf, Str;
  }

  lemma AfterHostStarts(u: Parts)
    requires Rooted(u.resource)
    ensures var rest := AfterHostText(u); rest != [] && (rest[0] == ':' || rest[0] == '/')
  {
    hide Decimal;
  }

  lemma NotUpToBracket(host: string, rest: string)
    requires host != [] && rest != [] && host[0] == '[' && (rest[0] == ':' || rest[0] == '/')
    ensures var r := UpToBracket((host + rest)[1..]); r.None? || r.value.0 != host
  {
    var r := UpToBracket((host + rest)[1..]);
    if r.Some? && r.value.0 == host {
      hide UpToBracket;
      assert (host + rest)[1..] == host + ("]" + r.value.1);
      FirstRepeats(host, rest, "]" + r.value.1);
    }
  }

  /** A text that is the same one position further on repeats its first character. */
  lemma {:induction false} FirstRepeats(host: string, rest: string, tail: string)
    requires host != [] && rest != [] && (host + rest)[1..] == host + tail
    ensures rest[0] == host[0]
  {
    var shorter := host[1..];
    assert (host + rest)[1..] == shorter + rest;
    if shorter == [] {
      assert (shorter + rest)[0] == (host + tail)[0];
    } else {
      assert (shorter + rest)[0] == (host + tail)[0];
      assert (shorter + rest)[1..] == (host + tail)[1..] == shorter + tail;
      FirstRepeats(shorter, rest, tail);
    }
  }

  /** Printing and parsing again recovers a URI of a known scheme exactly if its port is not zero, its
    * resource starts with a slash, and its host has no colon, no slash and no bracket in front. */
  lemma RecoveredIff(u: Parts)
    requires KnownScheme(u)
    ensures Parse(Str(u)) == Some(u) <==> u.port > 0 && Rooted(u.resource) && Plain(u.host)
  {
    if u.port > 0 && Rooted(u.resource) && Plain(u.host) {
      PlainRecovered(u);
    } else if Parse(Str(u)) == Some(u) {
      ParsedShape(Str(u));
      if u.host != [] && u.host[0] == '[' {
        BracketsLost(u);
      } else {
        StrParts(u);
        SchemePrinted(u, u.host + AfterHostText(u));
      }
      assert false;
    }
  }

  /** So what is parsed is recovered by printing and parsing exactly if its host is plain, which it always
    * is unless it came in brackets. */
  lemma ParsedIsStable(s: string)
    requires Parse(s).Some?
    ensures Parse(Str(Parse(s).value)) == Parse(s) <==> Plain(Parse(s).value.host)
    ensures SchemeOf(s).value.2[0] != '[' ==> Plain(Parse(s).value.host)
  {
    ParsedShape(s);
    RecoveredIff(Parse(s).value);
  }

  /** An IPv6 address, for one, is printed without its brackets. */
  lemma Ipv6NotRecovered()
    ensures var u := Parts("ws", false, "::1", 80, "/");
      Parse("ws://[::1]/") == Some(u) && Parse(Str(u)) != Some(u)
  {
    Ipv6Read();
    hide Parse, Str;
    var u := Parts("ws", false, "::1", 80, "/");
    assert u.host[0] == ':';
    RecoveredIff(u);
  }

  lemma Ipv6Read()
    ensures Parse("ws://[::1]/") == Some(Parts("ws", false, "::1", 80, "/"))
  {
    var t := "[::1]/";
    assert "ws://[::1]/" == "ws" + "://" + t;
    SchemePrinted(Parts("ws", false, "::1", 80, "/"), t);
    BracketReads("::1", "/");
    assert t[1..] == "::1" + "]" + "/";
    assert "/" + [] == "/";
    hide SchemeOf, UpToBracket, Str, PlainHost, PortText, Atoi;
  }

  lemma {:induction false} BracketReads(host: string, rest: string)
    requires ']' !in host
    ensures UpToBracket(host + "]" + rest) == Some((host, rest))
  {
    var t := host + "]" + rest;
    if host == [] {
      assert t == "]" + rest && t[1..] == rest;
    } else {
      assert t[1..] == host[1..] + "]" + rest;
      BracketReads(host[1..], rest);
      assert host == [host[0]] + host[1..];
    }
  }

  // ---------------------------------------------------------------- what texts mean

  /** The four schemes, and the port that each stands for. */
  const SCHEMES := map["ws" := (false, 80), "wss" := (true, 443), "http" := (false, 80), "https" := (true, 443)]

  /** How the port is written, if it is. */
  function PortSuffix(port: Option<nat>): string {
    match port
    case None => []
    case Some(n) => ":" + Decimal(n)
  }

  /** A scheme, a host without brackets, a port or none, and a path or none: they are read as they stand.
    * Without a port it is the one of the scheme, and without a path the resource is a slash. */
  lemma PlainText(scheme: string, host: string, port: Option<nat>, path: Option<string>)
    requires scheme in SCHEMES && Plain(host) && (port.Some? ==> 0 < port.value < 65536)
    requires host != [] || port.Some? || path.Some?
    ensures var (secure, usual) := SCHEMES[scheme];
      Parse(scheme + "://" + (host + (PortSuffix(port) + (if path.Some? then "/" + path.value else []))))
      == Some(Parts(scheme, secure, host, if port.Some? then port.value else usual,
                    "/" + if path.Some? then path.value else []))
  {
    var (secure, usual) := SCHEMES[scheme];
    var rest := PortSuffix(port) + (if path.Some? then "/" + path.value else []);
    var t := host + rest;
    SchemeIs(scheme);
    SchemePrinted(Parts(scheme, secure, host, 80, "/"), t);
    HostText(host, rest);
    SuffixReads(port, path, secure);
    hide Plain, Decimal, PlainHost, PortText, PortOf, SchemeOf, HostOf;
    if rest == [] {
      ParseUnfolds(scheme + "://" + t, scheme, secure, t, host, []);
    } else {
      ParseUnfolds(scheme + "://" + t, scheme, secure, t, host, rest[1..]);
    }
  }

  lemma SchemeIs(scheme: string)
    requires scheme in SCHEMES
    ensures KnownScheme(Parts(scheme, SCHEMES[scheme].0, [], 80, "/"))
    ensures DefaultPort(SCHEMES[scheme].0) == SCHEMES[scheme].1
  {
  }

  lemma HostText(host: string, rest: string)
    requires Plain(host) && host + rest != [] && (rest != [] ==> rest[0] == ':' || rest[0] == '/')
    ensures HostOf(host + rest)
         == Some((host, if rest != [] && rest[0] == ':' then PortNext else ResourceNext,
                  if rest == [] then [] else rest[1..]))
  {
    if rest == [] {
      assert host + rest == host;
      WholeHost(host);
    } else {
      PlainHostReads(host, rest);
      assert (host + rest)[0] == if host == [] then rest[0] else host[0];
    }
    hide PlainHost;
  }

  lemma {:induction false} WholeHost(host: string)
    requires ':' !in host && '/' !in host
    ensures PlainHost(host) == (host, ResourceNext, [])
    decreases |host|
  {
    if host != [] {
      WholeHost(host[1..]);
      assert host == [host[0]] + host[1..];
    }
  }

  lemma {:induction false} WholePort(port: string)
    requires '/' !in port
    ensures PortText(port) == (port, [])
    decreases |port|
  {
    if port != [] {
      WholePort(port[1..]);
      assert port == [port[0]] + port[1..];
    }
  }

  /** The port and the path, from where the host ends. */
  lemma SuffixReads(port: Option<nat>, path: Option<string>, secure: bool)
    requires port.Some? ==> 0 < port.value < 65536
    ensures var rest := PortSuffix(port) + (if path.Some? then "/" + path.value else []);
      && (rest == [] <==> port.None? && path.None?)
      && (rest != [] ==> rest[0] == (if port.Some? then ':' else '/'))
      && var (text, resource) := if port.Some? then PortText(rest[1..]) else ([], if rest == [] then [] else rest[1..]);
         PortOf(text, secure) == Some(if port.Some? then port.value else DefaultPort(secure))
         && resource == (if path.Some? then path.value else [])
  {
    var rest := PortSuffix(port) + (if path.Some? then "/" + path.value else []);
    if port.Some? {
      PortPrinted(port.value, secure);
      if path.Some? {
        assert rest[1..] == Decimal(port.value) + "/" + path.value;
        PortTextReads(Decimal(port.value), path.value);
      } else {
        assert rest[1..] == Decimal(port.value);
        WholePort(Decimal(port.value));
      }
      hide Decimal, PortOf;
    } else if path.Some? {
      assert rest == "/" + path.value && rest[1..] == path.value;
    } else {
      assert rest == [];
    }
  }

  /** A port is not printed if it is the one of the scheme, and otherwise it is. */
  lemma PrintedText(scheme: string, host: string, port: Port, resource: string)
    requires scheme in SCHEMES
    ensures var (secure, usual) := SCHEMES[scheme];
      Str(Parts(scheme, secure, host, port, resource))
      == scheme + "://" + (host + ((if port == usual then [] else ":" + Decimal(port)) + resource))
  {
    SchemeIs(scheme);
    StrParts(Parts(scheme, SCHEMES[scheme].0, host, port, resource));
    hide Decimal;
  }

  /** A port is refused exactly if the number is zero or too large after its conversion to 32 bits. */
  lemma PortRefused(n: nat, secure: bool)
    ensures PortOf(Decimal(n), secure).None? <==> n % 0x1_0000_0000 == 0 || n % 0x1_0000_0000 > 65535
  {
    AtoiReads(n);
    hide Decimal, Atoi;
  }

  /** An address in brackets ends at the first closing one.  What follows it is a port, a path, or nothing;
    * anything else is refused, and so is a bracket that is never closed. */
  lemma BracketedText(scheme: string, address: string, port: Option<nat>, path: Option<string>)
    requires scheme in SCHEMES && ']' !in address && (port.Some? ==> 0 < port.value < 65536)
    ensures var (secure, usual) := SCHEMES[scheme];
      Parse(scheme + "://" + ("[" + address + "]" + (PortSuffix(port) + (if path.Some? then "/" + path.value else []))))
      == Some(Parts(scheme, secure, address, if port.Some? then port.value else usual,
                    "/" + if path.Some? then path.value else []))
  {
    var (secure, usual) := SCHEMES[scheme];
    var rest := PortSuffix(port) + (if path.Some? then "/" + path.value else []);
    var t := "[" + address + "]" + rest;
    SchemeIs(scheme);
    SchemePrinted(Parts(scheme, secure, address, 80, "/"), t);
    BracketedHost(address, rest);
    SuffixReads(port, path, secure);
    hide Decimal, PortText, PortOf, SchemeOf, HostOf;
    if rest == [] {
      ParseUnfolds(scheme + "://" + t, scheme, secure, t, address, []);
    } else {
      ParseUnfolds(scheme + "://" + t, scheme, secure, t, address, rest[1..]);
    }
  }

  lemma BracketedHost(address: string, rest: string)
    requires ']' !in address
    ensures HostOf("[" + address + "]" + rest) ==
      if rest == [] then Some((address, ResourceNext, []))
      else if rest[0] == '/' then Some((address, ResourceNext, rest[1..]))
      else if rest[0] == ':' then Some((address, PortNext, rest[1..]))
      else None
  {
    assert ("[" + address + "]" + rest)[1..] == address + "]" + rest;
    BracketReads(address, rest);
    hide UpToBracket, PlainHost;
  }

  lemma BracketRefused(scheme: string, address: string, rest: string)
    requires scheme in SCHEMES && ']' !in address
    ensures Parse(scheme + "://" + ("[" + address)) == None
    ensures rest != [] && rest[0] != ':' && rest[0] != '/' ==>
      Parse(scheme + "://" + ("[" + address + "]" + rest)) == None
  {
    var u := Parts(scheme, SCHEMES[scheme].0, [], 80, "/");
    SchemeIs(scheme);
    SchemePrinted(u, "[" + address);
    SchemePrinted(u, "[" + address + "]" + rest);
    NeverClosed(address);
    assert ("[" + address)[1..] == address;
    BracketedHost(address, rest);
    hide SchemeOf, UpToBracket, PlainHost, PortText, PortOf;
  }

  lemma {:induction false} NeverClosed(address: string)
    requires ']' !in address
    ensures UpToBracket(address) == None
  {
    if address != [] {
      NeverClosed(address[1..]);
      assert address == [address[0]] + address[1..];
    }
  }

  /** The white space of `isspace`. */
  const BLANKS := {' ', '\t', '\n', '\U{0B}', '\U{0C}', '\r'}

  const SIGNS := {"", "+", "-"}

  /** A number is read after white space and a sign, whatever follows it; and without a digit it is zero. */
  lemma AtoiSpells(blank: string, sign: string, n: nat, rest: string)
    requires sign in SIGNS && (forall c :: c in blank ==> c in BLANKS) && (rest != [] ==> !('0' <= rest[0] <= '9'))
    ensures Atoi(blank + (sign + (Decimal(n) + rest))) == if sign == "-" then 0 - n else n
    ensures sign != "" || (rest != [] ==> rest[0] !in BLANKS && rest[0] != '+' && rest[0] != '-') ==>
      Atoi(blank + (sign + rest)) == 0
  {
    AfterBlanks(blank, sign + (Decimal(n) + rest));
    AfterBlanks(blank, sign + rest);
    DecimalReads(n);
    DigitsEnd(0, Decimal(n), rest);
    Signed(sign, Decimal(n) + rest);
    assert Decimal(n)[0] in Decimal(n);
    assert DigitsOnto(0, rest) == 0;
    hide Decimal, DigitsOnto;
    if sign != "" || (rest != [] ==> rest[0] !in BLANKS && rest[0] != '+' && rest[0] != '-') {
      Signed(sign, rest);
    }
    hide Atoi;
  }

  /** What the sign does to the digits after it. */
  lemma Signed(sign: string, t: string)
    requires sign in SIGNS
    requires sign != "" || (t != [] ==> t[0] !in BLANKS && t[0] != '+' && t[0] != '-')
    ensures Atoi(sign + t) == if sign == "-" then 0 - DigitsOnto(0, t) else DigitsOnto(0, t)
  {
    hide DigitsOnto;
    if sign == "" {
      assert sign + t == t;
      assert t != [] ==> !IsSpace(t[0]) by {
        SpaceIs();
      }
    } else {
      assert (sign + t)[0] == sign[0] && (sign + t)[1..] == t;
    }
  }

  lemma SpaceIs()
    ensures forall c :: IsSpace(c) <==> c in BLANKS
  {
  }

  lemma {:induction false} AfterBlanks(blank: string, t: string)
    requires forall c :: c in blank ==> c in BLANKS
    ensures Atoi(blank + t) == Atoi(t)
    decreases |blank|
  {
    SpaceIs();
    if blank == [] {
      assert blank + t == t;
    } else {
      assert blank[0] in blank && (blank + t)[0] == blank[0] && (blank + t)[1..] == blank[1..] + t;
      AfterBlanks(blank[1..], t);
      hide IsSpace;
    }
  }

  lemma {:induction false} DigitsEnd(n: nat, digits: string, rest: string)
    requires (forall c :: c in digits ==> IsDigit(c)) && (rest != [] ==> !IsDigit(rest[0]))
    ensures DigitsOnto(n, digits + rest) == DigitsOnto(n, digits)
    decreases |digits|
  {
    if digits == [] {
      assert digits + rest == rest;
    } else {
      assert digits[0] in digits && (digits + rest)[1..] == digits[1..] + rest;
      DigitsEnd(10 * n + (digits[0] as int - '0' as int), digits[1..], rest);
    }
  }

  // ---------------------------------------------------------------- the class

  class ParsedUri {
    var scheme: string
    var host: string
    var resource: string
    var port: Port
    var secure: bool
    var valid: bool

    ghost function Value(): Parts
      reads this
    {
      Parts(scheme, secure, host, port, resource)
    }

    constructor (uriString: string)
      ensures valid <==> Parse(uriString).Some?
      ensures valid ==> Value() == Parse(uriString).value
    {
      valid, secure, port := false, false, 0;
      scheme, host, resource := [], [], [];
      new;
      var ok, it := ReadScheme(uriString);
      if ok {
        hide SchemeOf, PlainHost, UpToBracket, PortText, PortOf;
        ok := ReadRest(uriString, it);
        valid := ok;
      }
    }

    method ReadScheme(s: string) returns (ok: bool, it: nat)
      modifies this`scheme, this`secure
      ensures ok ==> it < |s| && SchemeOf(s) == Some((scheme, secure, s[it..]))
      ensures !ok ==> SchemeOf(s).None?
    {
      it, ok := 0, true;
      if |s| >= 7 && s[0..6] == "wss://" {
        secure := true;
        scheme := "wss";
        it := it + 6;
      } else if |s| >= 6 && s[0..5] == "ws://" {
        secure := false;
        scheme := "ws";
        it := it + 5;
      } else if |s| >= 8 && s[0..7] == "http://" {
        secure := false;
        scheme := "http";
        it := it + 7;
      } else if |s| >= 9 && s[0..8] == "https://" {
        secure := true;
        scheme := "https";
        it := it + 8;
      } else {
        ok := false;
      }
    }

    /** The host, the port and the resource. */
    method ReadRest(s: string, from: nat) returns (ok: bool)
      requires from < |s| && SchemeOf(s) == Some((scheme, secure, s[from..]))
      modifies this`host, this`port, this`resource
      ensures ok <==> Parse(s).Some?
      ensures ok ==> Value() == Parse(s).value
    {
      hide SchemeOf, PlainHost, UpToBracket, PortText, PortOf;
      var after, it;
      if s[from] == '[' {
        ok, after, it := ReadBracketedHost(s, from + 1);
        if !ok {
          return;
        }
      } else {
        after, it := ReadPlainHost(s, from);
      }
      var portText := [];
      if after == PortNext {
        portText, it := ReadPortText(s, it);
      }
      ok := SetPort(portText);
      if !ok {
        return;
      }
      resource := "/";
      resource := resource + s[it..];
    }

    method ReadBracketedHost(s: string, from: nat) returns (ok: bool, after: AfterHost, it: nat)
      requires 0 < from <= |s| && s[from - 1] == '['
      modifies this`host
      ensures it <= |s|
      ensures HostOf(s[from - 1..]) == if ok then Some((host, after, s[it..])) else None
    {
      after, it, ok := ResourceNext, from, false;
      var temp := from;
      while temp < |s| && s[temp] != ']'
        invariant from <= temp <= |s| && forall k :: from <= k < temp ==> s[k] != ']'
      {
        temp := temp + 1;
      }
      Drop(s, from - 1, 1);
      BracketAt(s, from, temp);
      hide UpToBracket;
      if temp == |s| {
        return;
      }
      host := s[from..temp];
      it := temp + 1;
      Drop(s, it, if it < |s| then 1 else 0);
      if it == |s| {
        return true, ResourceNext, it;
      } else if s[it] == '/' {
        return true, ResourceNext, it + 1;
      } else if s[it] == ':' {
        return true, PortNext, it + 1;
      }
    }

    method ReadPlainHost(s: string, from: nat) returns (after: AfterHost, it: nat)
      requires from <= |s|
      modifies this`host
      ensures it <= |s| && PlainHost(s[from..]) == (host, after, s[it..])
    {
      host, after, it := [], ResourceNext, from;
      assert [] + PlainHost(s[from..]).0 == PlainHost(s[from..]).0;
      var state := 0;
      while state == 0
        invariant from <= it <= |s| && state in {0, 1, 2}
        invariant state == 0 ==>
          PlainHost(s[from..]) == (host + PlainHost(s[it..]).0, PlainHost(s[it..]).1, PlainHost(s[it..]).2)
        invariant state != 0 ==> PlainHost(s[from..]) == (host, if state == 1 then PortNext else ResourceNext, s[it..])
        decreases |s| - it, if state == 0 then 1 else 0
      {
        if it == |s| {
          assert s[it..] == [] && host + [] == host;
          state := 2;
          break;
        }
        Drop(s, it, 1);
        ghost var rest := PlainHost(s[it + 1..]).0;
        if s[it] == '/' {
          assert host + [] == host;
          state := 2;
        } else if s[it] == ':' {
          assert host + [] == host;
          state := 1;
        } else {
          assert host + ([s[it]] + rest) == host + [s[it]] + rest;
          host := host + [s[it]];
        }
        it := it + 1;
      }
      after := if state == 1 then PortNext else ResourceNext;
    }

    static method ReadPortText(s: string, from: nat) returns (port: string, it: nat)
      requires from <= |s|
      ensures it <= |s| && PortText(s[from..]) == (port, s[it..])
    {
      port, it := [], from;
      assert [] + PortText(s[from..]).0 == PortText(s[from..]).0;
      var state := 1;
      while state == 1
        invariant from <= it <= |s|
        invariant state == 1 ==> PortText(s[from..]) == (port + PortText(s[it..]).0, PortText(s[it..]).1)
        invariant state != 1 ==> PortText(s[from..]) == (port, s[it..])
        decreases |s| - it, if state == 1 then 1 else 0
      {
        if it == |s| {
          assert s[it..] == [] && port + [] == port;
          break;
        }
        Drop(s, it, 1);
        ghost var rest := PortText(s[it + 1..]).0;
        if s[it] == '/' {
          assert port + [] == port;
          state := 3;
        } else {
          assert port + ([s[it]] + rest) == port + [s[it]] + rest;
          port := port + [s[it]];
        }
        it := it + 1;
      }
    }

    /** `get_port_from_string`. */
    method SetPort(text: string) returns (ok: bool)
      modifies this`port
      ensures PortOf(text, secure) == if ok then Some(port) else None
    {
      if text == [] {
        port := if secure then DEFAULT_SECURE_PORT else DEFAULT_PORT;
        return true;
      }
      var n := Atoi(text) % 0x1_0000_0000;
      ok := true;
      if n > 65535 {
        ok := false;
      }
      if n == 0 {
        ok := false;
      }
      port := n % 0x1_0000;
    }

    method ToString() returns (s: string)
      ensures s == Str(Value())
    {
      s := scheme + "://" + host;
      if port != (if secure then DEFAULT_SECURE_PORT else DEFAULT_PORT) {
        s := s + ":" + Decimal(port);
      }
      s := s + resource;
      hide Decimal;
    }
  }

  lemma {:induction false} BracketAt(s: string, from: nat, end: nat)
    requires from <= end <= |s| && (end < |s| ==> s[end] == ']') && forall k :: from <= k < end ==> s[k] != ']'
    ensures UpToBracket(s[from..]) == if end == |s| then None else Some((s[from..end], s[end + 1..]))
    decreases end - from
  {
    if from < |s| {
      Drop(s, from, 1);
    }
    if from < end {
      BracketAt(s, from + 1, end);
      assert s[from..end] == [s[from]] + s[from + 1..end];
    }
  }
}
