/**
 * The part of Go's `net/url.Parse` and `(*URL).Port` that the broker-address
 * derivation depends on: the scheme split of section 3.1 of RFC 3986, the
 * authority of section 3.2 with its userinfo, host and port (sections 3.2.1
 * to 3.2.3), the %-escapes of section 2.1 as Go checks them in the host,
 * userinfo, path and fragment, and whether Go reports an error for these parts.
 */
module Urls {
  import opened Wrappers
  import opened Text
  import Strconv

  /** The fields of a parsed URL that the model reads. `host` is empty for an opaque or path-only URL. */
  datatype Url = Url(scheme: string, host: string)

  /** The outcome of Go's getScheme: an error for a leading ':', or the scheme (possibly empty) and the rest. */
  datatype SchemeSplit = MissingScheme | Split(scheme: string, rest: string)

  predicate IsLetter(c: char) { 'a' <= c <= 'z' || 'A' <= c <= 'Z' }

  /** Characters allowed after the first one of a scheme (section 3.1 of RFC 3986). */
  predicate IsSchemeTail(c: char) { IsLetter(c) || Strconv.IsDigit(c) || c == '+' || c == '-' || c == '.' }

  /** An ASCII control character; Go rejects a URL holding one. */
  predicate IsControl(c: char) { c < ' ' || c == '\U{7f}' }

  /** Scans for the scheme from index `i`, as Go's getScheme does. */
  function ScanScheme(s: string, i: nat): SchemeSplit
    requires i <= |s|
    decreases |s| - i
  {
    if i == |s| then Split("", s)
    else if IsLetter(s[i]) then ScanScheme(s, i + 1)
    else if IsSchemeTail(s[i]) then (if i == 0 then Split("", s) else ScanScheme(s, i + 1))
    else if s[i] == ':' then (if i == 0 then MissingScheme else Split(s[..i], s[i + 1..]))
    else Split("", s)
  }

  function GetScheme(s: string): SchemeSplit {
    ScanScheme(s, 0)
  }

  // ----- %-escapes (Go's unescape) -----

  predicate IsHex(c: char) { Strconv.IsDigit(c) || 'a' <= c <= 'f' || 'A' <= c <= 'F' }

  function HexValue(c: char): (v: nat)
    requires IsHex(c)
    ensures v < 16
  {
    if Strconv.IsDigit(c) then c as int - '0' as int
    else if 'a' <= c <= 'f' then c as int - 'a' as int + 10
    else c as int - 'A' as int + 10
  }

  /** Every '%' is followed by two hexadecimal digits: what unescape demands in every mode. */
  predicate ValidEscapes(s: string) {
    forall i :: 0 <= i < |s| && s[i] == '%' ==> i + 2 < |s| && IsHex(s[i + 1]) && IsHex(s[i + 2])
  }

  /**
   * The ASCII characters that shouldEscape does not require to be escaped in a
   * host: letters, digits, the unreserved marks, the sub-delimiters, and the
   * characters Go adds for the port, IPv6 literals and its own leniency.
   */
  predicate HostMayHold(c: char) {
    IsLetter(c) || Strconv.IsDigit(c) ||
    c == '-' || c == '_' || c == '.' || c == '~' ||
    c == '!' || c == '$' || c == '&' || c == '\'' || c == '(' || c == ')' ||
    c == '*' || c == '+' || c == ',' || c == ';' || c == '=' ||
    c == ':' || c == '[' || c == ']' || c == '<' || c == '>' || c == '"'
  }

  /**
   * unescape in host mode (zone == false) or IPv6-zone mode (zone == true)
   * accepts the escape at `i`: two hex digits, and then in a host only a
   * non-ASCII byte or %25; in a zone %25, a space, or a character a host may hold.
   */
  predicate EscapeAccepted(s: string, i: nat, zone: bool)
    requires i < |s|
  {
    i + 2 < |s| && IsHex(s[i + 1]) && IsHex(s[i + 2]) &&
    (s[i..i + 3] == "%25" ||
     if zone then
       var v := 16 * HexValue(s[i + 1]) + HexValue(s[i + 2]);
       v == 32 || (v < 128 && HostMayHold(v as char))
     else HexValue(s[i + 1]) >= 8)
  }

  /** unescape(s, encodeHost) or unescape(s, encodeZone) reports no error. */
  predicate HostTextAccepted(s: string, zone: bool) {
    forall i :: 0 <= i < |s| ==>
      if s[i] == '%' then EscapeAccepted(s, i, zone) else (s[i] < '\U{80}' ==> HostMayHold(s[i]))
  }

  /** The index of the first "%25" in `s`, or -1 (strings.Index). */
  function IndexOfZone(s: string): (k: int)
    ensures -1 <= k < |s|
    ensures k >= 0 ==> k + 3 <= |s| && s[k..k + 3] == "%25"
    decreases |s|
  {
    if |s| < 3 then -1
    else if s[..3] == "%25" then 0
    else
      var k := IndexOfZone(s[1..]);
      if k < 0 then -1 else k + 1
  }

  /** validUserinfo: letters, digits, and the marks and delimiters section 3.2.1 of RFC 3986 allows, '%', '@' and ':'. */
  predicate ValidUserinfo(s: string) {
    forall i :: 0 <= i < |s| ==>
      IsLetter(s[i]) || Strconv.IsDigit(s[i]) ||
      s[i] == '-' || s[i] == '.' || s[i] == '_' || s[i] == ':' || s[i] == '~' ||
      s[i] == '!' || s[i] == '$' || s[i] == '&' || s[i] == '\'' || s[i] == '(' || s[i] == ')' ||
      s[i] == '*' || s[i] == '+' || s[i] == ',' || s[i] == ';' || s[i] == '=' || s[i] == '%' || s[i] == '@'
  }

  /** validOptionalPort: empty, or ':' followed by digits only. */
  predicate ValidOptionalPort(p: string) {
    p == "" || (p[0] == ':' && Strconv.AllDigits(p[1..]))
  }

  /**
   * parseHost: a bracketed IPv6 literal must be closed and may carry a zone
   * after its first "%25"; what follows the host must be a valid optional
   * port; the text must then pass unescape in host (and zone) mode.
   */
  function ParseHost(h: string): Option<string> {
    if HasPrefix(h, "[") then
      var i := LastIndexOf(h, ']');
      if i < 0 then None
      else if !ValidOptionalPort(h[i + 1..]) then None
      else
        var zone := IndexOfZone(h[..i]);
        if zone >= 0 then
          if HostTextAccepted(h[..zone], false) && HostTextAccepted(h[zone..i], true) && HostTextAccepted(h[i..], false)
          then Some(h) else None
        else if HostTextAccepted(h, false) then Some(h) else None
    else
      var i := LastIndexOf(h, ':');
      if i >= 0 && !ValidOptionalPort(h[i..]) then None
      else if HostTextAccepted(h, false) then Some(h) else None
  }

  /** parseAuthority: the host is what follows the last '@'; the userinfo before it must be valid and unescape. */
  function ParseAuthority(a: string): Option<string> {
    var i := LastIndexOf(a, '@');
    match ParseHost(if i < 0 then a else a[i + 1..])
    case None => None
    case Some(host) =>
      if i >= 0 && !(ValidUserinfo(a[..i]) && ValidEscapes(a[..i])) then None else Some(host)
  }

  predicate HasControl(s: string) {
    exists i :: 0 <= i < |s| && IsControl(s[i])
  }

  /**
   * url.Parse, on the fields the model keeps. None stands for a non-nil error.
   * The fragment after the first '#' must unescape.
   */
  function ParseUrl(raw: string): Option<Url> {
    var h := IndexOf(raw, '#');
    match ParseBeforeFragment(raw[..h])
    case None => None
    case Some(u) => if h < |raw| && !ValidEscapes(raw[h + 1..]) then None else Some(u)
  }

  /** Go's parse: control characters, the scheme, the query cut off at the first '?', then the rest. */
  function ParseBeforeFragment(u: string): Option<Url> {
    if HasControl(u) then None
    else
      match GetScheme(u)
      case MissingScheme => None
      case Split(sch, afterScheme) => ParseRest(Lower(sch), afterScheme[..IndexOf(afterScheme, '?')])
  }

  /**
   * What url.Parse does after the scheme and the query are split off: an
   * opaque URL is kept as it is; otherwise the authority, if any, is parsed
   * and the path must unescape.
   */
  function ParseRest(scheme: string, rest: string): Option<Url> {
    if !HasPrefix(rest, "/") && scheme != "" then Some(Url(scheme, ""))
    else if !HasPrefix(rest, "/") && ':' in rest[..IndexOf(rest, '/')] then None
    else if HasPrefix(rest, "//") && (scheme != "" || !HasPrefix(rest, "///")) then
      var tail := rest[2..];
      var k := IndexOf(tail, '/');
      match ParseAuthority(tail[..k])
      case None => None
      case Some(host) => if ValidEscapes(tail[k..]) then Some(Url(scheme, host)) else None
    else if ValidEscapes(rest) then Some(Url(scheme, "")) else None
  }

  /** (*URL).Port: the digits after the last ':' of the host when they form a valid optional port. */
  function Port(u: Url): (p: string)
    ensures Strconv.AllDigits(p)
  {
    var colon := LastIndexOf(u.host, ':');
    if colon >= 0 && ValidOptionalPort(u.host[colon..]) then u.host[colon + 1..] else ""
  }

  // ----- well-formed broker URLs: what the parser gives back for scheme://host[:port] -----

  /** A scheme as section 3.1 of RFC 3986 writes it, in the lower case Go normalises to. */
  predicate IsScheme(s: string) {
    |s| > 0 && 'a' <= s[0] <= 'z' &&
    forall i :: 0 <= i < |s| ==> IsSchemeTail(s[i]) && !('A' <= s[i] <= 'Z')
  }

  /** A character of a registered host name that url.Parse keeps as it is: not an escape, and nothing that ends or re-splits the authority. */
  predicate IsPlainHostChar(c: char) {
    c != ':' && c != '[' && c != ']' && (c >= '\U{80}' || HostMayHold(c))
  }

  /** A host name that url.Parse accepts unescaped and that holds no port or IPv6 literal. */
  predicate IsPlainHost(h: string) {
    forall i :: 0 <= i < |h| ==> IsPlainHostChar(h[i])
  }

  /** A character that neither ends the authority, nor starts a port, an IPv6 literal or an escape. */
  predicate StaysInHost(c: char) {
    !IsControl(c) && c != '/' && c != '?' && c != '#' && c != '@' && c != ':' && c != '[' && c != '%'
  }

  lemma PlainHostCharIs(c: char)
    requires IsPlainHostChar(c)
    ensures StaysInHost(c)
  {
  }

  lemma {:induction false} ScanValidScheme(s: string, scheme: string, rest: string, i: nat)
    requires IsScheme(scheme) && s == scheme + ":" + rest && i <= |scheme|
    ensures ScanScheme(s, i) == Split(scheme, rest)
    decreases |scheme| - i
  {
    if i == |scheme| {
      assert s[i] == ':' && s[..i] == scheme && s[i + 1..] == rest;
    } else {
      assert s[i] == scheme[i];
      ScanValidScheme(s, scheme, rest, i + 1);
    }
  }

  lemma LowerOfLowercase(s: string)
    requires forall i :: 0 <= i < |s| ==> !('A' <= s[i] <= 'Z')
    ensures Lower(s) == s
  {
  }

  lemma IndexOfAbsent(s: string, c: char)
    requires c !in s
    ensures IndexOf(s, c) == |s|
  {
  }

  lemma LastIndexOfAbsent(s: string, c: char)
    requires c !in s
    ensures LastIndexOf(s, c) == -1
  {
  }

  /** In host + ":" + port the last ':' is the one after the host. */
  lemma LastColonAfterHost(host: string, port: string)
    requires forall i :: 0 <= i < |host| ==> host[i] != ':'
    requires Strconv.AllDigits(port)
    ensures LastIndexOf(host + ":" + port, ':') == |host|
  {
    var s := host + ":" + port;
    var k := LastIndexOf(s, ':');
    assert s[|host|] == ':';
    assert forall i :: |host| < i < |s| ==> s[i] == port[i - |host| - 1];
  }

  /** No character that ends the part url.Parse looks at or makes it fail. */
  predicate IsClean(s: string) {
    forall i :: 0 <= i < |s| ==> !IsControl(s[i]) && s[i] != '#' && s[i] != '?'
  }

  /** For scheme:rest with a valid scheme and nothing to cut off, url.Parse goes straight to ParseRest. */
  lemma ParseUrlWithScheme(scheme: string, rest: string)
    requires IsScheme(scheme) && IsClean(rest)
    ensures ParseUrl(scheme + ":" + rest) == ParseRest(scheme, rest)
  {
    var raw := scheme + ":" + rest;
    assert IsClean(raw) by {
      forall i | 0 <= i < |raw| ensures !IsControl(raw[i]) && raw[i] != '#' && raw[i] != '?' {
        if i < |scheme| { assert raw[i] == scheme[i]; }
        else if i > |scheme| { assert raw[i] == rest[i - |scheme| - 1]; }
      }
    }
    IndexOfAbsent(raw, '#');
    assert raw[..|raw|] == raw;
    ScanValidScheme(raw, scheme, rest, 0);
    LowerOfLowercase(scheme);
    IndexOfAbsent(rest, '?');
    assert rest[..|rest|] == rest;
  }

  /** With a scheme, "//" followed by an authority without '/' is parsed by ParseAuthority, with an empty path. */
  lemma ParseRestAuthority(scheme: string, authority: string)
    requires scheme != "" && '/' !in authority
    ensures ParseRest(scheme, "//" + authority) ==
      match ParseAuthority(authority) case None => None case Some(h) => Some(Url(scheme, h))
  {
    var rest := "//" + authority;
    assert HasPrefix(rest, "/") && HasPrefix(rest, "//");
    assert rest[2..] == authority;
    IndexOfAbsent(authority, '/');
    assert authority[..|authority|] == authority;
    assert authority[|authority|..] == "";
  }

  /** "//" + host + ":" + port holds nothing url.Parse cuts off, and its authority no '/', '@' or '['-start. */
  lemma HostPortClean(host: string, port: string)
    requires forall i :: 0 <= i < |host| ==> StaysInHost(host[i])
    requires Strconv.AllDigits(port)
    ensures IsClean("//" + host + ":" + port)
    ensures '/' !in host + ":" + port && '@' !in host + ":" + port
    ensures !HasPrefix(host + ":" + port, "[")
  {
    var rest := "//" + host + ":" + port;
    forall i | 0 <= i < |rest| ensures !IsControl(rest[i]) && rest[i] != '#' && rest[i] != '?' {
      if 2 <= i < 2 + |host| { assert rest[i] == host[i - 2]; }
      else if i > 2 + |host| { assert rest[i] == port[i - 3 - |host|]; }
    }
    var a := host + ":" + port;
    forall i | 0 <= i < |a| ensures a[i] != '/' && a[i] != '@' {
      if i < |host| { assert a[i] == host[i]; }
      else if i > |host| { assert a[i] == port[i - |host| - 1]; }
    }
    assert a[0] == if |host| > 0 then host[0] else ':';
  }

  /** What a plain host gives ParseHost: no character that ends the host or starts a port. */
  lemma PlainHostStays(host: string)
    requires IsPlainHost(host)
    ensures forall i :: 0 <= i < |host| ==> StaysInHost(host[i])
  {
    forall i | 0 <= i < |host| ensures StaysInHost(host[i]) {
      PlainHostCharIs(host[i]);
    }
  }

  /** A plain host, followed by a numeric port, passes unescape in host mode. */
  lemma HostPortAccepted(host: string, port: string)
    requires IsPlainHost(host) && Strconv.AllDigits(port)
    ensures HostTextAccepted(host + ":" + port, false)
  {
    var a := host + ":" + port;
    forall i | 0 <= i < |a| ensures a[i] != '%' && (a[i] < '\U{80}' ==> HostMayHold(a[i])) {
      if i < |host| { assert a[i] == host[i]; }
      else if i > |host| { assert a[i] == port[i - |host| - 1]; }
    }
  }

  /** A plain host followed by a numeric port is a valid authority, and Port gives back the port. */
  lemma AuthorityHostPort(host: string, port: string)
    requires IsPlainHost(host) && Strconv.AllDigits(port)
    ensures ParseAuthority(host + ":" + port) == Some(host + ":" + port)
    ensures Port(Url("", host + ":" + port)) == port
  {
    var authority := host + ":" + port;
    PlainHostStays(host);
    HostPortClean(host, port);
    LastIndexOfAbsent(authority, '@');
    LastColonAfterHost(host, port);
    assert authority[|host|..] == ":" + port;
    assert authority[|host| + 1..] == port;
    HostPortAccepted(host, port);
  }

  /** A plain host alone is a valid authority with no port. */
  lemma AuthorityHostOnly(host: string)
    requires IsPlainHost(host)
    ensures ParseAuthority(host) == Some(host)
    ensures Port(Url("", host)) == ""
  {
    PlainHostStays(host);
    assert '@' !in host && ':' !in host;
    LastIndexOfAbsent(host, '@');
    LastIndexOfAbsent(host, ':');
    if |host| > 0 {
      assert host[0] != '[';
    }
    assert HostTextAccepted(host, false);
  }

  /**
   * For a broker URL written scheme://host:port, the parser gives back the scheme,
   * the host with its port, and Port gives back the port.
   */
  lemma ParseHostPort(scheme: string, host: string, port: string)
    requires IsScheme(scheme) && IsPlainHost(host)
    requires Strconv.AllDigits(port) && |port| > 0
    ensures ParseUrl(scheme + "://" + host + ":" + port) == Some(Url(scheme, host + ":" + port))
    ensures Port(Url(scheme, host + ":" + port)) == port
  {
    PlainHostStays(host);
    HostPortClean(host, port);
    assert scheme + "://" + host + ":" + port == scheme + ":" + ("//" + (host + ":" + port));
    ParseUrlWithScheme(scheme, "//" + (host + ":" + port));
    ParseRestAuthority(scheme, host + ":" + port);
    AuthorityHostPort(host, port);
  }

  /** For a broker URL written scheme://host, the parser gives back the scheme and host, and no port. */
  lemma ParseHostOnly(scheme: string, host: string)
    requires IsScheme(scheme) && IsPlainHost(host)
    ensures ParseUrl(scheme + "://" + host) == Some(Url(scheme, host))
    ensures Port(Url(scheme, host)) == ""
  {
    PlainHostStays(host);
    var rest := "//" + host;
    forall i | 0 <= i < |rest| ensures !IsControl(rest[i]) && rest[i] != '#' && rest[i] != '?' {
      if i >= 2 { assert rest[i] == host[i - 2]; }
    }
    assert scheme + "://" + host == scheme + ":" + rest;
    ParseUrlWithScheme(scheme, rest);
    ParseRestAuthority(scheme, host);
    AuthorityHostOnly(host);
  }

  /**
   * A host holding an ASCII character that Go's host check refuses unescaped
   * (a space, '\\', '^', '`', '{', '|' or '}', for instance) makes url.Parse
   * fail on scheme://host:port.
   */
  lemma ParseRejectsHostChar(scheme: string, host: string, port: string, j: nat)
    requires IsScheme(scheme) && Strconv.AllDigits(port)
    requires forall i :: 0 <= i < |host| ==> StaysInHost(host[i])
    requires j < |host| && host[j] < '\U{80}' && !HostMayHold(host[j])
    ensures ParseUrl(scheme + "://" + host + ":" + port) == None
  {
    var a := host + ":" + port;
    HostPortClean(host, port);
    assert scheme + "://" + host + ":" + port == scheme + ":" + ("//" + a);
    ParseUrlWithScheme(scheme, "//" + a);
    ParseRestAuthority(scheme, a);
    AuthorityRejectsHostChar(host, port, j);
  }

  /** The authority step of ParseRejectsHostChar: the host check refuses the character at j. */
  lemma AuthorityRejectsHostChar(host: string, port: string, j: nat)
    requires Strconv.AllDigits(port)
    requires forall i :: 0 <= i < |host| ==> StaysInHost(host[i])
    requires j < |host| && host[j] < '\U{80}' && !HostMayHold(host[j])
    ensures ParseAuthority(host + ":" + port) == None
  {
    var a := host + ":" + port;
    HostPortClean(host, port);
    LastIndexOfAbsent(a, '@');
    LastColonAfterHost(host, port);
    assert a[|host|..] == ":" + port;
    assert a[j] == host[j];
    assert !HostTextAccepted(a, false);
  }
}
