/** SIP URIs: the printer and the parser. */
module SipUris {
  import opened Wrappers
  import opened Text
  import opened Params
  import opened ParamsRoundTrip

  /** `params` and `headers` are EMPTY where Go also has nil. */
  datatype SipUri = SipUri(
    encrypted: bool, user: Option<string>, password: Option<string>,
    host: string, port: Option<nat>, params: Params, headers: Params
  )

  /** Crash is an index out of range at run time. */
  datatype UriResult = Uri(uri: SipUri) | Wildcard | Bad | Crash

  const URI_PARAMS := Config(';', ';', '?', true, true)
  const URI_HEADERS := Config('?', '&', NUL, true, false)

  // ---- the printer

  predicate Present(s: Option<string>) {
    s.Some? && s.value != ""
  }

  function UserInfo(u: SipUri): string {
    if !Present(u.user) then ""
    else u.user.value + (if Present(u.password) then ":" + u.password.value else "") + "@"
  }

  function HostPort(host: string, port: Option<nat>): string {
    if port.None? then host else host + ":" + Decimal(port.value)
  }

  function ParamText(p: Params, start: char, sep: char): string
    requires forall k :: k in p.keys ==> k in p.vals
  {
    if p.keys == [] then "" else [start] + Render(p, sep)
  }

  ghost predicate Printable(u: SipUri) {
    u.params.Valid() && u.headers.Valid()
  }

  function Scheme(u: SipUri): string {
    if u.encrypted then "sips:" else "sip:"
  }

  /** What follows the user information. */
  ghost function AfterUser(u: SipUri): string
    requires Printable(u)
  {
    HostPort(u.host, u.port) + (ParamText(u.params, ';', ';') + ParamText(u.headers, '?', '&'))
  }

  ghost function Print(u: SipUri): string
    requires Printable(u)
  {
    Scheme(u) + (UserInfo(u) + AfterUser(u))
  }

  // ---- the parser

  datatype HostResult = Host(host: string, port: Option<nat>) | NoPort

  function ParseHostPort(raw: string): HostResult {
    match IndexOf(raw, ':')
    case None => Host(raw, None)
    case Some(i) =>
      match ParseUint16(raw[i + 1..])
      case None => NoPort
      case Some(n) => Host(raw[..i], Some(n))
  }

  /** User, password and the text after them. */
  function SplitUser(s: string): (Option<string>, Option<string>, string) {
    match IndexOf(s, '@')
    case None => (None, None, s)
    case Some(at) =>
      match IndexOf(s, ':')
      case None => (Some(s[..at]), None, s[at + 1..])
      case Some(colon) =>
        if colon > at then (Some(s[..at]), None, s[at + 1..])
        else (Some(s[..colon]), Some(s[colon + 1..at]), s[at + 1..])
  }

  /** Where the host and port end. */
  function EndOfHost(s: string): (e: nat)
    ensures e <= |s|
  {
    match IndexOf(s, ';')
    case Some(i) => i
    case None => match IndexOf(s, '?') case Some(i) => i case None => |s|
  }

  /** Parse keeps within its text. */
  lemma {:induction false} LoopWithin(src: string, i: nat, l: Local, cfg: Config)
    requires i <= |src| && Loop(src, i, l, cfg).Parsed?
    ensures Loop(src, i, l, cfg).consumed <= |src|
    decreases |src| - i
  {
    if i < |src| && TurnAt(src, i, l, cfg).Go? {
      LoopWithin(src, i + 1, TurnAt(src, i, l, cfg).l, cfg);
    }
  }

  lemma ParseWithin(src: string, cfg: Config)
    requires Parse(src, cfg).Parsed?
    ensures Parse(src, cfg).consumed <= |src|
  {
    if src != "" {
      LoopWithin(src, if cfg.start == NUL then 0 else 1, START, cfg);
    }
  }

  /** The parameters and headers after the host. */
  function ParseTail(s: string): Option<(Params, Params)> {
    if s == "" then Some((EMPTY, EMPTY))
    else
      var ps := if s[0] == ';' then Parse(s, URI_PARAMS) else Parsed(EMPTY, 0);
      if ps.Failed? then None
      else
        assert ps.consumed <= |s| by { if s[0] == ';' { ParseWithin(s, URI_PARAMS); } }
        var rest := s[ps.consumed..];
        var hs := Parse(rest, URI_HEADERS);
        if hs.Failed? || hs.consumed < |rest| then None else Some((ps.params, hs.params))
  }

  /** Everything after "sip:" or "sips:". */
  function ParseBody(encrypted: bool, s: string): UriResult {
    var (user, password, rest) := SplitUser(s);
    var e := EndOfHost(rest);
    match ParseHostPort(rest[..e])
    case NoPort => Bad
    case Host(host, port) =>
      match ParseTail(rest[e..])
      case None => Bad
      case Some((ps, hs)) => Uri(SipUri(encrypted, user, password, host, port, ps, hs))
  }

  function ParseSip(s: string): UriResult {
    if |s| < 3 then Crash
    else if ToLower(s[..3]) != "sip" then Bad
    else if |s| == 3 then Crash
    else
      var encrypted := LowerChar(s[3]) == 's';
      var at := if encrypted then 4 else 3;
      if |s| == at then Crash
      else if s[at] != ':' then Bad
      else ParseBody(encrypted, s[at + 1..])
  }

  /** ParseUri: the wildcard, or a SIP URI after its scheme. */
  function ParseAny(s: string): UriResult {
    if TrimSpace(s) == "*" then Wildcard
    else
      match IndexOf(s, ':')
      case None => Bad
      case Some(i) => if ToLower(s[..i]) == "sip" || ToLower(s[..i]) == "sips" then ParseSip(s) else Bad
  }

  /** ParseSipUri: the remaining text shrinks as the fields are filled. */
  method ParseSipUri(uriStr: string) returns (r: UriResult)
    ensures r == ParseSip(uriStr)
  {
    hide ParseBody;
    var rest := uriStr;
    if |rest| < 3 {
      return Crash;
    }
    if ToLower(rest[..3]) != "sip" {
      return Bad;
    }
    rest := rest[3..];
    if |rest| == 0 {
      return Crash;
    }
    var encrypted := false;
    if LowerChar(rest[0]) == 's' {
      encrypted := true;
      rest := rest[1..];
    }
    if |rest| == 0 {
      return Crash;
    }
    if rest[0] != ':' {
      return Bad;
    }
    rest := rest[1..];
    assert rest == uriStr[if encrypted then 5 else 4..];
    r := ParseAfterScheme(encrypted, rest);
  }

  method ParseAfterScheme(encrypted: bool, uriStr: string) returns (r: UriResult)
    ensures r == ParseBody(encrypted, uriStr)
  {
    var rest := uriStr;
    var user, password: Option<string> := None, None;
    var endOfUserInfo := IndexOf(rest, '@');
    if endOfUserInfo.Some? {
      var endOfUsername := IndexOf(rest, ':');
      if endOfUsername.None? || endOfUsername.value > endOfUserInfo.value {
        user := Some(rest[..endOfUserInfo.value]);
      } else {
        user := Some(rest[..endOfUsername.value]);
        password := Some(rest[endOfUsername.value + 1..endOfUserInfo.value]);
      }
      rest := rest[endOfUserInfo.value + 1..];
    }
    assert (user, password, rest) == SplitUser(uriStr);
    var e := EndOfHost(rest);
    var hostPort := ParseHostPort(rest[..e]);
    rest := rest[e..];
    if hostPort.NoPort? {
      return Bad;
    }
    var tail := ParseUriTail(rest);
    if tail.None? {
      return Bad;
    }
    r := Uri(SipUri(encrypted, user, password, hostPort.host, hostPort.port, tail.value.0, tail.value.1));
  }

  method ParseUriTail(text: string) returns (r: Option<(Params, Params)>)
    ensures r == ParseTail(text)
  {
    var rest := text;
    if |rest| == 0 {
      return Some((EMPTY, EMPTY));
    }
    var params := EMPTY;
    if rest[0] == ';' {
      var ps := ParseParams(rest, URI_PARAMS);
      if ps.Failed? {
        return None;
      }
      params := ps.params;
      ParseWithin(rest, URI_PARAMS);
      rest := rest[ps.consumed..];
    }
    var hs := ParseParams(rest, URI_HEADERS);
    if hs.Failed? {
      return None;
    }
    ParseWithin(rest, URI_HEADERS);
    rest := rest[hs.consumed..];
    if |rest| > 0 {
      return None;
    }
    r := Some((params, hs.params));
  }
}
