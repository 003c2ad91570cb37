/** Parsing a printed SIP URI gives it back on an explicit domain. */
module SipUriRoundTrip {
  import opened Wrappers
  import opened Text
  import opened Params
  import opened ParamsRoundTrip
  import opened SipUris

  ghost predicate LegalOrEmpty(p: Params, cfg: Config) {
    p == EMPTY || Legal(p, cfg)
  }

  /** User and password: never empty, no password without a user, and no delimiter of their own. */
  predicate LegalUser(user: Option<string>, password: Option<string>) {
    && (user.Some? ==> user.value != "" && '@' !in user.value && ':' !in user.value)
    && (password.Some? ==> user.Some? && password.value != "" && '@' !in password.value)
  }

  ghost predicate InDomain(u: SipUri) {
    && LegalUser(u.user, u.password)
    && ':' !in u.host && ';' !in u.host && (u.params == EMPTY ==> '?' !in u.host)
    && (u.port.Some? ==> u.port.value <= 0xFFFF)
    && LegalOrEmpty(u.params, URI_PARAMS) && LegalOrEmpty(u.headers, URI_HEADERS)
    // without a user nothing that follows may look like the end of one
    && (u.user.None? ==> '@' !in AfterUser(u))
    // a quoted last parameter cannot be followed by headers
    && (u.headers != EMPTY && u.params != EMPTY ==> !LastQuoted(u.params))
    // without parameters a ';' in the headers would be taken for the end of the host
    && (u.headers != EMPTY && u.params == EMPTY ==> ';' !in Render(u.headers, '&'))
  }

  lemma IndexMissing(a: string, c: char, b: string)
    requires c !in a && c !in b
    ensures IndexOf(a + b, c).None?
  {
  }

  /** The first occurrence in `a + b` when `a` has none. */
  lemma IndexSkips(a: string, c: char, b: string)
    requires c !in a
    ensures IndexOf(a + b, c) == match IndexOf(b, c) case None => None case Some(i) => Some(|a| + i)
  {
    hide IndexOf;
    var s := a + b;
    assert forall j :: 0 <= j < |a| ==> s[j] == a[j];
    assert forall j :: 0 <= j < |b| ==> s[|a| + j] == b[j];
    if IndexOf(b, c).Some? {
      var (i, j) := (IndexOf(b, c).value, IndexOf(s, c).value);
      assert s[|a| + i] == c;
      assert j >= |a| && b[j - |a|] == c;
    }
  }

  lemma SplitUserOnly(user: string, rest: string)
    requires '@' !in user && ':' !in user
    ensures SplitUser(user + "@" + rest) == (Some(user), None, rest)
  {
    var s := user + "@" + rest;
    IndexAfter(user, '@', rest);
    IndexSkips(user + "@", ':', rest);
    assert s[..|user|] == user;
    assert s[|user| + 1..] == rest;
  }

  lemma SplitUserPassword(user: string, pass: string, rest: string, s: string)
    requires '@' !in user && ':' !in user && '@' !in pass
    requires s == (user + ":" + pass) + "@" + rest
    ensures SplitUser(s) == (Some(user), Some(pass), rest)
  {
    IndexAfter(user + ":" + pass, '@', rest);
    FirstColon(user, pass, rest, s);
    assert s[..|user|] == user;
    assert s[|user| + 1..|user + ":" + pass|] == pass;
    assert s[|user + ":" + pass| + 1..] == rest;
  }

  lemma FirstColon(user: string, pass: string, rest: string, s: string)
    requires ':' !in user && s == (user + ":" + pass) + "@" + rest
    ensures IndexOf(s, ':') == Some(|user|)
  {
    hide IndexOf;
    assert s == user + ":" + (pass + "@" + rest);
    IndexAfter(user, ':', pass + "@" + rest);
  }

  lemma SplitPrinted(u: SipUri, rest: string)
    requires LegalUser(u.user, u.password) && (u.user.None? ==> '@' !in rest)
    ensures SplitUser(UserInfo(u) + rest) == (u.user, u.password, rest)
  {
    hide SplitUser, IndexOf;
    if u.user.None? {
      assert UserInfo(u) + rest == rest;
      NoUser(rest);
    } else if u.password.None? {
      assert UserInfo(u) == u.user.value + "@";
      SplitUserOnly(u.user.value, rest);
    } else {
      assert UserInfo(u) == u.user.value + ":" + u.password.value + "@" by {
        Regroup(u.user.value, ":", u.password.value);
      }
      SplitUserPassword(u.user.value, u.password.value, rest, UserInfo(u) + rest);
    }
  }

  lemma NoUser(rest: string)
    requires '@' !in rest
    ensures SplitUser(rest) == (None, None, rest)
  {
  }

  lemma DecimalHasNo(n: nat, c: char)
    requires !IsDigit(c)
    ensures c !in Decimal(n)
  {
  }

  lemma HostPortParses(host: string, port: Option<nat>)
    requires ':' !in host && (port.Some? ==> port.value <= 0xFFFF)
    ensures ParseHostPort(HostPort(host, port)) == Host(host, port)
  {
    if port.Some? {
      var s := host + ":" + Decimal(port.value);
      IndexAfter(host, ':', Decimal(port.value));
      assert s[..|host|] == host && s[|host| + 1..] == Decimal(port.value);
      DecimalValue(port.value);
    }
  }

  lemma HostPortHasNo(host: string, port: Option<nat>, c: char)
    requires c !in host && c != ':' && !IsDigit(c)
    ensures c !in HostPort(host, port)
  {
    if port.Some? {
      DecimalHasNo(port.value, c);
    }
  }

  ghost function TailText(params: Params, headers: Params): string
    requires params.Valid() && headers.Valid()
  {
    ParamText(params, ';', ';') + ParamText(headers, '?', '&')
  }

  lemma EndOfHostPrinted(addr: string, params: Params, headers: Params)
    requires LegalOrEmpty(params, URI_PARAMS) && LegalOrEmpty(headers, URI_HEADERS)
    requires ';' !in addr && (params == EMPTY ==> '?' !in addr)
    requires headers != EMPTY && params == EMPTY ==> ';' !in Render(headers, '&')
    ensures EndOfHost(addr + TailText(params, headers)) == |addr|
  {
    hide Render, LegalItem;
    KeysShown(params);
    KeysShown(headers);
    if params != EMPTY {
      var rest := Render(params, ';') + ParamText(headers, '?', '&');
      Regroup(";", Render(params, ';'), ParamText(headers, '?', '&'));
      Regroup(addr, ";", rest);
      IndexAfter(addr, ';', rest);
    } else if headers != EMPTY {
      assert TailText(params, headers) == "?" + Render(headers, '&');
      IndexMissing(addr, ';', "?" + Render(headers, '&'));
      Regroup(addr, "?", Render(headers, '&'));
      IndexAfter(addr, '?', Render(headers, '&'));
    } else {
      assert addr + TailText(params, headers) == addr;
    }
  }

  lemma TailParses(params: Params, headers: Params)
    requires LegalOrEmpty(params, URI_PARAMS) && LegalOrEmpty(headers, URI_HEADERS)
    requires headers != EMPTY && params != EMPTY ==> !LastQuoted(params)
    ensures ParseTail(TailText(params, headers)) == Some((params, headers))
  {
    hide Parse, RenderFrom;
    var hs := ParamText(headers, '?', '&');
    var tail := TailText(params, headers);
    KeysShown(params);
    KeysShown(headers);
    HeadersParse(headers);
    if params != EMPTY {
      assert Usual(URI_PARAMS);
      assert Legal(params, URI_PARAMS);
      assert hs != "" ==> headers != EMPTY && hs[0] == '?';
      assert Follows(params, hs, URI_PARAMS);
      ParseRender(params, hs, URI_PARAMS);
      assert tail[1 + |Render(params, ';')|..] == hs;
    } else {
      assert tail == hs;
      assert hs[0..] == hs;
    }
  }

  lemma KeysShown(p: Params)
    requires p.Valid()
    ensures p == EMPTY <==> p.keys == []
  {
    if p.keys == [] {
      assert forall k :: k !in p.vals;
    }
  }

  lemma HeadersParse(headers: Params)
    requires LegalOrEmpty(headers, URI_HEADERS)
    ensures Parse(ParamText(headers, '?', '&'), URI_HEADERS) == Parsed(headers, |ParamText(headers, '?', '&')|)
  {
    if headers != EMPTY {
      ParseRender(headers, "", URI_HEADERS);
      assert ParamText(headers, '?', '&') + "" == ParamText(headers, '?', '&');
    }
  }

  /** ParseSipUri undoes String on the domain. */
  lemma UriRoundTrip(u: SipUri)
    requires Printable(u) && InDomain(u)
    ensures ParseSip(Print(u)) == Uri(u)
  {
    var body := UserInfo(u) + AfterUser(u);
    SchemeParses(u.encrypted, body);
    SplitPrinted(u, AfterUser(u));
    var addr := HostPort(u.host, u.port);
    HostPortHasNo(u.host, u.port, ';');
    if u.params == EMPTY {
      HostPortHasNo(u.host, u.port, '?');
    }
    EndOfHostPrinted(addr, u.params, u.headers);
    HostPortParses(u.host, u.port);
    TailParses(u.params, u.headers);
    var s := addr + TailText(u.params, u.headers);
    assert s[..|addr|] == addr && s[|addr|..] == TailText(u.params, u.headers);
  }

  lemma SchemeParses(encrypted: bool, body: string)
    ensures ParseSip((if encrypted then "sips:" else "sip:") + body) == ParseBody(encrypted, body)
  {
    hide ParseBody;
    var s := (if encrypted then "sips:" else "sip:") + body;
    assert s[..3] == "sip";
    assert ToLower("sip") == "sip";
    assert s[if encrypted then 5 else 4..] == body;
  }
}
