/** The domain of the SIP URI round trip is exact. */
module SipUriExactly {
  import opened Wrappers
  import opened Text
  import opened Params
  import opened ParamsRoundTrip
  import opened SipUris
  import opened SipUriRoundTrip
  import ParamsExactly
  import ParamsSize

  // ---- what the pieces of the parser return

  lemma UserFacts(s: string)
    ensures var (user, pass, rest) := SplitUser(s);
            && (user.None? ==> pass.None? && rest == s && '@' !in s)
            && (user.Some? ==> '@' !in user.value && ':' !in user.value && |rest| < |s|)
            && (pass.Some? ==> user.Some? && '@' !in pass.value)
  {
    hide IndexOf;
    var at := IndexOf(s, '@');
    if at.Some? {
      assert forall j :: 0 <= j < at.value ==> s[..at.value][j] == s[j];
      var colon := IndexOf(s, ':');
      if colon.Some? && colon.value <= at.value {
        assert forall j :: 0 <= j < colon.value ==> s[..colon.value][j] == s[j];
        assert forall j :: colon.value + 1 <= j < at.value ==> s[colon.value + 1..at.value][j - colon.value - 1] == s[j];
      }
    }
  }

  /** The text is the user information that the result would print, and the rest. */
  lemma UserText(s: string)
    ensures var (user, pass, rest) := SplitUser(s);
            user.Some? ==> s == user.value + (if pass.Some? then ":" + pass.value else "") + "@" + rest
  {
    hide IndexOf;
    var at := IndexOf(s, '@');
    if at.Some? {
      assert s == s[..at.value] + "@" + s[at.value + 1..];
      var colon := IndexOf(s, ':');
      if colon.Some? && colon.value <= at.value {
        assert s[..at.value] == s[..colon.value] + (":" + s[colon.value + 1..at.value]);
      } else {
        assert s[..at.value] + "" == s[..at.value];
      }
    }
  }

  lemma EndFacts(s: string)
    ensures var e := EndOfHost(s);
            && ';' !in s[..e]
            && (e < |s| ==> s[e] == if ';' in s then ';' else '?') && (';' in s ==> e < |s|)
            && (';' !in s ==> '?' !in s[..e])
  {
    hide IndexOf;
    var e := EndOfHost(s);
    assert forall j :: 0 <= j < e ==> s[..e][j] == s[j];
  }

  lemma HostFacts(raw: string)
    requires ParseHostPort(raw).Host?
    ensures var Host(host, port) := ParseHostPort(raw);
            && ':' !in host && |host| <= |raw| && host == raw[..|host|]
            && (port.Some? ==> port.value <= 0xFFFF)
            && |HostPort(host, port)| <= |raw|
  {
    hide IndexOf;
    var i := IndexOf(raw, ':');
    if i.Some? {
      assert forall j :: 0 <= j < i.value ==> raw[..i.value][j] == raw[j];
      DecimalNotLonger(raw[i.value + 1..]);
    }
  }

  /** Leading zeros are not printed again. */
  lemma {:induction false} DecimalNotLonger(s: string)
    requires DigitsValue(s).Some?
    ensures |Decimal(DigitsValue(s).value)| <= |s|
    decreases |s|
  {
    if |s| > 1 {
      DecimalNotLonger(s[..|s| - 1]);
    }
  }

  /** The printed size of parsed parameters and headers. */
  lemma TailNotLonger(s: string)
    requires Ascii(s) && ParseTail(s).Some?
    ensures var (ps, hs) := ParseTail(s).value;
            && ps.Valid() && hs.Valid() && |TailText(ps, hs)| <= |s|
            && (s != "" && s[0] == ';' ==> ps.keys != [])
  {
    hide Parse, Render, Params.Valid;
    EmptyValid();
    if s != "" {
      var n := if s[0] == ';' then Parse(s, URI_PARAMS).consumed else 0;
      if s[0] == ';' {
        ParamsSize.ReprintNotLonger(s, URI_PARAMS, ';');
        ParseSound(s, URI_PARAMS);
        ParseWithin(s, URI_PARAMS);
      }
      HeadersNotLonger(s[n..]);
      ParseWithin(s[n..], URI_HEADERS);
    }
  }

  lemma EmptyValid()
    ensures EMPTY.Valid()
  {
  }

  lemma HeadersNotLonger(s: string)
    requires Ascii(s) && Parse(s, URI_HEADERS).Parsed?
    ensures var Parsed(hs, n) := Parse(s, URI_HEADERS); hs.Valid() && |ParamText(hs, '?', '&')| <= n
  {
    hide Loop;
    if s != "" {
      ParamsSize.ReprintNotLonger(s, URI_HEADERS, '&');
    }
  }

  /** Parsing the part behind the user information and printing the result gives no more characters. */
  lemma RestNotLonger(s: string, u: SipUri)
    requires Printable(u)
    requires var e := EndOfHost(s);
             && Ascii(s[e..])
             && ParseHostPort(s[..e]) == Host(u.host, u.port) && ParseTail(s[e..]) == Some((u.params, u.headers))
    ensures |AfterUser(u)| <= |s|
  {
    hide ParseHostPort, ParseTail, EndOfHost, HostPort, ParamText;
    var e := EndOfHost(s);
    HostFacts(s[..e]);
    TailNotLonger(s[e..]);
  }

  // ---- the domain, piece by piece, from a successful round trip

  /** The rest begins where the user information ends. */
  lemma UserAgrees(u: SipUri, s: string, rest: string)
    requires Printable(u) && s == UserInfo(u) + AfterUser(u)
    requires SplitUser(s) == (u.user, u.password, rest)
    requires u.user == Some("") ==> |AfterUser(u)| <= |rest|
    ensures LegalUser(u.user, u.password) && rest == AfterUser(u)
    ensures u.user.None? ==> '@' !in AfterUser(u)
  {
    hide SplitUser, AfterUser;
    var after := AfterUser(u);
    UserFacts(s);
    UserText(s);
    if !Present(u.user) {
      assert s == after;
    } else {
      var user := u.user.value;
      if Present(u.password) {
        SameEnd(user + ":" + u.password.value + "@", after, rest) by {
          Regroup(user, ":", u.password.value);
        }
      } else {
        assert s == user + "@" + after;
        if u.password.Some? {
          AtOrColon(user, after, rest);
          assert false;
        } else {
          SameEnd(user + "@", after, rest) by { assert user + "" == user; }
        }
      }
    }
  }

  lemma AtOrColon(user: string, a: string, b: string)
    ensures user + "@" + a != user + (":" + "") + "@" + b
  {
    var (s, t) := (user + "@" + a, user + (":" + "") + "@" + b);
    assert s[|user|] == '@' && t[|user|] == ':';
  }

  lemma SameEnd(a: string, b: string, c: string)
    requires a + b == a + c
    ensures b == c
  {
    assert (a + b)[|a|..] == b && (a + c)[|a|..] == c;
  }

  /** Where the parameters and headers are cut off a printed URI. */
  lemma HostAgrees(u: SipUri, rest: string, e: nat)
    requires Printable(u) && rest == AfterUser(u) && e == EndOfHost(rest) && Ascii(rest[e..])
    requires ParseHostPort(rest[..e]) == Host(u.host, u.port) && ParseTail(rest[e..]) == Some((u.params, u.headers))
    ensures ':' !in u.host && ';' !in u.host && (u.params == EMPTY ==> '?' !in u.host)
    ensures u.port.Some? ==> u.port.value <= 0xFFFF
    ensures u.params == EMPTY ==> ';' !in rest
    ensures |HostPort(u.host, u.port)| <= e
  {
    hide ParseHostPort, ParseTail, EndOfHost, HostPort, ParamText, Ascii;
    EndFacts(rest);
    HostFacts(rest[..e]);
    TailNotLonger(rest[e..]);
    InFront(u.host, rest[..e], ';');
    if '?' !in rest[..e] {
      InFront(u.host, rest[..e], '?');
    }
    HostPortHasNo(u.host, u.port, ';');
    var addr := HostPort(u.host, u.port);
    assert rest[..|addr|] == addr;
    if ';' !in rest {
      if u.params != EMPTY {
        ParamsShow(u);
        assert false;
      }
      HostPortHasNo(u.host, u.port, '?');
    }
    assert forall j :: 0 <= j < |addr| ==> rest[j] == addr[j];
  }

  lemma InFront(a: string, s: string, c: char)
    requires |a| <= |s| && a == s[..|a|] && c !in s
    ensures c !in a
  {
    assert forall j :: 0 <= j < |a| ==> a[j] == s[j];
  }

  lemma ParamsShow(u: SipUri)
    requires Printable(u) && u.params != EMPTY
    ensures ';' in AfterUser(u)
  {
    KeysShown(u.params);
    assert ParamText(u.params, ';', ';')[0] == ';';
    assert AfterUser(u)[|HostPort(u.host, u.port)|] == ';';
  }

  /** What comes out of the tail is clean, and legal when the tail has gaps between its quotes. */
  lemma TailFacts(s: string, ps: Params, hs: Params)
    requires ParseTail(s) == Some((ps, hs)) && Ascii(s)
    ensures (ps == EMPTY || CleanParams(ps, URI_PARAMS)) && (hs == EMPTY || CleanParams(hs, URI_HEADERS))
    ensures ps.Valid() && hs.Valid()
    ensures ParamsExactly.Gapped(s) && ParamsExactly.AsciiParams(ps) && ParamsExactly.AsciiParams(hs)
            ==> LegalOrEmpty(ps, URI_PARAMS) && LegalOrEmpty(hs, URI_HEADERS)
  {
    hide Parse, CleanItem, LegalItem, Ascii, ParamsExactly.AsciiParams, ParamsExactly.Gapped;
    EmptyValid();
    if s != "" {
      var n := if s[0] == ';' then Parse(s, URI_PARAMS).consumed else 0;
      if s[0] == ';' {
        ParseSound(s, URI_PARAMS);
        ParseWithin(s, URI_PARAMS);
        if ParamsExactly.Gapped(s) && ParamsExactly.AsciiParams(ps) {
          ParamsExactly.ParsedIsLegal(s, URI_PARAMS);
        }
      }
      var rest := s[n..];
      AsciiEnd(s, n);
      ParseSound(rest, URI_HEADERS);
      if rest == "" {
        assert hs == EMPTY by { ParseNothing(URI_HEADERS); }
      } else if ParamsExactly.Gapped(s) && ParamsExactly.AsciiParams(hs) {
        GapsEnd(s, n);
        ParamsExactly.ParsedIsLegal(rest, URI_HEADERS);
      }
    }
  }

  lemma ParseNothing(cfg: Config)
    ensures Parse("", cfg) == Parsed(EMPTY, 0)
  {
  }

  lemma AsciiEnd(s: string, n: nat)
    requires n <= |s| && Ascii(s)
    ensures Ascii(s[n..])
  {
  }

  lemma GapsEnd(s: string, n: nat)
    requires n <= |s| && ParamsExactly.Gapped(s)
    ensures ParamsExactly.Gapped(s[n..])
  {
    var t := s[n..];
    forall i, j | 0 <= i < j < |t| && t[i] == '"' && t[j] == '"' ensures ParamsExactly.HasMark(t, i, j) {
      assert ParamsExactly.HasMark(s, n + i, n + j);
      var k :| n + i < k < n + j && ParamsExactly.Mark(s[k]);
      assert ParamsExactly.Mark(t[k - n]);
    }
  }

  /** The printed parameters of one kind. */
  lemma TextGaps(p: Params, start: char, sep: char, cfg: Config)
    requires p == EMPTY || CleanParams(p, cfg)
    requires p.Valid() && ParamsExactly.AsciiParams(p) && start != '"' && sep != '"'
    requires start < 128 as char && sep < 128 as char
    ensures ParamsExactly.Gapped(ParamText(p, start, sep)) && ParamsExactly.Led(ParamText(p, start, sep))
    ensures Ascii(ParamText(p, start, sep))
  {
    hide ParamsExactly.Gapped, ParamsExactly.Led, Ascii, ParamsExactly.AsciiParams, CleanItem, RenderFrom;
    KeysShown(p);
    if p.keys == [] {
      ParamsExactly.NoQuotes("");
      ParamsExactly.EmptyAscii();
    } else {
      ParamsExactly.NoQuotes([start]);
      ParamsExactly.RenderGaps(p, sep, 0, cfg);
      ParamsExactly.GapsJoin([start], Render(p, sep));
      ParamsExactly.RenderAscii(p, sep, 0);
      ParamsExactly.LeadAscii([start], start);
      ParamsExactly.AsciiJoin([start], Render(p, sep));
    }
  }

  lemma TailTextGaps(params: Params, headers: Params)
    requires params == EMPTY || CleanParams(params, URI_PARAMS)
    requires headers == EMPTY || CleanParams(headers, URI_HEADERS)
    requires params.Valid() && headers.Valid()
    requires ParamsExactly.AsciiParams(params) && ParamsExactly.AsciiParams(headers)
    ensures ParamsExactly.Gapped(TailText(params, headers)) && Ascii(TailText(params, headers))
  {
    hide ParamsExactly.Gapped, ParamsExactly.Led, Ascii, ParamsExactly.AsciiParams, CleanParams, ParamText;
    TextGaps(params, ';', ';', URI_PARAMS);
    TextGaps(headers, '?', '&', URI_HEADERS);
    ParamsExactly.GapsJoin(ParamText(params, ';', ';'), ParamText(headers, '?', '&'));
    ParamsExactly.AsciiJoin(ParamText(params, ';', ';'), ParamText(headers, '?', '&'));
  }

  lemma {:induction false} QuotedEnd(p: Params, sep: char, i: nat)
    requires p.Valid() && LastQuoted(p) && i < |p.keys|
    ensures var r := RenderFrom(p, sep, i); r != "" && r[|r| - 1] == '"'
    decreases |p.keys| - i
  {
    hide Item;
    if i + 1 < |p.keys| {
      QuotedEnd(p, sep, i + 1);
      assert RenderFrom(p, sep, i) == (if i == 0 then "" else [sep]) + ItemAt(p, i) + RenderFrom(p, sep, i + 1);
    } else {
      QuotedItem(p.keys[i], p.vals[p.keys[i]]);
      assert RenderFrom(p, sep, i + 1) == "";
      assert RenderFrom(p, sep, i) == (if i == 0 then "" else [sep]) + ItemAt(p, i);
    }
  }

  lemma QuotedItem(key: string, val: Option<string>)
    requires IsQuoted(val)
    ensures var s := Item(key, val); s != "" && s[|s| - 1] == '"'
  {
  }

  lemma TailPlaces(s: string, r: string, h: string)
    requires s == ";" + r + ("?" + h)
    ensures |s| == 2 + |r| + |h| && s[0] == ';' && s[1 + |r|] == '?' && (r != "" ==> s[|r|] == r[|r| - 1])
  {
  }

  /** Printed parameters and headers that parse back are read to the place where the headers start. */
  lemma ParamsConsumed(params: Params, headers: Params)
    requires params.Valid() && headers.Valid() && params != EMPTY && headers != EMPTY
    requires Ascii(TailText(params, headers)) && ParseTail(TailText(params, headers)) == Some((params, headers))
    ensures TailText(params, headers) == ";" + Render(params, ';') + ("?" + Render(headers, '&'))
    ensures Parse(TailText(params, headers), URI_PARAMS) == Parsed(params, 1 + |Render(params, ';')|)
  {
    hide Parse, Render, Ascii;
    KeysShown(params);
    KeysShown(headers);
    var (s, r, h) := (TailText(params, headers), Render(params, ';'), Render(headers, '&'));
    TailPlaces(s, r, h);
    ParamsSize.ReprintNotLonger(s, URI_PARAMS, ';');
    ParseWithin(s, URI_PARAMS);
    var n := Parse(s, URI_PARAMS).consumed;
    AsciiEnd(s, n);
    HeadersNotLonger(s[n..]);
    ParseWithin(s[n..], URI_HEADERS);
  }

  /** Headers cannot follow a quoted last parameter. */
  lemma NotQuotedBeforeHeaders(params: Params, headers: Params)
    requires params.Valid() && headers.Valid() && params != EMPTY && headers != EMPTY
    requires Ascii(TailText(params, headers)) && ParseTail(TailText(params, headers)) == Some((params, headers))
    ensures !LastQuoted(params)
  {
    hide Loop, Render, Ascii, ParseTail, TailText, LastQuoted;
    KeysShown(params);
    ParamsConsumed(params, headers);
    var (s, r) := (TailText(params, headers), Render(params, ';'));
    TailPlaces(s, r, Render(headers, '&'));
    ParamsSize.NoEndBehindQuote(s, 1, START, URI_PARAMS);
    if LastQuoted(params) {
      QuotedText(params);
      assert false;
    }
  }

  lemma QuotedText(params: Params)
    requires params.Valid() && LastQuoted(params)
    ensures var r := Render(params, ';'); r != "" && r[|r| - 1] == '"'
  {
    hide RenderFrom;
    QuotedEnd(params, ';', 0);
  }

  /** The conditions on host, port, parameters and headers. */
  lemma AfterAgrees(u: SipUri, rest: string, e: nat)
    requires Printable(u) && rest == AfterUser(u) && e == EndOfHost(rest) && Ascii(rest[e..])
    requires ParamsExactly.AsciiParams(u.params) && ParamsExactly.AsciiParams(u.headers)
    requires ParseHostPort(rest[..e]) == Host(u.host, u.port) && ParseTail(rest[e..]) == Some((u.params, u.headers))
    ensures LegalOrEmpty(u.params, URI_PARAMS) && LegalOrEmpty(u.headers, URI_HEADERS)
    ensures u.headers != EMPTY && u.params != EMPTY ==> !LastQuoted(u.params)
    ensures u.headers != EMPTY && u.params == EMPTY ==> ';' !in Render(u.headers, '&')
  {
    hide ParseHostPort, ParseTail, EndOfHost, HostPort, CleanParams, Legal, Render;
    hide Ascii, ParamsExactly.AsciiParams, ParamsExactly.Gapped;
    HostAgrees(u, rest, e);
    var (addr, tail) := (HostPort(u.host, u.port), TailText(u.params, u.headers));
    assert rest == addr + tail;
    assert rest[e..] == tail[e - |addr|..];
    TailFacts(rest[e..], u.params, u.headers);
    TailTextGaps(u.params, u.headers);
    GapsEnd(tail, e - |addr|);
    KeysShown(u.params);
    KeysShown(u.headers);
    if u.params != EMPTY && u.headers != EMPTY {
      assert tail[0] == ';' && rest[|addr|] == ';';
      EndFacts(rest);
      assert e == |addr| by { FirstHere(rest, e, |addr|); }
      assert tail[0..] == tail;
      NotQuotedBeforeHeaders(u.params, u.headers);
    }
    if u.params == EMPTY && u.headers != EMPTY {
      assert tail == "?" + Render(u.headers, '&');
    }
  }

  lemma FirstHere(s: string, e: nat, n: nat)
    requires n < |s| && s[n] == ';' && e <= |s| && ';' !in s[..e] && n <= e
    ensures e == n
  {
    assert forall j :: 0 <= j < e ==> s[..e][j] == s[j];
  }

  ghost predicate AsciiUri(u: SipUri)
    requires Printable(u)
  {
    ParamsExactly.AsciiParams(u.params) && ParamsExactly.AsciiParams(u.headers)
  }

  lemma TailAscii(u: SipUri)
    requires Printable(u) && AsciiUri(u)
    ensures Ascii(TailText(u.params, u.headers))
  {
    hide ParamsExactly.AsciiParams, RenderFrom;
    ParamTextAscii(u.params, ';', ';');
    ParamTextAscii(u.headers, '?', '&');
  }

  /** What is cut off behind the host of a rest that parses to the URI's host is an end of the URI's own tail. */
  lemma CutIsTail(u: SipUri, rest: string, e: nat)
    requires Printable(u) && |rest| <= |AfterUser(u)| && rest == AfterUser(u)[|AfterUser(u)| - |rest|..]
    requires e == EndOfHost(rest) && ParseHostPort(rest[..e]) == Host(u.host, u.port)
    ensures var tail := TailText(u.params, u.headers);
            |rest| - e <= |tail| && rest[e..] == tail[|tail| - (|rest| - e)..]
  {
    hide ParseHostPort, EndOfHost, HostPort, ParamText;
    EndFacts(rest);
    HostFacts(rest[..e]);
    InFront(u.host, rest[..e], ';');
    HostPortHasNo(u.host, u.port, ';');
    if '?' !in rest[..e] {
      InFront(u.host, rest[..e], '?');
      HostPortHasNo(u.host, u.port, '?');
    }
    var (addr, tail) := (HostPort(u.host, u.port), TailText(u.params, u.headers));
    var p := |AfterUser(u)| - |rest| + e;
    assert AfterUser(u) == addr + tail;
    assert e < |rest| ==> rest[e] == AfterUser(u)[p];
    assert forall j :: 0 <= j < |addr| ==> AfterUser(u)[j] == addr[j];
    assert p >= |addr|;
    assert rest[e..] == AfterUser(u)[p..];
  }

  lemma ParamTextAscii(p: Params, start: char, sep: char)
    requires p.Valid() && ParamsExactly.AsciiParams(p) && start < 128 as char && sep < 128 as char
    ensures Ascii(ParamText(p, start, sep))
  {
    hide ParamsExactly.AsciiParams, RenderFrom;
    ParamsExactly.RenderAscii(p, sep, 0);
  }

  /** A printed URI parses back to itself if and only if it is in the domain. */
  lemma UriRoundTripExactly(u: SipUri)
    requires Printable(u) && AsciiUri(u)
    ensures ParseSip(Print(u)) == Uri(u) <==> InDomain(u)
  {
    hide AfterUser, UserInfo, SplitUser, EndOfHost, ParseHostPort, ParseTail, Ascii, ParamsExactly.AsciiParams;
    hide ParseSip, LegalUser, Legal, Render, LastQuoted;
    if InDomain(u) {
      UriRoundTrip(u);
    } else if ParseSip(Print(u)) == Uri(u) {
      var body := UserInfo(u) + AfterUser(u);
      SchemeParses(u.encrypted, body);
      TailAscii(u);
      var rest := SplitUser(body).2;
      var e := EndOfHost(rest);
      if u.user == Some("") {
        EmptyUserEnd(u, body, rest);
        CutIsTail(u, rest, e);
        AsciiEnd(TailText(u.params, u.headers), |TailText(u.params, u.headers)| - (|rest| - e));
        RestNotLonger(rest, u);
      }
      UserAgrees(u, body, rest);
      assert rest[0..] == rest;
      CutIsTail(u, rest, e);
      AsciiEnd(TailText(u.params, u.headers), |TailText(u.params, u.headers)| - (|rest| - e));
      AfterAgrees(u, rest, e);
      HostAgrees(u, rest, e);
      assert false;
    }
  }

  lemma EmptyUserEnd(u: SipUri, s: string, rest: string)
    requires Printable(u) && u.user == Some("") && s == UserInfo(u) + AfterUser(u)
    requires SplitUser(s) == (u.user, u.password, rest)
    ensures |rest| <= |AfterUser(u)| && rest == AfterUser(u)[|AfterUser(u)| - |rest|..]
  {
    hide SplitUser, AfterUser;
    assert s == AfterUser(u);
    UserText(s);
    assert rest == s[|s| - |rest|..];
  }
}
