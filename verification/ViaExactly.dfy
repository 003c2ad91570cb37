/** The domain of the Via round trip is exact. */
module ViaExactly {
  import opened Wrappers
  import opened Text
  import opened Params
  import opened ParamsRoundTrip
  import opened SipUris
  import opened Vias
  import ParamsExactly
  import SipUriRoundTrip
  import SipUriExactly

  // ---- counting the commas

  function Count(s: string, c: char): nat {
    if s == "" then 0 else (if s[0] == c then 1 else 0) + Count(s[1..], c)
  }

  lemma {:induction false} CountJoined(a: string, b: string, c: char)
    ensures Count(a + b, c) == Count(a, c) + Count(b, c)
    decreases |a|
  {
    if a == "" {
      assert a + b == b;
    } else {
      assert (a + b)[1..] == a[1..] + b;
      CountJoined(a[1..], b, c);
    }
  }

  lemma {:induction false} CountZero(s: string, c: char)
    ensures Count(s, c) == 0 <==> c !in s
    decreases |s|
  {
    if s != "" {
      CountZero(s[1..], c);
      assert s == [s[0]] + s[1..];
    }
  }

  lemma {:induction false} SplitCount(s: string, c: char)
    ensures |Split(s, c)| == 1 + Count(s, c)
    decreases |s|
  {
    hide IndexOf;
    match IndexOf(s, c) {
      case None =>
        CountZero(s, c);
      case Some(i) =>
        SplitCount(s[i + 1..], c);
        assert s == s[..i] + ([c] + s[i + 1..]);
        CountJoined(s[..i], [c] + s[i + 1..], c);
        assert ([c] + s[i + 1..])[1..] == s[i + 1..];
        assert forall j :: 0 <= j < i ==> s[..i][j] == s[j];
        CountZero(s[..i], c);
    }
  }

  /** A joined list has a comma between every two parts, and those of the parts. */
  lemma {:induction false} JoinCount(parts: seq<string>)
    requires parts != []
    ensures Count(Join(parts, ", "), ',') >= |parts| - 1
    ensures Count(Join(parts, ", "), ',') == |parts| - 1 ==> forall i :: 0 <= i < |parts| ==> ',' !in parts[i]
    decreases |parts|
  {
    CountZero(parts[0], ',');
    if |parts| > 1 {
      var rest := Join(parts[1..], ", ");
      JoinCount(parts[1..]);
      CountJoined(parts[0] + ", ", rest, ',');
      CountJoined(parts[0], ", ", ',');
      CountSeparator();
      assert forall i :: 1 <= i < |parts| ==> parts[i] == parts[1..][i - 1];
    }
  }

  lemma CountSeparator()
    ensures Count(", ", ',') == 1
  {
    assert ", "[1..] == " ";
    CountZero(" ", ',');
  }

  // ---- what one section returns

  lemma {:induction false} LeadingFacts(s: string)
    ensures forall j :: 0 <= j < LeadingWs(s) ==> IsWs(s[j])
    decreases |s|
  {
    if s != "" && IsWs(s[0]) {
      LeadingFacts(s[1..]);
      assert forall j :: 1 <= j < |s| ==> s[j] == s[1..][j - 1];
    }
  }

  /** White space only in front of a text is trimmed away with nothing left but what has none. */
  lemma TrimmedHasNoWs(s: string, n: nat)
    requires n <= |s| && (forall j :: 0 <= j < n ==> IsWs(s[j])) && (forall j :: n <= j < |s| ==> !IsWs(s[j]))
    ensures !HasWs(TrimSpace(s))
  {
    hide TrimLeft, TrimRight, TrimSpace;
    LeftSkips(s, n);
    var at := TrimPlace(s);
    var r := TrimSpace(s);
    assert forall i :: 0 <= i < |r| ==> r[i] == s[at + i];
  }

  lemma {:induction false} LeftSkips(s: string, n: nat)
    requires n <= |s| && forall j :: 0 <= j < n ==> IsWs(s[j])
    ensures |TrimLeft(s)| <= |s| - n
    decreases n
  {
    if n > 0 {
      assert forall j :: 0 <= j < n - 1 ==> s[1..][j] == s[j + 1];
      LeftSkips(s[1..], n - 1);
    }
  }

  lemma {:induction false} SplitParts(s: string, sep: char, i: nat)
    requires i < |Split(s, sep)|
    ensures sep !in Split(s, sep)[i]
    decreases |s|
  {
    hide IndexOf;
    match IndexOf(s, sep) {
      case None =>
      case Some(k) =>
        assert forall j :: 0 <= j < k ==> s[..k][j] == s[j];
        if i > 0 {
          SplitParts(s[k + 1..], sep, i - 1);
        }
    }
  }

  /** Protocol, version and transport of any section that parses. */
  lemma SectionFacts(section: string, h: ViaHop)
    requires ParseSection(section) == Hop(h, true)
    ensures h.protocolName != "" && Trimmed(h.protocolName) && '/' !in h.protocolName
    ensures h.protocolVersion != "" && Trimmed(h.protocolVersion) && '/' !in h.protocolVersion
    ensures h.transport != "" && Trimmed(h.transport) && !HasWs(h.transport)
  {
    hide Split, Join, TrimSpace, Trimmed, HasWs, LeadingWs, Parse;
    var parts := Split(section, '/');
    SplitParts(section, '/', 0);
    SplitParts(section, '/', 1);
    TrimFacts(parts[0]);
    TrimFacts(parts[1]);
    var third := Join(parts[2..], "/");
    TransportFacts(third);
  }

  lemma TransportFacts(third: string)
    requires IndexOfWs(third[LeadingWs(third)..]) + LeadingWs(third) + 1 > 0
    ensures var s := third[..IndexOfWs(third[LeadingWs(third)..]) + LeadingWs(third)];
            Trimmed(TrimSpace(s)) && !HasWs(TrimSpace(s))
  {
    hide TrimSpace, Trimmed, HasWs, LeadingWs, IndexOfWs;
    var spaces := LeadingWs(third);
    LeadingFacts(third);
    var i := IndexOfWs(third[spaces..]);
    var s := third[..i + spaces];
    TrimFacts(s);
    if i >= 0 {
      assert forall j :: spaces <= j < |s| ==> s[j] == third[spaces..][j - spaces];
      TrimmedHasNoWs(s, spaces);
    } else {
      NoWsPrefix(third, s);
      TrimmedHasNoWs(s, |s|);
    }
  }

  lemma NoWsPrefix(third: string, s: string)
    requires |s| < LeadingWs(third) && s == third[..|s|]
    ensures forall j :: 0 <= j < |s| ==> IsWs(s[j])
  {
    LeadingFacts(third);
    assert forall j :: 0 <= j < |s| ==> s[j] == third[j];
  }

  ghost predicate AsciiHop(h: ViaHop) {
    PrintableHop(h) && ParamsExactly.AsciiParams(h.params)
  }

  /** Host, port and parameters, from a round trip of their text. */
  lemma SentByAgrees(h: ViaHop)
    requires AsciiHop(h)
    requires ParseSentBy(h.protocolName, h.protocolVersion, h.transport, SentByText(h)) == Hop(h, true)
    ensures ':' !in h.host && ';' !in h.host && (h.port.Some? ==> h.port.value <= 0xFFFF)
    ensures SipUriRoundTrip.LegalOrEmpty(h.params, VIA_PARAMS)
  {
    hide Parse, RenderFrom, ParseHostPort, IndexOf, HostPort, CleanParams, Legal, Ascii, ParamsExactly.AsciiParams;
    var body := SentByText(h);
    var i := IndexOf(body, ';');
    if i.None? {
      SipUriExactly.HostFacts(body);
      assert forall j :: 0 <= j < |h.host| ==> h.host[j] == body[j];
    } else {
      var (cut, tail) := (body[..i.value], body[i.value..]);
      SipUriExactly.HostFacts(cut);
      assert forall j :: 0 <= j < |h.host| ==> h.host[j] == cut[j] && cut[j] == body[j];
      TailLegal(h, i.value);
    }
  }

  lemma NoText(p: Params)
    requires p.Valid()
    ensures p.keys == [] ==> ParamText(p, ';', ';') == ""
  {
  }

  lemma TailLegal(h: ViaHop, i: nat)
    requires AsciiHop(h) && IndexOf(SentByText(h), ';') == Some(i) && ';' !in h.host
    requires Parse(SentByText(h)[i..], VIA_PARAMS).params == h.params
    ensures Legal(h.params, VIA_PARAMS)
  {
    hide Parse, RenderFrom, IndexOf, HostPort, CleanItem, Legal, Ascii, ParamsExactly.AsciiParams, ParamsExactly.Gapped;
    hide ParamText;
    var (body, text) := (SentByText(h), ParamText(h.params, ';', ';'));
    var addr := HostPort(h.host, h.port);
    SipUriRoundTrip.HostPortHasNo(h.host, h.port, ';');
    assert body[i] == ';';
    assert forall j :: 0 <= j < |addr| ==> body[j] == addr[j];
    assert body[i..] == text[i - |addr|..];
    assert text != "" && h.params.keys != [] by { NoText(h.params); }
    SipUriExactly.ParamTextAscii(h.params, ';', ';');
    SipUriExactly.AsciiEnd(text, i - |addr|);
    ParseSound(body[i..], VIA_PARAMS);
    SipUriExactly.TextGaps(h.params, ';', ';', VIA_PARAMS);
    SipUriExactly.GapsEnd(text, i - |addr|);
    ParamsExactly.ParsedIsLegal(body[i..], VIA_PARAMS);
  }

  /** One printed hop that parses back has every part legal. */
  lemma HopAgrees(h: ViaHop, blank: string)
    requires AsciiHop(h) && (blank == "" || blank == " ")
    requires ParseSection(blank + PrintHop(h)) == Hop(h, true) && ',' !in PrintHop(h)
    ensures LegalHop(h)
  {
    hide ParseSentBy, HasWs, SentByText, LeadingWs, IndexOfWs, Split, Join, TrimSpace, Ascii;
    hide ParamsExactly.AsciiParams, Trimmed;
    var third := h.transport + (" " + SentByText(h));
    var first := blank + h.protocolName;
    assert blank + PrintHop(h) == first + "/" + (h.protocolVersion + "/" + third) by {
      Regroup(h.transport, " ", SentByText(h));
      Regroup(blank, h.protocolName, "/");
      Regroup(blank, h.protocolName + "/", h.protocolVersion + "/" + third);
    }
    SectionFacts(blank + PrintHop(h), h);
    SplitThree(first, h.protocolVersion, third);
    ThirdPart(h.transport, SentByText(h));
    var (name, version, transport) := (TrimSpace(first), TrimSpace(h.protocolVersion), TrimSpace(h.transport));
    assert ParseSentBy(name, version, transport, SentByText(h)) == ParseSection(blank + PrintHop(h));
    NamesKept(name, version, transport, SentByText(h), h);
    SentByAgrees(h);
    PartsHaveNoComma(h);
  }

  lemma NamesKept(name: string, version: string, transport: string, body: string, h: ViaHop)
    requires ParseSentBy(name, version, transport, body) == Hop(h, true)
    ensures name == h.protocolName && version == h.protocolVersion && transport == h.transport
  {
    hide Parse, ParseHostPort, IndexOf;
  }

  lemma PartsHaveNoComma(h: ViaHop)
    requires PrintableHop(h) && ',' !in PrintHop(h)
    ensures ',' !in h.protocolName && ',' !in h.protocolVersion && ',' !in h.transport && ',' !in SentByText(h)
  {
    hide SentByText;
    var (a, b, c, d) := (h.protocolName, h.protocolVersion, h.transport, SentByText(h));
    var s := PrintHop(h);
    assert s == a + ("/" + (b + "/" + (c + " " + d)));
    InPart(a, "/" + (b + "/" + (c + " " + d)));
    InPart("/", b + "/" + (c + " " + d));
    InPart(b, "/" + (c + " " + d));
    assert b + "/" + (c + " " + d) == b + ("/" + (c + " " + d));
    InPart("/", c + " " + d);
    InPart(c, " " + d);
    assert c + " " + d == c + (" " + d);
    InPart(" ", d);
  }

  lemma InPart(a: string, b: string)
    ensures ',' in a + b <==> ',' in a || ',' in b
  {
  }

  lemma {:induction false} BlankedAt(parts: seq<string>, blank: string, i: nat)
    requires i < |parts|
    ensures Blanked(parts, blank)[i] == (if i == 0 then blank else " ") + parts[i]
    decreases |parts|
  {
    if i > 0 {
      BlankedAt(parts[1..], " ", i - 1);
    }
  }

  /** A printed Via list parses back to the same hops if and only if every hop is legal. */
  lemma ViaRoundTripExactly(hops: seq<ViaHop>)
    requires hops != [] && forall i :: 0 <= i < |hops| ==> PrintableHop(hops[i]) && AsciiHop(hops[i])
    ensures ParseVia(PrintVia(hops)) == Via(hops) <==> forall i :: 0 <= i < |hops| ==> LegalHop(hops[i])
  {
    hide AsciiHop, LegalHop, ParseSection, PrintHop, Split, Join, Blanked;
    if forall i :: 0 <= i < |hops| ==> LegalHop(hops[i]) {
      ViaRoundTrip(hops);
    } else if ParseVia(PrintVia(hops)) == Via(hops) {
      var texts := HopTexts(hops);
      AcceptedExactly(Split(PrintVia(hops), ','));
      SplitCount(PrintVia(hops), ',');
      JoinCount(texts);
      JoinBlanked(texts, "");
      assert "" + PrintVia(hops) == PrintVia(hops);
      BlankedHasNo(texts, "", ',');
      SplitJoin(Blanked(texts, ""), ',');
      forall i | 0 <= i < |hops| ensures LegalHop(hops[i]) {
        BlankedAt(texts, "", i);
        HopAgrees(hops[i], if i == 0 then "" else " ");
      }
      assert false;
    }
  }
}
