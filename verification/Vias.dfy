/** Via headers: the printer, the parser, and the round trip for lists of any length. */
module Vias {
  import opened Wrappers
  import opened Text
  import opened Params
  import opened ParamsRoundTrip
  import opened SipUris
  import SipUriRoundTrip

  datatype ViaHop = ViaHop(
    protocolName: string, protocolVersion: string, transport: string,
    host: string, port: Option<nat>, params: Params
  )

  datatype ViaResult = Via(hops: seq<ViaHop>) | BadVia

  const VIA_PARAMS := Config(';', ';', NUL, true, true)

  // ---- the printer

  ghost predicate PrintableHop(h: ViaHop) {
    h.params.Valid()
  }

  /** What follows the transport. */
  ghost function SentByText(h: ViaHop): string
    requires PrintableHop(h)
  {
    HostPort(h.host, h.port) + ParamText(h.params, ';', ';')
  }

  ghost function PrintHop(h: ViaHop): string
    requires PrintableHop(h)
  {
    h.protocolName + "/" + (h.protocolVersion + "/" + (h.transport + " " + SentByText(h)))
  }

  ghost function HopTexts(hops: seq<ViaHop>): (r: seq<string>)
    requires forall i :: 0 <= i < |hops| ==> PrintableHop(hops[i])
    ensures |r| == |hops|
  {
    seq(|hops|, i requires 0 <= i < |hops| => PrintHop(hops[i]))
  }

  /** The value of a Via header, without its name. */
  ghost function PrintVia(hops: seq<ViaHop>): string
    requires forall i :: 0 <= i < |hops| ==> PrintableHop(hops[i])
  {
    Join(HopTexts(hops), ", ")
  }

  // ---- the parser

  /** The number of leading blanks and tabs. */
  function LeadingWs(s: string): (n: nat)
    ensures n <= |s|
  {
    if s != "" && IsWs(s[0]) then 1 + LeadingWs(s[1..]) else 0
  }

  /** The index of the first blank or tab, or -1. */
  function IndexOfWs(s: string): (i: int)
    ensures -1 <= i < |s|
    ensures i == -1 ==> !HasWs(s)
    ensures i >= 0 ==> IsWs(s[i]) && forall j :: 0 <= j < i ==> !IsWs(s[j])
  {
    if s == "" then -1
    else if IsWs(s[0]) then 0
    else
      var i := IndexOfWs(s[1..]);
      if i == -1 then -1 else i + 1
  }

  /** One hop; `whole` says that its parameters parsed without an error. */
  datatype HopResult = Hop(hop: ViaHop, whole: bool) | NoHop

  /** Host, port and parameters after the transport. A hop keeps the parameters read before an error in them. */
  function ParseSentBy(name: string, version: string, transport: string, body: string): HopResult {
    match IndexOf(body, ';')
    case None =>
      (match ParseHostPort(body)
       case NoPort => NoHop
       case Host(host, port) => Hop(ViaHop(name, version, transport, host, port, EMPTY), true))
    case Some(i) =>
      match ParseHostPort(body[..i])
      case NoPort => NoHop
      case Host(host, port) =>
        var r := Parse(body[i..], VIA_PARAMS);
        Hop(ViaHop(name, version, transport, host, port, r.params), r.Parsed?)
  }

  /** One comma-separated section. */
  function ParseSection(section: string): HopResult {
    var parts := Split(section, '/');
    if |parts| < 3 then NoHop
    else
      var third := Join(parts[2..], "/");
      var spaces := LeadingWs(third);
      var sentBy := IndexOfWs(third[spaces..]) + spaces + 1;
      if sentBy == 0 || sentBy == 1 then NoHop
      else
        var (name, version, transport) := (TrimSpace(parts[0]), TrimSpace(parts[1]), TrimSpace(third[..sentBy - 1]));
        if name == "" || version == "" || transport == "" then NoHop
        else ParseSentBy(name, version, transport, third[sentBy..])
  }

  function Onto(found: seq<ViaHop>, r: ViaResult): ViaResult {
    if r.Via? then Via(found + r.hops) else BadVia
  }

  function ParseSections(sections: seq<string>): ViaResult {
    if sections == [] then Via([])
    else
      match ParseSection(sections[0])
      case NoHop => BadVia
      case Hop(h, whole) => if whole then Onto([h], ParseSections(sections[1..])) else BadVia
  }

  /** parseViaHeader */
  function ParseVia(text: string): ViaResult {
    ParseSections(Split(text, ','))
  }

  method ParseViaHeader(headerText: string) returns (r: ViaResult)
    ensures r == ParseVia(headerText)
  {
    hide ParseSection;
    var sections := Split(headerText, ',');
    var via: seq<ViaHop> := [];
    var err := false;
    OntoNone(ParseSections(sections));
    for i := 0 to |sections|
      invariant ParseSections(sections) == if err then BadVia else Onto(via, ParseSections(sections[i..]))
    {
      ghost var rest := sections[i..];
      assert rest[0] == sections[i] && rest[1..] == sections[i + 1..];
      var hop := ParseHop(sections[i]);
      // an error in the parameters of the section before is found here, where this section's errors are
      if hop.NoHop? || err {
        return BadVia;
      }
      OntoMore(via, hop.hop, ParseSections(sections[i + 1..]));
      via := via + [hop.hop];
      err := !hop.whole;
    }
    assert via + [] == via;
    r := if err then BadVia else Via(via);
  }

  lemma OntoNone(r: ViaResult)
    ensures Onto([], r) == r
  {
  }

  lemma OntoMore(found: seq<ViaHop>, h: ViaHop, r: ViaResult)
    ensures Onto(found, Onto([h], r)) == Onto(found + [h], r)
  {
    if r.Via? {
      assert found + ([h] + r.hops) == found + [h] + r.hops;
    }
  }

  /** The body of the loop over sections. */
  method ParseHop(section: string) returns (r: HopResult)
    ensures r == ParseSection(section)
  {
    hide ParseSentBy, Split, Join, LeadingWs, IndexOfWs, TrimSpace;
    var parts := Split(section, '/');
    if |parts| < 3 {
      return NoHop;
    }
    var third := Join(parts[2..], "/");
    var initialSpaces := LeadingWs(third);
    var sentByIdx := IndexOfWs(third[initialSpaces..]) + initialSpaces + 1;
    if sentByIdx == 0 || sentByIdx == 1 {
      return NoHop;
    }
    var name, version, transport := TrimSpace(parts[0]), TrimSpace(parts[1]), TrimSpace(third[..sentByIdx - 1]);
    if |name| == 0 || |version| == 0 || |transport| == 0 {
      return NoHop;
    }
    r := ParseHostAndParams(name, version, transport, third[sentByIdx..]);
  }

  method ParseHostAndParams(name: string, version: string, transport: string, viaBody: string) returns (r: HopResult)
    ensures r == ParseSentBy(name, version, transport, viaBody)
  {
    var paramsIdx := IndexOf(viaBody, ';');
    if paramsIdx.None? {
      var hostPort := ParseHostPort(viaBody);
      if hostPort.NoPort? {
        return NoHop;
      }
      return Hop(ViaHop(name, version, transport, hostPort.host, hostPort.port, EMPTY), true);
    }
    var hostPort := ParseHostPort(viaBody[..paramsIdx.value]);
    if hostPort.NoPort? {
      return NoHop;
    }
    var params := ParseParams(viaBody[paramsIdx.value..], VIA_PARAMS);
    r := Hop(ViaHop(name, version, transport, hostPort.host, hostPort.port, params.params), params.Parsed?);
  }

  /** The sections are accepted if and only if each of them yields a hop and parses to its end; they are its hops. */
  lemma {:induction false} AcceptedExactly(sections: seq<string>)
    ensures ParseSections(sections).Via? <==>
            forall i :: 0 <= i < |sections| ==> ParseSection(sections[i]).Hop? && ParseSection(sections[i]).whole
    ensures ParseSections(sections).Via? ==>
            var hops := ParseSections(sections).hops;
            |hops| == |sections| && forall i :: 0 <= i < |hops| ==> ParseSection(sections[i]) == Hop(hops[i], true)
    decreases |sections|
  {
    hide ParseSection;
    if sections != [] {
      var rest := sections[1..];
      AcceptedExactly(rest);
      assert forall i :: 1 <= i < |sections| ==> sections[i] == rest[i - 1];
    }
  }

  // ---- the round trip

  /** A name, version or transport: not empty, no delimiter, no white space around it. */
  predicate Word(s: string) {
    s != "" && Trimmed(s) && ',' !in s
  }

  ghost predicate LegalHop(h: ViaHop) {
    && PrintableHop(h)
    && Word(h.protocolName) && '/' !in h.protocolName
    && Word(h.protocolVersion) && '/' !in h.protocolVersion
    && Word(h.transport) && !HasWs(h.transport)
    && ':' !in h.host && ';' !in h.host
    && (h.port.Some? ==> h.port.value <= 0xFFFF)
    && SipUriRoundTrip.LegalOrEmpty(h.params, VIA_PARAMS)
    && ',' !in SentByText(h)
  }

  lemma SentByParses(h: ViaHop)
    requires LegalHop(h)
    ensures ParseSentBy(h.protocolName, h.protocolVersion, h.transport, SentByText(h)) == Hop(h, true)
  {
    hide Parse, RenderFrom;
    var addr := HostPort(h.host, h.port);
    SipUriRoundTrip.HostPortHasNo(h.host, h.port, ';');
    SipUriRoundTrip.HostPortParses(h.host, h.port);
    SipUriRoundTrip.KeysShown(h.params);
    if h.params == EMPTY {
      assert SentByText(h) == addr;
    } else {
      var text := Render(h.params, ';');
      assert SentByText(h) == addr + ";" + text;
      IndexAfter(addr, ';', text);
      assert SentByText(h)[..|addr|] == addr;
      assert SentByText(h)[|addr|..] == ";" + text + "";
      assert Usual(VIA_PARAMS);
      ParseRender(h.params, "", VIA_PARAMS);
    }
  }

  lemma FirstWs(transport: string, rest: string)
    requires !HasWs(transport)
    ensures IndexOfWs(transport + (" " + rest)) == |transport|
  {
    var s := transport + (" " + rest);
    assert s[|transport|] == ' ';
    assert forall j :: 0 <= j < |transport| ==> s[j] == transport[j] && transport[j] in transport;
  }

  /** What the parser reads behind the second slash. */
  lemma ThirdPart(transport: string, sentBy: string)
    requires transport != "" && !HasWs(transport)
    ensures var third := transport + (" " + sentBy);
            && LeadingWs(third) == 0 && IndexOfWs(third[0..]) == |transport|
            && third[..|transport|] == transport && third[|transport| + 1..] == sentBy
  {
    var third := transport + (" " + sentBy);
    assert third[0] == transport[0];
    assert third[0..] == third;
    FirstWs(transport, sentBy);
  }

  lemma SplitThree(a: string, b: string, c: string)
    requires '/' !in a && '/' !in b
    ensures var parts := Split(a + "/" + (b + "/" + c), '/');
            |parts| >= 3 && parts[0] == a && parts[1] == b && Join(parts[2..], "/") == c
  {
    hide Split, Join, IndexOf;
    SplitOnce(a, '/', b + "/" + c);
    SplitOnce(b, '/', c);
    var parts := [a] + ([b] + Split(c, '/'));
    assert parts[2..] == Split(c, '/');
    JoinSplit(c, '/');
  }

  lemma SectionParses(h: ViaHop, blank: string)
    requires LegalHop(h) && (blank == "" || blank == " ")
    ensures ParseSection(blank + PrintHop(h)) == Hop(h, true)
  {
    hide ParseSentBy, HasWs, SentByText, LeadingWs, IndexOfWs, Split, Join, TrimSpace;
    var third := h.transport + (" " + SentByText(h));
    var first := blank + h.protocolName;
    assert blank + PrintHop(h) == first + "/" + (h.protocolVersion + "/" + third) by {
      Regroup(h.transport, " ", SentByText(h));
      Regroup(blank, h.protocolName, "/");
      Regroup(blank, h.protocolName + "/", h.protocolVersion + "/" + third);
    }
    SplitThree(first, h.protocolVersion, third);
    ThirdPart(h.transport, SentByText(h));
    TrimBlank(h.protocolName);
    TrimBlank(h.protocolVersion);
    TrimBlank(h.transport);
    assert "" + h.protocolName == h.protocolName;
    SentByParses(h);
  }

  /** The sections that the comma leaves: every printed hop, with a blank before all but the first. */
  lemma {:induction false} SectionsParse(hops: seq<ViaHop>, texts: seq<string>, blank: string)
    requires forall i :: 0 <= i < |hops| ==> PrintableHop(hops[i]) && LegalHop(hops[i])
    requires blank == "" || blank == " "
    requires texts == HopTexts(hops)
    ensures ParseSections(Blanked(texts, blank)) == Via(hops)
    decreases |hops|
  {
    hide ParseSection, PrintHop, LegalHop;
    if hops != [] {
      SectionParses(hops[0], blank);
      assert texts[1..] == HopTexts(hops[1..]);
      SectionsParse(hops[1..], texts[1..], " ");
      assert Blanked(texts, blank)[1..] == Blanked(texts[1..], " ");
      assert hops == [hops[0]] + hops[1..];
    }
  }

  lemma HopHasNoComma(h: ViaHop)
    requires LegalHop(h)
    ensures ',' !in PrintHop(h)
  {
    hide SentByText;
  }

  /** A printed Via list of any length parses back to the same hops. */
  lemma ViaRoundTrip(hops: seq<ViaHop>)
    requires hops != [] && forall i :: 0 <= i < |hops| ==> PrintableHop(hops[i]) && LegalHop(hops[i])
    ensures ParseVia(PrintVia(hops)) == Via(hops)
  {
    var texts := HopTexts(hops);
    forall i | 0 <= i < |texts| ensures ',' !in texts[i] {
      HopHasNoComma(hops[i]);
    }
    JoinBlanked(texts, "");
    assert "" + PrintVia(hops) == PrintVia(hops);
    BlankedHasNo(texts, "", ',');
    SplitJoin(Blanked(texts, ""), ',');
    SectionsParse(hops, texts, "");
  }
}
