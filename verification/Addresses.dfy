/** Address lists, and the Route and Record-Route headers that hold them. */
module Addresses {
  import opened Wrappers
  import opened Text
  import opened Params
  import opened ParamsRoundTrip
  import opened SipUris
  import opened SipUriRoundTrip

  /** One address: display name, a SIP URI or the wildcard, and header parameters. */
  datatype Address = Address(name: Option<string>, uri: UriResult, params: Params)

  datatype AddressResult = One(address: Address) | BadAddress | AddressCrash

  datatype ListResult = List(addresses: seq<Address>) | BadList | ListCrash

  const ADDRESS_PARAMS := Config(';', ';', ',', true, true)
  const QUOTES: map<char, char> := map['"' := '"']

  // ---- the parser

  /** The first target outside the delimiters, or -1; `closing` is the character that ends the open delimiter. */
  function FindFrom(text: string, i: nat, closing: Option<char>, targets: string, delims: map<char, char>): (r: int)
    requires i <= |text|
    ensures r == -1 || (i <= r < |text| && text[r] in targets)
    decreases |text| - i
  {
    if i == |text| then -1
    else if closing.None? && text[i] in targets then i
    else
      var next :=
        if closing.Some? then (if text[i] != closing.value then closing else None)
        else if text[i] in delims then Some(delims[text[i]]) else None;
      FindFrom(text, i + 1, next, targets, delims)
  }

  method FindAnyUnescaped(text: string, targets: string, delims: map<char, char>) returns (r: int)
    ensures r == FindFrom(text, 0, None, targets, delims)
  {
    var closing: Option<char> := None;
    for idx := 0 to |text|
      invariant FindFrom(text, idx, closing, targets, delims) == FindFrom(text, 0, None, targets, delims)
    {
      if closing.None? && text[idx] in targets {
        return idx;
      }
      if closing.Some? {
        if text[idx] == closing.value {
          closing := None;
        }
      } else if text[idx] in delims {
        closing := Some(delims[text[idx]]);
      }
    }
    r := -1;
  }

  /** The URI and the parameters, when the display name has been taken off. */
  function ParseAfterName(name: Option<string>, text: string): AddressResult {
    var t := TrimSpace(text);
    if t == "" then AddressCrash
    else if t[0] != '<' then
      if name.Some? then BadAddress
      else
        var end := match IndexOf(t, ';') case Some(i) => i case None => |t|;
        ParseUriAndParams(name, t[..end], t[end..])
    else
      match IndexOf(t[1..], '>')
      case None => AddressCrash
      case Some(end) =>
        if end == 0 then BadAddress else ParseUriAndParams(name, t[1..end + 1], t[end + 2..])
  }

  function ParseUriAndParams(name: Option<string>, uriText: string, rest: string): AddressResult {
    var uri := ParseAny(uriText);
    if uri.Crash? then AddressCrash
    else if uri.Bad? then BadAddress
    else if rest == "" then One(Address(name, uri, EMPTY))
    else
      match Parse(rest, ADDRESS_PARAMS)
      case Failed(_) => BadAddress
      case Parsed(params, _) => One(Address(name, uri, params))
  }

  /** ParseAddressValue */
  function ParseAddress(text: string): AddressResult {
    if text == "" then BadAddress
    else
      var t := TrimSpace(text);
      var bracket := FindFrom(t, 0, None, "<", QUOTES);
      if bracket <= 0 then ParseAfterName(None, t)
      else if t[0] == '"' then
        match IndexOf(t[1..], '"')
        case None => BadAddress
        case Some(i) => ParseAfterName(Some(t[1..i + 1]), t[i + 2..])
      else ParseAfterName(Some(TrimSpace(t[..bracket])), t[bracket..])
  }

  /** Addresses already found, in front of the result for the rest of the text. */
  function Onto(found: seq<Address>, r: ListResult): ListResult {
    if r.List? then List(found + r.addresses) else r
  }

  lemma OntoOnto(found: seq<Address>, a: Address, r: ListResult)
    ensures Onto(found, Onto([a], r)) == Onto(found + [a], r)
  {
    if r.List? {
      assert found + ([a] + r.addresses) == found + [a] + r.addresses;
    }
  }

  /** The loop of ParseAddressValues, on the text with its final comma. */
  function Scan(s: string, i: nat, prev: nat, inBrackets: bool, inQuotes: bool): ListResult
    requires prev <= i <= |s|
    decreases |s| - i
  {
    if i == |s| then List([])
    else
      var c := s[i];
      if c == '<' && !inQuotes then Scan(s, i + 1, prev, true, inQuotes)
      else if c == '>' && !inQuotes then Scan(s, i + 1, prev, false, inQuotes)
      else if c == '"' then Scan(s, i + 1, prev, inBrackets, !inQuotes)
      else if !inQuotes && !inBrackets && c == ',' then
        match ParseAddress(s[prev..i])
        case BadAddress => BadList
        case AddressCrash => ListCrash
        case One(a) => Onto([a], Scan(s, i + 1, i + 1, inBrackets, inQuotes))
      else Scan(s, i + 1, prev, inBrackets, inQuotes)
  }

  function ParseAddresses(addresses: string): ListResult {
    Scan(addresses + ",", 0, 0, false, false)
  }

  method ParseAddressValues(addresses: string) returns (r: ListResult)
    ensures r == ParseAddresses(addresses)
  {
    hide ParseAddress, Onto;
    var prevIdx := 0;
    var inBrackets, inQuotes := false, false;
    var text := addresses + ",";
    var found: seq<Address> := [];
    OntoFirst(Scan(text, 0, 0, false, false));
    for idx := 0 to |text|
      invariant prevIdx <= idx
      invariant ParseAddresses(addresses) == Onto(found, Scan(text, idx, prevIdx, inBrackets, inQuotes))
    {
      var c := text[idx];
      if c == '<' && !inQuotes {
        inBrackets := true;
      } else if c == '>' && !inQuotes {
        inBrackets := false;
      } else if c == '"' {
        inQuotes := !inQuotes;
      } else if !inQuotes && !inBrackets && c == ',' {
        var a := ParseAddressValue(text[prevIdx..idx]);
        if a.BadAddress? {
          OntoNothing(found);
          return BadList;
        }
        if a.AddressCrash? {
          OntoNothing(found);
          return ListCrash;
        }
        prevIdx := idx + 1;
        OntoOnto(found, a.address, Scan(text, idx + 1, idx + 1, inBrackets, inQuotes));
        found := found + [a.address];
      }
    }
    OntoNothing(found);
    r := List(found);
  }

  lemma OntoFirst(r: ListResult)
    ensures Onto([], r) == r
  {
  }

  lemma OntoNothing(found: seq<Address>)
    ensures Onto(found, List([])) == List(found)
    ensures Onto(found, BadList) == BadList && Onto(found, ListCrash) == ListCrash
  {
    assert found + [] == found;
  }

  method ParseAddressValue(addressText: string) returns (r: AddressResult)
    ensures r == ParseAddress(addressText)
  {
    hide ParseAfterName, TrimSpace, FindFrom;
    if |addressText| == 0 {
      return BadAddress;
    }
    var text := TrimSpace(addressText);
    var firstAngleBracket := FindAnyUnescaped(text, "<", QUOTES);
    var displayName: Option<string> := None;
    if firstAngleBracket > 0 {
      if text[0] == '"' {
        var nextQuote := IndexOf(text[1..], '"');
        if nextQuote.None? {
          return BadAddress;
        }
        displayName := Some(text[1..nextQuote.value + 1]);
        text := text[nextQuote.value + 2..];
      } else {
        displayName := Some(TrimSpace(text[..firstAngleBracket]));
        text := text[firstAngleBracket..];
      }
    }
    r := ParseAfterName(displayName, text);
  }

  // ---- Route and Record-Route

  ghost function RouteItem(u: SipUri): string
    requires Printable(u)
  {
    "<" + (Print(u) + ">")
  }

  ghost function RouteItems(uris: seq<SipUri>): (r: seq<string>)
    requires forall i :: 0 <= i < |uris| ==> Printable(uris[i])
    ensures |r| == |uris|
  {
    seq(|uris|, i requires 0 <= i < |uris| => RouteItem(uris[i]))
  }

  /** The value of a Route or Record-Route header, without its name. */
  ghost function PrintRoute(uris: seq<SipUri>): string
    requires forall i :: 0 <= i < |uris| ==> Printable(uris[i])
  {
    Join(RouteItems(uris), ", ")
  }

  datatype RouteResult = Route(uris: seq<UriResult>) | BadRoute | RouteCrash

  /** parseRouteHeader and parseRecordRouteHeader keep the URIs of the addresses. */
  function ParseRoute(text: string): RouteResult {
    match ParseAddresses(text)
    case BadList => BadRoute
    case ListCrash => RouteCrash
    case List(addresses) => Route(seq(|addresses|, i requires 0 <= i < |addresses| => addresses[i].uri))
  }

  // ---- the round trip

  predicate OddQuotes(s: string) {
    s != "" && (s[0] == '"') != OddQuotes(s[1..])
  }

  /** A URI of the round-trip domain without angle brackets and with its quotes in pairs. */
  ghost predicate Routable(u: SipUri)
    requires Printable(u)
  {
    InDomain(u) && '<' !in Print(u) && '>' !in Print(u) && !OddQuotes(Print(u))
  }

  lemma AnyUriRoundTrip(u: SipUri)
    requires Printable(u) && InDomain(u)
    ensures ParseAny(Print(u)) == Uri(u)
  {
    hide UserInfo, AfterUser, InDomain, ParseSip;
    UriRoundTrip(u);
    var body := UserInfo(u) + AfterUser(u);
    var s := Print(u);
    var scheme := if u.encrypted then "sips" else "sip";
    assert s == scheme + ":" + body;
    IndexAfter(scheme, ':', body);
    assert s[..|scheme|] == scheme;
    assert ToLower("sip") == "sip" && ToLower("sips") == "sips";
    NotWildcard(s);
  }

  lemma NoSpaceFront(s: string)
    requires SpaceFront(s) == 0
    ensures TrimLeft(s) == s
  {
  }

  lemma NotWildcard(s: string)
    requires |s| > 0 && s[0] == 's'
    ensures TrimSpace(s) != "*"
  {
    hide TrimLeft, TrimRight;
    NoSpaceFront(s);
    assert TrimRight(s) == s[..|TrimRight(s)|];
  }

  lemma PrintNonEmpty(u: SipUri)
    requires Printable(u)
    ensures Print(u) != ""
  {
  }

  /** A URI in angle brackets, with a blank before it or not. */
  lemma BracketedParses(text: string, u: SipUri, blank: string)
    requires text != "" && '>' !in text && ParseAny(text) == Uri(u) && (blank == "" || blank == " ")
    ensures ParseAddress(blank + ("<" + (text + ">"))) == One(Address(None, Uri(u), EMPTY))
  {
    hide ParseAny, ParseAfterName, TrimSpace;
    var item := "<" + (text + ">");
    assert item[0] == '<' && item[|item| - 1] == '>';
    TrimBlank(item);
    assert "" + item == item;
    assert FindFrom(item, 0, None, "<", QUOTES) == 0;
    AfterNameParses(text, u);
  }

  lemma AfterNameParses(text: string, u: SipUri)
    requires text != "" && '>' !in text && ParseAny(text) == Uri(u)
    ensures ParseAfterName(None, "<" + (text + ">")) == One(Address(None, Uri(u), EMPTY))
  {
    hide ParseAny, TrimSpace, IndexOf;
    var item := "<" + (text + ">");
    assert item[0] == '<' && item[|item| - 1] == '>';
    TrimBlank(item);
    assert item[1..] == text + ">" + "";
    IndexAfter(text, '>', "");
    assert item[1..|text| + 1] == text;
    assert item[|text| + 2..] == "";
  }

  /** Inside angle brackets only quotes change anything. */
  lemma {:induction false} ScanInside(s: string, i: nat, text: string, prev: nat, inQuotes: bool)
    requires At(s, i, text) && prev <= i && '<' !in text && '>' !in text
    ensures Scan(s, i, prev, true, inQuotes) == Scan(s, i + |text|, prev, true, inQuotes != OddQuotes(text))
    decreases |text|
  {
    if text != "" {
      AtTail(s, i, text);
      assert text[0] in text && forall c :: c in text[1..] ==> c in text;
      ScanInside(s, i + 1, text[1..], prev, inQuotes != (text[0] == '"'));
    }
  }

  /** Where the pieces of a bracketed section and the comma behind it stand. */
  lemma SectionPieces(s: string, i: nat, blank: string, text: string)
    requires At(s, i, blank + ("<" + (text + ">")) + ",") && (blank == "" || blank == " ")
    ensures var j := i + |blank|;
            && j + |text| + 3 <= |s|
            && (blank == " " ==> s[i] == ' ') && s[j] == '<' && At(s, j + 1, text)
            && s[j + 1 + |text|] == '>' && s[j + 2 + |text|] == ','
            && s[i..j + 2 + |text|] == blank + ("<" + (text + ">"))
  {
    var section := blank + ("<" + (text + ">"));
    AtParts(s, i, section, ",");
    AtTail(s, i + |section|, ",");
    AtParts(s, i, blank, "<" + (text + ">"));
    if blank == " " {
      AtTail(s, i, blank);
    }
    AtTail(s, i + |blank|, "<" + (text + ">"));
    assert ("<" + (text + ">"))[1..] == text + ">";
    AtParts(s, i + |blank| + 1, text, ">");
    AtTail(s, i + |blank| + 1 + |text|, ">");
  }

  /** One bracketed section and the comma behind it. */
  lemma ScanSection(s: string, i: nat, blank: string, text: string, u: SipUri)
    requires At(s, i, blank + ("<" + (text + ">")) + ",") && (blank == "" || blank == " ")
    requires text != "" && '<' !in text && '>' !in text && !OddQuotes(text) && ParseAny(text) == Uri(u)
    ensures var n := i + |blank| + |text| + 3;
            n <= |s| &&
            Scan(s, i, i, false, false) == Onto([Address(None, Uri(u), EMPTY)], Scan(s, n, n, false, false))
  {
    hide ParseAddress, ParseAny, Onto, At, OddQuotes;
    SectionPieces(s, i, blank, text);
    var j := i + |blank|;
    assert Scan(s, i, i, false, false) == Scan(s, j, i, false, false);
    ScanInside(s, j + 1, text, i, false);
    BracketedParses(text, u, blank);
  }

  /** Every section with a comma behind it. */
  function Ended(sections: seq<string>): string {
    if sections == [] then "" else sections[0] + "," + Ended(sections[1..])
  }

  lemma {:induction false} JoinEnded(sections: seq<string>)
    requires sections != []
    ensures Join(sections, ",") + "," == Ended(sections)
    decreases |sections|
  {
    if |sections| > 1 {
      JoinEnded(sections[1..]);
      Regroup(sections[0] + ",", Join(sections[1..], ","), ",");
    } else {
      assert Ended(sections[1..]) == "";
    }
  }

  ghost function Plainly(uris: seq<SipUri>): seq<Address> {
    seq(|uris|, i requires 0 <= i < |uris| => Address(None, Uri(uris[i]), EMPTY))
  }

  lemma {:induction false} ScanSections(s: string, i: nat, uris: seq<SipUri>, items: seq<string>, blank: string)
    requires forall k :: 0 <= k < |uris| ==> Printable(uris[k]) && Routable(uris[k])
    requires items == RouteItems(uris) && (blank == "" || blank == " ")
    requires At(s, i, Ended(Blanked(items, blank))) && i + |Ended(Blanked(items, blank))| == |s|
    ensures Scan(s, i, i, false, false) == List(Plainly(uris))
    decreases |uris|
  {
    hide InDomain, ParseAny, Print, Scan, At, OddQuotes, Ended, Blanked, RouteItems, Plainly;
    ItemsShape(uris);
    if uris != [] {
      var text := Print(uris[0]);
      AnyUriRoundTrip(uris[0]);
      PrintNonEmpty(uris[0]);
      EndedFirst(items, blank);
      var first := blank + ("<" + (text + ">")) + ",";
      var rest := Ended(Blanked(items[1..], " "));
      AtParts(s, i, first, rest);
      ScanSection(s, i, blank, text, uris[0]);
      ScanSections(s, i + |first|, uris[1..], items[1..], " ");
    } else {
      NoItems(blank);
      ScanNothing(s);
    }
  }

  lemma ItemsShape(uris: seq<SipUri>)
    requires forall k :: 0 <= k < |uris| ==> Printable(uris[k])
    ensures uris != [] ==>
              && RouteItems(uris)[0] == "<" + (Print(uris[0]) + ">") && RouteItems(uris)[1..] == RouteItems(uris[1..])
              && Plainly(uris) == [Address(None, Uri(uris[0]), EMPTY)] + Plainly(uris[1..])
    ensures uris == [] ==> RouteItems(uris) == [] && Plainly(uris) == []
  {
    hide Print;
  }

  lemma NoItems(blank: string)
    ensures Ended(Blanked([], blank)) == ""
  {
  }

  lemma EndedFirst(items: seq<string>, blank: string)
    requires items != []
    ensures Ended(Blanked(items, blank)) == blank + items[0] + "," + Ended(Blanked(items[1..], " "))
  {
    assert Blanked(items, blank)[1..] == Blanked(items[1..], " ");
  }

  lemma ScanNothing(s: string)
    ensures Scan(s, |s|, |s|, false, false) == List([])
  {
  }

  /** A printed Route or Record-Route list of any length parses back to the same URIs. */
  lemma RouteRoundTrip(uris: seq<SipUri>)
    requires uris != [] && forall k :: 0 <= k < |uris| ==> Printable(uris[k]) && Routable(uris[k])
    ensures ParseRoute(PrintRoute(uris)) == Route(seq(|uris|, i requires 0 <= i < |uris| => Uri(uris[i])))
  {
    hide Routable, Print, Scan;
    var items := RouteItems(uris);
    var s := PrintRoute(uris) + ",";
    JoinBlanked(items, "");
    assert "" + PrintRoute(uris) == PrintRoute(uris);
    JoinEnded(Blanked(items, ""));
    assert At(s, 0, Ended(Blanked(items, "")));
    ScanSections(s, 0, uris, items, "");
  }
}
