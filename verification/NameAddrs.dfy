/** Addresses with display names and header parameters: parsing a printed address, or a list of them, gives it back. */
module NameAddrs {
  import opened Wrappers
  import opened Text
  import opened Params
  import opened ParamsRoundTrip
  import opened SipUris
  import opened SipUriRoundTrip
  import opened Addresses
  import opened AddressCrashes

  /** How the name stands in front of the bracket: not at all, in quotes, or as it is. */
  datatype Front = NoName | InQuotes(quoted: string) | Bare(bare: string)

  function NameOf(f: Front): Option<string> {
    match f
    case NoName => None
    case InQuotes(n) => Some(n)
    case Bare(n) => Some(n)
  }

  function FrontText(f: Front, blank: string): string {
    match f
    case NoName => ""
    case InQuotes(n) => "\"" + (n + ("\"" + blank))
    case Bare(n) => n + blank
  }

  /** Quotes end a quoted name; brackets, quotes and outer white space a bare one. */
  predicate LegalFront(f: Front) {
    match f
    case NoName => true
    case InQuotes(n) => '"' !in n
    case Bare(n) => n != "" && Trimmed(n) && '<' !in n && '"' !in n
  }

  ghost predicate AddressParams(p: Params) {
    p == EMPTY || Legal(p, ADDRESS_PARAMS)
  }

  /** The bracketed URI and the parameters behind it. */
  ghost function Bracketed(u: SipUri, p: Params): string
    requires Printable(u) && p.Valid()
  {
    "<" + (Print(u) + (">" + ParamText(p, ';', ';')))
  }

  ghost function PrintNameAddr(f: Front, blank: string, u: SipUri, p: Params): string
    requires Printable(u) && p.Valid()
  {
    FrontText(f, blank) + Bracketed(u, p)
  }

  ghost predicate LegalAddress(u: SipUri, p: Params)
    requires Printable(u) && p.Valid()
  {
    InDomain(u) && '>' !in Print(u) && AddressParams(p) && SpaceBack(Bracketed(u, p)) == 0
  }

  // ---- behind the name

  lemma ParamsRead(name: Option<string>, u: SipUri, p: Params)
    requires Printable(u) && InDomain(u) && AddressParams(p)
    ensures ParseUriAndParams(name, Print(u), ParamText(p, ';', ';')) == One(Address(name, Uri(u), p))
  {
    hide Print, InDomain, ParseAny, Parse, Render, Legal;
    AnyUriRoundTrip(u);
    if p != EMPTY {
      LegalIsThere(p);
      ParseRender(p, "", ADDRESS_PARAMS);
      var text := [';'] + Render(p, ';');
      assert text + "" == text;
    }
  }

  lemma LegalIsThere(p: Params)
    requires Legal(p, ADDRESS_PARAMS)
    ensures p.Valid() && p.keys != [] && Usual(ADDRESS_PARAMS)
  {
  }

  lemma BracketedFront(u: SipUri, p: Params)
    requires Printable(u) && p.Valid()
    ensures Bracketed(u, p) != "" && Bracketed(u, p)[0] == '<' && SpaceFront(Bracketed(u, p)) == 0
    ensures Bracketed(u, p)[1..] == Print(u) + ['>'] + ParamText(p, ';', ';')
  {
    hide Print, ParamText;
    Regroup(Print(u), ['>'], ParamText(p, ';', ';'));
    assert Bracketed(u, p)[1..] == Print(u) + (['>'] + ParamText(p, ';', ';'));
  }

  /** A bracketed URI with its parameters, with one blank before it or not. */
  lemma BracketedRead(name: Option<string>, blank: string, u: SipUri, p: Params)
    requires Printable(u) && p.Valid() && LegalAddress(u, p) && (blank == "" || blank == " ")
    ensures ParseAfterName(name, blank + Bracketed(u, p)) == One(Address(name, Uri(u), p))
  {
    hide Print, ParamText, ParseUriAndParams, TrimSpace, IndexOf, InDomain, Bracketed, SpaceFront, SpaceBack;
    hide AddressParams;
    BracketedFront(u, p);
    var t := Bracketed(u, p);
    TrimBlank(t);
    assert "" + t == t;
    IndexAfter(Print(u), '>', ParamText(p, ';', ';'));
    var (i, tail) := (|Print(u)|, ParamText(p, ';', ';'));
    PrintNonEmpty(u);
    SliceParts(t, Print(u), tail);
    ParamsRead(name, u, p);
  }

  lemma SliceParts(t: string, text: string, tail: string)
    requires t != "" && t[1..] == text + ['>'] + tail
    ensures |text| + 2 <= |t| && t[1..|text| + 1] == text && t[|text| + 2..] == tail
  {
    assert forall k :: 1 <= k < |t| ==> t[k] == t[1..][k - 1];
  }

  // ---- the name

  lemma {:induction false} NothingIn(t: string, j: nat, text: string)
    requires At(t, j, text) && '<' !in text && '"' !in text
    ensures FindFrom(t, j, None, "<", QUOTES) == FindFrom(t, j + |text|, None, "<", QUOTES)
    decreases |text|
  {
    hide FindFrom;
    assert forall m :: j <= m < j + |text| ==> t[m] == text[m - j];
    NothingFound(t, j, j + |text|);
  }

  lemma FoundHere(t: string, k: nat)
    requires k < |t| && t[k] == '<'
    ensures FindFrom(t, k, None, "<", QUOTES) == k
  {
  }

  /** A bare name reaches up to the bracket. */
  lemma BareBracket(n: string, blank: string, rest: string)
    requires '<' !in n && '"' !in n && (blank == "" || blank == " ") && rest != "" && rest[0] == '<'
    ensures Bracket(n + blank + rest) == |n + blank|
  {
    hide FindFrom;
    var (w, t) := (n + blank, n + blank + rest);
    assert At(t, 0, w);
    NothingIn(t, 0, w);
    FoundHere(t, |w|);
  }

  lemma QuotedParts(n: string, blank: string, rest: string)
    requires '"' !in n
    ensures var t := "\"" + (n + ("\"" + blank)) + rest;
            && t[0] == '"' && IndexOf(t[1..], '"') == Some(|n|) && t[1..|n| + 1] == n && t[|n| + 2..] == blank + rest
  {
    hide IndexOf;
    var t := "\"" + (n + ("\"" + blank)) + rest;
    assert t[1..] == n + ['"'] + (blank + rest);
    IndexAfter(n, '"', blank + rest);
  }

  /** A quoted name is skipped as a whole, brackets and all. */
  lemma QuotedBracket(n: string, blank: string, rest: string)
    requires '"' !in n && (blank == "" || blank == " ") && rest != "" && rest[0] == '<'
    ensures Bracket("\"" + (n + ("\"" + blank)) + rest) == |n| + 2 + |blank|
  {
    hide FindFrom, IndexOf;
    var t := "\"" + (n + ("\"" + blank)) + rest;
    QuotedParts(n, blank, rest);
    QuoteOpens(t);
    AddressCrashes.InQuotes(t, 1);
    assert At(t, |n| + 2, blank) by { assert t[|n| + 2..] == blank + rest; }
    NothingIn(t, |n| + 2, blank);
    assert t[|n| + 2 + |blank|] == (blank + rest)[|blank|];
    FoundHere(t, |n| + 2 + |blank|);
  }

  /** A bare name is trimmed of the blank behind it. */
  lemma BareTrims(n: string, blank: string)
    requires Trimmed(n) && n != "" && (blank == "" || blank == " ")
    ensures TrimSpace(n + blank) == n
  {
    TrimNone(n);
    assert n + "" == n;
    if blank == " " {
      assert (n + " ")[..|n|] == n;
      FrontStays(n, " ");
      assert TrimLeft(n + " ") == n + " ";
      assert SpaceBack(n + " ") == 1;
      hide SpaceFront, SpaceBack;
      assert TrimRight(n + " ") == TrimRight(n);
    }
  }

  lemma FrontStays(n: string, rest: string)
    requires n != "" && SpaceFront(n) == 0 && rest != "" && (rest[0] == ' ' || rest[0] == '<')
    ensures SpaceFront(n + rest) == 0
  {
    var s := n + rest;
    assert forall m :: 0 <= m < |n| ==> s[m] == n[m];
    assert s[|n|] == rest[0];
  }

  /** The printed address has no outer white space. */
  lemma PrintedTrimmed(f: Front, blank: string, rest: string)
    requires LegalFront(f) && (blank == "" || blank == " ") && rest != "" && rest[0] == '<' && SpaceBack(rest) == 0
    ensures Trimmed(FrontText(f, blank) + rest)
  {
    hide SpaceBack;
    var front := FrontText(f, blank);
    assert "" + rest == rest;
    BackOfWhole(front, rest);
    match f
    case NoName =>
    case InQuotes(_) =>
    case Bare(n) =>
      Regroup(n, blank, rest);
      FrontStays(n, blank + rest);
  }

  lemma BackOfWhole(front: string, rest: string)
    requires rest != "" && rest[0] == '<' && SpaceBack(rest) == 0
    ensures SpaceBack(front + rest) == 0
  {
    var s := front + rest;
    assert forall k :: 0 <= k < |rest| ==> rest[k] == s[|front| + k];
  }

  // ---- one address

  /**
   * Parsing a printed address gives exactly its name, its URI and its parameters: for no name, a quoted one without
   * quotes in it and a bare one without outer white space, brackets and quotes, each with a blank behind it or not.
   */
  lemma NameAddrRoundTrip(f: Front, blank: string, u: SipUri, p: Params)
    requires LegalFront(f) && (blank == "" || blank == " ")
    requires Printable(u) && p.Valid() && LegalAddress(u, p)
    ensures ParseAddress(PrintNameAddr(f, blank, u, p)) == One(Address(NameOf(f), Uri(u), p))
    ensures ParseAddress(" " + PrintNameAddr(f, blank, u, p)) == One(Address(NameOf(f), Uri(u), p))
  {
    hide Bracketed, ParseAddress, TrimSpace, SpaceFront, SpaceBack, InDomain, Print, AddressParams, LegalFront;
    BracketedFront(u, p);
    var text := PrintNameAddr(f, blank, u, p);
    PrintedTrimmed(f, blank, Bracketed(u, p));
    TrimBlank(text);
    SameTrimmed(text, " " + text);
    match f {
      case NoName => NoNameReads(u, p);
      case InQuotes(n) => QuotedReads(n, blank, u, p);
      case Bare(n) => BareReads(n, blank, u, p);
    }
  }

  /** Only the trimmed text counts. */
  lemma SameTrimmed(a: string, b: string)
    requires a != "" && b != "" && TrimSpace(a) == TrimSpace(b)
    ensures ParseAddress(a) == ParseAddress(b)
  {
    hide TrimSpace, ParseAfterName, FindFrom, IndexOf;
  }

  lemma NoNameReads(u: SipUri, p: Params)
    requires Printable(u) && p.Valid() && LegalAddress(u, p)
    requires Trimmed(PrintNameAddr(NoName, "", u, p))
    ensures forall blank: string :: PrintNameAddr(NoName, blank, u, p) == Bracketed(u, p)
    ensures ParseAddress(Bracketed(u, p)) == One(Address(None, Uri(u), p))
  {
    hide Bracketed, ParseAfterName, TrimSpace, FindFrom, IndexOf, SpaceFront, SpaceBack, InDomain, Print, AddressParams;
    BracketedFront(u, p);
    var rest := Bracketed(u, p);
    assert "" + rest == rest;
    TrimBlank(rest);
    FoundHere(rest, 0);
    BracketedRead(None, "", u, p);
  }

  lemma QuotedReads(n: string, blank: string, u: SipUri, p: Params)
    requires LegalFront(InQuotes(n)) && (blank == "" || blank == " ")
    requires Printable(u) && p.Valid() && LegalAddress(u, p) && Trimmed(PrintNameAddr(InQuotes(n), blank, u, p))
    ensures ParseAddress(PrintNameAddr(InQuotes(n), blank, u, p)) == One(Address(Some(n), Uri(u), p))
  {
    hide Bracketed, ParseAfterName, TrimSpace, FindFrom, IndexOf, SpaceFront, SpaceBack, InDomain, Print, AddressParams;
    BracketedFront(u, p);
    TrimBlank(PrintNameAddr(InQuotes(n), blank, u, p));
    QuotedParts(n, blank, Bracketed(u, p));
    QuotedBracket(n, blank, Bracketed(u, p));
    BracketedRead(Some(n), blank, u, p);
  }

  lemma BareReads(n: string, blank: string, u: SipUri, p: Params)
    requires LegalFront(Bare(n)) && (blank == "" || blank == " ")
    requires Printable(u) && p.Valid() && LegalAddress(u, p) && Trimmed(PrintNameAddr(Bare(n), blank, u, p))
    ensures ParseAddress(PrintNameAddr(Bare(n), blank, u, p)) == One(Address(Some(n), Uri(u), p))
  {
    hide Bracketed, ParseAfterName, TrimSpace, FindFrom, IndexOf, SpaceFront, SpaceBack, InDomain, Print, AddressParams;
    BracketedFront(u, p);
    var rest := Bracketed(u, p);
    TrimBlank(PrintNameAddr(Bare(n), blank, u, p));
    BareBracket(n, blank, rest);
    BareTrims(n, blank);
    BareParts(n, blank, rest);
    assert "" + rest == rest;
    BracketedRead(Some(n), "", u, p);
  }

  lemma BareParts(n: string, blank: string, rest: string)
    requires n != "" && '"' !in n
    ensures var t := n + blank + rest; t[0] != '"' && t[..|n + blank|] == n + blank && t[|n + blank|..] == rest
  {
    assert n[0] in n;
  }

  /** A quoted name that no bracket follows is refused, whether one comes later or not. */
  lemma QuotedNeedsBracket(n: string, rest: string)
    requires '"' !in n && (TrimLeft(rest) == "" || TrimLeft(rest)[0] != '<')
    requires SpaceBack("\"" + (n + "\"") + rest) == 0
    ensures ParseAddress("\"" + (n + "\"") + rest) == BadAddress
  {
    hide IndexOf, TrimSpace, TrimLeft, SpaceFront, SpaceBack, ParseAddress;
    var text := "\"" + (n + "\"") + rest;
    QuoteFront(text);
    assert n + ("\"" + "") == n + "\"";
    QuotedParts(n, "", rest);
    assert "" + rest == rest;
    if Bracket(text) > 0 {
      LaterBracket(text, |n|);
    } else {
      NoBracketAtAll(text);
    }
  }

  lemma NoBracketAtAll(text: string)
    requires text != "" && text[0] == '"' && Trimmed(text) && Bracket(text) <= 0
    ensures ParseAddress(text) == BadAddress
  {
    hide FindFrom, IndexOf, TrimSpace, SpaceFront, SpaceBack, ParseUriAndParams;
    TrimBlank(text);
    BracketFirst(text);
    var end := match IndexOf(text, ';') case Some(i) => i case None => |text|;
    NoQuotedUri(text, end);
  }

  lemma LaterBracket(text: string, i: nat)
    requires text != "" && text[0] == '"' && Trimmed(text) && Bracket(text) > 0
    requires IndexOf(text[1..], '"') == Some(i) && i + 2 <= |text|
    requires TrimLeft(text[i + 2..]) == "" || TrimLeft(text[i + 2..])[0] != '<'
    ensures ParseAddress(text) == BadAddress
  {
    hide FindFrom, IndexOf, TrimSpace, TrimLeft, SpaceFront, SpaceBack, ParseAfterName;
    TrimBlank(text);
    QuotedName(text);
    EndTrimmed(text, i + 2);
    BracketStays(text, i + 2);
    NamedRefused(text[1..i + 1], text[i + 2..]);
  }

  lemma NamedRefused(name: string, rest: string)
    requires TrimSpace(rest) != "" && TrimSpace(rest)[0] != '<'
    ensures ParseAfterName(Some(name), rest) == BadAddress
  {
    hide TrimSpace, IndexOf, ParseUriAndParams;
  }

  /** A bracket is not trimmed away. */
  lemma BracketStays(text: string, j: nat)
    requires j <= |text| && FindFrom(text, j, None, "<", QUOTES) >= 0
    ensures TrimLeft(text[j..]) != ""
  {
    hide FindFrom, TrimLeft;
    var k := FindFrom(text, j, None, "<", QUOTES);
    FoundIs(text, j, k);
    TrimmedAway(text[j..]);
    assert text[j..][k - j] == '<';
  }

  lemma QuoteFront(text: string)
    requires text != "" && text[0] == '"'
    ensures SpaceFront(text) == 0
  {
  }

  /** Behind a quoted name only the white space in front is trimmed. */
  lemma EndTrimmed(text: string, j: nat)
    requires j <= |text| && SpaceBack(text) == 0
    ensures TrimSpace(text[j..]) == TrimLeft(text[j..])
  {
    hide SpaceBack, SpaceFront, TrimLeft;
    var rest := TrimLeft(text[j..]);
    EndOfEnd(text, j, rest);
    BackOfEnd(text, |text| - |rest|);
    NoBack(rest);
  }

  lemma NoBack(s: string)
    requires SpaceBack(s) == 0
    ensures TrimRight(s) == s
  {
  }

  /** A text that starts with a quote is no URI. */
  lemma NoQuotedUri(text: string, end: nat)
    requires text != "" && text[0] == '"' && end <= |text| && (end < |text| ==> text[end] == ';')
    ensures ParseUriAndParams(None, text[..end], text[end..]) == BadAddress
  {
    hide TrimSpace, ToLower, IndexOf, Parse;
    var s := text[..end];
    assert end > 0 && s[0] == '"';
    QuoteStar(s);
    match IndexOf(s, ':') {
      case None =>
      case Some(i) => QuoteScheme(s[..i]);
    }
  }

  lemma QuoteStar(s: string)
    requires s != "" && s[0] == '"'
    ensures TrimSpace(s) != "*"
  {
    hide TrimLeft, TrimRight, SpaceFront;
    QuoteFront(s);
    FrontNone(s);
    assert TrimRight(s) == s[..|TrimRight(s)|];
  }

  lemma FrontNone(s: string)
    requires SpaceFront(s) == 0
    ensures TrimLeft(s) == s
  {
    hide SpaceFront;
  }

  lemma QuoteScheme(scheme: string)
    requires scheme != "" ==> scheme[0] == '"'
    ensures ToLower(scheme) != "sip" && ToLower(scheme) != "sips"
  {
    assert scheme != "" ==> ToLower(scheme)[0] == LowerChar(scheme[0]);
  }

  /**
   * The form without brackets: everything behind the first semicolon belongs to the header, so the URI has none, and
   * no bracket may stand outside quotes.
   */
  lemma PlainAddressRoundTrip(u: SipUri, p: Params)
    requires Printable(u) && InDomain(u) && ';' !in Print(u) && p.Valid() && AddressParams(p)
    requires var text := Print(u) + ParamText(p, ';', ';'); SpaceBack(text) == 0 && Bracket(text) == -1
    ensures ParseAddress(Print(u) + ParamText(p, ';', ';')) == One(Address(None, Uri(u), p))
  {
    hide FindFrom, SpaceBack, InDomain, TrimSpace, ParamText, Print, IndexOf, AddressParams, ParseUriAndParams;
    var (body, tail) := (Print(u), ParamText(p, ';', ';'));
    var text := body + tail;
    StartsWithS(u);
    assert text[0] == 's';
    PlainFront(text);
    TrimBlank(text);
    ParamsRead(None, u, p);
    ParamTextShape(p);
    if tail != "" {
      assert text == body + [';'] + tail[1..];
      IndexAfter(body, ';', tail[1..]);
    } else {
      assert text == body;
    }
    assert text[..|body|] == body && text[|body|..] == tail;
  }

  /** The wildcard, which stands without brackets, with parameters or without. */
  lemma WildcardRoundTrip(p: Params)
    requires p.Valid() && AddressParams(p)
    requires SpaceBack("*" + ParamText(p, ';', ';')) == 0 && Bracket("*" + ParamText(p, ';', ';')) == -1
    ensures ParseAddress("*" + ParamText(p, ';', ';')) == One(Address(None, Wildcard, p))
  {
    hide FindFrom, SpaceFront, SpaceBack, TrimSpace, ParamText, IndexOf, Parse, Render, Legal;
    var tail := ParamText(p, ';', ';');
    var text := "*" + tail;
    StarFront(text);
    TrimBlank(text);
    ParamTextShape(p);
    StarTrimmed();
    if p == EMPTY {
      NoParamText();
      assert text == "*";
    } else {
      LegalIsThere(p);
      assert text == "*" + [';'] + tail[1..] by { ParamTextStarts(p); }
      IndexAfter("*", ';', tail[1..]);
      assert text[..1] == "*" && text[1..] == tail;
      ParseRender(p, "", ADDRESS_PARAMS);
      ParamTextStarts(p);
      assert tail + "" == tail;
    }
  }

  lemma NoParamText()
    ensures ParamText(EMPTY, ';', ';') == ""
  {
  }

  lemma ParamTextStarts(p: Params)
    requires p.Valid() && p.keys != []
    ensures ParamText(p, ';', ';') == [';'] + Render(p, ';')
  {
  }

  lemma StarFront(text: string)
    requires text != "" && text[0] == '*'
    ensures SpaceFront(text) == 0
  {
  }

  lemma StarTrimmed()
    ensures TrimSpace("*") == "*"
  {
    hide TrimLeft, TrimRight;
    TrimNone("*");
  }

  lemma ParamTextShape(p: Params)
    requires p.Valid()
    ensures ParamText(p, ';', ';') != "" ==> ParamText(p, ';', ';')[0] == ';'
  {
  }

  lemma PlainFront(text: string)
    requires text != "" && text[0] == 's'
    ensures SpaceFront(text) == 0
  {
  }

  lemma StartsWithS(u: SipUri)
    requires Printable(u)
    ensures Print(u) != "" && Print(u)[0] == 's'
  {
  }

  // ---- lists of addresses

  /**
   * Whether the scan of a list is inside brackets and inside quotes behind a text; None when the text holds a comma
   * outside both.
   */
  function ScanState(text: string, inBrackets: bool, inQuotes: bool): Option<(bool, bool)> {
    if text == "" then Some((inBrackets, inQuotes))
    else if text[0] == '"' then ScanState(text[1..], inBrackets, !inQuotes)
    else if inQuotes then ScanState(text[1..], inBrackets, inQuotes)
    else if text[0] == '<' then ScanState(text[1..], true, inQuotes)
    else if text[0] == '>' then ScanState(text[1..], false, inQuotes)
    else if text[0] == ',' && !inBrackets then None
    else ScanState(text[1..], inBrackets, inQuotes)
  }

  /** A list can hold the text: it has no comma outside quotes and brackets, and closes both. */
  predicate Whole(text: string) {
    ScanState(text, false, false) == Some((false, false))
  }

  lemma {:induction false} ScanOver(s: string, i: nat, prev: nat, text: string, inBrackets: bool, inQuotes: bool)
    requires At(s, i, text) && prev <= i && ScanState(text, inBrackets, inQuotes).Some?
    ensures var (b, q) := ScanState(text, inBrackets, inQuotes).value;
            Sections(s, i, prev, inBrackets, inQuotes) == Sections(s, i + |text|, prev, b, q)
    decreases |text|
  {
    if text != "" {
      AtTail(s, i, text);
      var bracket := text[0] == '<' || text[0] == '>';
      var b := if bracket && !inQuotes then text[0] == '<' else inBrackets;
      ScanOver(s, i + 1, prev, text[1..], b, inQuotes != (text[0] == '"'));
    }
  }

  lemma OneSection(s: string, i: nat, text: string)
    requires At(s, i, text + ",") && Whole(text)
    ensures var n := i + |text| + 1;
            n <= |s| && Sections(s, i, i, false, false) == [text] + Sections(s, n, n, false, false)
  {
    hide ScanState;
    AtParts(s, i, text, ",");
    AtTail(s, i + |text|, ",");
    ScanOver(s, i, i, text, false, false);
  }

  /** The sections of a joined list are its texts. */
  lemma {:induction false} EndedSections(s: string, i: nat, texts: seq<string>)
    requires forall k :: 0 <= k < |texts| ==> Whole(texts[k])
    requires At(s, i, Ended(texts)) && i + |Ended(texts)| == |s|
    ensures Sections(s, i, i, false, false) == texts
    decreases |texts|
  {
    hide Sections, At, Whole, Ended;
    EndedShape(texts);
    if texts != [] {
      AtParts(s, i, texts[0] + ",", Ended(texts[1..]));
      OneSection(s, i, texts[0]);
      EndedSections(s, i + |texts[0]| + 1, texts[1..]);
    } else {
      NoSections(s);
    }
  }

  lemma EndedShape(texts: seq<string>)
    ensures Ended(texts) == if texts == [] then "" else texts[0] + "," + Ended(texts[1..])
  {
  }

  lemma NoSections(s: string)
    ensures Sections(s, |s|, |s|, false, false) == []
  {
  }

  /** One address of a list: how its name stands, the URI and the parameters. */
  datatype Entry = Entry(front: Front, blank: string, uri: SipUri, params: Params) {
    ghost predicate Legal() {
      && LegalFront(front) && (blank == "" || blank == " ")
      && Printable(uri) && params.Valid() && LegalAddress(uri, params)
    }

    ghost function Text(): string
      requires Legal()
    {
      PrintNameAddr(front, blank, uri, params)
    }

    function Read(): Address {
      Address(NameOf(front), Uri(uri), params)
    }
  }

  ghost function Texts(entries: seq<Entry>): (r: seq<string>)
    requires forall k :: 0 <= k < |entries| ==> entries[k].Legal()
    ensures |r| == |entries|
  {
    seq(|entries|, k requires 0 <= k < |entries| => entries[k].Text())
  }

  function Reads(entries: seq<Entry>): seq<Address> {
    seq(|entries|, k requires 0 <= k < |entries| => entries[k].Read())
  }

  lemma EntryParses(e: Entry, blank: string)
    requires e.Legal() && (blank == "" || blank == " ")
    ensures ParseAddress(blank + e.Text()) == One(e.Read())
  {
    hide ParseAddress, LegalAddress, Printable, PrintNameAddr;
    NameAddrRoundTrip(e.front, e.blank, e.uri, e.params);
    assert "" + e.Text() == e.Text();
  }

  lemma {:induction false} AllParse(entries: seq<Entry>, blank: string)
    requires (forall k :: 0 <= k < |entries| ==> entries[k].Legal()) && (blank == "" || blank == " ")
    ensures ParseAll(Blanked(Texts(entries), blank)) == List(Reads(entries))
    decreases |entries|
  {
    hide ParseAddress, Entry.Legal, Entry.Text, Entry.Read;
    if entries != [] {
      EntryParses(entries[0], blank);
      AllParse(entries[1..], " ");
      assert Texts(entries)[1..] == Texts(entries[1..]);
      assert Blanked(Texts(entries), blank)[1..] == Blanked(Texts(entries[1..]), " ");
      assert Reads(entries) == [entries[0].Read()] + Reads(entries[1..]);
    }
  }

  lemma WholeBlank(text: string)
    requires Whole(text)
    ensures Whole(" " + text) && Whole("" + text)
  {
    assert (" " + text)[1..] == text && "" + text == text;
  }

  lemma WholeBlanked(texts: seq<string>, blank: string)
    requires (blank == "" || blank == " ") && forall k :: 0 <= k < |texts| ==> Whole(texts[k])
    ensures forall k :: 0 <= k < |texts| ==> Whole(Blanked(texts, blank)[k])
  {
    hide Whole;
    forall k | 0 <= k < |texts| ensures Whole(Blanked(texts, blank)[k]) {
      WholeBlank(texts[k]);
    }
  }

  /** A printed list of addresses that can stand in a list parses back to the same addresses, in order. */
  lemma ListRoundTrip(entries: seq<Entry>)
    requires entries != [] && forall k :: 0 <= k < |entries| ==> entries[k].Legal() && Whole(entries[k].Text())
    ensures ParseAddresses(Join(Texts(entries), ", ")) == List(Reads(entries))
  {
    hide Entry.Legal, Entry.Text, Scan, Sections, Whole, ParseAll, Ended;
    var texts := Blanked(Texts(entries), "");
    var s := Join(Texts(entries), ", ") + ",";
    JoinBlanked(Texts(entries), "");
    assert "" + Join(Texts(entries), ", ") == Join(Texts(entries), ", ");
    JoinEnded(texts);
    assert At(s, 0, Ended(texts));
    WholeBlanked(Texts(entries), "");
    EndedSections(s, 0, texts);
    ScanParses(s, 0, 0, false, false);
    AllParse(entries, "");
  }
}
