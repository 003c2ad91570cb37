/** Exactly which address lists make the parser run out of its text. */
module AddressCrashes {
  import opened Wrappers
  import opened Text
  import opened SipUris
  import opened Addresses

  // ---- URIs

  /** ParseUri asks for the scheme first, so ParseSipUri never gets a text that is too short for it. */
  lemma AnyNeverCrashes(s: string)
    ensures !ParseAny(s).Crash?
  {
    hide ParseBody, TrimSpace;
    match IndexOf(s, ':') {
      case None =>
      case Some(i) =>
        BodyNeverCrashes();
        if ToLower(s[..i]) == "sip" || ToLower(s[..i]) == "sips" {
          assert |s[..i]| == 3 || |s[..i]| == 4;
          assert s[..3] == s[..i][..3];
          assert forall j :: 0 <= j < 3 ==> ToLower(s[..3])[j] == ToLower(s[..i])[j];
          assert ToLower(s[..3]) == "sip";
          if i == 4 {
            assert LowerChar(s[3]) == ToLower(s[..i])[3];
          }
        }
    }
  }

  lemma BodyNeverCrashes()
    ensures forall encrypted: bool, s: string :: !ParseBody(encrypted, s).Crash?
  {
    hide ParseHostPort, ParseTail, SplitUser, EndOfHost;
  }

  // ---- the sections of a list

  /** The texts between the commas outside quotes and brackets. */
  function Sections(s: string, i: nat, prev: nat, inBrackets: bool, inQuotes: bool): seq<string>
    requires prev <= i <= |s|
    decreases |s| - i
  {
    if i == |s| then []
    else
      var c := s[i];
      if c == '<' && !inQuotes then Sections(s, i + 1, prev, true, inQuotes)
      else if c == '>' && !inQuotes then Sections(s, i + 1, prev, false, inQuotes)
      else if c == '"' then Sections(s, i + 1, prev, inBrackets, !inQuotes)
      else if !inQuotes && !inBrackets && c == ',' then
        [s[prev..i]] + Sections(s, i + 1, i + 1, inBrackets, inQuotes)
      else Sections(s, i + 1, prev, inBrackets, inQuotes)
  }

  function SectionsOf(addresses: string): seq<string> {
    Sections(addresses + ",", 0, 0, false, false)
  }

  function ParseAll(sections: seq<string>): ListResult {
    if sections == [] then List([])
    else
      match ParseAddress(sections[0])
      case BadAddress => BadList
      case AddressCrash => ListCrash
      case One(a) => Onto([a], ParseAll(sections[1..]))
  }

  /** The loop that scans and parses is a scan and then a parse of each section. */
  lemma {:induction false} ScanParses(s: string, i: nat, prev: nat, inBrackets: bool, inQuotes: bool)
    requires prev <= i <= |s|
    ensures Scan(s, i, prev, inBrackets, inQuotes) == ParseAll(Sections(s, i, prev, inBrackets, inQuotes))
    decreases |s| - i
  {
    hide ParseAddress, Onto;
    if i < |s| {
      var c := s[i];
      if c == '<' && !inQuotes {
        ScanParses(s, i + 1, prev, true, inQuotes);
      } else if c == '>' && !inQuotes {
        ScanParses(s, i + 1, prev, false, inQuotes);
      } else if c == '"' {
        ScanParses(s, i + 1, prev, inBrackets, !inQuotes);
      } else if !inQuotes && !inBrackets && c == ',' {
        ScanParses(s, i + 1, i + 1, inBrackets, inQuotes);
        var rest := Sections(s, i + 1, i + 1, inBrackets, inQuotes);
        assert ([s[prev..i]] + rest)[1..] == rest;
      } else {
        ScanParses(s, i + 1, prev, inBrackets, inQuotes);
      }
    }
  }

  /** The parse of a list ends at its first bad section: it panics exactly if that one does. */
  lemma {:induction false} AllCrash(sections: seq<string>)
    ensures ParseAll(sections).ListCrash? <==>
            exists k :: 0 <= k < |sections| && ParseAddress(sections[k]).AddressCrash? &&
                        forall j :: 0 <= j < k ==> ParseAddress(sections[j]).One?
    decreases |sections|
  {
    hide ParseAddress;
    if sections != [] {
      var rest := sections[1..];
      AllCrash(rest);
      assert forall j :: 1 <= j < |sections| ==> sections[j] == rest[j - 1];
      if k :| 0 <= k < |rest| && ParseAddress(rest[k]).AddressCrash? &&
              forall j :: 0 <= j < k ==> ParseAddress(rest[j]).One? {
        assert sections[k + 1] == rest[k];
        assert ParseAddress(sections[0]).One? ==> forall j :: 0 <= j < k + 1 ==> ParseAddress(sections[j]).One?;
      }
    }
  }

  // ---- one section

  /** The first '<' outside quotes. */
  function Bracket(t: string): int {
    FindFrom(t, 0, None, "<", QUOTES)
  }

  /** Only white space stands between a quoted name and the bracket. */
  predicate NameReaches(t: string, k: nat)
    requires 0 < k <= |t|
  {
    match IndexOf(t[1..], '"')
    case None => false
    case Some(i) => i + 2 <= k && TrimLeft(t[i + 2..k]) == ""
  }

  /** White space and nothing else, or a bracket where the URI starts that is never closed. */
  predicate Unclosed(section: string) {
    var (t, k) := (TrimSpace(section), Bracket(TrimSpace(section)));
    section != "" &&
    if k < 0 then t == "" else '>' !in t[k..] && (k > 0 && t[0] == '"' ==> NameReaches(t, k))
  }

  lemma BackOfEnd(s: string, k: nat)
    requires k <= |s| && SpaceBack(s) == 0
    ensures SpaceBack(s[k..]) == 0
  {
    assert forall i :: k <= i < |s| ==> s[k..][i - k] == s[i];
  }

  lemma TrimmedEnd(t: string, k: nat)
    requires Trimmed(t) && k < |t| && t[k] == '<'
    ensures TrimSpace(t[k..]) == t[k..] && t[k..][0] == '<'
  {
    hide SpaceBack;
    BackOfEnd(t, k);
    TrimNone(t[k..]);
  }

  /** What a text that starts with a bracket does, whatever its name. */
  lemma BracketCrashes(name: Option<string>, u: string)
    requires u != "" && u[0] == '<' && TrimSpace(u) == u
    ensures ParseAfterName(name, u).AddressCrash? <==> '>' !in u
  {
    hide ParseAny, TrimSpace;
    assert '>' in u <==> '>' in u[1..] by { assert u == [u[0]] + u[1..]; }
    match IndexOf(u[1..], '>') {
      case None =>
      case Some(end) => AnyNeverCrashes(u[1..end + 1]);
    }
  }

  lemma NoBracketCrashes(t: string)
    requires TrimSpace(t) == t && (t != "" ==> t[0] != '<')
    ensures ParseAfterName(None, t).AddressCrash? <==> t == ""
  {
    hide ParseAny, TrimSpace;
    if t != "" {
      AnyNeverCrashes(t[..match IndexOf(t, ';') case Some(i) => i case None => |t|]);
    }
  }

  lemma NamedCrashes(name: string, u: string)
    requires u != "" && u[0] != '<' && TrimSpace(u) == u
    ensures !ParseAfterName(Some(name), u).AddressCrash?
  {
    hide TrimSpace;
  }

  // ---- the first '<' outside quotes

  /** Inside quotes nothing is found up to the closing one. */
  lemma {:induction false} InQuotes(t: string, j: nat)
    requires j <= |t|
    ensures FindFrom(t, j, Some('"'), "<", QUOTES) ==
            match IndexOf(t[j..], '"')
            case None => -1
            case Some(i) => FindFrom(t, j + i + 1, None, "<", QUOTES)
    decreases |t| - j
  {
    hide IndexOf;
    IndexStep(t, j, '"');
    if j < |t| {
      InQuotes(t, j + 1);
    }
  }

  lemma IndexStep(t: string, j: nat, c: char)
    requires j <= |t|
    ensures IndexOf(t[j..], c) ==
            if j == |t| then None else if t[j] == c then Some(0)
            else match IndexOf(t[j + 1..], c) case None => None case Some(i) => Some(i + 1)
  {
    assert j < |t| ==> t[j..][1..] == t[j + 1..];
  }

  lemma QuoteOpens(t: string)
    requires t != "" && t[0] == '"'
    ensures Bracket(t) == FindFrom(t, 1, Some('"'), "<", QUOTES)
  {
  }

  /** Where there is neither a bracket nor a quote, nothing is found. */
  lemma {:induction false} NothingFound(t: string, j: nat, p: nat)
    requires j <= p <= |t| && forall m :: j <= m < p ==> t[m] != '<' && t[m] != '"'
    ensures FindFrom(t, j, None, "<", QUOTES) == FindFrom(t, p, None, "<", QUOTES)
    decreases p - j
  {
    if j < p {
      NothingFound(t, j + 1, p);
    }
  }

  /** A quoted name is closed in front of the bracket. */
  lemma QuotedName(t: string)
    requires Bracket(t) > 0 && t[0] == '"'
    ensures IndexOf(t[1..], '"').Some?
    ensures var i := IndexOf(t[1..], '"').value;
            i + 2 <= Bracket(t) < |t| && FindFrom(t, i + 2, None, "<", QUOTES) == Bracket(t)
  {
    hide IndexOf, FindFrom;
    QuoteOpens(t);
    InQuotes(t, 1);
  }

  /** White space is neither a bracket nor a quote, and does not reach over a bracket. */
  lemma SpaceChars(w: string, v: string)
    requires v != "" && v[0] == '<'
    ensures SpaceFront(w + v) == SpaceFront(w)
    ensures forall m :: 0 <= m < SpaceFront(w) ==> w[m] != '<' && w[m] != '"'
  {
    var s := w + v;
    assert forall m :: 0 <= m < |w| ==> s[m] == w[m];
    assert s[|w|] == '<';
  }

  lemma TrimLeftStep(s: string)
    ensures TrimLeft(s) == if SpaceFront(s) > 0 then TrimLeft(s[SpaceFront(s)..]) else s
  {
  }

  lemma {:induction false} TrimLeftJoin(w: string, v: string)
    requires v != "" && v[0] == '<'
    ensures TrimLeft(w + v) == TrimLeft(w) + v
    decreases |w|
  {
    hide SpaceFront, TrimLeft;
    SpaceChars(w, v);
    TrimLeftStep(w);
    TrimLeftStep(w + v);
    var n := SpaceFront(w);
    if n > 0 {
      assert (w + v)[n..] == w[n..] + v;
      TrimLeftJoin(w[n..], v);
    }
  }

  /** What is trimmed away holds neither a bracket nor a quote. */
  lemma {:induction false} TrimmedAway(w: string)
    ensures forall m :: 0 <= m < |w| - |TrimLeft(w)| ==> w[m] != '<' && w[m] != '"'
    decreases |w|
  {
    hide SpaceFront, TrimLeft;
    SpaceChars(w, "<");
    TrimLeftStep(w);
    var n := SpaceFront(w);
    if n > 0 {
      TrimmedAway(w[n..]);
      assert forall m :: n <= m < |w| ==> w[m] == w[n..][m - n];
    }
  }

  /** Trimming a text that reaches to the end of a trimmed one removes white space at its front only. */
  lemma TrimmedRest(t: string, j: nat, k: nat)
    requires Trimmed(t) && j <= k < |t| && t[k] == '<'
    ensures var u := TrimLeft(t[j..k]) + t[k..]; TrimSpace(t[j..]) == u && TrimSpace(u) == u
  {
    hide SpaceFront, SpaceBack, TrimLeft, TrimRight;
    var (w, v) := (t[j..k], t[k..]);
    assert t[j..] == w + v;
    TrimLeftJoin(w, v);
    var left := TrimLeft(w);
    EndOf(t, j, k, left);
    BackOfJoin(t, left, v, k);
    TrimNone(left + v);
  }

  lemma EndOf(t: string, j: nat, k: nat, left: string)
    requires j <= k <= |t| && |left| <= k - j && left == t[j..k][k - j - |left|..]
    ensures left == t[k - |left|..k]
  {
  }

  /** Where the first bracket is searched, white space is not followed by one before it. */
  lemma FirstIsBracket(t: string, j: nat, k: nat)
    requires j <= k < |t| && FindFrom(t, j, None, "<", QUOTES) == k
    ensures var left := TrimLeft(t[j..k]); left != "" ==> left[0] != '<'
  {
    hide SpaceFront, SpaceBack, TrimLeft, FindFrom;
    FoundIs(t, j, k);
    var w := t[j..k];
    TrimmedAway(w);
    var left := TrimLeft(w);
    if left != "" {
      var p := k - |left|;
      EndOf(t, j, k, left);
      assert left[0] == t[p];
      assert forall m :: j <= m < p ==> t[m] == w[m - j];
      NothingFound(t, j, p);
      NotFoundHere(t, p, k);
    }
  }

  /** What stands behind a quoted name, with the white space in front of it removed. */
  lemma BehindName(t: string, i: nat)
    requires Trimmed(t) && Bracket(t) > 0 && t[0] == '"' && IndexOf(t[1..], '"') == Some(i)
    ensures i + 2 <= Bracket(t) < |t|
    ensures var k := Bracket(t);
            var u := TrimSpace(t[i + 2..]);
            && u != "" && TrimSpace(u) == u
            && (u[0] == '<' <==> TrimLeft(t[i + 2..k]) == "")
            && (TrimLeft(t[i + 2..k]) == "" ==> u == t[k..])
  {
    hide SpaceFront, SpaceBack, TrimLeft, TrimRight, TrimSpace, FindFrom, IndexOf, Trimmed;
    QuotedName(t);
    var k := Bracket(t);
    FoundIs(t, i + 2, k);
    TrimmedRest(t, i + 2, k);
    FirstIsBracket(t, i + 2, k);
    var left := TrimLeft(t[i + 2..k]);
    assert left == "" ==> left + t[k..] == t[k..];
  }

  lemma FoundIs(t: string, j: nat, k: nat)
    requires j <= |t| && FindFrom(t, j, None, "<", QUOTES) == k
    ensures j <= k < |t| && t[k] == '<'
  {
  }

  lemma NotFoundHere(t: string, p: nat, k: nat)
    requires p < k && p < |t| && FindFrom(t, p, None, "<", QUOTES) == k
    ensures t[p] != '<'
  {
  }

  /** The remaining text has no white space at either end. */
  lemma BackOfJoin(t: string, left: string, v: string, k: nat)
    requires SpaceBack(t) == 0 && k < |t| && v == t[k..] && |left| <= k && left == t[k - |left|..k]
    requires SpaceFront(left + v) == 0
    ensures Trimmed(left + v)
  {
    hide SpaceBack;
    BackOfEnd(t, k - |left|);
    assert left + v == t[k - |left|..];
  }

  // ---- the exact conditions

  /** One section panics if and only if it is white space or its bracket, reached by the parser, is never closed. */
  lemma SectionCrashes(section: string)
    ensures ParseAddress(section).AddressCrash? <==> Unclosed(section)
  {
    hide ParseAfterName, TrimSpace, FindFrom, IndexOf, TrimLeft;
    if section != "" {
      var t := TrimSpace(section);
      var k := Bracket(t);
      TrimFacts(section);
      TrimTwice(t);
      if k <= 0 {
        BracketFirst(t);
        if k == 0 {
          assert t[0..] == t;
          BracketCrashes(None, t);
        } else {
          NoBracketCrashes(t);
        }
      } else {
        FoundIs(t, 0, k);
        if t[0] != '"' {
          TrimmedEnd(t, k);
          BracketCrashes(Some(TrimSpace(t[..k])), t[k..]);
        } else {
          QuotedCrashes(t);
        }
      }
    }
  }

  lemma TrimTwice(t: string)
    requires Trimmed(t)
    ensures TrimSpace(t) == t
  {
    TrimNone(t);
  }

  /** A bracket at the front is found there. */
  lemma BracketFirst(t: string)
    requires Bracket(t) <= 0
    ensures Bracket(t) == 0 <==> t != "" && t[0] == '<'
  {
  }

  lemma QuotedCrashes(t: string)
    requires Trimmed(t) && Bracket(t) > 0 && t[0] == '"'
    ensures IndexOf(t[1..], '"').Some? && Bracket(t) < |t|
    ensures var i := IndexOf(t[1..], '"').value;
            ParseAfterName(Some(t[1..i + 1]), t[i + 2..]).AddressCrash?
            <==> '>' !in t[Bracket(t)..] && NameReaches(t, Bracket(t))
  {
    hide FindFrom, IndexOf, TrimLeft, TrimSpace, Trimmed, ParseAfterName;
    QuotedName(t);
    var i := IndexOf(t[1..], '"').value;
    BehindName(t, i);
    NamedTextCrashes(t[1..i + 1], t[i + 2..]);
  }

  /** What follows a name panics if and only if a bracket comes first and is never closed. */
  lemma NamedTextCrashes(name: string, text: string)
    requires TrimSpace(text) != "" && TrimSpace(TrimSpace(text)) == TrimSpace(text)
    ensures ParseAfterName(Some(name), text).AddressCrash? <==> TrimSpace(text)[0] == '<' && '>' !in TrimSpace(text)
  {
    hide TrimSpace, ParseAfterName;
    var u := TrimSpace(text);
    SameBehindTrim(Some(name), text);
    if u[0] == '<' {
      BracketCrashes(Some(name), u);
    } else {
      NamedCrashes(name, u);
    }
  }

  lemma SameBehindTrim(name: Option<string>, text: string)
    requires TrimSpace(TrimSpace(text)) == TrimSpace(text)
    ensures ParseAfterName(name, text) == ParseAfterName(name, TrimSpace(text))
  {
    hide TrimSpace, ParseUriAndParams, IndexOf;
  }

  /**
   * A list of addresses panics if and only if one of its sections is white space only or leaves its bracket open, and
   * all sections in front of it parse.
   */
  lemma ListCrashesExactly(addresses: string)
    ensures ParseAddresses(addresses).ListCrash? <==>
            var sections := SectionsOf(addresses);
            exists k :: 0 <= k < |sections| && Unclosed(sections[k]) &&
                        forall j :: 0 <= j < k ==> ParseAddress(sections[j]).One?
  {
    hide Sections, Scan, ParseAddress, Unclosed, ParseAll;
    ScanParses(addresses + ",", 0, 0, false, false);
    var sections := SectionsOf(addresses);
    AllCrash(sections);
    forall k | 0 <= k < |sections| ensures ParseAddress(sections[k]).AddressCrash? <==> Unclosed(sections[k]) {
      SectionCrashes(sections[k]);
    }
  }
}
