/** What white space and the case of a scheme change in texts that are no printed forms: exactly where they matter. */
module Blanks {
  import opened Wrappers
  import opened Text
  import opened Params
  import opened ParamsRoundTrip
  import opened SipUris
  import opened Vias

  // ---- parameters

  /** The text with one character put in at `p`. */
  function With(src: string, p: nat, c: char): string
    requires p <= |src|
  {
    src[..p] + [c] + src[p..]
  }

  /** The local variables with which the loop reaches `p`, if it does. */
  function Reaches(src: string, i: nat, l: Local, cfg: Config, p: nat): Option<Local>
    requires i <= p <= |src|
    decreases p - i
  {
    if i == p then Some(l)
    else
      match TurnAt(src, i, l, cfg)
      case Go(l1) => Reaches(src, i + 1, l1, cfg, p)
      case _ => None
  }

  /** The same result, which has consumed one character more if it has come to `p`. */
  function Shifted(r: Result, p: nat): Result {
    match r
    case Failed(_) => r
    case Parsed(params, n) => Parsed(params, if n >= p then n + 1 else n)
  }

  lemma WithAt(src: string, p: nat, c: char)
    requires p <= |src|
    ensures var t := With(src, p, c);
            && |t| == |src| + 1 && t[p] == c
            && (forall k :: 0 <= k < p ==> t[k] == src[k]) && forall k :: p <= k < |src| ==> t[k + 1] == src[k]
  {
  }

  lemma {:induction false} LoopBehind(src: string, i: nat, l: Local, cfg: Config, p: nat, c: char)
    requires p <= i <= |src|
    ensures Loop(With(src, p, c), i + 1, l, cfg) == Shifted(Loop(src, i, l, cfg), p)
    decreases |src| - i
  {
    hide With, TurnAt;
    WithAt(src, p, c);
    if i < |src| {
      var t := With(src, p, c);
      SameTurn(src, i, t, i + 1, l, cfg);
      match TurnAt(src, i, l, cfg) {
        case Go(l1) => LoopBehind(src, i + 1, l1, cfg, p, c);
        case _ =>
      }
    }
  }

  /** A turn depends on its character, and at a quote on the character behind it. */
  lemma SameTurn(a: string, i: nat, b: string, j: nat, l: Local, cfg: Config)
    requires i < |a| && j < |b| && a[i] == b[j]
    requires a[i] == '"' ==> (i == |a| - 1 <==> j == |b| - 1) && (i < |a| - 1 ==> a[i + 1] == b[j + 1])
    ensures TurnAt(a, i, l, cfg) == TurnAt(b, j, l, cfg)
  {
  }

  lemma {:induction false} LoopWith(src: string, i: nat, l: Local, cfg: Config, p: nat, w: char)
    requires i <= p <= |src| && Usual(cfg) && IsWs(w) && (i < p ==> src[p - 1] != '"')
    requires Reaches(src, i, l, cfg, p).Some? ==> !Reaches(src, i, l, cfg, p).value.inQuotes
    ensures Loop(With(src, p, w), i, l, cfg) == Shifted(Loop(src, i, l, cfg), p)
    decreases p - i
  {
    hide With, TurnAt;
    WithAt(src, p, w);
    var t := With(src, p, w);
    if i < p {
      SameTurn(src, i, t, i, l, cfg);
      match TurnAt(src, i, l, cfg) {
        case Go(l1) => LoopWith(src, i + 1, l1, cfg, p, w);
        case _ =>
      }
    } else {
      BlankTurn(t, p, l, cfg);
      LoopBehind(src, p, l, cfg, p, w);
    }
  }

  /** White space outside quotes is skipped. */
  lemma BlankTurn(t: string, p: nat, l: Local, cfg: Config)
    requires p < |t| && Usual(cfg) && IsWs(t[p]) && !l.inQuotes
    ensures TurnAt(t, p, l, cfg) == Go(l)
  {
  }

  /** Behind a closing quote it is an error. */
  lemma {:induction false} QuoteWith(src: string, i: nat, l: Local, cfg: Config, p: nat, w: char)
    requires i < p <= |src| && Usual(cfg) && IsWs(w) && src[p - 1] == '"'
    requires Reaches(src, i, l, cfg, p).Some? && !Reaches(src, i, l, cfg, p).value.inQuotes
    ensures Loop(With(src, p, w), i, l, cfg).Failed?
    decreases p - i
  {
    hide With, TurnAt;
    WithAt(src, p, w);
    var t := With(src, p, w);
    if i < p - 1 {
      SameTurn(src, i, t, i, l, cfg);
      QuoteWith(src, i + 1, TurnAt(src, i, l, cfg).l, cfg, p, w);
    } else {
      ReachesNext(src, i, l, cfg);
      ClosingFails(src, t, i, l, cfg);
    }
  }

  lemma ReachesNext(src: string, i: nat, l: Local, cfg: Config)
    requires i < |src| && Reaches(src, i, l, cfg, i + 1).Some?
    ensures TurnAt(src, i, l, cfg) == Go(Reaches(src, i, l, cfg, i + 1).value)
  {
    hide TurnAt;
  }

  lemma ClosingFails(src: string, t: string, i: nat, l: Local, cfg: Config)
    requires Usual(cfg) && i < |src| && i + 1 < |t| && src[i] == t[i] == '"' && IsWs(t[i + 1])
    requires TurnAt(src, i, l, cfg).Go? && !TurnAt(src, i, l, cfg).l.inQuotes
    ensures TurnAt(t, i, l, cfg) == Fail
  {
  }

  /** The loop never stops at a quote, and what it fails on there it fails on with white space behind it. */
  lemma {:induction false} QuoteEnds(src: string, i: nat, l: Local, cfg: Config, p: nat, w: char)
    requires i <= p <= |src| && Usual(cfg) && IsWs(w) && Reaches(src, i, l, cfg, p).None?
    ensures Loop(With(src, p, w), i, l, cfg) == Shifted(Loop(src, i, l, cfg), p)
    decreases p - i
  {
    hide With, TurnAt;
    WithAt(src, p, w);
    var t := With(src, p, w);
    if TurnAt(src, i, l, cfg).Go? {
      SameTurn(src, i, t, i, l, cfg);
      QuoteEnds(src, i + 1, TurnAt(src, i, l, cfg).l, cfg, p, w);
    } else if i + 1 == p && src[i] == '"' {
      FailsStill(src, t, i, l, cfg);
    } else {
      SameTurn(src, i, t, i, l, cfg);
    }
  }

  lemma FailsStill(src: string, t: string, i: nat, l: Local, cfg: Config)
    requires Usual(cfg) && i < |src| && i + 1 < |t| && src[i] == t[i] == '"' && IsWs(t[i + 1])
    requires !TurnAt(src, i, l, cfg).Go?
    ensures TurnAt(src, i, l, cfg) == Fail && TurnAt(t, i, l, cfg) == Fail
  {
  }

  /**
   * A blank or tab put into a text of parameters outside quotes changes nothing that is read, except directly behind
   * a closing quote, where it is an error.
   */
  lemma BlankInserted(src: string, cfg: Config, p: nat, w: char)
    requires Usual(cfg) && cfg.start != NUL && cfg.start != '"' && IsWs(w) && 1 <= p <= |src| && src[0] == cfg.start
    requires Reaches(src, 1, START, cfg, p).Some? ==> !Reaches(src, 1, START, cfg, p).value.inQuotes
    ensures var quoted := Reaches(src, 1, START, cfg, p).Some? && src[p - 1] == '"';
            && (quoted ==> Parse(With(src, p, w), cfg).Failed?)
            && (!quoted ==> Parse(With(src, p, w), cfg) == Shifted(Parse(src, cfg), p))
  {
    hide With, Loop, Reaches;
    WithAt(src, p, w);
    if Reaches(src, 1, START, cfg, p).None? {
      QuoteEnds(src, 1, START, cfg, p, w);
    } else if src[p - 1] == '"' {
      QuoteWith(src, 1, START, cfg, p, w);
    } else {
      LoopWith(src, 1, START, cfg, p, w);
    }
  }

  // ---- Via

  predicate AllWs(s: string) {
    forall i :: 0 <= i < |s| ==> IsWs(s[i])
  }

  lemma {:induction false} LeadingMore(w: string, rest: string)
    requires AllWs(w)
    ensures LeadingWs(w + rest) == |w| + LeadingWs(rest)
    decreases |w|
  {
    if w == "" {
      assert w + rest == rest;
    } else {
      assert (w + rest)[1..] == w[1..] + rest;
      LeadingMore(w[1..], rest);
    }
  }

  lemma LeadingIsWs(s: string)
    ensures AllWs(s[..LeadingWs(s)])
    ensures LeadingWs(s) < |s| ==> !IsWs(s[LeadingWs(s)])
  {
    if s != "" && IsWs(s[0]) {
      LeadingIsWs(s[1..]);
      assert forall i :: 1 <= i < LeadingWs(s) ==> s[..LeadingWs(s)][i] == s[1..][..LeadingWs(s[1..])][i - 1];
    }
  }

  lemma {:induction false} TrimLeadingWs(w: string, s: string)
    requires AllWs(w)
    ensures TrimSpace(w + s) == TrimSpace(s)
    decreases |w|
  {
    hide TrimRight;
    if w == "" {
      assert w + s == s;
    } else {
      assert (w + s)[1..] == w[1..] + s;
      TrimLeadingWs(w[1..], s);
    }
  }

  lemma TrimAllWs(w: string)
    requires AllWs(w)
    ensures TrimSpace(w) == ""
  {
    TrimLeadingWs(w, "");
    assert w + "" == w;
  }

  /** What the code reads of the third part: the transport, if there is one, and what follows it. */
  function TransportOf(third: string): Option<(string, string)> {
    var spaces := LeadingWs(third);
    var end := IndexOfWs(third[spaces..]);
    if end == -1 then None else Some((TrimSpace(third[spaces..spaces + end]), third[spaces + end + 1..]))
  }

  /** A section, in terms of the transport behind its leading white space. */
  lemma SectionReads(section: string)
    ensures var parts := Split(section, '/');
            ParseSection(section) ==
            if |parts| < 3 then NoHop
            else
              match TransportOf(Join(parts[2..], "/"))
              case None => NoHop
              case Some((transport, body)) =>
                if TrimSpace(parts[0]) == "" || TrimSpace(parts[1]) == "" || transport == "" then NoHop
                else ParseSentBy(TrimSpace(parts[0]), TrimSpace(parts[1]), transport, body)
  {
    hide Split, Join, TrimSpace, LeadingWs, IndexOfWs, ParseSentBy;
    var parts := Split(section, '/');
    if |parts| >= 3 {
      var third := Join(parts[2..], "/");
      LeadingIsWs(third);
      var spaces := LeadingWs(third);
      var end := IndexOfWs(third[spaces..]);
      var w := third[..spaces];
      if end == -1 {
        if spaces > 0 {
          assert third[..spaces - 1] == w[..spaces - 1];
          TrimAllWs(third[..spaces - 1]);
        }
      } else {
        assert third[spaces..][end] == third[spaces + end];
        assert third[..spaces + end] == w + third[spaces..spaces + end];
        TrimLeadingWs(w, third[spaces..spaces + end]);
      }
    }
  }

  lemma TransportBlank(w: string, rest: string)
    requires AllWs(w)
    ensures TransportOf(w + rest) == TransportOf(rest)
  {
    hide TrimSpace, LeadingWs, IndexOfWs;
    LeadingMore(w, rest);
    var (s, n) := (w + rest, LeadingWs(rest));
    assert s[|w| + n..] == rest[n..];
    var end := IndexOfWs(rest[n..]);
    if end >= 0 {
      assert s[|w| + n..|w| + n + end] == rest[n..n + end];
      assert s[|w| + n + end + 1..] == rest[n + end + 1..];
    }
  }

  /** White space in front of the protocol's name, version and transport changes nothing that is read of a hop. */
  lemma ViaBlanks(w1: string, name: string, w2: string, version: string, w3: string, rest: string)
    requires AllWs(w1) && AllWs(w2) && AllWs(w3) && '/' !in name && '/' !in version
    ensures ParseSection(w1 + name + "/" + (w2 + version + "/" + (w3 + rest))) ==
            ParseSection(name + "/" + (version + "/" + rest))
  {
    hide Split, Join, TrimSpace, ParseSentBy, ParseSection, TransportOf;
    NoSlash(w1, name);
    NoSlash(w2, version);
    SplitThree(w1 + name, w2 + version, w3 + rest);
    SplitThree(name, version, rest);
    SectionReads(w1 + name + "/" + (w2 + version + "/" + (w3 + rest)));
    SectionReads(name + "/" + (version + "/" + rest));
    TrimLeadingWs(w1, name);
    TrimLeadingWs(w2, version);
    TransportBlank(w3, rest);
  }

  lemma NoSlash(w: string, name: string)
    requires AllWs(w) && '/' !in name
    ensures '/' !in w + name
  {
  }

  // ---- the scheme of a URI

  lemma LowerSchemes(scheme: string)
    requires ToLower(scheme) == "sip" || ToLower(scheme) == "sips"
    ensures |scheme| == |ToLower(scheme)| && ':' !in scheme && (scheme[0] == 's' || scheme[0] == 'S')
    ensures ToLower(scheme[..3]) == "sip" && (|scheme| == 4 ==> LowerChar(scheme[3]) == 's')
  {
    var t := ToLower(scheme);
    assert forall k :: 0 <= k < |scheme| ==> LowerChar(scheme[k]) == t[k];
    assert forall k :: 0 <= k < 3 ==> ToLower(scheme[..3])[k] == t[k];
    assert t[..3] == "sip";
    assert ToLower(scheme[..3]) == t[..3];
  }

  lemma StarTrims(s: string)
    requires s != "" && (s[0] == 's' || s[0] == 'S')
    ensures TrimSpace(s) != "*"
  {
    hide TrimLeft, TrimRight, SpaceFront;
    LetterFront(s);
    NothingToTrim(s);
    assert TrimRight(s) == s[..|TrimRight(s)|];
  }

  lemma LetterFront(s: string)
    requires s != "" && (s[0] == 's' || s[0] == 'S')
    ensures SpaceFront(s) == 0
  {
    hide TrimLeft, TrimRight;
  }

  lemma NothingToTrim(s: string)
    requires SpaceFront(s) == 0
    ensures TrimLeft(s) == s
  {
    hide SpaceFront;
  }

  /** A URI is read exactly behind a scheme that is "sip" or "sips" in any mix of cases, and then only by what follows. */
  lemma SchemeExactly(scheme: string, rest: string)
    requires ':' !in scheme
    ensures var lower := ToLower(scheme);
            && (lower == "sip" || lower == "sips" ==> ParseAny(scheme + ":" + rest) == ParseBody(lower == "sips", rest))
            && (lower != "sip" && lower != "sips" ==> !ParseAny(scheme + ":" + rest).Uri?)
  {
    hide ToLower, TrimSpace, ParseBody, IndexOf;
    var s := scheme + ":" + rest;
    IndexAfter(scheme, ':', rest);
    assert s[..|scheme|] == scheme;
    if ToLower(scheme) == "sip" || ToLower(scheme) == "sips" {
      LowerSchemes(scheme);
      StarTrims(s);
      assert s[..3] == scheme[..3];
      assert s[|scheme|] == ':' && s[|scheme| + 1..] == rest;
      ColonIsLower();
    }
  }

  lemma ColonIsLower()
    ensures LowerChar(':') == ':'
  {
  }
}
