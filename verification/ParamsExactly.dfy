/** The legal parameters are exactly those that survive printing and parsing. */
module ParamsExactly {
  import opened Wrappers
  import opened Text
  import opened Params
  import opened ParamsRoundTrip

  // ---- between two quotes of a printed text

  predicate Mark(c: char) {
    IsWs(c) || c == '='
  }

  predicate HasMark(s: string, i: int, j: int) {
    exists k :: 0 <= i < k < j <= |s| && Mark(s[k])
  }

  /** Between any two quotes stands a blank, a tab or a '='. */
  predicate Gapped(s: string) {
    forall i, j :: 0 <= i < j < |s| && s[i] == '"' && s[j] == '"' ==> HasMark(s, i, j)
  }

  /** Such a character stands in front of every quote. */
  predicate Led(s: string) {
    forall j :: 0 <= j < |s| && s[j] == '"' ==> exists k :: 0 <= k < j && Mark(s[k])
  }

  lemma GapsJoin(a: string, b: string)
    requires Gapped(a) && Gapped(b) && Led(b)
    ensures Gapped(a + b)
    ensures Led(a) ==> Led(a + b)
  {
    var s := a + b;
    forall i, j | 0 <= i < j < |s| && s[i] == '"' && s[j] == '"' ensures HasMark(s, i, j) {
      if j < |a| {
        var k :| 0 <= i < k < j && Mark(a[k]);
        assert Mark(s[k]);
      } else if i >= |a| {
        assert HasMark(b, i - |a|, j - |a|);
        var k :| i - |a| < k < j - |a| && Mark(b[k]);
        assert Mark(s[|a| + k]);
      } else {
        var k :| 0 <= k < j - |a| && Mark(b[k]);
        assert Mark(s[|a| + k]);
      }
    }
    if Led(a) {
      forall j | 0 <= j < |s| && s[j] == '"' ensures exists k :: 0 <= k < j && Mark(s[k]) {
        if j < |a| {
          var k :| 0 <= k < j && Mark(a[k]);
          assert Mark(s[k]);
        } else {
          var k :| 0 <= k < j - |a| && Mark(b[k]);
          assert Mark(s[|a| + k]);
        }
      }
    }
  }

  lemma NoQuotes(s: string)
    requires '"' !in s
    ensures Gapped(s) && Led(s)
  {
  }

  lemma ItemGaps(key: string, val: Option<string>, cfg: Config)
    requires CleanItem(key, val, cfg)
    ensures Gapped(Item(key, val)) && Led(Item(key, val))
  {
    assert '"' !in key;
    if IsQuoted(val) {
      var v := val.value;
      var s := Item(key, val);
      assert s == key + "=\"" + v + "\"";
      QuotePlaces(key, v, s);
      assert Mark(s[|key|]);
      var k :| 0 <= k < |v| && IsWs(v[k]);
      assert Mark(s[|key| + 2 + k]);
    } else {
      NoQuotes(Item(key, val));
    }
  }

  lemma QuotePlaces(key: string, v: string, s: string)
    requires '"' !in key && '"' !in v && s == key + "=\"" + v + "\""
    ensures s[|key|] == '=' && forall k :: 0 <= k < |v| ==> s[|key| + 2 + k] == v[k]
    ensures forall j :: 0 <= j < |s| && s[j] == '"' ==> j == |key| + 1 || j == |key| + 2 + |v|
  {
    assert forall k :: 0 <= k < |key| ==> s[k] == key[k] && key[k] in key;
    assert forall k :: 0 <= k < |v| ==> s[|key| + 2 + k] == v[k] && v[k] in v;
    assert forall j :: |key| + 2 <= j < |key| + 2 + |v| ==> s[j] == v[j - |key| - 2];
  }

  lemma {:induction false} RenderGaps(p: Params, sep: char, i: nat, cfg: Config)
    requires CleanParams(p, cfg) && i <= |p.keys| && sep != '"'
    ensures Gapped(RenderFrom(p, sep, i)) && Led(RenderFrom(p, sep, i))
    decreases |p.keys| - i
  {
    hide Gapped, Led, CleanItem, Item;
    if i == |p.keys| {
      NoQuotes("");
    } else {
      var (lead, item) := (if i == 0 then "" else [sep], ItemAt(p, i));
      NoQuotes(lead);
      ItemGaps(p.keys[i], p.vals[p.keys[i]], cfg);
      GapsJoin(lead, item);
      RenderGaps(p, sep, i + 1, cfg);
      GapsJoin(lead + item, RenderFrom(p, sep, i + 1));
    }
  }

  // ---- no stored value needs quotes that it did not have

  /** A value that is printed without quotes although it holds a delimiter. */
  predicate Exposed(v: string, cfg: Config) {
    !HasWs(v) && (cfg.sep in v || cfg.end in v)
  }

  ghost predicate NoneExposed(p: Params, cfg: Config) {
    forall k :: k in p.vals && p.vals[k].Some? ==> !Exposed(p.vals[k].value, cfg)
  }

  predicate OpenedAt(src: string, o: nat, i: nat, buffer: string) {
    o < i <= |src| && src[o] == '"' && buffer == src[o + 1..i]
  }

  /** Outside quotes the value has no delimiter yet, or it is a quoted one and ends here. */
  predicate Guarded(src: string, i: nat, buffer: string, cfg: Config) {
    || (cfg.sep !in buffer && cfg.end !in buffer)
    || (HasWs(buffer) && (i >= |src| || src[i] == cfg.sep))
  }

  ghost predicate ValueInv(src: string, i: nat, l: Local, cfg: Config) {
    && NoneExposed(l.params, cfg)
    && (l.inQuotes ==> !l.parsingKey && exists o :: OpenedAt(src, o, i, l.buffer))
    && (!l.inQuotes && !l.parsingKey ==> Guarded(src, i, l.buffer, cfg))
  }

  lemma MarkInside(src: string, o: nat, i: nat, buffer: string)
    requires Gapped(src) && OpenedAt(src, o, i, buffer) && i < |src| && src[i] == '"' && CleanText(buffer)
    ensures HasWs(buffer)
  {
    assert HasMark(src, o, i);
    var k :| o < k < i && Mark(src[k]);
    assert buffer[k - o - 1] == src[k];
  }

  lemma Longer(src: string, o: nat, i: nat, buffer: string)
    requires OpenedAt(src, o, i, buffer) && i < |src|
    ensures OpenedAt(src, o, i + 1, buffer + [src[i]])
  {
  }

  lemma StoreKeeps(src: string, i: nat, l: Local, cfg: Config)
    requires ValueInv(src, i, l, cfg) && !l.inQuotes
    requires l.parsingKey || (cfg.sep !in l.buffer && cfg.end !in l.buffer) || HasWs(l.buffer)
    ensures NoneExposed(l.params.Add(l.buffer, None), cfg)
    ensures !l.parsingKey ==> NoneExposed(l.params.Add(l.key, Some(l.buffer)), cfg)
  {
  }

  lemma TurnGuards(src: string, i: nat, l: Local, cfg: Config)
    requires Usual(cfg) && Ascii(src) && Gapped(src) && i < |src|
    requires LoopInv(src, i, l, cfg) && ValueInv(src, i, l, cfg) && TurnAt(src, i, l, cfg).Go?
    ensures ValueInv(src, i + 1, TurnAt(src, i, l, cfg).l, cfg)
  {
    hide CleanParams, Quotes, NoneExposed, Gapped, HasWs, CleanText;
    var c := src[i];
    if l.inQuotes {
      var o :| OpenedAt(src, o, i, l.buffer);
      if c == '"' {
        MarkInside(src, o, i, l.buffer);
      } else {
        Longer(src, o, i, l.buffer);
      }
    } else if c == cfg.sep {
      StoreKeeps(src, i, l, cfg);
    } else if c == '"' {
      assert OpenedAt(src, i, i + 1, "");
    }
  }

  lemma {:induction false} LoopGuards(src: string, i: nat, l: Local, cfg: Config)
    requires Usual(cfg) && cfg.sep < 128 as char && cfg.end < 128 as char && Ascii(src) && Gapped(src)
    requires i <= |src| && LoopInv(src, i, l, cfg) && ValueInv(src, i, l, cfg)
    ensures NoneExposed(Loop(src, i, l, cfg).params, cfg)
    decreases |src| - i
  {
    hide CleanParams, Quotes, TurnAt, NoneExposed, LoopInv, Gapped, Guarded, HasWs;
    if i < |src| && TurnAt(src, i, l, cfg).Go? {
      TurnKeeps(src, i, l, cfg);
      TurnGuards(src, i, l, cfg);
      LoopGuards(src, i + 1, TurnAt(src, i, l, cfg).l, cfg);
    } else if i == |src| || TurnAt(src, i, l, cfg).Stop? {
      EndGuards(src, i, l, cfg);
    }
  }

  lemma EndGuards(src: string, i: nat, l: Local, cfg: Config)
    requires i <= |src| && ValueInv(src, i, l, cfg)
    ensures NoneExposed(Finish(i, l, cfg).params, cfg)
  {
    if !l.inQuotes {
      StoreKeeps(src, i, l, cfg);
    }
  }

  // ---- exactness

  ghost predicate AsciiParams(p: Params)
    requires p.Valid()
  {
    forall k :: k in p.keys ==> Ascii(k) && (p.vals[k].Some? ==> Ascii(p.vals[k].value))
  }

  predicate Delimiters(cfg: Config) {
    && Usual(cfg) && cfg.sep < 128 as char && cfg.end < 128 as char && cfg.start < 128 as char
    && cfg.start != '"' && cfg.start != NUL
  }

  /** Whatever is returned for a text with gaps between its quotes is legal or empty, even after an error. */
  lemma ParsedIsLegal(src: string, cfg: Config)
    requires Delimiters(cfg) && src != "" && Ascii(src) && Gapped(src)
    requires Parse(src, cfg).params.Valid() && AsciiParams(Parse(src, cfg).params)
    ensures Parse(src, cfg).params.keys == [] || Legal(Parse(src, cfg).params, cfg)
    ensures Parse(src, cfg).Parsed? ==> Parse(src, cfg).params.keys != []
  {
    hide Gapped, Loop, Ascii;
    ParseSound(src, cfg);
    var p := Parse(src, cfg).params;
    assert Quotes(src[..0]) == 0;
    QuotesSnoc(src, 0);
    if src[0] == cfg.start {
      LoopGuards(src, 1, START, cfg);
    }
    forall k | k in p.keys ensures LegalItem(k, p.vals[k], cfg) {
      assert k in p.vals;
      ItemLegal(k, p.vals[k], cfg);
    }
  }

  lemma ItemLegal(key: string, val: Option<string>, cfg: Config)
    requires CleanItem(key, val, cfg) && Ascii(key)
    requires val.Some? ==> Ascii(val.value) && !Exposed(val.value, cfg)
    ensures LegalItem(key, val, cfg)
  {
  }

  lemma AsciiJoin(a: string, b: string)
    requires Ascii(a) && Ascii(b)
    ensures Ascii(a + b)
  {
  }

  lemma {:induction false} RenderAscii(p: Params, sep: char, i: nat)
    requires p.Valid() && AsciiParams(p) && i <= |p.keys| && sep < 128 as char
    ensures Ascii(RenderFrom(p, sep, i))
    decreases |p.keys| - i
  {
    hide Ascii;
    if i == |p.keys| {
      assert Ascii("") by { EmptyAscii(); }
    } else {
      RenderAscii(p, sep, i + 1);
      ItemAscii(p.keys[i], p.vals[p.keys[i]]);
      var lead := if i == 0 then "" else [sep];
      LeadAscii(lead, sep);
      AsciiJoin(lead, ItemAt(p, i));
      AsciiJoin(lead + ItemAt(p, i), RenderFrom(p, sep, i + 1));
    }
  }

  lemma EmptyAscii()
    ensures Ascii("")
  {
  }

  lemma LeadAscii(lead: string, sep: char)
    requires lead == "" || (lead == [sep] && sep < 128 as char)
    ensures Ascii(lead)
  {
  }

  lemma ItemAscii(key: string, val: Option<string>)
    requires Ascii(key) && (val.Some? ==> Ascii(val.value))
    ensures Ascii(Item(key, val))
  {
  }

  /** Printed ASCII parameters parse back to themselves, to the last character, if and only if they are legal. */
  lemma RoundTripExactly(p: Params, cfg: Config)
    requires Delimiters(cfg) && p.Valid() && AsciiParams(p)
    ensures Parse([cfg.start] + Render(p, cfg.sep), cfg) == Parsed(p, 1 + |Render(p, cfg.sep)|) <==> Legal(p, cfg)
  {
    hide Parse, LegalItem, CleanItem, Gapped, Led, Ascii, AsciiParams, RenderFrom;
    var src := [cfg.start] + Render(p, cfg.sep);
    if Legal(p, cfg) {
      ParseRender(p, "", cfg);
      assert src + "" == src;
    } else if Parse(src, cfg) == Parsed(p, |src|) {
      ParseSound(src, cfg);
      RenderGaps(p, cfg.sep, 0, cfg);
      NoQuotes([cfg.start]);
      GapsJoin([cfg.start], Render(p, cfg.sep));
      RenderAscii(p, cfg.sep, 0);
      LeadAscii([cfg.start], cfg.start);
      AsciiJoin([cfg.start], Render(p, cfg.sep));
      ParsedIsLegal(src, cfg);
      assert false;
    }
  }
}
