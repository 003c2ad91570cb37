/** Parsing undoes printing on the legal parameters, and what any successful parse returns. */
module ParamsRoundTrip {
  import opened Wrappers
  import opened Text
  import opened Params

  /** The delimiters that the callers of ParseParams use. */
  predicate Usual(cfg: Config) {
    && cfg.quoteValues && cfg.sep != cfg.end && !IsWs(cfg.sep) && !IsWs(cfg.end)
    && cfg.sep != '"' && cfg.sep != '=' && cfg.end != '"' && cfg.end != '='
  }

  /** A character that the loop stores outside quotes as it is. */
  predicate Plain(c: char, cfg: Config) {
    c != cfg.end && c != cfg.sep && c != '"' && c != '=' && !IsWs(c) && c < 128 as char
  }

  /** A character that the loop stores inside quotes as it is. */
  predicate Quotable(c: char) {
    c != '"' && c != '=' && c < 128 as char
  }

  predicate AllPlain(s: string, cfg: Config) {
    forall i :: 0 <= i < |s| ==> Plain(s[i], cfg)
  }

  predicate AllQuotable(s: string) {
    forall i :: 0 <= i < |s| ==> Quotable(s[i])
  }

  predicate IsQuoted(val: Option<string>) {
    val.Some? && HasWs(val.value)
  }

  predicate LegalItem(key: string, val: Option<string>, cfg: Config) {
    && AllPlain(key, cfg)
    && (match val
        case None => cfg.permitSingletons
        case Some(v) => key != "" && AllQuotable(v) && (HasWs(v) || AllPlain(v, cfg)))
  }

  ghost predicate Legal(p: Params, cfg: Config) {
    && p.Valid() && p.keys != []
    && forall k :: k in p.keys ==> LegalItem(k, p.vals[k], cfg)
  }

  // ---- runs of the loop over pieces of text

  /** `text` stands in `src` at `i`. */
  predicate At(src: string, i: nat, text: string) {
    i + |text| <= |src| && src[i..i + |text|] == text
  }

  lemma AtTail(src: string, i: nat, text: string)
    requires At(src, i, text) && text != ""
    ensures src[i] == text[0] && At(src, i + 1, text[1..])
  {
    assert src[i] == src[i..i + |text|][0];
    assert src[i + 1..i + |text|] == src[i..i + |text|][1..];
  }

  lemma AtParts(src: string, i: nat, a: string, b: string)
    requires At(src, i, a + b)
    ensures At(src, i, a) && At(src, i + |a|, b)
  {
    assert src[i..i + |a|] == src[i..i + |a + b|][..|a|];
    assert src[i + |a|..i + |a + b|] == src[i..i + |a + b|][|a|..];
  }

  function Stored(l: Local, text: string): Local {
    l.(buffer := l.buffer + text)
  }

  lemma StoredTwice(l: Local, text: string)
    requires text != ""
    ensures Stored(Stored(l, [text[0]]), text[1..]) == Stored(l, text) && Stored(l, "") == l
  {
    assert [text[0]] + text[1..] == text;
  }

  lemma PlainTurn(src: string, i: nat, l: Local, cfg: Config)
    requires i < |src| && !l.inQuotes && Plain(src[i], cfg)
    ensures Loop(src, i, l, cfg) == Loop(src, i + 1, Stored(l, [src[i]]), cfg)
  {
  }

  lemma {:induction false} RunPlain(src: string, i: nat, text: string, l: Local, cfg: Config)
    requires At(src, i, text) && !l.inQuotes && AllPlain(text, cfg)
    ensures Loop(src, i, l, cfg) == Loop(src, i + |text|, Stored(l, text), cfg)
    decreases |text|
  {
    hide At, Loop, Plain;
    if text == "" {
      assert Stored(l, text) == l;
    } else {
      AtTail(src, i, text);
      PlainTurn(src, i, l, cfg);
      RunPlain(src, i + 1, text[1..], Stored(l, [text[0]]), cfg);
      StoredTwice(l, text);
    }
  }

  lemma QuotedTurn(src: string, i: nat, l: Local, cfg: Config)
    requires i < |src| && l.inQuotes && Quotable(src[i])
    ensures Loop(src, i, l, cfg) == Loop(src, i + 1, Stored(l, [src[i]]), cfg)
  {
  }

  lemma {:induction false} RunQuoted(src: string, i: nat, text: string, l: Local, cfg: Config)
    requires At(src, i, text) && l.inQuotes && AllQuotable(text)
    ensures Loop(src, i, l, cfg) == Loop(src, i + |text|, Stored(l, text), cfg)
    decreases |text|
  {
    hide At, Loop, Quotable;
    if text == "" {
      assert Stored(l, text) == l;
    } else {
      AtTail(src, i, text);
      QuotedTurn(src, i, l, cfg);
      RunQuoted(src, i + 1, text[1..], Stored(l, [text[0]]), cfg);
      StoredTwice(l, text);
    }
  }

  /** The loop's variables after it has read one parameter. */
  function AfterItem(params: Params, key0: string, key: string, val: Option<string>): Local {
    match val
    case None => Local(params, key, key0, true, false)
    case Some(v) => Local(params, v, key, false, false)
  }

  /** A value in quotes; a separator or the end of the text must follow. */
  lemma RunQuotedValue(src: string, i: nat, params: Params, key: string, v: string, cfg: Config)
    requires Usual(cfg) && AllQuotable(v) && At(src, i, "\"" + (v + "\""))
    requires i + |v| + 2 == |src| || src[i + |v| + 2] == cfg.sep
    ensures Loop(src, i, Local(params, "", key, false, false), cfg)
         == Loop(src, i + |v| + 2, Local(params, v, key, false, false), cfg)
  {
    hide AllPlain, AllQuotable, Encoded, Loop, At;
    var (l1, l2) := (Local(params, "", key, false, true), Local(params, v, key, false, true));
    AtTail(src, i, "\"" + (v + "\""));
    assert ("\"" + (v + "\""))[1..] == v + "\"";
    AtParts(src, i + 1, v, "\"");
    RunQuoted(src, i + 1, v, l1, cfg);
    assert Stored(l1, v) == l2;
    AtTail(src, i + 1 + |v|, "\"");
    OpeningQuote(src, i, params, key, cfg);
    ClosingQuote(src, i + 1 + |v|, l2, cfg);
  }

  lemma OpeningQuote(src: string, i: nat, params: Params, key: string, cfg: Config)
    requires Usual(cfg) && i < |src| && src[i] == '"'
    ensures Loop(src, i, Local(params, "", key, false, false), cfg)
         == Loop(src, i + 1, Local(params, "", key, false, true), cfg)
  {
  }

  lemma ClosingQuote(src: string, i: nat, l: Local, cfg: Config)
    requires Usual(cfg) && i < |src| && src[i] == '"' && l.inQuotes && !l.parsingKey
    requires i + 1 == |src| || src[i + 1] == cfg.sep
    ensures Loop(src, i, l, cfg) == Loop(src, i + 1, l.(inQuotes := false), cfg)
  {
  }

  lemma RunItem(src: string, i: nat, params: Params, key0: string, key: string, val: Option<string>, cfg: Config)
    requires Usual(cfg) && LegalItem(key, val, cfg) && At(src, i, Item(key, val))
    requires IsQuoted(val) ==> i + |Item(key, val)| == |src| || src[i + |Item(key, val)|] == cfg.sep
    ensures Loop(src, i, Local(params, "", key0, true, false), cfg)
         == Loop(src, i + |Item(key, val)|, AfterItem(params, key0, key, val), cfg)
  {
    match val {
      case None => RunKey(src, i, params, key0, key, cfg);
      case Some(v) => RunPair(src, i, params, key0, key, v, cfg);
    }
  }

  /** A key, up to its end. */
  lemma RunKey(src: string, i: nat, params: Params, key0: string, key: string, cfg: Config)
    requires AllPlain(key, cfg) && At(src, i, key)
    ensures Loop(src, i, Local(params, "", key0, true, false), cfg)
         == Loop(src, i + |key|, Local(params, key, key0, true, false), cfg)
  {
    hide AllPlain, At, Loop;
    var l0 := Local(params, "", key0, true, false);
    RunPlain(src, i, key, l0, cfg);
    assert Stored(l0, key) == Local(params, key, key0, true, false);
  }

  /** What stands behind the key of a parameter with a value. */
  function Assigned(v: string): string {
    "=" + if HasWs(v) then "\"" + (v + "\"") else v
  }

  lemma RunPair(src: string, i: nat, params: Params, key0: string, key: string, v: string, cfg: Config)
    requires Usual(cfg) && LegalItem(key, Some(v), cfg) && At(src, i, Item(key, Some(v)))
    requires HasWs(v) ==> i + |Item(key, Some(v))| == |src| || src[i + |Item(key, Some(v))|] == cfg.sep
    ensures Loop(src, i, Local(params, "", key0, true, false), cfg)
         == Loop(src, i + |Item(key, Some(v))|, Local(params, v, key, false, false), cfg)
  {
    hide AllPlain, AllQuotable, At, Loop, Item, Assigned, HasWs;
    PairText(key, v);
    AtParts(src, i, key, Assigned(v));
    RunKey(src, i, params, key0, key, cfg);
    RunEquals(src, i + |key|, params, key0, key, v, cfg);
    if HasWs(v) {
      QuotedShape(v);
      AssignedEnd(src, i, key, v);
      RunQuotedValue(src, i + |key| + 1, params, key, v, cfg);
    } else {
      PlainShape(v);
      RunPlainValue(src, i + |key| + 1, params, key, v, cfg);
    }
  }

  lemma PairText(key: string, v: string)
    ensures Item(key, Some(v)) == key + Assigned(v)
  {
  }

  lemma QuotedShape(v: string)
    requires HasWs(v)
    ensures |Assigned(v)| == |v| + 3 && Assigned(v)[1..] == "\"" + (v + "\"")
  {
  }

  lemma PlainShape(v: string)
    requires !HasWs(v)
    ensures |Assigned(v)| == |v| + 1 && Assigned(v)[1..] == v
  {
  }

  lemma AssignedEnd(src: string, i: nat, key: string, v: string)
    requires HasWs(v) && Item(key, Some(v)) == key + Assigned(v)
    ensures i + |Item(key, Some(v))| == i + |key| + 1 + |v| + 2
  {
    hide HasWs;
  }

  /** The '=' behind the key. */
  lemma RunEquals(src: string, i: nat, params: Params, key0: string, key: string, v: string, cfg: Config)
    requires Usual(cfg) && key != "" && At(src, i, Assigned(v))
    ensures At(src, i + 1, Assigned(v)[1..])
    ensures Loop(src, i, Local(params, key, key0, true, false), cfg)
         == Loop(src, i + 1, Local(params, "", key, false, false), cfg)
  {
    hide HasWs;
    AtTail(src, i, Assigned(v));
  }

  lemma RunPlainValue(src: string, i: nat, params: Params, key: string, v: string, cfg: Config)
    requires AllPlain(v, cfg) && At(src, i, v)
    ensures Loop(src, i, Local(params, "", key, false, false), cfg)
         == Loop(src, i + |v|, Local(params, v, key, false, false), cfg)
  {
    hide AllPlain, At, Loop;
    var l1 := Local(params, "", key, false, false);
    RunPlain(src, i, v, l1, cfg);
    assert Stored(l1, v) == Local(params, v, key, false, false);
  }

  // ---- the round trip

  /** The first `m` parameters. */
  ghost function Prefix(p: Params, m: nat): Params
    requires p.Valid() && m <= |p.keys|
  {
    Params(p.keys[..m], map k | k in p.keys[..m] :: p.vals[k])
  }

  lemma PrefixAdd(p: Params, m: nat)
    requires p.Valid() && m < |p.keys|
    ensures Prefix(p, m).Add(p.keys[m], p.vals[p.keys[m]]) == Prefix(p, m + 1)
  {
    assert p.keys[..m + 1] == p.keys[..m] + [p.keys[m]];
    assert p.keys[m] !in p.keys[..m];
  }

  lemma PrefixAll(p: Params)
    requires p.Valid()
    ensures Prefix(p, |p.keys|) == p && Prefix(p, 0) == EMPTY
  {
    assert p.keys[..|p.keys|] == p.keys;
  }

  ghost predicate LastQuoted(p: Params)
    requires p.Valid()
  {
    p.keys != [] && IsQuoted(p.vals[p.keys[|p.keys| - 1]])
  }

  /** What may follow printed parameters: nothing, or the end delimiter when the last value is not quoted. */
  ghost predicate Follows(p: Params, tail: string, cfg: Config)
    requires p.Valid()
  {
    tail == "" || (tail[0] == cfg.end && !LastQuoted(p))
  }

  function ItemAt(p: Params, m: nat): string
    requires m < |p.keys| && p.keys[m] in p.vals
  {
    Item(p.keys[m], p.vals[p.keys[m]])
  }

  /** What follows parameter `m`. */
  ghost function Rest(p: Params, sep: char, m: nat, tail: string): string
    requires p.Valid() && m < |p.keys|
  {
    RenderFrom(p, sep, m + 1) + tail
  }

  lemma RestShape(p: Params, sep: char, m: nat, tail: string)
    requires p.Valid() && m < |p.keys|
    ensures Rest(p, sep, m, tail) ==
            if m + 1 == |p.keys| then tail else [sep] + (ItemAt(p, m + 1) + Rest(p, sep, m + 1, tail))
  {
    if m + 1 == |p.keys| {
      assert "" + tail == tail;
    } else {
      Regroup([sep] + ItemAt(p, m + 1), RenderFrom(p, sep, m + 2), tail);
      Regroup([sep], ItemAt(p, m + 1), Rest(p, sep, m + 1, tail));
    }
  }

  /** One parameter is read and stored, and the loop goes on after a separator or ends. */
  lemma OneItem(src: string, i: nat, params: Params, key0: string, key: string, val: Option<string>, cfg: Config)
    requires Usual(cfg) && LegalItem(key, val, cfg) && At(src, i, Item(key, val))
    requires var n := i + |Item(key, val)|;
             n < |src| ==> src[n] == cfg.sep || (src[n] == cfg.end && !IsQuoted(val))
    ensures var n := i + |Item(key, val)|;
            Loop(src, i, Local(params, "", key0, true, false), cfg) ==
            if n < |src| && src[n] == cfg.sep then
              Loop(src, n + 1, Local(params.Add(key, val), "", AfterItem(params, key0, key, val).key, true, false), cfg)
            else Parsed(params.Add(key, val), n)
  {
    hide Loop, Item, AllPlain, AllQuotable;
    RunItem(src, i, params, key0, key, val, cfg);
    EndOfItem(src, i + |Item(key, val)|, AfterItem(params, key0, key, val), cfg);
  }

  /** Outside quotes, a separator stores the parameter and goes on; the end of the text or its delimiter stores it. */
  lemma EndOfItem(src: string, n: nat, l: Local, cfg: Config)
    requires n <= |src| && !l.inQuotes && cfg.sep != cfg.end && (l.parsingKey ==> cfg.permitSingletons)
    requires n < |src| ==> src[n] == cfg.sep || src[n] == cfg.end
    ensures var stored := if l.parsingKey then l.params.Add(l.buffer, None) else l.params.Add(l.key, Some(l.buffer));
            Loop(src, n, l, cfg) ==
            if n < |src| && src[n] == cfg.sep then Loop(src, n + 1, Local(stored, "", l.key, true, false), cfg)
            else Parsed(stored, n)
  {
  }

  /** What stands behind parameter `m`: the next one, or what follows them all. */
  lemma Behind(src: string, n: nat, p: Params, m: nat, tail: string, cfg: Config)
    requires p.Valid() && m < |p.keys| && Follows(p, tail, cfg)
    requires At(src, n, Rest(p, cfg.sep, m, tail)) && n + |Rest(p, cfg.sep, m, tail)| == |src|
    ensures m + 1 == |p.keys| ==>
              n == |src| - |tail| && (n < |src| ==> src[n] == cfg.end && !IsQuoted(p.vals[p.keys[m]]))
    ensures m + 1 < |p.keys| ==>
              && n < |src| && src[n] == cfg.sep
              && At(src, n + 1, ItemAt(p, m + 1) + Rest(p, cfg.sep, m + 1, tail))
              && n + 1 + |ItemAt(p, m + 1)| + |Rest(p, cfg.sep, m + 1, tail)| == |src|
  {
    hide RenderFrom, Item, At, Rest;
    var rest := Rest(p, cfg.sep, m, tail);
    RestShape(p, cfg.sep, m, tail);
    if rest != "" {
      AtTail(src, n, rest);
    }
    if m + 1 < |p.keys| {
      assert rest[1..] == ItemAt(p, m + 1) + Rest(p, cfg.sep, m + 1, tail);
    }
  }

  /** Where the loop stands behind parameter `m`, read and stored. */
  lemma ItemStored(src: string, i: nat, p: Params, m: nat, key0: string, tail: string, cfg: Config) returns (key: string)
    requires Usual(cfg) && Legal(p, cfg) && m < |p.keys| && Follows(p, tail, cfg)
    requires At(src, i, ItemAt(p, m) + Rest(p, cfg.sep, m, tail))
    requires i + |ItemAt(p, m)| + |Rest(p, cfg.sep, m, tail)| == |src|
    ensures var n := i + |ItemAt(p, m)|;
            Loop(src, i, Local(Prefix(p, m), "", key0, true, false), cfg) ==
            if m + 1 < |p.keys| then Loop(src, n + 1, Local(Prefix(p, m + 1), "", key, true, false), cfg)
            else Parsed(Prefix(p, m + 1), n)
  {
    hide Loop, RenderFrom, Item, LegalItem, At, Rest, Follows, Usual, Prefix;
    AtParts(src, i, ItemAt(p, m), Rest(p, cfg.sep, m, tail));
    Behind(src, i + |ItemAt(p, m)|, p, m, tail, cfg);
    Delimited(cfg);
    var (k, v) := (p.keys[m], p.vals[p.keys[m]]);
    OneItem(src, i, Prefix(p, m), key0, k, v, cfg);
    PrefixAdd(p, m);
    key := AfterItem(Prefix(p, m), key0, k, v).key;
  }

  lemma Delimited(cfg: Config)
    requires Usual(cfg)
    ensures cfg.sep != cfg.end
  {
  }

  /** The loop at the start of parameter `m`, the ones before it stored. */
  lemma {:induction false} RunItems(src: string, i: nat, p: Params, m: nat, key0: string, tail: string, cfg: Config)
    requires Usual(cfg) && Legal(p, cfg) && m < |p.keys| && Follows(p, tail, cfg)
    requires At(src, i, ItemAt(p, m) + Rest(p, cfg.sep, m, tail))
    requires i + |ItemAt(p, m)| + |Rest(p, cfg.sep, m, tail)| == |src|
    ensures Loop(src, i, Local(Prefix(p, m), "", key0, true, false), cfg) == Parsed(p, |src| - |tail|)
    decreases |p.keys| - m
  {
    hide Loop, RenderFrom, Item, LegalItem, At, Rest, Follows, Usual, Prefix;
    var key := ItemStored(src, i, p, m, key0, tail, cfg);
    var n := i + |ItemAt(p, m)|;
    AtParts(src, i, ItemAt(p, m), Rest(p, cfg.sep, m, tail));
    Behind(src, n, p, m, tail, cfg);
    if m + 1 == |p.keys| {
      PrefixAll(p);
    } else {
      RunItems(src, n + 1, p, m + 1, key, tail, cfg);
    }
  }

  /**
   * Parsing printed legal parameters gives back the parameters with their order and consumes exactly what was
   * printed, up to an end delimiter that may follow.
   */
  lemma ParseRender(p: Params, tail: string, cfg: Config)
    requires Usual(cfg) && Legal(p, cfg) && cfg.start != NUL && Follows(p, tail, cfg)
    ensures Parse([cfg.start] + Render(p, cfg.sep) + tail, cfg) == Parsed(p, 1 + |Render(p, cfg.sep)|)
  {
    hide Loop, LegalItem, Item;
    var src := [cfg.start] + Render(p, cfg.sep) + tail;
    var items := ItemAt(p, 0) + Rest(p, cfg.sep, 0, tail);
    assert Render(p, cfg.sep) + tail == items by {
      assert "" + ItemAt(p, 0) == ItemAt(p, 0);
      Regroup(ItemAt(p, 0), RenderFrom(p, cfg.sep, 1), tail);
    }
    Regroup([cfg.start], Render(p, cfg.sep), tail);
    assert src[1..] == items;
    PrefixAll(p);
    RunItems(src, 1, p, 0, "", tail, cfg);
  }

  // ---- what a successful parse returns

  /** The number of quote characters. */
  function Quotes(s: string): nat {
    if s == "" then 0 else Quotes(s[..|s| - 1]) + if s[|s| - 1] == '"' then 1 else 0
  }

  predicate CleanKey(key: string, cfg: Config) {
    forall i :: 0 <= i < |key| ==>
      key[i] != cfg.end && key[i] != cfg.sep && key[i] != '"' && key[i] != '=' && !IsWs(key[i])
  }

  predicate CleanText(s: string) {
    '"' !in s && '=' !in s
  }

  /** Only singletons, where they are permitted, have no value, and only they may have an empty key. */
  predicate CleanItem(key: string, val: Option<string>, cfg: Config) {
    && CleanKey(key, cfg)
    && (match val case None => cfg.permitSingletons case Some(v) => key != "" && CleanText(v))
  }

  ghost predicate CleanParams(p: Params, cfg: Config) {
    p.Valid() && forall k :: k in p.keys ==> CleanItem(k, p.vals[k], cfg)
  }

  ghost predicate LoopInv(src: string, i: nat, l: Local, cfg: Config)
    requires i <= |src|
  {
    && CleanParams(l.params, cfg) && CleanKey(l.key, cfg)
    && (if l.parsingKey then CleanKey(l.buffer, cfg) && !l.inQuotes else l.key != "" && CleanText(l.buffer))
    && (l.inQuotes <==> Quotes(src[..i]) % 2 == 1)
  }

  lemma QuotesSnoc(src: string, i: nat)
    requires i < |src|
    ensures Quotes(src[..i + 1]) == Quotes(src[..i]) + if src[i] == '"' then 1 else 0
  {
    assert src[..i + 1][..i] == src[..i];
  }

  lemma AddClean(p: Params, key: string, val: Option<string>, cfg: Config)
    requires CleanParams(p, cfg) && CleanItem(key, val, cfg)
    ensures CleanParams(p.Add(key, val), cfg) && p.Add(key, val).keys != []
  {
    AddValid(p, key, val);
  }

  lemma EncodedClean(c: char, cfg: Config)
    requires Usual(cfg) && cfg.sep < 128 as char && cfg.end < 128 as char
    requires c != '"' && c != '='
    ensures '"' !in Encoded(c) && '=' !in Encoded(c)
    ensures c != cfg.sep && c != cfg.end && !IsWs(c) ==> CleanKey(Encoded(c), cfg)
  {
  }

  lemma TurnKeeps(src: string, i: nat, l: Local, cfg: Config)
    requires Usual(cfg) && cfg.sep < 128 as char && cfg.end < 128 as char
    requires i < |src| && LoopInv(src, i, l, cfg)
    ensures TurnAt(src, i, l, cfg).Go? ==> LoopInv(src, i + 1, TurnAt(src, i, l, cfg).l, cfg)
  {
    hide CleanParams;
    QuotesSnoc(src, i);
    var c := src[i];
    if c == cfg.sep && !l.inQuotes {
      if l.parsingKey && cfg.permitSingletons {
        AddClean(l.params, l.buffer, None, cfg);
      } else if !l.parsingKey {
        AddClean(l.params, l.key, Some(l.buffer), cfg);
      }
    } else if c != cfg.sep && c != cfg.end && c != '"' && c != '=' {
      EncodedClean(c, cfg);
    }
  }

  lemma {:induction false} LoopSound(src: string, i: nat, l: Local, cfg: Config)
    requires Usual(cfg) && cfg.sep < 128 as char && cfg.end < 128 as char
    requires i <= |src| && LoopInv(src, i, l, cfg)
    ensures CleanParams(Loop(src, i, l, cfg).params, cfg)
    ensures Loop(src, i, l, cfg).Parsed? ==>
              var Parsed(p, n) := Loop(src, i, l, cfg);
              && i <= n <= |src| && (n == |src| || src[n] == cfg.end) && Quotes(src[..n]) % 2 == 0
              && p.keys != []
    decreases |src| - i
  {
    hide CleanParams, Quotes, TurnAt;
    if i < |src| && TurnAt(src, i, l, cfg).Go? {
      TurnKeeps(src, i, l, cfg);
      LoopSound(src, i + 1, TurnAt(src, i, l, cfg).l, cfg);
    } else {
      StopOnlyAtEnd(src, i, l, cfg);
      if l.parsingKey && cfg.permitSingletons {
        AddClean(l.params, l.buffer, None, cfg);
      } else if !l.parsingKey {
        AddClean(l.params, l.key, Some(l.buffer), cfg);
      }
    }
  }

  lemma StopOnlyAtEnd(src: string, i: nat, l: Local, cfg: Config)
    requires i <= |src|
    ensures i < |src| && TurnAt(src, i, l, cfg).Stop? ==> src[i] == cfg.end
  {
  }

  /**
   * On any text, what is returned has keys without delimiters, quotes, '=' or blanks and values without quotes or
   * '='. A successful parse stops at the end or at an end delimiter outside quotes, and it returns at least one
   * parameter when there is a text.
   */
  lemma ParseSound(src: string, cfg: Config)
    requires Usual(cfg) && cfg.sep < 128 as char && cfg.end < 128 as char && cfg.start != '"'
    ensures CleanParams(Parse(src, cfg).params, cfg)
    ensures Parse(src, cfg).Parsed? ==>
              var Parsed(p, n) := Parse(src, cfg);
              && n <= |src| && (n == |src| || src[n] == cfg.end) && Quotes(src[..n]) % 2 == 0
              && (src != "" ==> p.keys != [])
  {
    hide Loop;
    if src != "" && (cfg.start == NUL || src[0] == cfg.start) {
      var i := if cfg.start == NUL then 0 else 1;
      assert Quotes(src[..0]) == 0;
      QuotesSnoc(src, 0);
      assert LoopInv(src, i, START, cfg);
      LoopSound(src, i, START, cfg);
    }
  }
}
