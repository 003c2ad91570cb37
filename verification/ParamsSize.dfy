/** Printing parsed parameters gives no more characters than were read. */
module ParamsSize {
  import opened Wrappers
  import opened Text
  import opened Params
  import opened ParamsRoundTrip

  /** The printed size of the parameters from number `i` on, with one delimiter for each. */
  ghost function SizeFrom(p: Params, i: nat): nat
    requires p.Valid() && i <= |p.keys|
    decreases |p.keys| - i
  {
    if i == |p.keys| then 0 else 1 + |ItemAt(p, i)| + SizeFrom(p, i + 1)
  }

  lemma {:induction false} RenderSize(p: Params, sep: char, i: nat)
    requires p.Valid() && i <= |p.keys|
    ensures i < |p.keys| ==> |RenderFrom(p, sep, i)| + (if i == 0 then 1 else 0) == SizeFrom(p, i)
    ensures i == |p.keys| ==> RenderFrom(p, sep, i) == ""
    decreases |p.keys| - i
  {
    hide Item;
    if i < |p.keys| {
      RenderSize(p, sep, i + 1);
    }
  }

  lemma {:induction false} AddSize(p: Params, key: string, val: Option<string>, i: nat)
    requires p.Valid() && i <= |p.keys|
    ensures p.Add(key, val).Valid()
    ensures SizeFrom(p.Add(key, val), i) <=
            SizeFrom(p, i) + if key !in p.keys || key in p.keys[i..] then 1 + |Item(key, val)| else 0
    decreases |p.keys| - i
  {
    hide Item;
    AddValid(p, key, val);
    var q := p.Add(key, val);
    if i < |p.keys| {
      assert q.keys[i] == p.keys[i];
      assert p.keys[i..] == [p.keys[i]] + p.keys[i + 1..];
      AddSize(p, key, val, i + 1);
      if p.keys[i] == key {
        assert key !in p.keys[i + 1..];
      }
    } else if key !in p.keys {
      assert SizeFrom(q, i + 1) == 0;
    }
  }

  /** The printed size of the parameter that is being read. */
  function Pending(l: Local): nat {
    if l.parsingKey then |l.buffer|
    else |l.key| + 1 + |l.buffer| + if l.inQuotes then 1 else if HasWs(l.buffer) then 2 else 0
  }

  ghost predicate SizeInv(i: nat, l: Local) {
    && l.params.Valid() && SizeFrom(l.params, 0) + 1 + Pending(l) <= i
    && (l.parsingKey ==> !l.inQuotes)
  }

  ghost function Finished(l: Local): Params {
    if l.parsingKey then l.params.Add(l.buffer, None) else l.params.Add(l.key, Some(l.buffer))
  }

  lemma FinishedSize(i: nat, l: Local)
    requires SizeInv(i, l) && !l.inQuotes
    ensures Finished(l).Valid() && SizeFrom(Finished(l), 0) <= i
  {
    hide SizeFrom;
    if l.parsingKey {
      AddSize(l.params, l.buffer, None, 0);
    } else {
      AddSize(l.params, l.key, Some(l.buffer), 0);
    }
  }

  lemma WsSnoc(s: string, c: char)
    ensures HasWs(s + [c]) <==> HasWs(s) || IsWs(c)
  {
  }

  lemma TurnSize(src: string, i: nat, l: Local, cfg: Config)
    requires Usual(cfg) && i < |src| && Ascii(src) && SizeInv(i, l) && TurnAt(src, i, l, cfg).Go?
    ensures SizeInv(i + 1, TurnAt(src, i, l, cfg).l)
  {
    hide SizeFrom, HasWs;
    WsSnoc(l.buffer, src[i]);
    if src[i] == cfg.sep && !l.inQuotes {
      FinishedSize(i, l);
    }
    assert !HasWs("") by { NoWs(); }
  }

  lemma NoWs()
    ensures !HasWs("")
  {
  }

  lemma {:induction false} LoopSize(src: string, i: nat, l: Local, cfg: Config)
    requires Usual(cfg) && i <= |src| && Ascii(src) && SizeInv(i, l) && Loop(src, i, l, cfg).Parsed?
    ensures var Parsed(p, n) := Loop(src, i, l, cfg); p.Valid() && SizeFrom(p, 0) <= n
    decreases |src| - i
  {
    hide SizeInv, TurnAt, SizeFrom;
    if i < |src| && TurnAt(src, i, l, cfg).Go? {
      TurnSize(src, i, l, cfg);
      LoopSize(src, i + 1, TurnAt(src, i, l, cfg).l, cfg);
    } else {
      FinishedSize(i, l) by {
        EndsOutside(i, l, cfg);
      }
    }
  }

  lemma EndsOutside(i: nat, l: Local, cfg: Config)
    requires Finish(i, l, cfg).Parsed?
    ensures !l.inQuotes
  {
  }

  /** Printing what was parsed from ASCII text is never longer than the part that was consumed. */
  lemma ReprintNotLonger(src: string, cfg: Config, sep: char)
    requires Usual(cfg) && Ascii(src) && cfg.start != NUL && src != "" && Parse(src, cfg).Parsed?
    ensures var Parsed(p, n) := Parse(src, cfg);
            p.Valid() && (p.keys != [] ==> 1 + |Render(p, sep)| <= n)
  {
    hide Loop;
    assert SizeInv(1, START);
    LoopSize(src, 1, START, cfg);
    RenderSize(Parse(src, cfg).params, sep, 0);
  }

  /** Parsing cannot end right behind a quote, except at the end of the text. */
  lemma {:induction false} NoEndBehindQuote(src: string, i: nat, l: Local, cfg: Config)
    requires Usual(cfg) && i <= |src| && Loop(src, i, l, cfg).Parsed?
    ensures var n := Loop(src, i, l, cfg).consumed;
            && i <= n && (i == n < |src| ==> src[n] == cfg.end && !l.inQuotes)
            && (i < n < |src| ==> src[n - 1] != '"')
    decreases |src| - i
  {
    if i < |src| && TurnAt(src, i, l, cfg).Go? {
      var l1 := TurnAt(src, i, l, cfg).l;
      NoEndBehindQuote(src, i + 1, l1, cfg);
    }
  }
}
