/** The ordered parameters of headers and URIs, their printer and their parser. */
module Params {
  import opened Wrappers
  import opened Text

  /** The keys in order of first addition, and the value of each; None is a key without a value. */
  datatype Params = Params(keys: seq<string>, vals: map<string, Option<string>>) {
    ghost predicate Valid() {
      && (forall i, j :: 0 <= i < j < |keys| ==> keys[i] != keys[j])
      && (forall k :: k in vals <==> k in keys)
    }

    /** A new key goes to the end of the order; a known key keeps its place. */
    function Add(key: string, val: Option<string>): Params {
      Params(if key in vals then keys else keys + [key], vals[key := val])
    }
  }

  const EMPTY := Params([], map[])

  lemma AddValid(p: Params, key: string, val: Option<string>)
    requires p.Valid()
    ensures p.Add(key, val).Valid()
  {
  }

  // ---- the printer

  /** One parameter: quotes go around a value exactly when it holds a blank or a tab. */
  function Item(key: string, val: Option<string>): string {
    match val
    case None => key
    case Some(v) => if HasWs(v) then key + "=\"" + v + "\"" else key + "=" + v
  }

  /** The parameters from number `i` on. */
  function RenderFrom(p: Params, sep: char, i: nat): string
    requires i <= |p.keys|
    requires forall k :: k in p.keys ==> k in p.vals
    decreases |p.keys| - i
  {
    if i == |p.keys| then ""
    else
      (if i == 0 then "" else [sep]) + Item(p.keys[i], p.vals[p.keys[i]]) + RenderFrom(p, sep, i + 1)
  }

  function Render(p: Params, sep: char): string
    requires forall k :: k in p.keys ==> k in p.vals
  {
    RenderFrom(p, sep, 0)
  }

  // ---- the parser

  /** The arguments of ParseParams; NUL for `start` or `end` means that there is no such delimiter. */
  datatype Config = Config(start: char, sep: char, end: char, quoteValues: bool, permitSingletons: bool)

  const NUL: char := 0 as char

  /** The local variables of the parsing loop. */
  datatype Local = Local(params: Params, buffer: string, key: string, parsingKey: bool, inQuotes: bool)

  /** After an error, the parameters stored before it are still returned. */
  datatype Result = Parsed(params: Params, consumed: nat) | Failed(params: Params)

  datatype Turn = Go(l: Local) | Stop | Fail

  /** The bytes that Go writes for one byte converted to a string: two when it is 128 or more. */
  function Encoded(c: char): string {
    var n := c as int;
    if 0x80 <= n < 0x100 then [(0xC0 + n / 64) as char, (0x80 + n % 64) as char] else [c]
  }

  /** One turn of the loop, on the character at `i`. */
  function TurnAt(src: string, i: nat, l: Local, cfg: Config): Turn
    requires i < |src|
  {
    var c := src[i];
    if c == cfg.end then
      if l.inQuotes then Go(l.(buffer := l.buffer + [c])) else Stop
    else if c == cfg.sep then
      if l.inQuotes then Go(l.(buffer := l.buffer + [c]))
      else if l.parsingKey && !cfg.permitSingletons then Fail
      else
        var params := if l.parsingKey then l.params.Add(l.buffer, None) else l.params.Add(l.key, Some(l.buffer));
        Go(l.(params := params, buffer := "", parsingKey := true))
    else if c == '"' then
      if !cfg.quoteValues then Go(l.(buffer := l.buffer + [c]))
      else if l.parsingKey then Fail
      else if !l.inQuotes && l.buffer != "" then Fail
      else if l.inQuotes && i != |src| - 1 && src[i + 1] != cfg.sep then Fail
      else Go(l.(inQuotes := !l.inQuotes))
    else if c == '=' then
      if l.buffer == "" || !l.parsingKey then Fail
      else Go(l.(key := l.buffer, buffer := "", parsingKey := false))
    else if !l.inQuotes && IsWs(c) then Go(l)
    else Go(l.(buffer := l.buffer + Encoded(c)))
  }

  /** What is stored when the loop has ended at `i`. */
  function Finish(i: nat, l: Local, cfg: Config): Result {
    if l.inQuotes then Failed(l.params)
    else if l.parsingKey && !cfg.permitSingletons then Failed(l.params)
    else if l.parsingKey then Parsed(l.params.Add(l.buffer, None), i)
    else Parsed(l.params.Add(l.key, Some(l.buffer)), i)
  }

  /** The loop from the character at `i` on. */
  function Loop(src: string, i: nat, l: Local, cfg: Config): Result
    requires i <= |src|
    decreases |src| - i
  {
    if i == |src| then Finish(i, l, cfg)
    else
      match TurnAt(src, i, l, cfg)
      case Go(l1) => Loop(src, i + 1, l1, cfg)
      case Stop => Finish(i, l, cfg)
      case Fail => Failed(l.params)
  }

  const START := Local(EMPTY, "", "", true, false)

  function Parse(src: string, cfg: Config): Result {
    if src == "" then Parsed(EMPTY, 0)
    else if cfg.start == NUL then Loop(src, 0, START, cfg)
    else if src[0] != cfg.start then Failed(EMPTY)
    else Loop(src, 1, START, cfg)
  }

  // ---- the objects

  /** headerParams */
  class HeaderParams {
    var params: map<string, Option<string>>
    var paramOrder: seq<string>

    function View(): Params
      reads this
    {
      Params(paramOrder, params)
    }

    constructor ()
      ensures View() == EMPTY
    {
      params, paramOrder := map[], [];
    }

    method Add(key: string, val: Option<string>)
      modifies this
      ensures View() == old(View()).Add(key, val)
    {
      if key !in params {
        paramOrder := paramOrder + [key];
      }
      params := params[key := val];
    }

    method ToString(sep: char) returns (buffer: string)
      requires View().Valid()
      ensures buffer == Render(View(), sep)
    {
      hide RenderFrom, Item;
      ghost var p := View();
      buffer := "";
      var first := true;
      RenderAt(p, sep, |p.keys|);
      for i := 0 to |paramOrder|
        invariant buffer + RenderFrom(p, sep, i) == Render(p, sep)
        invariant first <==> i == 0
      {
        var key := paramOrder[i];
        var item := ItemText(key, params[key]);
        if !first {
          item := [sep] + item;
        }
        first := false;
        assert item == (if i == 0 then "" else [sep]) + Item(key, p.vals[key]) by { assert "" + item == item; }
        RenderAt(p, sep, i);
        Regroup(buffer, item, RenderFrom(p, sep, i + 1));
        buffer := buffer + item;
      }
    }
  }

  /** One step of the printer. */
  lemma RenderAt(p: Params, sep: char, i: nat)
    requires i <= |p.keys| && forall k :: k in p.keys ==> k in p.vals
    ensures RenderFrom(p, sep, i) ==
            if i == |p.keys| then ""
            else (if i == 0 then "" else [sep]) + Item(p.keys[i], p.vals[p.keys[i]]) + RenderFrom(p, sep, i + 1)
  {
    hide Item;
  }

  method ItemText(key: string, val: Option<string>) returns (item: string)
    ensures item == Item(key, val)
  {
    item := key;
    if val.Some? {
      if HasWs(val.value) {
        item := item + "=\"" + val.value + "\"";
      } else {
        item := item + "=" + val.value;
      }
    }
  }

  /** The parsing loop. */
  method ParseParams(source: string, cfg: Config) returns (r: Result)
    ensures r == Parse(source, cfg)
  {
    var params := new HeaderParams();
    var consumed := 0;
    if |source| == 0 {
      return Parsed(EMPTY, 0);
    }
    if cfg.start != NUL {
      if source[0] != cfg.start {
        return Failed(EMPTY);
      }
      consumed := 1;
    }
    var buffer, key := "", "";
    var parsingKey, inQuotes := true, false;
    while consumed < |source|
      invariant consumed <= |source|
      invariant fresh(params)
      invariant Loop(source, consumed, Local(params.View(), buffer, key, parsingKey, inQuotes), cfg) == Parse(source, cfg)
    {
      var c := source[consumed];
      if c == cfg.end {
        if !inQuotes {
          break;
        }
        buffer := buffer + [c];
      } else if c == cfg.sep {
        if inQuotes {
          buffer := buffer + [c];
        } else {
          if parsingKey && cfg.permitSingletons {
            params.Add(buffer, None);
          } else if parsingKey {
            return Failed(params.View());
          } else {
            params.Add(key, Some(buffer));
          }
          buffer := "";
          parsingKey := true;
        }
      } else if c == '"' {
        if !cfg.quoteValues {
          buffer := buffer + [c];
        } else if parsingKey {
          return Failed(params.View());
        } else if !inQuotes && |buffer| != 0 {
          return Failed(params.View());
        } else if inQuotes && consumed != |source| - 1 && source[consumed + 1] != cfg.sep {
          return Failed(params.View());
        } else {
          inQuotes := !inQuotes;
        }
      } else if c == '=' {
        if |buffer| == 0 {
          return Failed(params.View());
        }
        if !parsingKey {
          return Failed(params.View());
        }
        key := buffer;
        buffer := "";
        parsingKey := false;
      } else if inQuotes || !IsWs(c) {
        buffer := buffer + Encoded(c);
      }
      consumed := consumed + 1;
    }
    if inQuotes {
      return Failed(params.View());
    }
    if parsingKey && cfg.permitSingletons {
      params.Add(buffer, None);
    } else if parsingKey {
      return Failed(params.View());
    } else {
      params.Add(key, Some(buffer));
    }
    r := Parsed(params.View(), consumed);
  }
}
