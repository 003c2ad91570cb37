/** The headers of the response that a request creates, name by name, and their order. */
module CreatedResponses {
  import opened Wrappers
  import opened Text
  import opened Vias
  import opened Orders
  import opened HeaderStore
  import opened TxKeys

  /** The names that a response takes over, in the order in which they are printed. */
  function TakenOver(statusCode: nat): seq<string> {
    ["record-route", "via", "from", "to", "call-id", "cseq"] + if statusCode == 100 then ["timestamp"] else []
  }

  /** A list of To headers whose first one has a tag. */
  function WithTag(tos: seq<Header>, tag: string): seq<Header> {
    if tos != [] && tos[0].ToHeader? && tos[0].tag.None? then [ToHeader(tos[0].address, Some(tag))] + tos[1..] else tos
  }

  /** Those of the names that the message has a header for. */
  function Present(s: Store, names: seq<string>): seq<string> {
    if names == [] then []
    else (if Lookup(s, names[0]) != [] then [names[0]] else []) + Present(s, names[1..])
  }

  function Lowers(names: seq<string>): seq<string> {
    seq(|names|, i requires 0 <= i < |names| => ToLower(names[i]))
  }

  // ---- what the response has under each name

  lemma CopiedLowers()
    ensures Lowers(COPIED) == ["record-route", "via", "from", "to", "call-id", "cseq"]
  {
    hide ToLower;
    Lowered();
  }

  lemma MentionsLowers(names: seq<string>, k: string)
    ensures Mentions(names, k) <==> k in Lowers(names)
  {
    hide ToLower;
    var ks := Lowers(names);
    assert forall i :: 0 <= i < |names| ==> ks[i] == ToLower(names[i]);
  }

  lemma TaggedTo(s: Store, tag: string)
    ensures Lookup(Tagged(s, tag), "to") == WithTag(Lookup(s, "to"), tag)
  {
    hide ToLower;
    Lowered();
    assert s.Get("To") == Lookup(s, "to");
  }

  /** The copied headers of a name, before the tag is added. */
  lemma CopiedUnder(req: Store, k: string)
    requires req.Sound()
    ensures Lookup(CopiedAll(req, NO_HEADERS, COPIED), k) ==
            if k in ["record-route", "via", "from", "to", "call-id", "cseq"] then Lookup(req, k) else []
  {
    hide ToLower, Copied, CopiedAll, Lookup, Mentions, Lowers;
    CopiedNames();
    CopiedLowers();
    MentionsLowers(COPIED, k);
    CopiedAllGet(req, NO_HEADERS, COPIED, k);
    NoLookup(k);
    assert [] + Lookup(req, k) == Lookup(req, k);
  }

  /**
   * A response has the request's lists of Record-Route, Via, From, Call-ID and CSeq, its list of To with a tag put
   * into the first one that lacks it unless the status is 100, its Timestamp if the status is 100, and nothing else.
   */
  lemma ResponseHasExactly(req: Store, statusCode: nat, tag: string, k: string)
    requires req.Sound()
    ensures Lookup(ResponseHeaders(req, statusCode, tag), k) ==
            if k in ["record-route", "via", "from", "call-id", "cseq"] then Lookup(req, k)
            else if k == "to" then if statusCode == 100 then Lookup(req, k) else WithTag(Lookup(req, k), tag)
            else if k == "timestamp" && statusCode == 100 then Lookup(req, k)
            else []
  {
    hide ToLower, Copied, CopiedAll, Tagged, Lookup, WithTag;
    var s := CopiedAll(req, NO_HEADERS, COPIED);
    CopiedUnder(req, k);
    CopiedGet(req, s, "Timestamp", k);
    Lowered();
    TimestampApart();
    assert Lookup(s, k) + [] == Lookup(s, k) && [] + Lookup(req, k) == Lookup(req, k);
    if k == "to" {
      TaggedTo(s, tag);
    } else {
      TaggedGet(s, tag, k);
    }
  }

  lemma TimestampApart()
    ensures "timestamp" !in ["record-route", "via", "from", "to", "call-id", "cseq"]
    ensures "to" !in ["record-route", "via", "from", "call-id", "cseq"]
  {
    assert |"timestamp"| == 9 && |"record-route"| == 12 && |"call-id"| == 7;
    assert |"via"| == 3 && |"from"| == 4 && |"cseq"| == 4 && |"to"| == 2;
  }

  // ---- the order of the names

  lemma {:induction false} CopiedListOrder(hs: seq<Header>, to: Store, name: string)
    requires forall i :: 0 <= i < |hs| ==> hs[i].Name() == name
    ensures var r := CopiedList(hs, to);
            && r.order == to.order + (if hs != [] && name !in to.headers then [name] else [])
            && r.headers.Keys == to.headers.Keys + if hs != [] then {name} else {}
    decreases |hs|
  {
    if hs != [] {
      CopiedListOrder(hs[1..], Added(to, hs[0]), name);
    }
  }

  lemma CopiedOrder(from: Store, to: Store, name: string)
    requires from.Sound() && ToLower(name) !in to.headers
    ensures Copied(from, to, name).order == to.order + Present(from, [ToLower(name)])
    ensures Copied(from, to, name).headers.Keys <= to.headers.Keys + {ToLower(name)}
  {
    hide ToLower, CopiedList;
    assert [ToLower(name)][1..] == [];
    CopiedListOrder(from.Get(name), to, ToLower(name));
  }

  lemma {:induction false} CopiedAllOrder(from: Store, to: Store, names: seq<string>)
    requires from.Sound() && Distinct(Lowers(names))
    requires forall i :: 0 <= i < |names| ==> Lowers(names)[i] !in to.headers
    ensures CopiedAll(from, to, names).order == to.order + Present(from, Lowers(names))
    decreases |names|
  {
    hide ToLower, Copied, Lookup;
    if names != [] {
      var (rest, next) := (names[1..], Copied(from, to, names[0]));
      LowersRest(names);
      assert Lowers(names)[0] == ToLower(names[0]);
      CopiedOrder(from, to, names[0]);
      assert forall i :: 0 <= i < |rest| ==> Lowers(rest)[i] == Lowers(names)[i + 1];
      CopiedAllOrder(from, next, rest);
      FirstPresent(from, Lowers(names));
      Regroup(to.order, Present(from, [ToLower(names[0])]), Present(from, Lowers(rest)));
    }
  }

  lemma LowersRest(names: seq<string>)
    requires names != []
    ensures Lowers(names)[1..] == Lowers(names[1..])
  {
    hide ToLower;
  }

  lemma FirstPresent(s: Store, names: seq<string>)
    requires names != []
    ensures Present(s, names) == Present(s, [names[0]]) + Present(s, names[1..])
  {
    assert [names[0]][1..] == [];
  }

  lemma {:induction false} PresentSplits(s: Store, a: seq<string>, b: seq<string>)
    ensures Present(s, a + b) == Present(s, a) + Present(s, b)
    decreases |a|
  {
    if a == [] {
      assert [] + b == b;
    } else {
      assert (a + b)[1..] == a[1..] + b;
      PresentSplits(s, a[1..], b);
    }
  }

  lemma TaggedOrder(s: Store, tag: string)
    ensures Tagged(s, tag).order == s.order
  {
    hide ToLower;
  }

  lemma CopiedDistinct()
    ensures Distinct(Lowers(COPIED))
  {
    hide ToLower;
    CopiedNames();
  }

  /** The response prints its headers in the order Record-Route, Via, From, To, Call-ID, CSeq, Timestamp. */
  lemma ResponseOrder(req: Store, statusCode: nat, tag: string)
    requires req.Sound()
    ensures ResponseHeaders(req, statusCode, tag).order == Present(req, TakenOver(statusCode))
  {
    hide ToLower, Copied, CopiedAll, Tagged, Lookup, Lowers, Present;
    var s := CopiedAll(req, NO_HEADERS, COPIED);
    CopiedDistinct();
    CopiedAllOrder(req, NO_HEADERS, COPIED);
    CopiedLowers();
    assert [] + Present(req, Lowers(COPIED)) == Present(req, Lowers(COPIED));
    TaggedOrder(s, tag);
    if statusCode == 100 {
      Lowered();
      NoTimestamp(req);
      CopiedOrder(req, s, "Timestamp");
      PresentSplits(req, ["record-route", "via", "from", "to", "call-id", "cseq"], ["timestamp"]);
    } else {
      assert TakenOver(statusCode) == ["record-route", "via", "from", "to", "call-id", "cseq"];
    }
  }

  lemma NoTimestamp(req: Store)
    requires req.Sound()
    ensures "timestamp" !in CopiedAll(req, NO_HEADERS, COPIED).headers
  {
    hide ToLower, CopiedAll;
    CopiedUnder(req, "timestamp");
    TimestampApart();
    CopiedAllSound(req, NO_HEADERS, COPIED);
  }

  lemma {:induction false} CopiedListSound(hs: seq<Header>, to: Store)
    requires to.Sound()
    ensures CopiedList(hs, to).Sound()
    decreases |hs|
  {
    if hs != [] {
      OperationSound(to, AddOp(hs[0]));
      CopiedListSound(hs[1..], Added(to, hs[0]));
    }
  }

  lemma {:induction false} CopiedAllSound(from: Store, to: Store, names: seq<string>)
    requires to.Sound()
    ensures CopiedAll(from, to, names).Sound()
    decreases |names|
  {
    if names != [] {
      CopiedListSound(from.Get(names[0]), to);
      CopiedAllSound(from, Copied(from, to, names[0]), names[1..]);
    }
  }

  /** So the response has the request's method in its CSeq. */
  lemma ResponseKeepsMethod(req: Store, statusCode: nat, tag: string)
    requires req.Sound()
    ensures CSeqMethod(ResponseHeaders(req, statusCode, tag)) == CSeqMethod(req)
  {
    hide ToLower, ResponseHeaders;
    Lowered();
    var r := ResponseHeaders(req, statusCode, tag);
    ResponseHasExactly(req, statusCode, tag, "cseq");
    CSeqListed();
    assert r.Get("CSeq") == Lookup(r, "cseq") && req.Get("CSeq") == Lookup(req, "cseq");
  }

  lemma CSeqListed()
    ensures "cseq" in ["record-route", "via", "from", "call-id", "cseq"]
  {
    assert ["record-route", "via", "from", "call-id", "cseq"][4] == "cseq";
  }
}
