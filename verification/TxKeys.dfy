/** The keys that match messages to transactions, and the response that a request creates. */
module TxKeys {
  import opened Wrappers
  import opened Text
  import opened Params
  import opened SipUris
  import opened Vias
  import opened Orders
  import opened HeaderStore
  import opened CSeqs

  const COOKIE := "z9hG4bK"

  /** NoKey is an error, Legacy the key of RFC 2543, whose text is not modelled, Crash a nil dereference. */
  datatype KeyResult = Key(key: string) | NoKey | Legacy | KeyCrash

  /** The first hop of the first Via header. */
  function TopHop(s: Store): Option<ViaHop> {
    var vias := s.Get("Via");
    if vias == [] || !vias[0].ViaHeader? || vias[0].hops == [] then None else Some(vias[0].hops[0])
  }

  function CSeqMethod(s: Store): Option<string> {
    var cseqs := s.Get("CSeq");
    if cseqs == [] || !cseqs[0].CSeqHeader? then None else Some(cseqs[0].requestMethod)
  }

  function DefaultPort(transport: string): nat {
    if ToLower(transport) == "tls" then 5061 else 5060
  }

  /** The branch parameter: absent, without a value, or with one. */
  datatype Branch = NoBranch | NilBranch | BranchOf(text: string)

  function BranchParam(h: ViaHop): Branch {
    if "branch" !in h.params.vals then NoBranch
    else match h.params.vals["branch"] case None => NilBranch case Some(b) => BranchOf(b)
  }

  /** The branch of RFC 3261: the magic cookie and something after it. */
  predicate HasCookie(b: string) {
    |COOKIE| < |b| && b[..|COOKIE|] == COOKIE
  }

  function ServerMethod(m: string): string {
    if m == "ACK" || m == "CANCEL" then "INVITE" else m
  }

  function PortOf(h: ViaHop): nat {
    match h.port case Some(p) => p case None => DefaultPort(h.transport)
  }

  function ServerKeyText(branch: string, host: string, port: nat, m: string): string {
    Join([branch, host, Decimal(port), m], "__")
  }

  function MakeServerTxKey(s: Store): KeyResult {
    match TopHop(s)
    case None => NoKey
    case Some(hop) =>
      match CSeqMethod(s)
      case None => NoKey
      case Some(m) =>
        match BranchParam(hop)
        case NilBranch => KeyCrash
        case NoBranch => Legacy
        case BranchOf(b) =>
          if HasCookie(b) then Key(ServerKeyText(b, hop.host, PortOf(hop), ServerMethod(m))) else Legacy
  }

  function ClientKeyText(branch: string, m: string): string {
    Join([branch, m], "__")
  }

  function MakeClientTxKey(s: Store): KeyResult {
    match CSeqMethod(s)
    case None => NoKey
    case Some(m) =>
      match TopHop(s)
      case None => NoKey
      case Some(hop) =>
        match BranchParam(hop)
        case NoBranch => NoKey
        case NilBranch => KeyCrash
        case BranchOf(b) => if HasCookie(b) then Key(ClientKeyText(b, if m == "ACK" then "INVITE" else m)) else NoKey
  }

  // ---- what a key determines

  /** Text around the last underscore is determined when no underscore follows it. */
  lemma LastUnderscore(a: string, x: string, b: string, y: string)
    requires a + "_" + x == b + "_" + y && '_' !in x && '_' !in y
    ensures a == b && x == y
  {
    NoLaterUnderscore(a, x, b, y);
    NoLaterUnderscore(b, y, a, x);
    var (s, n) := (a + "_" + x, |a|);
    assert a == s[..n] && b == s[..n];
    assert x == s[n + 1..] && y == s[n + 1..];
  }

  lemma NoLaterUnderscore(a: string, x: string, b: string, y: string)
    requires a + "_" + x == b + "_" + y && '_' !in x
    ensures |b| <= |a|
  {
    var s := b + "_" + y;
    assert s[|b|] == '_';
    assert forall j {:trigger s[j]} :: |a| < j < |s| ==> s[j] == x[j - |a| - 1];
  }

  lemma DoubleUnderscore(a: string, x: string, b: string, y: string)
    requires a + "__" + x == b + "__" + y && '_' !in x && '_' !in y
    ensures a == b && x == y
  {
    assert a + "__" + x == (a + "_") + "_" + x;
    assert b + "__" + y == (b + "_") + "_" + y;
    LastUnderscore(a + "_", x, b + "_", y);
    assert a == (a + "_")[..|a|] && b == (b + "_")[..|b|];
  }

  lemma DecimalNoUnderscore(n: nat)
    ensures '_' !in Decimal(n)
  {
  }

  lemma DecimalInjective(m: nat, n: nat)
    requires Decimal(m) == Decimal(n)
    ensures m == n
  {
    DecimalValue(m);
    DecimalValue(n);
  }

  lemma ServerKeyShape(branch: string, host: string, port: nat, m: string)
    ensures ServerKeyText(branch, host, port, m) == branch + "__" + host + "__" + Decimal(port) + "__" + m
  {
    var p := Decimal(port);
    assert [branch, host, p, m] == [branch] + ([host] + ([p] + [m]));
    JoinPair(p, [m], "__");
    JoinPair(host, [p] + [m], "__");
    JoinPair(branch, [host] + ([p] + [m]), "__");
    Flat(branch, host, p, m);
  }

  lemma Flat(a: string, b: string, c: string, d: string)
    ensures a + "__" + (b + "__" + (c + "__" + d)) == a + "__" + b + "__" + c + "__" + d
  {
    assert b + "__" + (c + "__" + d) == b + "__" + c + "__" + d;
  }

  /** The method can be read back from a server key whatever its branch and host hold. */
  lemma ServerKeyMethod(b1: string, h1: string, p1: nat, m1: string, b2: string, h2: string, p2: nat, m2: string)
    requires '_' !in m1 && '_' !in m2
    requires ServerKeyText(b1, h1, p1, m1) == ServerKeyText(b2, h2, p2, m2)
    ensures m1 == m2 && b1 + "__" + h1 + "__" + Decimal(p1) == b2 + "__" + h2 + "__" + Decimal(p2)
  {
    hide ServerKeyText, Decimal;
    ServerKeyShape(b1, h1, p1, m1);
    ServerKeyShape(b2, h2, p2, m2);
    DoubleUnderscore(b1 + "__" + h1 + "__" + Decimal(p1), m1, b2 + "__" + h2 + "__" + Decimal(p2), m2);
  }

  /** Server keys determine branch, host, port and method when host and method hold no underscore. */
  lemma ServerKeyInjective(b1: string, h1: string, p1: nat, m1: string, b2: string, h2: string, p2: nat, m2: string)
    requires '_' !in h1 && '_' !in m1 && '_' !in h2 && '_' !in m2
    requires ServerKeyText(b1, h1, p1, m1) == ServerKeyText(b2, h2, p2, m2)
    ensures b1 == b2 && h1 == h2 && p1 == p2 && m1 == m2
  {
    hide ServerKeyText, Decimal;
    ServerKeyMethod(b1, h1, p1, m1, b2, h2, p2, m2);
    DecimalNoUnderscore(p1);
    DecimalNoUnderscore(p2);
    DoubleUnderscore(b1 + "__" + h1, Decimal(p1), b2 + "__" + h2, Decimal(p2));
    DoubleUnderscore(b1, h1, b2, h2);
    DecimalInjective(p1, p2);
  }

  /**
   * A client key equals a server key exactly when its branch spells out the server's branch, host and port and
   * the methods agree; a branch without underscores, like every generated one, therefore never collides.
   */
  lemma ClientKeyCollides(branch: string, m: string, b: string, host: string, port: nat, sm: string)
    requires '_' !in m && '_' !in sm
    ensures ClientKeyText(branch, m) == ServerKeyText(b, host, port, sm) <==>
            branch == b + "__" + host + "__" + Decimal(port) && m == sm
    ensures '_' !in branch ==> ClientKeyText(branch, m) != ServerKeyText(b, host, port, sm)
  {
    hide ServerKeyText, Decimal;
    ServerKeyShape(b, host, port, sm);
    assert [branch, m] == [branch] + [m];
    JoinPair(branch, [m], "__");
    var long := b + "__" + host + "__" + Decimal(port);
    assert long[|b|] == '_';
    if ClientKeyText(branch, m) == ServerKeyText(b, host, port, sm) {
      DoubleUnderscore(branch, m, long, sm);
    }
  }

  // ---- the response that a request creates

  /** CopyHeaders, on values: the headers of a name in order, filed behind those already there. */
  function Copied(from: Store, to: Store, name: string): Store {
    CopiedList(from.Get(name), to)
  }

  function CopiedList(hs: seq<Header>, to: Store): Store {
    if hs == [] then to else CopiedList(hs[1..], Added(to, hs[0]))
  }

  const COPIED := ["Record-Route", "Via", "From", "To", "Call-ID", "CSeq"]

  function CopiedAll(from: Store, to: Store, names: seq<string>): Store
    decreases |names|
  {
    if names == [] then to else CopiedAll(from, Copied(from, to, names[0]), names[1..])
  }

  /** A To header without a tag gets one, in every response but the 100. */
  function Tagged(s: Store, tag: string): Store {
    var tos := s.Get("To");
    if tos == [] || !tos[0].ToHeader? || tos[0].tag.Some? then s
    else s.(headers := s.headers["to" := [tos[0].(tag := Some(tag))] + tos[1..]])
  }

  function ResponseHeaders(req: Store, statusCode: nat, tag: string): Store {
    var s := CopiedAll(req, NO_HEADERS, COPIED);
    if statusCode == 100 then Copied(req, s, "Timestamp") else Tagged(s, tag)
  }

  /** CopyHeaders */
  method CopyHeaders(name: string, from: Headers, to: Headers)
    requires from != to && to.View().Sound()
    modifies to
    ensures to.View() == Copied(from.View(), old(to.View()), name) && to.View().Sound()
  {
    var hs := from.GetHeaders(name);
    ghost var start := to.View();
    for i := 0 to |hs|
      invariant to.View().Sound() && from.View() == old(from.View())
      invariant CopiedList(hs[i..], to.View()) == CopiedList(hs, start)
    {
      assert hs[i..][1..] == hs[i + 1..];
      to.AddHeader(hs[i]);
    }
  }

  /** The To header of a response other than 100 gets the tag, if it has none. */
  method TagTo(res: Headers, tag: string)
    modifies res
    ensures res.View() == Tagged(old(res.View()), tag)
  {
    var tos := res.GetHeaders("To");
    if |tos| > 0 && tos[0].ToHeader? && tos[0].tag.None? {
      res.headers := res.headers["to" := [tos[0].(tag := Some(tag))] + tos[1..]];
    }
  }

  /** A message: its headers, and the fields that a response takes over from its request. */
  class Message {
    const headers: Headers
    var sipVersion: string
    var status: nat
    var reason: string
    var body: string
    var src: string
    var dest: string

    constructor (sipVersion: string, status: nat, reason: string, body: string)
      ensures fresh(headers) && headers.View() == NO_HEADERS
      ensures this.sipVersion == sipVersion && this.status == status && this.reason == reason && this.body == body
      ensures src == "" && dest == ""
    {
      headers := new Headers();
      this.sipVersion, this.status, this.reason, this.body := sipVersion, status, reason, body;
      src, dest := "", "";
    }
  }

  /**
   * CreateResponse; `source` and `destination` are what the request reports as its own, `statusText` the standard
   * reason phrase, `tag` the random one.
   */
  method CreateResponse(req: Message, statusCode: nat, statusText: string, tag: string,
                        source: string, destination: string) returns (res: Message)
    ensures fresh(res) && fresh(res.headers)
    ensures res.headers.View() == ResponseHeaders(req.headers.View(), statusCode, tag)
    ensures res.sipVersion == req.sipVersion && res.body == req.body
    ensures res.status == statusCode && res.reason == statusText && res.src == destination && res.dest == source
  {
    hide Copied, Tagged;
    res := new Message(req.sipVersion, statusCode, statusText, req.body);
    ghost var from := req.headers.View();
    assert NO_HEADERS.Sound();
    assert COPIED[0..] == COPIED;
    for i := 0 to |COPIED|
      invariant fresh(res) && fresh(res.headers) && res.headers.View().Sound() && req.headers.View() == from
      invariant CopiedAll(from, res.headers.View(), COPIED[i..]) == CopiedAll(from, NO_HEADERS, COPIED)
      invariant res.sipVersion == req.sipVersion && res.body == req.body
      invariant res.status == statusCode && res.reason == statusText
    {
      assert COPIED[i..][1..] == COPIED[i + 1..];
      CopyHeaders(COPIED[i], req.headers, res.headers);
    }
    if statusCode == 100 {
      CopyHeaders("Timestamp", req.headers, res.headers);
    } else {
      TagTo(res.headers, tag);
    }
    res.src, res.dest := destination, source;
  }

  // ---- keys of responses, of re-parsed messages and of sent requests

  lemma {:induction false} CopiedListGet(hs: seq<Header>, to: Store, name: string, k: string)
    requires forall i :: 0 <= i < |hs| ==> hs[i].Name() == name
    ensures var r := CopiedList(hs, to);
            Lookup(r, k) == Lookup(to, k) + if k == name then hs else []
    decreases |hs|
  {
    hide Added, Lookup;
    if hs != [] {
      CopiedListGet(hs[1..], Added(to, hs[0]), name, k);
      AddedGet(to, hs[0], k);
      assert hs == [hs[0]] + hs[1..];
      Regroup(Lookup(to, k), [hs[0]], hs[1..]);
    }
  }

  lemma AddedGet(to: Store, h: Header, k: string)
    ensures Lookup(Added(to, h), k) == Lookup(to, k) + if k == h.Name() then [h] else []
  {
  }

  function Lookup(s: Store, k: string): seq<Header> {
    if k in s.headers then s.headers[k] else []
  }

  lemma CopiedGet(from: Store, to: Store, name: string, k: string)
    requires from.Sound()
    ensures Lookup(Copied(from, to, name), k) == Lookup(to, k) + if k == ToLower(name) then Lookup(from, k) else []
  {
    CopiedListGet(from.Get(name), to, ToLower(name), k);
  }

  predicate Mentions(names: seq<string>, k: string) {
    exists i :: 0 <= i < |names| && ToLower(names[i]) == k
  }

  lemma {:induction false} CopiedAllGet(from: Store, to: Store, names: seq<string>, k: string)
    requires from.Sound()
    requires forall i, j :: 0 <= i < j < |names| ==> ToLower(names[i]) != ToLower(names[j])
    ensures Lookup(CopiedAll(from, to, names), k) == Lookup(to, k) + if Mentions(names, k) then Lookup(from, k) else []
    decreases |names|
  {
    hide ToLower, Copied;
    if names != [] {
      var rest := names[1..];
      assert forall i :: 0 <= i < |rest| ==> rest[i] == names[i + 1];
      CopiedGet(from, to, names[0], k);
      CopiedAllGet(from, Copied(from, to, names[0]), rest, k);
      assert Mentions(names, k) <==> ToLower(names[0]) == k || Mentions(rest, k) by {
        if i :| 0 < i < |names| && ToLower(names[i]) == k {
          assert ToLower(rest[i - 1]) == k;
        }
      }
    }
  }

  lemma Lowered()
    ensures ToLower("Record-Route") == "record-route" && ToLower("Via") == "via" && ToLower("From") == "from"
    ensures ToLower("To") == "to" && ToLower("Call-ID") == "call-id" && ToLower("CSeq") == "cseq"
    ensures ToLower("Timestamp") == "timestamp"
  {
  }

  lemma CopiedNames()
    ensures forall i, j :: 0 <= i < j < |COPIED| ==> ToLower(COPIED[i]) != ToLower(COPIED[j])
    ensures Mentions(COPIED, "via") && Mentions(COPIED, "cseq")
  {
    hide ToLower;
    Lowered();
    assert ToLower(COPIED[1]) == "via" && ToLower(COPIED[5]) == "cseq";
    assert |ToLower(COPIED[0])| == 12 && |ToLower(COPIED[1])| == 3 && |ToLower(COPIED[2])| == 4;
    assert |ToLower(COPIED[3])| == 2 && |ToLower(COPIED[4])| == 7;
    assert ToLower(COPIED[5])[0] == 'c' && ToLower(COPIED[2])[0] == 'f';
  }

  lemma NoLookup(k: string)
    ensures Lookup(NO_HEADERS, k) == []
  {
  }

  lemma TaggedGet(s: Store, tag: string, k: string)
    requires k != "to"
    ensures Lookup(Tagged(s, tag), k) == Lookup(s, k)
  {
    hide ToLower;
  }

  /** A response has the Via and CSeq headers of its request, and so its keys. */
  lemma ResponseKeepsKeys(req: Store, statusCode: nat, tag: string)
    requires req.Sound()
    ensures MakeServerTxKey(ResponseHeaders(req, statusCode, tag)) == MakeServerTxKey(req)
    ensures MakeClientTxKey(ResponseHeaders(req, statusCode, tag)) == MakeClientTxKey(req)
  {
    hide ResponseHeaders, Lookup, MakeServerTxKey, MakeClientTxKey;
    CopiedNames();
    ResponseGets(req, statusCode, tag, "via");
    ResponseGets(req, statusCode, tag, "cseq");
    SameKeys(req, ResponseHeaders(req, statusCode, tag));
  }

  /** What the response has under a name that is copied. */
  lemma ResponseGets(req: Store, statusCode: nat, tag: string, k: string)
    requires req.Sound() && Mentions(COPIED, k) && k != "to" && k != "timestamp"
    ensures Lookup(ResponseHeaders(req, statusCode, tag), k) == Lookup(req, k)
  {
    hide ToLower, Copied, CopiedAll, Tagged, Lookup, Mentions;
    Lowered();
    CopiedNames();
    var s := CopiedAll(req, NO_HEADERS, COPIED);
    CopiedAllGet(req, NO_HEADERS, COPIED, k);
    NoLookup(k);
    assert [] + Lookup(req, k) == Lookup(req, k);
    TaggedGet(s, tag, k);
    CopiedGet(req, s, "Timestamp", k);
    assert Lookup(s, k) + [] == Lookup(s, k);
  }

  lemma SameKeys(a: Store, b: Store)
    requires Lookup(a, "via") == Lookup(b, "via") && Lookup(a, "cseq") == Lookup(b, "cseq")
    ensures MakeServerTxKey(a) == MakeServerTxKey(b) && MakeClientTxKey(a) == MakeClientTxKey(b)
  {
    hide ToLower;
    Lowered();
    assert a.Get("Via") == Lookup(a, "via") && b.Get("Via") == Lookup(b, "via");
    assert a.Get("CSeq") == Lookup(a, "cseq") && b.Get("CSeq") == Lookup(b, "cseq");
  }

  /** The message with the hops of its first Via header replaced. */
  function WithHops(s: Store, hops: seq<ViaHop>): Store
    requires Lookup(s, "via") != []
  {
    s.(headers := s.headers["via" := [ViaHeader(hops)] + Lookup(s, "via")[1..]])
  }

  lemma TopHopIsFirst(s: Store)
    ensures TopHop(s).Some? ==>
              Lookup(s, "via") != [] && Lookup(s, "via")[0].ViaHeader? && Lookup(s, "via")[0].hops != [] &&
              TopHop(s).value == Lookup(s, "via")[0].hops[0]
  {
    hide ToLower;
    Lowered();
  }

  lemma WithHopsTop(s: Store, hops: seq<ViaHop>)
    requires Lookup(s, "via") != [] && hops != []
    ensures TopHop(WithHops(s, hops)) == Some(hops[0]) && CSeqMethod(WithHops(s, hops)) == CSeqMethod(s)
  {
    hide ToLower;
    Lowered();
    TopHopIsFirst(s);
  }

  /** The message with its first CSeq header replaced. */
  function WithCSeq(s: Store, seqNo: nat, m: string): Store
    requires Lookup(s, "cseq") != []
  {
    s.(headers := s.headers["cseq" := [CSeqHeader(seqNo, m)] + Lookup(s, "cseq")[1..]])
  }

  /** Via and CSeq of a message whose keys can be read back from the wire. */
  ghost predicate Reparsable(s: Store) {
    && Lookup(s, "via") != [] && Lookup(s, "via")[0].ViaHeader? && Lookup(s, "via")[0].hops != []
    && Lookup(s, "cseq") != [] && Lookup(s, "cseq")[0].CSeqHeader?
    && (var hops := Lookup(s, "via")[0].hops;
        forall i :: 0 <= i < |hops| ==> PrintableHop(hops[i]) && LegalHop(hops[i]))
    && Lookup(s, "cseq")[0].seqNo <= MAX_CSEQ && LegalMethod(Lookup(s, "cseq")[0].requestMethod)
  }

  /** Printing Via and CSeq and parsing them again leaves both keys of the message as they are. */
  lemma ReparsedKeepsKeys(s: Store)
    requires Reparsable(s)
    ensures var c := Lookup(s, "cseq")[0];
            var via := ParseVia(PrintVia(Lookup(s, "via")[0].hops));
            var cseq := ParseCSeq(PrintCSeq(c.seqNo, c.requestMethod));
            && via.Via? && cseq.CSeq? && Lookup(WithHops(s, via.hops), "cseq") != []
            && (var r := WithCSeq(WithHops(s, via.hops), cseq.seqNo, cseq.requestMethod);
                MakeServerTxKey(r) == MakeServerTxKey(s) && MakeClientTxKey(r) == MakeClientTxKey(s))
  {
    hide ToLower, ParseVia, PrintVia, LegalHop, ParseCSeq, PrintCSeq, LegalMethod, MakeServerTxKey, MakeClientTxKey;
    var (hops, c) := (Lookup(s, "via")[0].hops, Lookup(s, "cseq")[0]);
    ViaRoundTrip(hops);
    CSeqRoundTripExactly(c.seqNo, c.requestMethod);
    SameFirst(s, hops, c.seqNo, c.requestMethod);
  }

  lemma SameFirst(s: Store, hops: seq<ViaHop>, seqNo: nat, m: string)
    requires Lookup(s, "via") != [] && Lookup(s, "via")[0] == ViaHeader(hops)
    requires Lookup(s, "cseq") != [] && Lookup(s, "cseq")[0] == CSeqHeader(seqNo, m)
    ensures Lookup(WithHops(s, hops), "cseq") != [] && WithCSeq(WithHops(s, hops), seqNo, m) == s
  {
    assert "via"[0] != "cseq"[0];
    assert [ViaHeader(hops)] + Lookup(s, "via")[1..] == Lookup(s, "via");
    assert [CSeqHeader(seqNo, m)] + Lookup(s, "cseq")[1..] == Lookup(s, "cseq");
  }

  /** What sending a request over the transport `transport` writes into its top hop. */
  function Rewritten(h: ViaHop, localHost: string, transport: string): ViaHop {
    h.(host := localHost, transport := transport, port := Some(DefaultPort(transport)),
       params := if "rport" in h.params.vals then h.params else h.params.Add("rport", None))
  }

  /** Sending a request rewrites its top hop but leaves the client key as it is. */
  lemma SendKeepsClientKey(s: Store, localHost: string, transport: string)
    requires TopHop(s).Some? && Lookup(s, "via") != [] && Lookup(s, "via")[0].ViaHeader? && Lookup(s, "via")[0].hops != []
    ensures var hops := Lookup(s, "via")[0].hops;
            MakeClientTxKey(WithHops(s, [Rewritten(hops[0], localHost, transport)] + hops[1..])) == MakeClientTxKey(s)
  {
    hide ToLower, DefaultPort;
    TopHopIsFirst(s);
    var hops := Lookup(s, "via")[0].hops;
    WithHopsTop(s, [Rewritten(hops[0], localHost, transport)] + hops[1..]);
    assert "rport"[0] != "branch"[0];
  }

  /** The Via and CSeq headers as they come back from the wire. */
  ghost function Reread(s: Store): Store
    requires Reparsable(s)
  {
    var c := Lookup(s, "cseq")[0];
    ReparsedKeepsKeys(s);
    var via := ParseVia(PrintVia(Lookup(s, "via")[0].hops));
    var cseq := ParseCSeq(PrintCSeq(c.seqNo, c.requestMethod));
    WithCSeq(WithHops(s, via.hops), cseq.seqNo, cseq.requestMethod)
  }

  /** The headers of a request with the top hop that sending over the transport writes. */
  function SentHeaders(s: Store, localHost: string, transport: string): Store
    requires Lookup(s, "via") != [] && Lookup(s, "via")[0].ViaHeader? && Lookup(s, "via")[0].hops != []
  {
    var hops := Lookup(s, "via")[0].hops;
    WithHops(s, [Rewritten(hops[0], localHost, transport)] + hops[1..])
  }

  /** A message with the Via and CSeq of the request `s` as it was sent and read again. */
  ghost predicate ComesBack(r: Store, s: Store, localHost: string, transport: string) {
    && Lookup(s, "via") != [] && Lookup(s, "via")[0].ViaHeader? && Lookup(s, "via")[0].hops != []
    && Reparsable(SentHeaders(s, localHost, transport))
    && (var back := Reread(SentHeaders(s, localHost, transport));
        Lookup(r, "via") == Lookup(back, "via") && Lookup(r, "cseq") == Lookup(back, "cseq"))
  }

  /** It has the client key of the request. */
  lemma ComesBackKey(r: Store, s: Store, localHost: string, transport: string)
    requires ComesBack(r, s, localHost, transport) && MakeClientTxKey(s).Key?
    ensures MakeClientTxKey(r) == MakeClientTxKey(s)
  {
    KeyedTop(s);
    hide MakeClientTxKey, MakeServerTxKey, Lookup, Reparsable, SentHeaders;
    SendKeepsClientKey(s, localHost, transport);
    var sent := SentHeaders(s, localHost, transport);
    SentIs(s, localHost, transport);
    ReparsedKeepsKeys(sent);
    SameKeys(r, Reread(sent));
  }

  lemma KeyedTop(s: Store)
    requires MakeClientTxKey(s).Key?
    ensures TopHop(s).Some?
  {
  }

  lemma SentIs(s: Store, localHost: string, transport: string)
    requires Lookup(s, "via") != [] && Lookup(s, "via")[0].ViaHeader? && Lookup(s, "via")[0].hops != []
    ensures var hops := Lookup(s, "via")[0].hops;
            SentHeaders(s, localHost, transport) == WithHops(s, [Rewritten(hops[0], localHost, transport)] + hops[1..])
  {
  }
}
