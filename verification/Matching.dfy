/** Which messages belong together: the texts of the keys, and which requests find the transaction of another one. */
module Matching {
  import opened Wrappers
  import opened Text
  import opened Vias
  import opened HeaderStore
  import opened TxKeys
  import opened LayerSteps
  import opened LayerRuns
  import opened LayerDelivery
  import S = ServerSteps

  /** The port of a hop; without one, 5061 for TLS and 5060 for anything else. */
  function HopPort(hop: ViaHop): nat {
    if hop.port.Some? then hop.port.value else if ToLower(hop.transport) == "tls" then 5061 else 5060
  }

  /**
   * With a branch that starts with the magic cookie and goes on, the server key is branch, host, port and method, and
   * the client key branch and method, joined with two underscores; an ACK has the keys of its INVITE, a CANCEL its
   * server key.
   */
  lemma KeysAre(s: Store, hop: ViaHop, b: string, m: string)
    requires TopHop(s) == Some(hop) && BranchParam(hop) == BranchOf(b) && CSeqMethod(s) == Some(m)
    requires 7 < |b| && b[..7] == "z9hG4bK"
    ensures MakeServerTxKey(s) == Key(b + "__" + hop.host + "__" + Decimal(HopPort(hop)) + "__" +
                                      if m == "ACK" || m == "CANCEL" then "INVITE" else m)
    ensures MakeClientTxKey(s) == Key(b + "__" + if m == "ACK" then "INVITE" else m)
  {
    hide TopHop, CSeqMethod, BranchParam, ServerKeyText, Decimal;
    ServerKeyShape(b, hop.host, PortOf(hop), ServerMethod(m));
    var cm := if m == "ACK" then "INVITE" else m;
    assert [b, cm] == [b] + [cm];
    JoinPair(b, [cm], "__");
  }

  /** Any other branch, or none, leaves the server key to RFC 2543 and gives no client key; one without a value panics. */
  lemma OtherBranches(s: Store, hop: ViaHop, m: string, legacy: LegacyKey)
    requires TopHop(s) == Some(hop) && CSeqMethod(s) == Some(m)
    requires BranchParam(hop).BranchOf? ==> |BranchParam(hop).text| <= 7 || BranchParam(hop).text[..7] != "z9hG4bK"
    ensures !BranchParam(hop).NilBranch? ==>
              && MakeClientTxKey(s) == NoKey
              && ServerKey(s, legacy) == if legacy(s).Some? then Key(legacy(s).value) else NoKey
    ensures BranchParam(hop).NilBranch? ==> MakeClientTxKey(s) == KeyCrash && ServerKey(s, legacy) == KeyCrash
  {
    hide TopHop, CSeqMethod;
  }

  /** A request is of the transaction that another one creates: it repeats it, or is the ACK or CANCEL of an INVITE. */
  predicate Belongs(req: Request, first: Request) {
    || req.requestMethod == first.requestMethod
    || (first.requestMethod == "INVITE" && (req.requestMethod == "ACK" || req.requestMethod == "CANCEL"))
  }

  /**
   * While the pool holds the server transaction that a request created, another request finds it if and only if it
   * has the same branch, host and port in its top hop and belongs to it.
   */
  lemma FindsExactly(l: Layer, first: Request, n: nat, req: Request, legacy: LegacyKey)
    requires LayerInv(l) && WellFormed(first) && NeedsTransaction(first) && WellFormed(req)
    requires Holds(l, KeyText(ViaOf(first.headers).value, first.requestMethod), n) && l.txs[n].tx.ServerSide?
    requires '_' !in ViaOf(first.headers).value.host && '_' !in ViaOf(req.headers).value.host
    ensures FindsServer(l, req.headers, legacy, n) <==> ViaOf(req.headers) == ViaOf(first.headers) && Belongs(req, first)
  {
    hide ServerKeyText, ServerKey, ServerOk, ViaOf, CSeqMethod;
    var (v, w) := (ViaOf(first.headers).value, ViaOf(req.headers).value);
    var m := if req.requestMethod == "ACK" || req.requestMethod == "CANCEL" then "INVITE" else req.requestMethod;
    KeyOf(req, legacy);
    MethodNoUnderscore(req.requestMethod);
    if FindsServer(l, req.headers, legacy, n) {
      assert KeyText(w, m) == KeyText(v, first.requestMethod);
      ServerKeyInjective(w.branch, w.host, w.port, m, v.branch, v.host, v.port, first.requestMethod);
    }
  }

  /** What a request does that finds a transaction: the transaction receives it, and nothing else changes. */
  lemma RequestReaches(l: Layer, req: Request, legacy: LegacyKey, n: nat, ok: bool)
    requires FindsServer(l, req.headers, legacy, n)
    ensures HandleRequest(l, req, legacy, ok) ==
            var tx := ServerSide(S.Receive(l.txs[n].tx.server, req.requestMethod, req.id, ok));
            l.(txs := l.txs[n := l.txs[n].(tx := tx)])
  {
    hide ServerKey, FindServer, S.Receive;
    ServerFound(l, req.headers, legacy);
  }

  /**
   * An INVITE that created a transaction, and any run on well-formed requests in which nothing claims its key: an ACK
   * or CANCEL then finds the transaction if and only if it has the INVITE's branch, host and port.
   */
  lemma AckAndCancelFind(l: Layer, invite: Request, ok: bool, run: seq<Event>, req: Request, legacy: LegacyKey)
    requires LayerInv(l) && WellFormed(invite) && invite.requestMethod == "INVITE"
    requires FindServer(l, invite.headers, legacy).Absent?
    requires Legal(HandleRequest(l, invite, legacy, ok), run, legacy) && AllAdmissible(run)
    requires WellFormed(req) && (req.requestMethod == "ACK" || req.requestMethod == "CANCEL")
    requires '_' !in ViaOf(invite.headers).value.host && '_' !in ViaOf(req.headers).value.host
    ensures var l1 := HandleRequest(l, invite, legacy, ok);
            var u := After(l1, run, legacy);
            !Claimed(l1, run, legacy, KeyText(ViaOf(invite.headers).value, "INVITE")) ==>
              (FindsServer(u, req.headers, legacy, |l.txs|) <==> ViaOf(req.headers) == ViaOf(invite.headers))
  {
    hide LayerInv, HandleRequest, Next, Enabled, KeyText, ViaOf, FindServer, FindsServer, Claimed, HandedUp, Admissible;
    var l1 := HandleRequest(l, invite, legacy, ok);
    var key := KeyText(ViaOf(invite.headers).value, "INVITE");
    CreationHandsUp(l, invite, legacy, ok);
    ArrivalKeeps(l, invite, legacy, ok);
    LayerRun(l1, run, legacy);
    HoldsRun(l1, run, legacy, key, |l.txs|);
    RecordRun(l1, run, legacy, |l.txs|);
    if !Claimed(l1, run, legacy, key) {
      FindsExactly(After(l1, run, legacy), invite, |l.txs|, req, legacy);
    }
  }
}
