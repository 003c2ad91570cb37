/** Requests and their responses through the layer, from the message that arrives to the transaction that it changes. */
module LayerAnswers {
  import opened Wrappers
  import opened Timing
  import opened Responses
  import opened Tables
  import opened HeaderStore
  import opened TxKeys
  import opened LayerSteps
  import opened LayerRuns
  import opened LayerDelivery
  import opened CreatedResponses
  import LayerLives
  import ServerSpec
  import ClientSpec
  import S = ServerSteps
  import SR = ServerRuns
  import C = ClientSteps
  import CR = ClientRuns

  /** Only the transaction `n` of the layer changes, and it becomes `tx`. */
  predicate Becomes(l: Layer, u: Layer, n: nat, tx: AnyTx) {
    n < |l.txs| && u == l.(txs := l.txs[n := l.txs[n].(tx := tx)])
  }

  /** A response as a transaction sees it: its code, whether it answers a CANCEL, and which one it is. */
  function Seen(res: Reply): Response {
    Response(res.code, CSeqMethod(res.headers) == Some("CANCEL"), res.id)
  }

  // ---- responses for the user's requests

  /**
   * What a client transaction does with a response: it goes up exactly in Calling and Proceeding, and a 300+ to an
   * INVITE is acknowledged exactly until the transaction is Terminated.
   */
  predicate Delivered(t: C.Tx, u: C.Tx, resp: Response, ok: bool) {
    && u.table == t.table
    && u.out.ups == t.out.ups + (if t.state == C.Calling || t.state == C.Proceeding then [resp] else [])
    && (t.table.InviteTable? ==>
          u.out.acks == t.out.acks + if t.state != C.Terminated && 300 <= resp.code then [C.Acked(resp, ok)] else [])
    && u.out.sends == t.out.sends && u.out.timeouts == t.out.timeouts
  }

  lemma ReceiveKeepsSends(t: C.Tx, start: nat, r: Response, ok: bool)
    requires CR.ClientInv(t, start)
    ensures var u := C.Receive(t, r, ok); u.out.sends == t.out.sends && u.out.timeouts == t.out.timeouts
  {
    hide C.Spin, CR.ClientInv, CR.Settled;
    var t1 := t.(lastResp := Some(r));
    CR.SpinSettles(t1, C.InputOf(r), ok);
    SettledKeepsSends(t1, C.InputOf(r), ok);
  }

  lemma SettledKeepsSends(t: C.Tx, i: C.Input, ok: bool)
    requires i in {C.Got1xx, C.Got2xx, C.Got300Plus}
    ensures var u := CR.Settled(t, i, ok); u.out.sends == t.out.sends && u.out.timeouts == t.out.timeouts
  {
    hide C.Row, C.Act, CR.Failed, CR.Closed;
    if C.Row(t, i).Some? {
      var row := C.Row(t, i).value;
      AnswerRow(t, i);
      ActKeepsSends(t, row.action, ok);
      EndKeepsSends(C.Act(t, row.action, ok).0.(state := row.state));
    }
  }

  lemma AnswerRow(t: C.Tx, i: C.Input)
    requires i in {C.Got1xx, C.Got2xx, C.Got300Plus} && C.Row(t, i).Some?
    ensures C.Row(t, i).value.action !in {C.InviteResend, C.NonInviteResend, C.Timeout}
  {
  }

  lemma ActKeepsSends(t: C.Tx, a: C.Action, ok: bool)
    requires a !in {C.InviteResend, C.NonInviteResend, C.Timeout}
    ensures var u := C.Act(t, a, ok).0; u.out.sends == t.out.sends && u.out.timeouts == t.out.timeouts
  {
  }

  lemma EndKeepsSends(t: C.Tx)
    ensures CR.Failed(t).out.sends == t.out.sends && CR.Failed(t).out.timeouts == t.out.timeouts
    ensures CR.Closed(t).out.sends == t.out.sends && CR.Closed(t).out.timeouts == t.out.timeouts
  {
  }

  lemma ReceiveDelivers(t: C.Tx, start: nat, r: Response, ok: bool)
    requires CR.ClientInv(t, start)
    ensures Delivered(t, C.Receive(t, r, ok), r, ok)
  {
    hide C.Receive, CR.ClientInv;
    CR.RecvEffects(t, start, r, ok);
    ReceiveKeepsSends(t, start, r, ok);
    CR.SameTable(t, [CR.Recv(r, ok)]);
    OneClientStep(t, CR.Recv(r, ok));
  }

  /** A response that finds a client transaction changes that transaction only. */
  lemma ReplyBecomes(l: Layer, res: Reply, n: nat, ok: bool)
    requires FindsClient(l, res.headers, n)
    ensures Becomes(l, HandleResponse(l, res, ok), n, ClientSide(C.Receive(l.txs[n].tx.client, Seen(res), ok)))
  {
    hide C.Receive, MakeClientTxKey, FindClient;
    ClientFound(l, res.headers);
  }

  /**
   * In every run of the layer, a response that finds a client transaction whose first send succeeded is delivered to
   * it, and to nothing else.
   */
  lemma ReplyDelivered(run: seq<Event>, legacy: LegacyKey, res: Reply, n: nat, ok: bool)
    requires Legal(EMPTY_LAYER, run, legacy) && FindsClient(After(EMPTY_LAYER, run, legacy), res.headers, n)
    requires After(EMPTY_LAYER, run, legacy).txs[n].served
    ensures var l := After(EMPTY_LAYER, run, legacy);
            var u := HandleResponse(l, res, ok);
            && n < |u.txs| && u.txs[n].tx.ClientSide? && Becomes(l, u, n, u.txs[n].tx)
            && Delivered(l.txs[n].tx.client, u.txs[n].tx.client, Seen(res), ok)
  {
    hide Next, Enabled, HandleResponse, C.Receive, Delivered, MakeClientTxKey, LayerLives.Lives, Seen;
    var l := After(EMPTY_LAYER, run, legacy);
    LayerLives.FromEmpty(run, legacy, n);
    InvInLayer(l.txs[n], l.now);
    ReplyBecomes(l, res, n, ok);
    ReceiveDelivers(l.txs[n].tx.client, l.txs[n].start, Seen(res), ok);
  }

  lemma InvInLayer(r: Record, now: nat)
    requires LayerLives.Lives(r, now) && r.tx.ClientSide? && r.served
    ensures CR.ClientInv(r.tx.client, r.start)
  {
    hide CR.Next, CR.Enabled, CR.ClientInv, C.Init, C.New;
    var t := r.tx.client;
    var m, own :| LayerLives.ClientLives(t, m, true, r.start, own);
    CR.Starts(m, t.reliable, r.start);
    CR.ClientRun(C.Init(C.New(m, t.reliable, r.start), true), r.start, own);
  }

  /**
   * After a request of the user was sent, every run of the layer passes up, through its transaction, exactly the
   * responses that its own run received in Calling or Proceeding, and acknowledges an INVITE's 300+ responses one by
   * one. As long as nothing claims the key, a response with Via and CSeq of the request as it was sent finds it.
   */
  lemma SentRequestAnswered(l: Layer, req: Request, key: string, run: seq<Event>, legacy: LegacyKey,
                            s: Store, localHost: string, transport: string)
    requires NeedsKey(req, key) && Legal(SendRequest(l, req, true), run, legacy)
    ensures var (l1, n) := (SendRequest(l, req, true), |l.txs|);
            var (u, t0) := (After(l1, run, legacy), C.Init(C.New(req.requestMethod, req.reliable, l.now), true));
            var own := OwnClientRun(l1, run, legacy, n);
            && n < |u.txs| && CR.Legal(t0, own) && u.txs[n].tx == ClientSide(CR.After(t0, own))
            && u.txs[n].tx.client.out.ups == CR.EarlyReceived(t0, own)
            && (req.requestMethod == "INVITE" ==>
                  CR.AckedResponses(u.txs[n].tx.client.out.acks) == CR.FailuresReceived(t0, own))
            && (ComesBack(s, req.headers, localHost, transport) && !Claimed(l1, run, legacy, key) ==>
                  FindsClient(u, s, n))
  {
    hide C.Init, C.New, CR.Next, CR.Enabled, Next, Enabled, MakeClientTxKey, ComesBack, CR.ClientInv, Claimed;
    var (l1, n) := (SendRequest(l, req, true), |l.txs|);
    OwnRunOfSent(l, req, key, run, legacy);
    HoldsRun(l1, run, legacy, key, n);
    NothingYet(req.requestMethod, req.reliable, l.now);
    var (t0, own) := (C.Init(C.New(req.requestMethod, req.reliable, l.now), true), OwnClientRun(l1, run, legacy, n));
    CR.Starts(req.requestMethod, req.reliable, l.now);
    CR.ExactlyOnce(t0, l.now, own);
    assert [] + CR.EarlyReceived(t0, own) == CR.EarlyReceived(t0, own);
    assert [] + CR.FailuresReceived(t0, own) == CR.FailuresReceived(t0, own);
    if ComesBack(s, req.headers, localHost, transport) {
      ComesBackKey(s, req.headers, localHost, transport);
    }
  }

  predicate NeedsKey(req: Request, key: string) {
    req.requestMethod != "ACK" && MakeClientTxKey(req.headers) == Key(key)
  }

  lemma NothingYet(m: string, reliable: bool, start: nat)
    ensures var t := C.Init(C.New(m, reliable, start), true);
            t.out.ups == [] && t.out.acks == [] && t.table == TableFor(m) && CR.AckedResponses(t.out.acks) == []
  {
  }

  lemma OwnRunOfSent(l: Layer, req: Request, key: string, run: seq<Event>, legacy: LegacyKey)
    requires NeedsKey(req, key) && Legal(SendRequest(l, req, true), run, legacy)
    ensures var (l1, n) := (SendRequest(l, req, true), |l.txs|);
            var (u, t0) := (After(l1, run, legacy), C.Init(C.New(req.requestMethod, req.reliable, l.now), true));
            var own := OwnClientRun(l1, run, legacy, n);
            && n < |l1.txs| && n < |u.txs| && CR.Legal(t0, own) && u.txs[n].tx == ClientSide(CR.After(t0, own))
            && Holds(l1, key, n)
  {
    hide C.Init, C.New, CR.Next, CR.Enabled, Next, Enabled, MakeClientTxKey;
    var (l1, n) := (SendRequest(l, req, true), |l.txs|);
    RecordRun(l1, run, legacy, n);
    OwnRun(l1, run, legacy, n);
  }

  // ---- the user's responses

  /** A response of the user that finds a server transaction changes that transaction only. */
  lemma AnswerBecomes(l: Layer, res: Reply, legacy: LegacyKey, n: nat, ok: bool)
    requires FindsServer(l, res.headers, legacy, n)
    ensures Becomes(l, SendResponse(l, res, legacy, ok), n,
                    ServerSide(S.SendResponse(l.txs[n].tx.server, Seen(res), ok)))
  {
    hide S.SendResponse, ServerKey, FindServer;
    ServerFound(l, res.headers, legacy);
  }

  /**
   * The response that the user creates from a request reaches the transaction that the request finds, and no other:
   * with its code and number, forwarded if the request is a CANCEL and offered to the state machine otherwise.
   */
  lemma AnswerReaches(l: Layer, req: Request, code: nat, tag: string, id: nat, legacy: LegacyKey, n: nat, ok: bool)
    requires WellFormed(req) && req.headers.Sound() && FindsServer(l, req.headers, legacy, n)
    ensures var u := SendResponse(l, Reply(code, ResponseHeaders(req.headers, code, tag), id), legacy, ok);
            var (t, resp) := (l.txs[n].tx.server, Response(code, req.requestMethod == "CANCEL", id));
            && n < |u.txs| && u.txs[n].tx == ServerSide(SR.Next(t, SR.Offer(resp, ok))) && Becomes(l, u, n, u.txs[n].tx)
            && u.txs[n].tx.server.out.forwarded ==
               t.out.forwarded + (if req.requestMethod == "CANCEL" then [resp] else [])
            && u.txs[n].tx.server.out.offered == t.out.offered + if req.requestMethod == "CANCEL" then [] else [resp]
  {
    hide S.SendResponse, ServerKey, ResponseHeaders, MakeServerTxKey, KeyText, CSeqMethod;
    var headers := ResponseHeaders(req.headers, code, tag);
    ResponseKeepsKeys(req.headers, code, tag);
    WellFormedKey(req);
    SameServerKey(req.headers, headers, legacy);
    ResponseKeepsMethod(req.headers, code, tag);
    AnswerBecomes(l, Reply(code, headers, id), legacy, n, ok);
    var (t, resp) := (l.txs[n].tx.server, Response(code, req.requestMethod == "CANCEL", id));
    OfferRecords(t, resp, ok);
  }

  lemma WellFormedKey(req: Request)
    requires WellFormed(req)
    ensures MakeServerTxKey(req.headers).Key?
  {
    hide ServerKeyText, CSeqMethod, TopHop;
  }

  lemma SameServerKey(a: Store, b: Store, legacy: LegacyKey)
    requires MakeServerTxKey(a) == MakeServerTxKey(b) && MakeServerTxKey(a).Key?
    ensures ServerKey(a, legacy) == ServerKey(b, legacy)
  {
    hide MakeServerTxKey;
  }

  lemma OfferRecords(t: S.Tx, r: Response, ok: bool)
    ensures var u := S.SendResponse(t, r, ok);
            && u.out.forwarded == t.out.forwarded + (if r.cancel then [r] else [])
            && u.out.offered == t.out.offered + if r.cancel then [] else [r]
  {
    hide S.Spin;
    SpinForwardsNothing(t.(lastResp := Some(r), timer1xx := t.timer1xx.Stopped(),
                           out := t.out.(offered := t.out.offered + [r])), S.UserInput(r), ok);
  }

  lemma {:induction false} SpinForwardsNothing(t: S.Tx, i: S.Input, ok: bool)
    ensures S.Spin(t, i, ok).out.forwarded == t.out.forwarded && S.Spin(t, i, ok).out.offered == t.out.offered
    decreases S.Rank(i)
  {
    hide S.InviteRow, S.NonInviteRow, S.Row, S.Act;
    if S.Row(t, i).Some? {
      var row := S.Row(t, i).value;
      var (t1, next) := S.Act(t, i, row.action, ok);
      ActForwardsNothing(t, i, row.action, ok);
      if next.Some? {
        SpinForwardsNothing(t1.(state := row.state), next.value, ok);
      }
    }
  }

  lemma ActForwardsNothing(t: S.Tx, i: S.Input, a: S.Action, ok: bool)
    ensures S.Act(t, i, a, ok).0.out.forwarded == t.out.forwarded
  {
    hide S.Deleted, S.RespondCompleted, S.Confirming, S.CancelAccepted, S.CancelRefused;
    CallsForwardNothing(t);
  }

  lemma CallsForwardNothing(t: S.Tx)
    ensures S.Confirming(t).out.forwarded == t.out.forwarded
    ensures S.CancelAccepted(t).out.forwarded == t.out.forwarded && S.CancelRefused(t).out.forwarded == t.out.forwarded
  {
  }

  // ---- transactions in the layer as specified

  /**
   * The transaction that an event creates does, in every run of the layer from then on, what its specification does on
   * the steps that the layer's events are for it, from the instant of its creation.
   */
  lemma AsSpecified(l: Layer, e: Event, run: seq<Event>, legacy: LegacyKey)
    requires Creates(l, e, legacy) && Enabled(l, e) && Legal(Next(l, e, legacy), run, legacy)
    ensures var (l1, n) := (Next(l, e, legacy), |l.txs|);
            var u := After(l1, run, legacy);
            && n < |u.txs| && (u.txs[n].tx.ServerSide? <==> e.Arrives?)
            && (e.Arrives? ==>
                  ServerSpec.Same(u.txs[n].tx.server,
                                  ServerSpec.SpecAfter(ServerSpec.Begin(e.req.requestMethod, e.req.reliable, l.now),
                                                       OwnServerRun(l1, run, legacy, n))))
            && (e.UserRequest? ==>
                  ClientSpec.Same(u.txs[n].tx.client,
                                  ClientSpec.SpecAfter(ClientSpec.Begin(e.req.requestMethod, e.req.reliable, l.now, e.ok),
                                                       OwnClientRun(l1, run, legacy, n))))
  {
    hide Next, Enabled, S.Fresh, C.Init, C.New, ServerSpec.Same, ClientSpec.Same, Stray, ServerKey, MakeClientTxKey;
    hide ServerSpec.Begin, ClientSpec.Begin, SR.After, SR.Legal, CR.After, CR.Legal;
    var (l1, n) := (Next(l, e, legacy), |l.txs|);
    CreationStep(l, e, legacy);
    RecordRun(l1, run, legacy, n);
    OwnRun(l1, run, legacy, n);
    match e {
      case Arrives(req, _) =>
        ServerSpec.ServerRefines(req.requestMethod, req.reliable, l.now, OwnServerRun(l1, run, legacy, n));
      case UserRequest(req, ok) =>
        ClientSpec.ClientRefines(req.requestMethod, req.reliable, l.now, ok, OwnClientRun(l1, run, legacy, n));
    }
  }
}
