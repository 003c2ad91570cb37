/**
 * What the layer delivers: every event is, for each transaction, one step of that transaction's own run or none, and
 * what the layer hands up, refuses and sends by itself is exactly what its events say, in order.
 */
module LayerDelivery {
  import opened Wrappers
  import opened Timing
  import opened Responses
  import opened Tables
  import opened HeaderStore
  import opened TxKeys
  import opened LayerSteps
  import opened LayerRuns
  import S = ServerSteps
  import SR = ServerRuns
  import C = ClientSteps
  import CR = ClientRuns

  // ---- what finds a transaction

  /** The pool holds the transaction `n` under the key of a message. */
  predicate Keyed(l: Layer, key: KeyResult, n: nat) {
    key.Key? && key.key in l.pool && l.pool[key.key] == n && n < |l.txs|
  }

  predicate FindsServer(l: Layer, s: Store, legacy: LegacyKey, n: nat) {
    Keyed(l, ServerKey(s, legacy), n) && l.txs[n].tx.ServerSide?
  }

  predicate FindsClient(l: Layer, s: Store, n: nat) {
    Keyed(l, MakeClientTxKey(s), n) && l.txs[n].tx.ClientSide?
  }

  /** No server transaction is found, and looking it up does not panic. */
  ghost predicate Stray(l: Layer, s: Store, legacy: LegacyKey) {
    !NilBranchMessage(s) && forall n: nat :: !FindsServer(l, s, legacy, n)
  }

  ghost predicate StrayReply(l: Layer, s: Store) {
    !NilBranchMessage(s) && forall n: nat :: !FindsClient(l, s, n)
  }

  lemma ServerFound(l: Layer, s: Store, legacy: LegacyKey)
    ensures forall n :: FindServer(l, s, legacy) == Found(n) <==> FindsServer(l, s, legacy, n)
    ensures FindServer(l, s, legacy).Crashes? <==> NilBranchMessage(s)
    ensures FindServer(l, s, legacy).Absent? || FindServer(l, s, legacy).Unkeyed? <==> Stray(l, s, legacy)
    ensures FindServer(l, s, legacy).Absent? ==> ServerKey(s, legacy) == Key(FindServer(l, s, legacy).key)
    ensures FindServer(l, s, legacy).Unkeyed? <==> ServerKey(s, legacy).NoKey? || ServerKey(s, legacy).Legacy?
  {
    hide ServerKey, NilBranchMessage;
    KeyPanics(s, legacy);
  }

  lemma ClientFound(l: Layer, s: Store)
    ensures forall n :: FindClient(l, s) == Found(n) <==> FindsClient(l, s, n)
    ensures FindClient(l, s).Crashes? <==> NilBranchMessage(s)
    ensures FindClient(l, s).Absent? || FindClient(l, s).Unkeyed? <==> StrayReply(l, s)
  {
    hide MakeClientTxKey, NilBranchMessage;
    KeyPanics(s, (_: Store) => None);
  }

  // ---- the share of one transaction in an event

  /** The step that an event is for the server transaction `n`. */
  function ServerShare(l: Layer, e: Event, legacy: LegacyKey, n: nat): seq<SR.Step> {
    match e
    case Arrives(req, ok) =>
      if FindsServer(l, req.headers, legacy, n) then [SR.Recv(req.requestMethod, req.id, ok)] else []
    case UserReply(res, ok) =>
      if FindsServer(l, res.headers, legacy, n) then
        [SR.Offer(Response(res.code, CSeqMethod(res.headers) == Some("CANCEL"), res.id), ok)]
      else []
    case ServerTimer(m, timer, ok) => if m == n then [SR.Fires(timer, ok)] else []
    case Wait(d) => [SR.Wait(d)]
    case _ => []
  }

  /** The step that an event is for the client transaction `n`. */
  function ClientShare(l: Layer, e: Event, n: nat): seq<CR.Step> {
    match e
    case ReplyArrives(res, ok) =>
      if FindsClient(l, res.headers, n) then
        [CR.Recv(Response(res.code, CSeqMethod(res.headers) == Some("CANCEL"), res.id), ok)]
      else []
    case ClientTimer(m, timer, ok) => if m == n then [CR.Fires(timer, ok)] else []
    case Wait(d) => [CR.Wait(d)]
    case _ => []
  }

  lemma OneServerStep(t: S.Tx, s: SR.Step)
    ensures SR.After(t, [s]) == SR.Next(t, s) && SR.After(t, []) == t
    ensures (SR.Legal(t, [s]) <==> SR.Enabled(t, s)) && SR.Legal(t, [])
  {
    hide SR.Next, SR.Enabled;
    assert [s][1..] == [];
    assert SR.After(SR.Next(t, s), []) == SR.Next(t, s) && SR.Legal(SR.Next(t, s), []);
  }

  lemma OneClientStep(t: C.Tx, s: CR.Step)
    ensures CR.After(t, [s]) == CR.Next(t, s) && CR.After(t, []) == t
    ensures (CR.Legal(t, [s]) <==> CR.Enabled(t, s)) && CR.Legal(t, [])
  {
    hide CR.Next, CR.Enabled;
    assert [s][1..] == [];
    assert CR.After(CR.Next(t, s), []) == CR.Next(t, s) && CR.Legal(CR.Next(t, s), []);
  }

  /** A server transaction takes exactly its share of an event. */
  lemma ServerTakesShare(l: Layer, e: Event, legacy: LegacyKey, n: nat)
    requires n < |l.txs| && l.txs[n].tx.ServerSide? && Enabled(l, e)
    ensures var (t, share) := (l.txs[n].tx.server, ServerShare(l, e, legacy, n));
            && SR.Legal(t, share) && n < |Next(l, e, legacy).txs|
            && Next(l, e, legacy).txs[n].tx == ServerSide(SR.After(t, share))
  {
    hide FindServer, FindClient, ServerKey, MakeClientTxKey, S.Spin, S.Fresh, S.SendResponse, S.Receive, S.Fire;
    hide C.Receive, C.Init, C.New, CR.Next, SR.After, SR.Legal, HandleResponse, SendRequest;
    var t := l.txs[n].tx.server;
    OneServerStep(t, SR.Wait(0));
    match e {
      case Arrives(req, ok) =>
        ServerFound(l, req.headers, legacy);
        OneServerStep(t, SR.Recv(req.requestMethod, req.id, ok));
      case UserReply(res, ok) =>
        ServerFound(l, res.headers, legacy);
        OneServerStep(t, SR.Offer(AsResponse(res), ok));
      case ServerTimer(m, timer, ok) => OneServerStep(t, SR.Fires(timer, ok));
      case Wait(d) =>
        assert MayWait(l.txs[n].tx, d);
        OneServerStep(t, SR.Wait(d));
      case ReplyArrives(res, ok) => ReplySpares(l, res, ok, n);
      case UserRequest(req, ok) => RequestSpares(l, req, ok, n);
      case _ =>
    }
  }

  lemma ReplySpares(l: Layer, res: Reply, ok: bool, n: nat)
    requires n < |l.txs| && l.txs[n].tx.ServerSide?
    ensures n < |HandleResponse(l, res, ok).txs| && HandleResponse(l, res, ok).txs[n] == l.txs[n]
  {
    hide C.Receive, MakeClientTxKey;
  }

  lemma RequestSpares(l: Layer, req: Request, ok: bool, n: nat)
    requires n < |l.txs|
    ensures n < |SendRequest(l, req, ok).txs| && SendRequest(l, req, ok).txs[n] == l.txs[n]
  {
    hide C.Init, C.New, MakeClientTxKey;
  }

  lemma ArrivalSpares(l: Layer, req: Request, legacy: LegacyKey, ok: bool, n: nat)
    requires n < |l.txs| && l.txs[n].tx.ClientSide?
    ensures var u := HandleRequest(l, req, legacy, ok); n < |u.txs| && u.txs[n] == l.txs[n]
  {
    hide S.Receive, S.Fresh, ServerKey;
  }

  lemma AnswerSpares(l: Layer, res: Reply, legacy: LegacyKey, ok: bool, n: nat)
    requires n < |l.txs| && l.txs[n].tx.ClientSide?
    ensures var u := SendResponse(l, res, legacy, ok); n < |u.txs| && u.txs[n] == l.txs[n]
  {
    hide S.SendResponse, ServerKey;
  }

  /** A client transaction takes exactly its share of an event. */
  lemma ClientTakesShare(l: Layer, e: Event, legacy: LegacyKey, n: nat)
    requires n < |l.txs| && l.txs[n].tx.ClientSide? && Enabled(l, e)
    ensures var (t, share) := (l.txs[n].tx.client, ClientShare(l, e, n));
            && CR.Legal(t, share) && n < |Next(l, e, legacy).txs|
            && Next(l, e, legacy).txs[n].tx == ClientSide(CR.After(t, share))
  {
    hide FindServer, FindClient, ServerKey, MakeClientTxKey, C.Spin, C.Receive, C.Fire, C.Init, C.New;
    hide SR.Next, CR.After, CR.Legal, HandleRequest, SendRequest, SendResponse;
    var t := l.txs[n].tx.client;
    OneClientStep(t, CR.Wait(0));
    match e {
      case ReplyArrives(res, ok) =>
        ClientFound(l, res.headers);
        OneClientStep(t, CR.Recv(AsResponse(res), ok));
      case ClientTimer(m, timer, ok) => OneClientStep(t, CR.Fires(timer, ok));
      case Wait(d) =>
        assert MayWait(l.txs[n].tx, d);
        OneClientStep(t, CR.Wait(d));
      case Arrives(req, ok) => ArrivalSpares(l, req, legacy, ok, n);
      case UserReply(res, ok) => AnswerSpares(l, res, legacy, ok, n);
      case UserRequest(req, ok) => RequestSpares(l, req, ok, n);
      case _ =>
    }
  }

  // ---- the own run of a transaction

  ghost function OwnServerRun(l: Layer, run: seq<Event>, legacy: LegacyKey, n: nat): seq<SR.Step>
    requires Legal(l, run, legacy)
    decreases |run|
  {
    if run == [] then []
    else (if n < |l.txs| then ServerShare(l, run[0], legacy, n) else [])
         + OwnServerRun(Next(l, run[0], legacy), run[1..], legacy, n)
  }

  ghost function OwnClientRun(l: Layer, run: seq<Event>, legacy: LegacyKey, n: nat): seq<CR.Step>
    requires Legal(l, run, legacy)
    decreases |run|
  {
    if run == [] then []
    else (if n < |l.txs| then ClientShare(l, run[0], n) else [])
         + OwnClientRun(Next(l, run[0], legacy), run[1..], legacy, n)
  }

  lemma {:induction false} ServerRunsOn(t: S.Tx, a: seq<SR.Step>, b: seq<SR.Step>)
    ensures SR.Legal(t, a + b) <==> SR.Legal(t, a) && SR.Legal(SR.After(t, a), b)
    ensures SR.After(t, a + b) == SR.After(SR.After(t, a), b)
    decreases |a|
  {
    hide SR.Next, SR.Enabled;
    if a == [] {
      assert [] + b == b;
    } else {
      assert (a + b)[1..] == a[1..] + b;
      ServerRunsOn(SR.Next(t, a[0]), a[1..], b);
    }
  }

  lemma {:induction false} ClientRunsOn(t: C.Tx, a: seq<CR.Step>, b: seq<CR.Step>)
    ensures CR.Legal(t, a + b) <==> CR.Legal(t, a) && CR.Legal(CR.After(t, a), b)
    ensures CR.After(t, a + b) == CR.After(CR.After(t, a), b)
    decreases |a|
  {
    hide CR.Next, CR.Enabled;
    if a == [] {
      assert [] + b == b;
    } else {
      assert (a + b)[1..] == a[1..] + b;
      ClientRunsOn(CR.Next(t, a[0]), a[1..], b);
    }
  }

  /** The event creates a transaction. */
  ghost predicate Creates(l: Layer, e: Event, legacy: LegacyKey) {
    match e
    case Arrives(req, _) =>
      && req.requestMethod != "ACK" && req.requestMethod != "CANCEL"
      && ServerKey(req.headers, legacy).Key? && Stray(l, req.headers, legacy)
    case UserRequest(req, _) => req.requestMethod != "ACK" && MakeClientTxKey(req.headers).Key?
    case _ => false
  }

  /** The record of the transaction that an event creates. */
  ghost function Born(l: Layer, e: Event, legacy: LegacyKey): Record
    requires Creates(l, e, legacy)
  {
    match e
    case Arrives(req, _) =>
      Record(ServerKey(req.headers, legacy).key, l.now,
             ServerSide(S.Fresh(req.requestMethod, req.reliable, l.now)), true, false)
    case UserRequest(req, ok) =>
      Record(MakeClientTxKey(req.headers).key, l.now,
             ClientSide(C.Init(C.New(req.requestMethod, req.reliable, l.now), ok)), ok, false)
  }

  lemma CreationStep(l: Layer, e: Event, legacy: LegacyKey)
    requires Enabled(l, e)
    ensures |Next(l, e, legacy).txs| == |l.txs| + if Creates(l, e, legacy) then 1 else 0
    ensures Creates(l, e, legacy) ==>
              && Next(l, e, legacy).txs[|l.txs|] == Born(l, e, legacy)
              && Next(l, e, legacy).pool == l.pool[Born(l, e, legacy).key := |l.txs|]
  {
    hide S.Receive, S.SendResponse, S.Fresh, C.Receive, C.Init, C.New, SR.Next, CR.Next;
    hide ServerKey, MakeClientTxKey, FindServer, FindClient, Stray;
    match e {
      case Arrives(req, _) => ServerFound(l, req.headers, legacy);
      case UserReply(res, ok) => UserReplyPool(l, res, legacy, ok);
      case ReplyArrives(res, ok) => ReplyPool(l, res, ok);
      case _ =>
    }
  }

  /** What a transaction was at the start of a run, or when the run created it. */
  ghost function BornAs(l: Layer, run: seq<Event>, legacy: LegacyKey, n: nat): AnyTx
    requires Legal(l, run, legacy) && n < |After(l, run, legacy).txs|
    decreases |run|
  {
    if n < |l.txs| then l.txs[n].tx
    else if n == |l.txs| && Creates(l, run[0], legacy) then Born(l, run[0], legacy).tx
    else BornAs(Next(l, run[0], legacy), run[1..], legacy, n)
  }

  /** A transaction is what its own run makes of it. */
  ghost predicate Lived(tx0: AnyTx, tx: AnyTx, serverRun: seq<SR.Step>, clientRun: seq<CR.Step>) {
    match tx0
    case ServerSide(t) => SR.Legal(t, serverRun) && tx == ServerSide(SR.After(t, serverRun))
    case ClientSide(t) => CR.Legal(t, clientRun) && tx == ClientSide(CR.After(t, clientRun))
  }

  /**
   * In every run of the layer, each transaction is what the run made up of its shares of the layer's events makes of
   * the transaction that its own event created.
   */
  lemma {:induction false} OwnRun(l: Layer, run: seq<Event>, legacy: LegacyKey, n: nat)
    requires Legal(l, run, legacy) && n < |After(l, run, legacy).txs|
    ensures Lived(BornAs(l, run, legacy, n), After(l, run, legacy).txs[n].tx,
                  OwnServerRun(l, run, legacy, n), OwnClientRun(l, run, legacy, n))
    decreases |run|
  {
    hide Next, Enabled, SR.Next, SR.Enabled, CR.Next, CR.Enabled, ServerShare, ClientShare, Creates, Born;
    if run != [] {
      var u := Next(l, run[0], legacy);
      CreationStep(l, run[0], legacy);
      OwnRun(u, run[1..], legacy, n);
      if n < |l.txs| {
        OwnStep(l, run, legacy, n);
      } else {
        assert [] + OwnServerRun(u, run[1..], legacy, n) == OwnServerRun(u, run[1..], legacy, n);
        assert [] + OwnClientRun(u, run[1..], legacy, n) == OwnClientRun(u, run[1..], legacy, n);
      }
    }
  }

  lemma OwnStep(l: Layer, run: seq<Event>, legacy: LegacyKey, n: nat)
    requires run != [] && Legal(l, run, legacy) && n < |l.txs| && n < |After(l, run, legacy).txs|
    requires n < |Next(l, run[0], legacy).txs|
    requires var u := Next(l, run[0], legacy);
             Lived(u.txs[n].tx, After(l, run, legacy).txs[n].tx,
                   OwnServerRun(u, run[1..], legacy, n), OwnClientRun(u, run[1..], legacy, n))
    ensures Lived(l.txs[n].tx, After(l, run, legacy).txs[n].tx,
                  OwnServerRun(l, run, legacy, n), OwnClientRun(l, run, legacy, n))
  {
    hide Next, Enabled, SR.Next, SR.Enabled, CR.Next, CR.Enabled, ServerShare, ClientShare, After;
    hide SR.Legal, SR.After, CR.Legal, CR.After;
    var u := Next(l, run[0], legacy);
    match l.txs[n].tx {
      case ServerSide(t) =>
        ServerTakesShare(l, run[0], legacy, n);
        ServerRunsOn(t, ServerShare(l, run[0], legacy, n), OwnServerRun(u, run[1..], legacy, n));
      case ClientSide(t) =>
        ClientTakesShare(l, run[0], legacy, n);
        ClientRunsOn(t, ClientShare(l, run[0], n), OwnClientRun(u, run[1..], legacy, n));
    }
  }

  // ---- requests and responses without a transaction

  /**
   * A request that finds no transaction: an ACK goes up and nothing else happens, a CANCEL is refused and nothing else
   * happens, and any other request without a key is dropped. A branch without a value only panics.
   */
  lemma StrayRequest(l: Layer, req: Request, legacy: LegacyKey, ok: bool)
    ensures Stray(l, req.headers, legacy) ==>
              var u := HandleRequest(l, req, legacy, ok);
              && (req.requestMethod == "ACK" ==> u == l.(ups := l.ups + [LooseAck(req.id)]))
              && (req.requestMethod == "CANCEL" ==> u == l.(refusals := l.refusals + [req.id]))
              && (req.requestMethod != "ACK" && req.requestMethod != "CANCEL" ==>
                    match ServerKey(req.headers, legacy)
                    case Key(k) =>
                      && u.ups == l.ups + [NewRequest(k, req.id)] && u.refusals == l.refusals
                      && u.txs == l.txs + [Born(l, Arrives(req, ok), legacy)] && u.pool == l.pool[k := |l.txs|]
                    case _ => u == l)
    ensures NilBranchMessage(req.headers) ==> HandleRequest(l, req, legacy, ok) == l.(crashed := true)
  {
    hide ServerKey, FindServer, Stray, NilBranchMessage, S.Fresh, S.Receive;
    ServerFound(l, req.headers, legacy);
  }

  /**
   * The other messages without a transaction: a response that arrives goes up, one of the user goes nowhere; an ACK of
   * the user is sent directly, and any other request of the user whose key cannot be made is not sent.
   */
  lemma StrayOthers(l: Layer, res: Reply, req: Request, legacy: LegacyKey, ok: bool)
    ensures StrayReply(l, res.headers) ==> HandleResponse(l, res, ok) == l.(ups := l.ups + [LooseResponse(res.id)])
    ensures Stray(l, res.headers, legacy) ==> SendResponse(l, res, legacy, ok) == l
    ensures req.requestMethod == "ACK" ==> SendRequest(l, req, ok) == l.(directAcks := l.directAcks + [req.id])
    ensures MakeClientTxKey(req.headers).NoKey? && req.requestMethod != "ACK" ==> SendRequest(l, req, ok) == l
    ensures NilBranchMessage(res.headers) ==>
              && HandleResponse(l, res, ok) == l.(crashed := true)
              && SendResponse(l, res, legacy, ok) == l.(crashed := true)
  {
    hide ServerKey, MakeClientTxKey, FindServer, FindClient, Stray, StrayReply, NilBranchMessage;
    hide S.SendResponse, C.Receive, C.Init, C.New;
    ServerFound(l, res.headers, legacy);
    ClientFound(l, res.headers);
  }

  /** What the layer gives out by itself: up to the user, as answers 481, and ACKs straight to the transport. */
  datatype Given = Given(ups: seq<Up>, refusals: seq<nat>, directAcks: seq<nat>) {
    function And(next: Given): Given {
      Given(ups + next.ups, refusals + next.refusals, directAcks + next.directAcks)
    }
  }

  ghost function GivenBy(l: Layer, e: Event, legacy: LegacyKey): Given {
    match e
    case Arrives(req, _) =>
      if !Stray(l, req.headers, legacy) then Given([], [], [])
      else if req.requestMethod == "ACK" then Given([LooseAck(req.id)], [], [])
      else if req.requestMethod == "CANCEL" then Given([], [req.id], [])
      else (match ServerKey(req.headers, legacy)
            case Key(k) => Given([NewRequest(k, req.id)], [], [])
            case _ => Given([], [], []))
    case ReplyArrives(res, _) =>
      if StrayReply(l, res.headers) then Given([LooseResponse(res.id)], [], []) else Given([], [], [])
    case UserRequest(req, _) => if req.requestMethod == "ACK" then Given([], [], [req.id]) else Given([], [], [])
    case _ => Given([], [], [])
  }

  ghost function GivenOver(l: Layer, run: seq<Event>, legacy: LegacyKey): Given
    requires Legal(l, run, legacy)
    decreases |run|
  {
    if run == [] then Given([], [], [])
    else GivenBy(l, run[0], legacy).And(GivenOver(Next(l, run[0], legacy), run[1..], legacy))
  }

  function GivenOut(l: Layer): Given {
    Given(l.ups, l.refusals, l.directAcks)
  }

  lemma StepGives(l: Layer, e: Event, legacy: LegacyKey)
    requires Enabled(l, e)
    ensures GivenOut(Next(l, e, legacy)) == GivenOut(l).And(GivenBy(l, e, legacy))
  {
    hide ServerKey, MakeClientTxKey, FindServer, FindClient, Stray, StrayReply;
    hide S.Receive, S.SendResponse, S.Fresh, C.Receive, C.Init, C.New, SR.Next, CR.Next;
    match e {
      case Arrives(req, _) => ServerFound(l, req.headers, legacy);
      case ReplyArrives(res, _) => ClientFound(l, res.headers);
      case _ =>
    }
  }

  lemma Gathered(a: Given, b: Given, c: Given)
    ensures a.And(b).And(c) == a.And(b.And(c))
    ensures a.And(Given([], [], [])) == a
  {
    assert a.ups + b.ups + c.ups == a.ups + (b.ups + c.ups);
    assert a.refusals + b.refusals + c.refusals == a.refusals + (b.refusals + c.refusals);
    assert a.directAcks + b.directAcks + c.directAcks == a.directAcks + (b.directAcks + c.directAcks);
  }

  /**
   * Over every run, what the layer handed up, refused and sent directly is exactly what its events give, in order:
   * new requests, ACKs and responses without a transaction go up, CANCELs without one are refused, ACKs are sent.
   */
  lemma {:induction false} RunGives(l: Layer, run: seq<Event>, legacy: LegacyKey)
    requires Legal(l, run, legacy)
    ensures GivenOut(After(l, run, legacy)) == GivenOut(l).And(GivenOver(l, run, legacy))
    decreases |run|
  {
    hide Next, Enabled, GivenOut, GivenBy, Given.And;
    if run == [] {
      Gathered(GivenOut(l), GivenOut(l), GivenOut(l));
    } else {
      var u := Next(l, run[0], legacy);
      StepGives(l, run[0], legacy);
      RunGives(u, run[1..], legacy);
      Gathered(GivenOut(l), GivenBy(l, run[0], legacy), GivenOver(u, run[1..], legacy));
    }
  }
}
