/**
 * The transaction layer on values: the pool, the routing of every message and the end of a transaction.
 * A reference to a transaction is its number in the order of creation, so the pool maps keys to numbers.
 */
module LayerSteps {
  import opened Wrappers
  import opened Timing
  import opened Responses
  import opened HeaderStore
  import opened TxKeys
  import S = ServerSteps
  import C = ClientSteps
  import SR = ServerRuns
  import CR = ClientRuns

  /** A request as it arrives or is to be sent; `reliable` is what the transport says of its top hop. */
  datatype Request = Request(requestMethod: string, headers: Store, reliable: bool, id: nat)

  /** A response as it arrives or is to be sent. */
  datatype Reply = Reply(code: nat, headers: Store, id: nat)

  /** The response as a transaction sees it. */
  function AsResponse(r: Reply): Response {
    Response(r.code, CSeqMethod(r.headers) == Some("CANCEL"), r.id)
  }

  datatype AnyTx = ServerSide(server: S.Tx) | ClientSide(client: C.Tx)

  /** `served` says that the layer waits for the end of the transaction, `dropped` that it has seen it. */
  datatype Record = Record(key: string, start: nat, tx: AnyTx, served: bool, dropped: bool) {
    predicate Done() {
      match tx case ServerSide(t) => t.done case ClientSide(t) => t.done
    }
  }

  /** What the layer hands to the user by itself. */
  datatype Up = NewRequest(key: string, id: nat) | LooseAck(id: nat) | LooseResponse(id: nat)

  datatype Layer = Layer(
    pool: map<string, nat>, txs: seq<Record>, now: nat,
    ups: seq<Up>, refusals: seq<nat>, directAcks: seq<nat>, crashed: bool
  )

  const EMPTY_LAYER := Layer(map[], [], 0, [], [], [], false)

  /** The key of RFC 2543 is a parameter of everything that looks up server transactions. */
  type LegacyKey = Store -> Option<string>

  datatype Lookup = Found(n: nat) | Absent(key: string) | Unkeyed | Crashes

  function ServerKey(s: Store, legacy: LegacyKey): KeyResult {
    match MakeServerTxKey(s)
    case Legacy => (match legacy(s) case None => NoKey case Some(k) => Key(k))
    case other => other
  }

  /** getServerTx */
  function FindServer(l: Layer, s: Store, legacy: LegacyKey): Lookup {
    match ServerKey(s, legacy)
    case KeyCrash => Crashes
    case Key(k) =>
      if k in l.pool && l.pool[k] < |l.txs| && l.txs[l.pool[k]].tx.ServerSide? then Found(l.pool[k]) else Absent(k)
    case _ => Unkeyed
  }

  /** getClientTx */
  function FindClient(l: Layer, s: Store): Lookup {
    match MakeClientTxKey(s)
    case KeyCrash => Crashes
    case Key(k) =>
      if k in l.pool && l.pool[k] < |l.txs| && l.txs[l.pool[k]].tx.ClientSide? then Found(l.pool[k]) else Absent(k)
    case _ => Unkeyed
  }

  function WithTx(l: Layer, n: nat, tx: AnyTx): Layer
    requires n < |l.txs|
  {
    l.(txs := l.txs[n := l.txs[n].(tx := tx)])
  }

  /** A new transaction, put into the pool under its key. */
  function Created(l: Layer, key: string, tx: AnyTx, served: bool): Layer {
    l.(pool := l.pool[key := |l.txs|], txs := l.txs + [Record(key, l.now, tx, served, false)])
  }

  predicate NeedsTransaction(req: Request) {
    req.requestMethod != "ACK" && req.requestMethod != "CANCEL"
  }

  /** An ACK without a transaction goes up, a CANCEL without one is answered 481. */
  function Unmatched(l: Layer, req: Request): Layer {
    if req.requestMethod == "ACK" then l.(ups := l.ups + [LooseAck(req.id)])
    else l.(refusals := l.refusals + [req.id])
  }

  /** handleRequest */
  function HandleRequest(l: Layer, req: Request, legacy: LegacyKey, ok: bool): Layer {
    match FindServer(l, req.headers, legacy)
    case Crashes => l.(crashed := true)
    case Found(n) =>
      assert l.txs[n].tx.ServerSide?;
      WithTx(l, n, ServerSide(S.Receive(l.txs[n].tx.server, req.requestMethod, req.id, ok)))
    case Unkeyed => if NeedsTransaction(req) then l else Unmatched(l, req)
    case Absent(key) =>
      if !NeedsTransaction(req) then Unmatched(l, req)
      else
        Created(l, key, ServerSide(S.Fresh(req.requestMethod, req.reliable, l.now)), true)
        .(ups := l.ups + [NewRequest(key, req.id)])
  }

  /** handleResponse */
  function HandleResponse(l: Layer, res: Reply, ok: bool): Layer {
    match FindClient(l, res.headers)
    case Crashes => l.(crashed := true)
    case Found(n) => WithTx(l, n, ClientSide(C.Receive(l.txs[n].tx.client, AsResponse(res), ok)))
    case _ => l.(ups := l.ups + [LooseResponse(res.id)])
  }

  /** sendRequest */
  function SendRequest(l: Layer, req: Request, ok: bool): Layer {
    if req.requestMethod == "ACK" then l.(directAcks := l.directAcks + [req.id])
    else
      match MakeClientTxKey(req.headers)
      case KeyCrash => l.(crashed := true)
      case Key(k) => Created(l, k, ClientSide(C.Init(C.New(req.requestMethod, req.reliable, l.now), ok)), ok)
      case _ => l
  }

  /** sendResponse */
  function SendResponse(l: Layer, res: Reply, legacy: LegacyKey, ok: bool): Layer {
    match FindServer(l, res.headers, legacy)
    case Crashes => l.(crashed := true)
    case Found(n) => WithTx(l, n, ServerSide(S.SendResponse(l.txs[n].tx.server, AsResponse(res), ok)))
    case _ => l
  }

  /** The end of serveTransaction: whatever the pool holds under the key of the finished transaction goes. */
  function Drop(l: Layer, n: nat): Layer
    requires n < |l.txs|
  {
    l.(pool := l.pool - {l.txs[n].key}, txs := l.txs[n := l.txs[n].(dropped := true)])
  }

  predicate CanDrop(l: Layer, n: nat) {
    n < |l.txs| && l.txs[n].served && !l.txs[n].dropped && l.txs[n].Done()
  }

  // ---- the steps of a run

  datatype Event =
    | Arrives(req: Request, ok: bool)
    | ReplyArrives(res: Reply, ok: bool)
    | UserRequest(req: Request, ok: bool)
    | UserReply(res: Reply, ok: bool)
    | ServerTimer(n: nat, serverTimer: S.TimerName, ok: bool)
    | ClientTimer(n: nat, clientTimer: C.TimerName, ok: bool)
    | Finished(n: nat)
    | Wait(time: nat)

  function LaterTx(tx: AnyTx, d: nat): AnyTx {
    match tx
    case ServerSide(t) => ServerSide(SR.Next(t, SR.Wait(d)))
    case ClientSide(t) => ClientSide(CR.Next(t, CR.Wait(d)))
  }

  predicate MayWait(tx: AnyTx, d: nat) {
    match tx
    case ServerSide(t) => SR.Enabled(t, SR.Wait(d))
    case ClientSide(t) => CR.Enabled(t, CR.Wait(d))
  }

  predicate Enabled(l: Layer, e: Event) {
    match e
    case ServerTimer(n, timer, ok) =>
      n < |l.txs| && l.txs[n].tx.ServerSide? && SR.Enabled(l.txs[n].tx.server, SR.Fires(timer, ok))
    case ClientTimer(n, timer, ok) =>
      n < |l.txs| && l.txs[n].tx.ClientSide? && CR.Enabled(l.txs[n].tx.client, CR.Fires(timer, ok))
    case Finished(n) => CanDrop(l, n)
    case Wait(d) => forall i :: 0 <= i < |l.txs| ==> MayWait(l.txs[i].tx, d)
    case _ => true
  }

  function Next(l: Layer, e: Event, legacy: LegacyKey): Layer
    requires Enabled(l, e)
  {
    match e
    case Arrives(req, ok) => HandleRequest(l, req, legacy, ok)
    case ReplyArrives(res, ok) => HandleResponse(l, res, ok)
    case UserRequest(req, ok) => SendRequest(l, req, ok)
    case UserReply(res, ok) => SendResponse(l, res, legacy, ok)
    case ServerTimer(n, timer, ok) => WithTx(l, n, ServerSide(SR.Next(l.txs[n].tx.server, SR.Fires(timer, ok))))
    case ClientTimer(n, timer, ok) => WithTx(l, n, ClientSide(CR.Next(l.txs[n].tx.client, CR.Fires(timer, ok))))
    case Finished(n) => Drop(l, n)
    case Wait(d) =>
      l.(now := l.now + d, txs := seq(|l.txs|, i requires 0 <= i < |l.txs| => l.txs[i].(tx := LaterTx(l.txs[i].tx, d))))
  }

  ghost predicate Legal(l: Layer, run: seq<Event>, legacy: LegacyKey)
    decreases |run|
  {
    run == [] || (Enabled(l, run[0]) && Legal(Next(l, run[0], legacy), run[1..], legacy))
  }

  ghost function After(l: Layer, run: seq<Event>, legacy: LegacyKey): Layer
    requires Legal(l, run, legacy)
    decreases |run|
  {
    if run == [] then l else After(Next(l, run[0], legacy), run[1..], legacy)
  }
}
