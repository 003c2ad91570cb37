/** The transaction layer as an object that holds the transaction objects. */
module TransactionLayer {
  import opened Wrappers
  import opened Responses
  import opened HeaderStore
  import opened TxKeys
  import opened LayerSteps
  import opened ServerTransaction
  import opened ClientTransaction
  import S = ServerSteps
  import C = ClientSteps

  /** A transaction object of either kind. */
  datatype TxRef = ServerRef(server: ServerTx) | ClientRef(client: ClientTx)

  function Object(r: TxRef): object {
    match r case ServerRef(s) => s case ClientRef(c) => c
  }

  /** What the layer knows about a transaction besides the object. */
  datatype Info = Info(key: string, start: nat, served: bool, dropped: bool)

  class TxLayer {
    const legacy: LegacyKey
    var transactions: map<string, nat>
    var created: seq<TxRef>
    var infos: seq<Info>
    var now: nat
    var ups: seq<Up>
    var refusals: seq<nat>
    var directAcks: seq<nat>
    var crashed: bool

    ghost function Objects(): set<object>
      reads this
    {
      set i | 0 <= i < |created| :: Object(created[i])
    }

    /** Every object is held once, and the pool refers only to transactions that exist. */
    ghost predicate Valid()
      reads this
    {
      && |infos| == |created|
      && (forall i, j :: 0 <= i < j < |created| ==> Object(created[i]) != Object(created[j]))
      && (forall k :: k in transactions ==> transactions[k] < |created|)
    }

    ghost function TxAt(i: nat): AnyTx
      requires i < |created|
      reads this, Objects()
    {
      assert Object(created[i]) in Objects();
      match created[i] case ServerRef(s) => ServerSide(s.View()) case ClientRef(c) => ClientSide(c.View())
    }

    ghost function RecordAt(i: nat): Record
      requires Valid() && i < |created|
      reads this, Objects()
    {
      Record(infos[i].key, infos[i].start, TxAt(i), infos[i].served, infos[i].dropped)
    }

    ghost function View(): Layer
      requires Valid()
      reads this, Objects()
    {
      Layer(transactions,
            seq(|created|, i requires 0 <= i < |created| && Valid() reads this, Objects() => RecordAt(i)),
            now, ups, refusals, directAcks, crashed)
    }

    constructor (legacy: LegacyKey)
      ensures Valid() && View() == EMPTY_LAYER && this.legacy == legacy
    {
      this.legacy := legacy;
      transactions, created, infos := map[], [], [];
      now, ups, refusals, directAcks, crashed := 0, [], [], [], false;
    }

    /** getServerTx */
    method GetServerTx(s: Store) returns (r: Lookup)
      requires Valid()
      ensures r == FindServer(View(), s, legacy)
      ensures r.Found? ==> r.n < |created| && created[r.n].ServerRef?
    {
      match ServerKey(s, legacy) {
        case KeyCrash => r := Crashes;
        case Key(k) =>
          if k in transactions && created[transactions[k]].ServerRef? {
            r := Found(transactions[k]);
          } else {
            r := Absent(k);
          }
        case _ => r := Unkeyed;
      }
    }

    /** getClientTx */
    method GetClientTx(s: Store) returns (r: Lookup)
      requires Valid()
      ensures r == FindClient(View(), s)
      ensures r.Found? ==> r.n < |created| && created[r.n].ClientRef?
    {
      match MakeClientTxKey(s) {
        case KeyCrash => r := Crashes;
        case Key(k) =>
          if k in transactions && created[transactions[k]].ClientRef? {
            r := Found(transactions[k]);
          } else {
            r := Absent(k);
          }
        case _ => r := Unkeyed;
      }
    }

    /** Stores a new object under its key. */
    method Put(key: string, tx: TxRef, served: bool)
      requires Valid() && Object(tx) !in Objects()
      modifies this
      ensures Valid() && created == old(created) + [tx]
      ensures View() == Created(old(View()), key, TxAt(old(|created|)), served)
    {
      ghost var before := View();
      ghost var n := |created|;
      assert forall i :: 0 <= i < n ==> Object(created[i]) in Objects();
      transactions := transactions[key := |created|];
      created := created + [tx];
      infos := infos + [Info(key, now, served, false)];
      SameRecords(n);
      assert View().txs == before.txs + [Record(key, now, TxAt(n), served, false)];
    }

    /** Storing another object behind the first `n` changes none of their records. */
    twostate lemma SameRecords(n: nat)
      requires old(Valid()) && Valid() && n == old(|created|) <= |created|
      requires created[..n] == old(created) && infos[..n] == old(infos)
      requires forall i :: 0 <= i < n ==> unchanged(Object(created[i]))
      ensures forall i :: 0 <= i < n ==> RecordAt(i) == old(RecordAt(i))
    {
      forall i | 0 <= i < n ensures RecordAt(i) == old(RecordAt(i)) {
        assert created[i] == created[..n][i] && infos[i] == infos[..n][i];
        assert unchanged(Object(created[i]));
      }
    }

    /** A change of one transaction object changes the layer in that one place. */
    twostate lemma OnlyOneChanged(n: nat)
      requires old(Valid()) && Valid() && unchanged(this) && n < |created|
      requires forall i :: 0 <= i < |created| && i != n ==> unchanged(Object(created[i]))
      ensures View() == WithTx(old(View()), n, TxAt(n))
    {
      forall i | 0 <= i < |created| && i != n ensures TxAt(i) == old(TxAt(i)) {
        assert unchanged(Object(created[i]));
      }
      assert View().txs == WithTx(old(View()), n, TxAt(n)).txs;
    }

    method HandleRequest(req: Request, ok: bool)
      requires Valid()
      modifies this, Objects()
      ensures Valid() && View() == LayerSteps.HandleRequest(old(View()), req, legacy, ok)
    {
      hide S.Receive, S.Fresh, FindServer, Unmatched, Created, WithTx, View;
      var found := GetServerTx(req.headers);
      match found {
        case Crashes => Crash();
        case Found(n) => ReceiveRequest(n, req, ok);
        case Unkeyed =>
          if !NeedsTransaction(req) {
            PassOrRefuse(req);
          }
        case Absent(key) =>
          if !NeedsTransaction(req) {
            PassOrRefuse(req);
          } else {
            NewServer(key, req);
          }
      }
    }

    method Crash()
      requires Valid()
      modifies this
      ensures Valid() && View() == old(View()).(crashed := true)
    {
      crashed := true;
      assert View().txs == old(View()).txs;
    }

    method ReceiveRequest(n: nat, req: Request, ok: bool)
      requires Valid() && n < |created| && created[n].ServerRef?
      modifies this, Objects()
      ensures Valid()
      ensures n < |old(View()).txs| && old(View()).txs[n].tx.ServerSide?
      ensures var t := old(View()).txs[n].tx.server;
              View() == WithTx(old(View()), n, ServerSide(S.Receive(t, req.requestMethod, req.id, ok)))
    {
      hide S.Receive, S.Accepts;
      var tx := created[n].server;
      var accepted := tx.Receive(req.requestMethod, req.id, ok);
      OnlyOneChanged(n);
    }

    method NewServer(key: string, req: Request)
      requires Valid()
      modifies this
      ensures Valid()
      ensures var l := old(View());
              View() == Created(l, key, ServerSide(S.Fresh(req.requestMethod, req.reliable, l.now)), true)
                        .(ups := l.ups + [NewRequest(key, req.id)])
    {
      hide S.Fresh;
      var tx := new ServerTx(req.requestMethod, req.reliable, now);
      assert View() == old(View()) by { Untouched(); }
      Put(key, ServerRef(tx), true);
      HandUp(NewRequest(key, req.id));
    }

    /** Hands something to the user. */
    method HandUp(u: Up)
      requires Valid()
      modifies this
      ensures Valid() && created == old(created) && View() == old(View()).(ups := old(View()).ups + [u])
    {
      ups := ups + [u];
      assert View().txs == old(View()).txs;
    }

    /** Creating an object elsewhere changes nothing here. */
    twostate lemma Untouched()
      requires old(Valid()) && Valid() && unchanged(this)
      requires forall i :: 0 <= i < |created| ==> unchanged(Object(created[i]))
      ensures View() == old(View())
    {
      forall i | 0 <= i < |created| ensures TxAt(i) == old(TxAt(i)) {
        assert unchanged(Object(created[i]));
      }
      assert View().txs == old(View()).txs;
    }

    /** An ACK without a transaction goes up, a CANCEL without one is answered 481. */
    method PassOrRefuse(req: Request)
      requires Valid() && !NeedsTransaction(req)
      modifies this
      ensures Valid() && created == old(created) && View() == Unmatched(old(View()), req)
    {
      if req.requestMethod == "ACK" {
        ups := ups + [LooseAck(req.id)];
      } else {
        refusals := refusals + [req.id];
      }
    }

    method HandleResponse(res: Reply, ok: bool)
      requires Valid()
      modifies this, Objects()
      ensures Valid() && View() == LayerSteps.HandleResponse(old(View()), res, ok)
    {
      hide C.Receive, FindClient, WithTx, View;
      var found := GetClientTx(res.headers);
      match found {
        case Crashes => Crash();
        case Found(n) => ReceiveResponse(n, res, ok);
        case _ => HandUp(LooseResponse(res.id));
      }
    }

    method ReceiveResponse(n: nat, res: Reply, ok: bool)
      requires Valid() && n < |created| && created[n].ClientRef?
      modifies this, Objects()
      ensures Valid()
      ensures n < |old(View()).txs| && old(View()).txs[n].tx.ClientSide?
      ensures View() == WithTx(old(View()), n, ClientSide(C.Receive(old(View()).txs[n].tx.client, AsResponse(res), ok)))
    {
      hide C.Receive;
      var tx := created[n].client;
      tx.Receive(AsResponse(res), ok);
      OnlyOneChanged(n);
    }

    method SendRequest(req: Request, ok: bool)
      requires Valid()
      modifies this, Objects()
      ensures Valid() && View() == LayerSteps.SendRequest(old(View()), req, ok)
    {
      hide C.Init, C.New, Created, View;
      if req.requestMethod == "ACK" {
        SendDirectly(req.id);
        return;
      }
      match MakeClientTxKey(req.headers) {
        case KeyCrash => Crash();
        case Key(k) => NewClient(k, req, ok);
        case _ =>
      }
    }

    method SendDirectly(id: nat)
      requires Valid()
      modifies this
      ensures Valid() && View() == old(View()).(directAcks := old(View()).directAcks + [id])
    {
      directAcks := directAcks + [id];
      assert View().txs == old(View()).txs;
    }

    /** The transaction goes into the pool before its first send, and is served only if that send succeeds. */
    method NewClient(key: string, req: Request, ok: bool)
      requires Valid()
      modifies this
      ensures Valid()
      ensures var l := old(View());
              View() == Created(l, key, ClientSide(C.Init(C.New(req.requestMethod, req.reliable, l.now), ok)), ok)
    {
      hide C.Init, C.New;
      var tx := new ClientTx(req.requestMethod, req.reliable, now);
      var sent := tx.Init(ok);
      assert View() == old(View()) by { Untouched(); }
      Put(key, ClientRef(tx), sent);
    }

    method SendResponse(res: Reply, ok: bool)
      requires Valid()
      modifies this, Objects()
      ensures Valid() && View() == LayerSteps.SendResponse(old(View()), res, legacy, ok)
    {
      hide S.SendResponse, FindServer, View;
      var found := GetServerTx(res.headers);
      match found {
        case Crashes => Crash();
        case Found(n) => Respond(n, res, ok);
        case _ =>
      }
    }

    method Respond(n: nat, res: Reply, ok: bool)
      requires Valid() && n < |created| && created[n].ServerRef?
      modifies this, Objects()
      ensures Valid()
      ensures n < |old(View()).txs| && old(View()).txs[n].tx.ServerSide?
      ensures var t := old(View()).txs[n].tx.server;
              View() == WithTx(old(View()), n, ServerSide(S.SendResponse(t, AsResponse(res), ok)))
    {
      hide S.SendResponse;
      var tx := created[n].server;
      tx.SendResponse(AsResponse(res), ok);
      OnlyOneChanged(n);
    }

    /** The end of serveTransaction for the transaction `n`. */
    method DropTransaction(n: nat)
      requires Valid() && CanDrop(View(), n)
      modifies this
      ensures Valid() && View() == Drop(old(View()), n)
    {
      transactions := transactions - {infos[n].key};
      infos := infos[n := infos[n].(dropped := true)];
      assert View().txs == Drop(old(View()), n).txs;
    }
  }
}
