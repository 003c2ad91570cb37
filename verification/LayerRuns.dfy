/** What every run of the transaction layer keeps. */
module LayerRuns {
  import opened Wrappers
  import opened Timing
  import opened Responses
  import opened HeaderStore
  import opened TxKeys
  import opened LayerSteps
  import S = ServerSteps
  import C = ClientSteps
  import CR = ClientRuns
  import SR = ServerRuns
  import SN = ServerNonInvite
  import ST = ServerTheorems
  import opened Text

  /** The branch, host and port that a server key is made of. */
  datatype Via = Via(branch: string, host: string, port: nat)

  function ViaOf(s: Store): Option<Via> {
    match TopHop(s)
    case None => None
    case Some(hop) =>
      match BranchParam(hop)
      case BranchOf(b) => if HasCookie(b) then Some(Via(b, hop.host, PortOf(hop))) else None
      case _ => None
  }

  /** The requests of RFC 3261: CSeq and request line agree, the branch has the cookie, and the method no `_`. */
  predicate WellFormed(req: Request) {
    && CSeqMethod(req.headers) == Some(req.requestMethod) && '_' !in req.requestMethod
    && ViaOf(req.headers).Some?
  }

  function KeyText(v: Via, m: string): string {
    ServerKeyText(v.branch, v.host, v.port, m)
  }

  lemma KeyOf(req: Request, legacy: LegacyKey)
    requires WellFormed(req)
    ensures ServerKey(req.headers, legacy) == Key(KeyText(ViaOf(req.headers).value, ServerMethod(req.requestMethod)))
  {
    hide ServerKeyText, CSeqMethod, TopHop;
  }

  /** A server key names the method of its transaction, which is neither ACK nor CANCEL. */
  ghost predicate Named(key: string, m: string) {
    && m != "ACK" && m != "CANCEL" && '_' !in m
    && exists v: Via :: key == KeyText(v, m)
  }

  /** A server transaction as the layer keeps it. */
  ghost predicate ServerOk(r: Record, t: S.Tx) {
    && Named(r.key, t.requestMethod) && r.served
    && (if t.requestMethod == "INVITE" then SR.InviteInv(t, r.start)
        else SN.NonInviteInv(t) && t.state != S.Confirmed)
  }

  ghost predicate LayerInv(l: Layer) {
    && (forall k :: k in l.pool ==> l.pool[k] < |l.txs| && l.txs[l.pool[k]].key == k)
    && (forall i :: 0 <= i < |l.txs| && l.txs[i].tx.ServerSide? ==> ServerOk(l.txs[i], l.txs[i].tx.server))
  }

  /**
   * A well-formed request that finds a server transaction is a retransmission of its request, or an ACK or
   * CANCEL for an INVITE; Receive accepts it.
   */
  lemma FoundAccepts(l: Layer, req: Request, legacy: LegacyKey)
    requires LayerInv(l) && WellFormed(req) && FindServer(l, req.headers, legacy).Found?
    ensures var t := l.txs[FindServer(l, req.headers, legacy).n].tx.server;
            && S.Accepts(t, req.requestMethod)
            && t.requestMethod == ServerMethod(req.requestMethod)
  {
    hide ServerKeyText, SR.InviteInv, SN.NonInviteInv;
    KeyOf(req, legacy);
    var n := FindServer(l, req.headers, legacy).n;
    var r := l.txs[n];
    var t := r.tx.server;
    var w := ViaOf(req.headers).value;
    assert ServerOk(r, t);
    var v: Via :| r.key == KeyText(v, t.requestMethod);
    MethodNoUnderscore(req.requestMethod);
    var m := ServerMethod(req.requestMethod);
    ServerKeyMethod(v.branch, v.host, v.port, t.requestMethod, w.branch, w.host, w.port, m);
  }

  lemma MethodNoUnderscore(m: string)
    requires '_' !in m
    ensures '_' !in ServerMethod(m)
  {
  }

  // ---- every step keeps the invariant

  lemma ServerStepOk(r: Record, t: S.Tx, s: SR.Step)
    requires ServerOk(r, t) && SR.Enabled(t, s)
    requires SN.IsCancel(s) ==> t.requestMethod == "INVITE"
    ensures ServerOk(r, SR.Next(t, s))
  {
    hide SR.Next, SR.InviteInv, SN.NonInviteInv, SR.Enabled;
    ST.SameTable(t, [s]);
    assert SR.After(t, [s]) == SR.Next(t, s);
    if t.requestMethod == "INVITE" {
      SR.InviteStep(t, r.start, s);
    } else {
      SN.NonInviteStep(t, s);
    }
  }

  lemma FreshOk(r: Record, req: Request)
    requires Named(r.key, req.requestMethod) && r.served
    ensures ServerOk(r, S.Fresh(req.requestMethod, req.reliable, r.start))
  {
    if req.requestMethod == "INVITE" {
      SR.InviteStarts(req.reliable, r.start);
    }
  }

  lemma WithTxKeeps(l: Layer, n: nat, tx: AnyTx)
    requires LayerInv(l) && n < |l.txs|
    requires tx.ServerSide? ==> ServerOk(l.txs[n], tx.server)
    ensures LayerInv(WithTx(l, n, tx))
  {
    hide Named, SR.InviteInv, SN.NonInviteInv;
  }

  lemma CreatedKeeps(l: Layer, key: string, tx: AnyTx, served: bool)
    requires LayerInv(l)
    requires tx.ServerSide? ==> ServerOk(Record(key, l.now, tx, served, false), tx.server)
    ensures LayerInv(Created(l, key, tx, served))
  {
    hide Named, SR.InviteInv, SN.NonInviteInv;
  }

  lemma ArrivalKeeps(l: Layer, req: Request, legacy: LegacyKey, ok: bool)
    requires LayerInv(l) && WellFormed(req)
    ensures LayerInv(HandleRequest(l, req, legacy, ok))
  {
    hide SR.InviteInv, SN.NonInviteInv, KeyText, ServerOk, S.Fresh, S.Receive, ServerKey, ViaOf, CSeqMethod;
    KeyOf(req, legacy);
    match FindServer(l, req.headers, legacy) {
      case Found(n) =>
        FoundAccepts(l, req, legacy);
        var t := l.txs[n].tx.server;
        ServerStepOk(l.txs[n], t, SR.Recv(req.requestMethod, req.id, ok));
        WithTxKeeps(l, n, ServerSide(S.Receive(t, req.requestMethod, req.id, ok)));
      case Absent(key) =>
        if NeedsTransaction(req) {
          var tx := ServerSide(S.Fresh(req.requestMethod, req.reliable, l.now));
          FreshOk(Record(key, l.now, tx, true, false), req);
          CreatedKeeps(l, key, tx, true);
        }
      case _ =>
    }
  }

  lemma UserReplyKeeps(l: Layer, res: Reply, legacy: LegacyKey, ok: bool)
    requires LayerInv(l)
    ensures LayerInv(SendResponse(l, res, legacy, ok))
  {
    hide ServerOk, S.SendResponse, Named;
    match FindServer(l, res.headers, legacy) {
      case Found(n) =>
        var t := l.txs[n].tx.server;
        ServerStepOk(l.txs[n], t, SR.Offer(AsResponse(res), ok));
        WithTxKeeps(l, n, ServerSide(S.SendResponse(t, AsResponse(res), ok)));
      case _ =>
    }
  }

  lemma WaitKeeps(l: Layer, d: nat, legacy: LegacyKey)
    requires LayerInv(l) && Enabled(l, Event.Wait(d))
    ensures LayerInv(Next(l, Event.Wait(d), legacy))
  {
    hide ServerOk, SR.Next, SR.Enabled;
    var l1 := Next(l, Event.Wait(d), legacy);
    forall i | 0 <= i < |l1.txs| && l1.txs[i].tx.ServerSide? ensures ServerOk(l1.txs[i], l1.txs[i].tx.server) {
      var t := l.txs[i].tx.server;
      assert MayWait(l.txs[i].tx, d);
      ServerStepOk(l.txs[i], t, SR.Wait(d));
      SameRecord(l.txs[i], l1.txs[i], SR.Next(t, SR.Wait(d)));
    }
  }

  lemma SameRecord(r: Record, r1: Record, t: S.Tx)
    requires ServerOk(r, t) && r.key == r1.key && r.start == r1.start && r.served == r1.served
    ensures ServerOk(r1, t)
  {
  }

  lemma ReplyKeeps(l: Layer, res: Reply, ok: bool)
    requires LayerInv(l)
    ensures LayerInv(HandleResponse(l, res, ok))
  {
    hide ServerOk, C.Receive;
    match FindClient(l, res.headers) {
      case Found(n) => WithTxKeeps(l, n, ClientSide(C.Receive(l.txs[n].tx.client, AsResponse(res), ok)));
      case _ =>
    }
  }

  lemma UserRequestKeeps(l: Layer, req: Request, ok: bool)
    requires LayerInv(l)
    ensures LayerInv(SendRequest(l, req, ok))
  {
    hide ServerOk, C.Init, C.New;
    match MakeClientTxKey(req.headers) {
      case Key(k) => CreatedKeeps(l, k, ClientSide(C.Init(C.New(req.requestMethod, req.reliable, l.now), ok)), ok);
      case _ =>
    }
  }

  lemma DropKeeps(l: Layer, n: nat)
    requires LayerInv(l) && n < |l.txs|
    ensures LayerInv(Drop(l, n))
  {
    hide Named, SR.InviteInv, SN.NonInviteInv;
  }

  /** The assumption on a run: requests that arrive are well formed. */
  predicate Admissible(e: Event) {
    e.Arrives? ==> WellFormed(e.req)
  }

  lemma LayerStep(l: Layer, e: Event, legacy: LegacyKey)
    requires LayerInv(l) && Enabled(l, e) && Admissible(e)
    ensures LayerInv(Next(l, e, legacy))
  {
    hide ServerOk, HandleRequest, SendResponse, FindClient;
    match e {
      case Arrives(req, ok) => ArrivalKeeps(l, req, legacy, ok);
      case ReplyArrives(res, ok) => ReplyKeeps(l, res, ok);
      case UserRequest(req, ok) => UserRequestKeeps(l, req, ok);
      case UserReply(res, ok) => UserReplyKeeps(l, res, legacy, ok);
      case ServerTimer(n, timer, ok) =>
        ServerStepOk(l.txs[n], l.txs[n].tx.server, SR.Fires(timer, ok));
        WithTxKeeps(l, n, ServerSide(SR.Next(l.txs[n].tx.server, SR.Fires(timer, ok))));
      case ClientTimer(n, timer, ok) =>
        WithTxKeeps(l, n, ClientSide(CR.Next(l.txs[n].tx.client, CR.Fires(timer, ok))));
      case Finished(n) => DropKeeps(l, n);
      case Wait(d) => WaitKeeps(l, d, legacy);
    }
  }

  ghost predicate AllAdmissible(run: seq<Event>) {
    forall i :: 0 <= i < |run| ==> Admissible(run[i])
  }

  lemma {:induction false} LayerRun(l: Layer, run: seq<Event>, legacy: LegacyKey)
    requires LayerInv(l) && Legal(l, run, legacy) && AllAdmissible(run)
    ensures LayerInv(After(l, run, legacy))
    decreases |run|
  {
    hide LayerInv, Next, Enabled, Admissible;
    if run != [] {
      LayerStep(l, run[0], legacy);
      LayerRun(Next(l, run[0], legacy), run[1..], legacy);
    }
  }

  // ---- theorems

  /**
   * In every run of the layer on well-formed requests no non-INVITE server transaction is ever in Confirmed, the
   * state its table lacks; a request that then finds a transaction is accepted by it, and a CANCEL or ACK finds
   * only an INVITE transaction.
   */
  lemma ConfirmedUnreachable(run: seq<Event>, legacy: LegacyKey, req: Request)
    requires Legal(EMPTY_LAYER, run, legacy) && AllAdmissible(run) && WellFormed(req)
    ensures var l := After(EMPTY_LAYER, run, legacy);
            && (forall i :: 0 <= i < |l.txs| && l.txs[i].tx.ServerSide? ==>
                  var t := l.txs[i].tx.server;
                  t.requestMethod != "INVITE" ==> t.state != S.Confirmed)
            && (FindServer(l, req.headers, legacy).Found? ==>
                  var t := l.txs[FindServer(l, req.headers, legacy).n].tx.server;
                  && S.Accepts(t, req.requestMethod)
                  && (!NeedsTransaction(req) ==> t.requestMethod == "INVITE"))
  {
    LayerRun(EMPTY_LAYER, run, legacy);
    var l := After(EMPTY_LAYER, run, legacy);
    if FindServer(l, req.headers, legacy).Found? {
      FoundAccepts(l, req, legacy);
    }
    forall i | 0 <= i < |l.txs| && l.txs[i].tx.ServerSide? && l.txs[i].tx.server.requestMethod != "INVITE"
      ensures l.txs[i].tx.server.state != S.Confirmed
    {
      assert ServerOk(l.txs[i], l.txs[i].tx.server);
    }
  }

  /**
   * Without the agreement of CSeq and request line: a CANCEL that finds a transaction strands a non-INVITE one
   * in Confirmed if and only if its CSeq names a method other than INVITE, ACK and CANCEL.
   */
  lemma MismatchedCancel(l: Layer, req: Request, m: string, legacy: LegacyKey, ok: bool)
    requires LayerInv(l) && req.requestMethod == "CANCEL" && CSeqMethod(req.headers) == Some(m) && '_' !in m
    requires ViaOf(req.headers).Some?
    requires FindServer(l, req.headers, legacy).Found?
    ensures var n := FindServer(l, req.headers, legacy).n;
            var t := l.txs[n].tx.server;
            var u := HandleRequest(l, req, legacy, ok).txs[n].tx.server;
            t.requestMethod != "INVITE" && u.state == S.Confirmed <==> ServerMethod(m) != "INVITE"
  {
    hide SR.InviteInv, SN.NonInviteInv, KeyText, S.Receive;
    var n := FindServer(l, req.headers, legacy).n;
    var t := l.txs[n].tx.server;
    var named := req.(requestMethod := m);
    KeyOf(named, legacy);
    FoundAccepts(l, named, legacy);
    assert ServerOk(l.txs[n], t);
    if t.requestMethod != "INVITE" {
      SN.NonInviteStep(t, SR.Recv("CANCEL", req.id, ok));
    }
  }

  /** How often the layer handed up a request under a key. */
  function HandedUp(ups: seq<Up>, key: string): nat {
    if ups == [] then 0
    else
      HandedUp(ups[..|ups| - 1], key) +
      match ups[|ups| - 1] case NewRequest(k, _) => (if k == key then 1 else 0) case _ => 0
  }

  lemma HandedUpSnoc(ups: seq<Up>, u: Up, key: string)
    ensures HandedUp(ups + [u], key) ==
            HandedUp(ups, key) + match u case NewRequest(k, _) => (if k == key then 1 else 0) case _ => 0
  {
    assert (ups + [u])[..|ups|] == ups;
  }

  // ---- what the pool holds under a key

  predicate Holds(l: Layer, key: string, n: nat) {
    key in l.pool && l.pool[key] == n && n < |l.txs|
  }

  /** The events that take the key away: a new transaction under it, or the end of any transaction that has it. */
  predicate Claims(l: Layer, e: Event, legacy: LegacyKey, key: string) {
    match e
    case Arrives(req, _) => NeedsTransaction(req) && FindServer(l, req.headers, legacy) == Absent(key)
    case UserRequest(req, _) => req.requestMethod != "ACK" && MakeClientTxKey(req.headers) == Key(key)
    case Finished(m) => m < |l.txs| && l.txs[m].key == key
    case _ => false
  }

  ghost predicate Claimed(l: Layer, run: seq<Event>, legacy: LegacyKey, key: string)
    requires Legal(l, run, legacy)
    decreases |run|
  {
    run != [] && (Claims(l, run[0], legacy, key) || Claimed(Next(l, run[0], legacy), run[1..], legacy, key))
  }

  /** The pool goes on to hold the transaction under the key exactly if the event does not claim it. */
  lemma HoldsStep(l: Layer, e: Event, legacy: LegacyKey, key: string, n: nat)
    requires n < |l.txs| && Enabled(l, e)
    ensures n < |Next(l, e, legacy).txs|
    ensures Holds(Next(l, e, legacy), key, n) <==> Holds(l, key, n) && !Claims(l, e, legacy, key)
  {
    hide HandleRequest, HandleResponse, SendResponse, C.Init, C.New, SR.Next, CR.Next, FindServer;
    match e {
      case Arrives(req, ok) => HoldsArrival(l, req, legacy, ok, key, n);
      case UserReply(res, ok) => UserReplyPool(l, res, legacy, ok);
      case ReplyArrives(res, ok) => ReplyPool(l, res, ok);
      case _ =>
    }
  }

  lemma HoldsArrival(l: Layer, req: Request, legacy: LegacyKey, ok: bool, key: string, n: nat)
    requires n < |l.txs|
    ensures var u := HandleRequest(l, req, legacy, ok);
            n < |u.txs| && (Holds(u, key, n) <==> Holds(l, key, n) && !Claims(l, Arrives(req, ok), legacy, key))
  {
    hide S.Receive, S.Fresh;
  }

  lemma UserReplyPool(l: Layer, res: Reply, legacy: LegacyKey, ok: bool)
    ensures var u := SendResponse(l, res, legacy, ok); u.pool == l.pool && |u.txs| == |l.txs|
  {
    hide S.SendResponse;
  }

  lemma ReplyPool(l: Layer, res: Reply, ok: bool)
    ensures var u := HandleResponse(l, res, ok); u.pool == l.pool && |u.txs| == |l.txs|
  {
    hide C.Receive;
  }

  lemma {:induction false} HoldsRun(l: Layer, run: seq<Event>, legacy: LegacyKey, key: string, n: nat)
    requires n < |l.txs| && Legal(l, run, legacy)
    ensures n < |After(l, run, legacy).txs|
    ensures Holds(After(l, run, legacy), key, n) <==> Holds(l, key, n) && !Claimed(l, run, legacy, key)
    decreases |run|
  {
    hide Next, Enabled, Holds, Claims;
    if run != [] {
      HoldsStep(l, run[0], legacy, key, n);
      HoldsRun(Next(l, run[0], legacy), run[1..], legacy, key, n);
    }
  }

  /** The record of the same transaction later on. */
  predicate Later(r: Record, u: Record) {
    && u.key == r.key && u.start == r.start && u.served == r.served
    && (u.tx.ServerSide? <==> r.tx.ServerSide?)
    && (r.tx.ServerSide? ==> u.tx.server.requestMethod == r.tx.server.requestMethod)
  }

  lemma ServerLater(r: Record, t: S.Tx, s: SR.Step)
    requires r.tx == ServerSide(t)
    ensures Later(r, r.(tx := ServerSide(SR.Next(t, s))))
  {
    hide SR.Next;
    ST.SameTable(t, [s]);
    assert SR.After(t, [s]) == SR.Next(t, s) by { assert [s][1..] == []; }
  }

  lemma WithLater(l: Layer, m: nat, tx: AnyTx, n: nat)
    requires n < |l.txs| && m < |l.txs| && Later(l.txs[m], l.txs[m].(tx := tx))
    ensures n < |WithTx(l, m, tx).txs| && Later(l.txs[n], WithTx(l, m, tx).txs[n])
  {
  }

  lemma MessageLater(l: Layer, e: Event, legacy: LegacyKey, n: nat)
    requires n < |l.txs| && (e.Arrives? || e.UserReply? || e.ReplyArrives?)
    ensures n < |Next(l, e, legacy).txs| && Later(l.txs[n], Next(l, e, legacy).txs[n])
  {
    hide S.Receive, S.SendResponse, S.Fresh, C.Receive, Later;
    assert Later(l.txs[n], l.txs[n]) by { LaterItself(l.txs[n]); }
    match e {
      case Arrives(req, ok) =>
        if FindServer(l, req.headers, legacy).Found? {
          var m := FindServer(l, req.headers, legacy).n;
          var t := l.txs[m].tx.server;
          ServerLater(l.txs[m], t, SR.Recv(req.requestMethod, req.id, ok));
          WithLater(l, m, ServerSide(S.Receive(t, req.requestMethod, req.id, ok)), n);
        }
      case UserReply(res, ok) =>
        if FindServer(l, res.headers, legacy).Found? {
          var m := FindServer(l, res.headers, legacy).n;
          var t := l.txs[m].tx.server;
          ServerLater(l.txs[m], t, SR.Offer(AsResponse(res), ok));
          WithLater(l, m, ServerSide(S.SendResponse(t, AsResponse(res), ok)), n);
        }
      case ReplyArrives(res, ok) =>
        if FindClient(l, res.headers).Found? {
          var m := FindClient(l, res.headers).n;
          var tx := ClientSide(C.Receive(l.txs[m].tx.client, AsResponse(res), ok));
          assert Later(l.txs[m], l.txs[m].(tx := tx)) by { ClientLater(l.txs[m], tx); }
          WithLater(l, m, tx, n);
        }
    }
  }

  lemma LaterItself(r: Record)
    ensures Later(r, r) && forall d :: Later(r, r.(dropped := d))
  {
  }

  lemma ClientLater(r: Record, tx: AnyTx)
    requires r.tx.ClientSide? && tx.ClientSide?
    ensures Later(r, r.(tx := tx))
  {
  }

  /** No event changes what a record says of its transaction, except the transaction's state and its end. */
  lemma RecordStep(l: Layer, e: Event, legacy: LegacyKey, n: nat)
    requires n < |l.txs| && Enabled(l, e)
    ensures n < |Next(l, e, legacy).txs| && Later(l.txs[n], Next(l, e, legacy).txs[n])
  {
    hide HandleRequest, HandleResponse, SendResponse, SR.Next, CR.Next, C.Init, C.New, Later;
    LaterItself(l.txs[n]);
    match e {
      case ServerTimer(m, timer, ok) =>
        ServerLater(l.txs[m], l.txs[m].tx.server, SR.Fires(timer, ok));
        WithLater(l, m, ServerSide(SR.Next(l.txs[m].tx.server, SR.Fires(timer, ok))), n);
      case ClientTimer(m, timer, ok) =>
        var tx := ClientSide(CR.Next(l.txs[m].tx.client, CR.Fires(timer, ok)));
        ClientLater(l.txs[m], tx);
        WithLater(l, m, tx, n);
      case Wait(d) =>
        if l.txs[n].tx.ServerSide? {
          ServerLater(l.txs[n], l.txs[n].tx.server, SR.Wait(d));
        } else {
          ClientLater(l.txs[n], LaterTx(l.txs[n].tx, d));
        }
      case UserRequest(_, _) =>
      case Finished(_) =>
      case _ => MessageLater(l, e, legacy, n);
    }
  }

  lemma HandsUpOnce(l: Layer, e: Event, legacy: LegacyKey, key: string, n: nat)
    requires key in l.pool && l.pool[key] == n && n < |l.txs| && l.txs[n].tx.ServerSide? && Enabled(l, e)
    ensures HandedUp(Next(l, e, legacy).ups, key) == HandedUp(l.ups, key)
  {
    hide S.Receive, S.SendResponse, S.Fresh, C.Receive, C.Init, SR.Next, CR.Next, HandedUp;
    match e {
      case Arrives(req, ok) =>
        HandedUpSnoc(l.ups, LooseAck(req.id), key);
        match FindServer(l, req.headers, legacy) {
          case Absent(k) => HandedUpSnoc(l.ups, NewRequest(k, req.id), key);
          case _ =>
        }
      case ReplyArrives(res, ok) => HandedUpSnoc(l.ups, LooseResponse(res.id), key);
      case _ =>
    }
  }

  /**
   * From any state in which the pool holds a server transaction under a key, no run in which the key is not claimed
   * hands up a request under it.
   */
  lemma {:induction false} RetransmissionsAbsorbed(l: Layer, run: seq<Event>, legacy: LegacyKey, key: string, n: nat)
    requires Holds(l, key, n) && l.txs[n].tx.ServerSide? && Legal(l, run, legacy) && !Claimed(l, run, legacy, key)
    ensures HandedUp(After(l, run, legacy).ups, key) == HandedUp(l.ups, key)
    decreases |run|
  {
    hide Next, Enabled, HandedUp, Claims;
    if run != [] {
      HandsUpOnce(l, run[0], legacy, key, n);
      HoldsStep(l, run[0], legacy, key, n);
      RecordStep(l, run[0], legacy, n);
      RetransmissionsAbsorbed(Next(l, run[0], legacy), run[1..], legacy, key, n);
    }
  }

  /** The request that creates a transaction is handed up once and the transaction is in the pool under its key. */
  lemma CreationHandsUp(l: Layer, req: Request, legacy: LegacyKey, ok: bool)
    requires WellFormed(req) && NeedsTransaction(req) && FindServer(l, req.headers, legacy).Absent?
    ensures var key := KeyText(ViaOf(req.headers).value, req.requestMethod);
            var u := HandleRequest(l, req, legacy, ok);
            && HandedUp(u.ups, key) == HandedUp(l.ups, key) + 1
            && key in u.pool && u.pool[key] == |l.txs| < |u.txs|
            && u.txs[|l.txs|].tx == ServerSide(S.Fresh(req.requestMethod, req.reliable, l.now))
  {
    hide KeyText, S.Fresh;
    KeyOf(req, legacy);
    HandedUpSnoc(l.ups, NewRequest(FindServer(l, req.headers, legacy).key, req.id),
                 KeyText(ViaOf(req.headers).value, req.requestMethod));
  }

  /** A response created from a request is routed to the transaction that the request itself finds. */
  lemma ResponseRouted(l: Layer, req: Request, statusCode: nat, tag: string, legacy: LegacyKey)
    requires WellFormed(req) && req.headers.Sound()
    ensures FindServer(l, ResponseHeaders(req.headers, statusCode, tag), legacy) == FindServer(l, req.headers, legacy)
  {
    hide KeyText;
    KeyOf(req, legacy);
    ResponseKeepsKeys(req.headers, statusCode, tag);
  }

  /**
   * A request of the user displaces the server transaction `n` from the pool exactly when its branch spells out
   * branch, host and port of that transaction's key and the methods agree; a generated branch never does.
   */
  lemma Displaces(l: Layer, req: Request, n: nat, v: Via, branch: string, ok: bool)
    requires LayerInv(l) && n < |l.txs| && l.txs[n].tx.ServerSide?
    requires l.txs[n].key in l.pool && l.pool[l.txs[n].key] == n
    requires l.txs[n].key == KeyText(v, l.txs[n].tx.server.requestMethod)
    requires NeedsTransaction(req) && CSeqMethod(req.headers) == Some(req.requestMethod) && '_' !in req.requestMethod
    requires TopHop(req.headers).Some? && BranchParam(TopHop(req.headers).value) == BranchOf(branch) && HasCookie(branch)
    ensures SendRequest(l, req, ok).pool[l.txs[n].key] != n <==>
            && branch == v.branch + "__" + v.host + "__" + Decimal(v.port)
            && req.requestMethod == l.txs[n].tx.server.requestMethod
    ensures '_' !in branch ==> SendRequest(l, req, ok).pool[l.txs[n].key] == n
  {
    hide SR.InviteInv, SN.NonInviteInv, C.Init, C.New, ServerKeyText, ClientKeyText, Decimal;
    assert ServerOk(l.txs[n], l.txs[n].tx.server);
    ClientKeyCollides(branch, req.requestMethod, v.branch, v.host, v.port, l.txs[n].tx.server.requestMethod);
  }

  // ---- a branch without a value

  /** A message with CSeq and Via whose top hop has a branch parameter without a value. */
  predicate NilBranchMessage(s: Store) {
    TopHop(s).Some? && CSeqMethod(s).Some? && BranchParam(TopHop(s).value).NilBranch?
  }

  /** The events that look up such a message. */
  predicate Panics(e: Event) {
    match e
    case Arrives(req, _) => NilBranchMessage(req.headers)
    case ReplyArrives(res, _) => NilBranchMessage(res.headers)
    case UserRequest(req, _) => req.requestMethod != "ACK" && NilBranchMessage(req.headers)
    case UserReply(res, _) => NilBranchMessage(res.headers)
    case _ => false
  }

  lemma KeyPanics(s: Store, legacy: LegacyKey)
    ensures MakeClientTxKey(s) == KeyCrash <==> NilBranchMessage(s)
    ensures ServerKey(s, legacy) == KeyCrash <==> NilBranchMessage(s)
  {
    hide TopHop, CSeqMethod, BranchParam;
  }

  lemma PanicStep(l: Layer, e: Event, legacy: LegacyKey)
    requires Enabled(l, e)
    ensures Next(l, e, legacy).crashed <==> l.crashed || Panics(e)
  {
    hide S.Receive, S.SendResponse, S.Fresh, C.Receive, C.Init, C.New, SR.Next, CR.Next;
    hide NilBranchMessage, MakeClientTxKey, ServerKey;
    match e {
      case Arrives(req, _) => KeyPanics(req.headers, legacy);
      case ReplyArrives(res, _) => KeyPanics(res.headers, legacy);
      case UserRequest(req, _) => KeyPanics(req.headers, legacy);
      case UserReply(res, _) => KeyPanics(res.headers, legacy);
      case _ =>
    }
  }

  lemma {:induction false} PanicRun(l: Layer, run: seq<Event>, legacy: LegacyKey)
    requires Legal(l, run, legacy)
    ensures After(l, run, legacy).crashed <==> l.crashed || exists i :: 0 <= i < |run| && Panics(run[i])
    decreases |run|
  {
    hide Next, Enabled, Panics;
    if run != [] {
      PanicStep(l, run[0], legacy);
      PanicRun(Next(l, run[0], legacy), run[1..], legacy);
      assert forall i :: 1 <= i < |run| ==> run[i] == run[1..][i - 1];
    }
  }

  /** A run of the layer panics if and only if some message that it looks up has a branch without a value. */
  lemma PanicsExactly(run: seq<Event>, legacy: LegacyKey)
    requires Legal(EMPTY_LAYER, run, legacy)
    ensures After(EMPTY_LAYER, run, legacy).crashed <==> exists i :: 0 <= i < |run| && Panics(run[i])
  {
    PanicRun(EMPTY_LAYER, run, legacy);
  }

  // ---- a client transaction whose first send failed

  ghost predicate Stranded(l: Layer, key: string, n: nat) {
    Holds(l, key, n) && l.txs[n].tx.ClientSide? && !l.txs[n].served && l.txs[n].key == key
  }

  lemma FailedSendStrands(l: Layer, req: Request, key: string)
    requires req.requestMethod != "ACK" && MakeClientTxKey(req.headers) == Key(key)
    ensures Stranded(SendRequest(l, req, false), key, |l.txs|)
  {
    hide C.Init, C.New;
  }

  lemma {:induction false} RecordRun(l: Layer, run: seq<Event>, legacy: LegacyKey, n: nat)
    requires n < |l.txs| && Legal(l, run, legacy)
    ensures n < |After(l, run, legacy).txs| && Later(l.txs[n], After(l, run, legacy).txs[n])
    decreases |run|
  {
    hide Next, Enabled;
    if run != [] {
      RecordStep(l, run[0], legacy, n);
      RecordRun(Next(l, run[0], legacy), run[1..], legacy, n);
    }
  }

  /**
   * A client transaction whose first send failed stays in the pool through a run if and only if nothing else claims
   * its key, and then a response with that key is not handed up.
   */
  lemma FailedSendStaysInPool(l: Layer, run: seq<Event>, legacy: LegacyKey, key: string, n: nat, res: Reply, ok: bool)
    requires Stranded(l, key, n) && Legal(l, run, legacy)
    requires MakeClientTxKey(res.headers) == Key(key)
    ensures var u := After(l, run, legacy);
            && (Stranded(u, key, n) <==> !Claimed(l, run, legacy, key))
            && (Stranded(u, key, n) ==> HandleResponse(u, res, ok).ups == u.ups)
  {
    HoldsRun(l, run, legacy, key, n);
    RecordRun(l, run, legacy, n);
  }

  /**
   * A request whose first send fails leaves its transaction in the pool through a run if and only if nothing else
   * claims its key, and then a response with that key is not handed up.
   */
  lemma FailedRequestStays(l: Layer, req: Request, run: seq<Event>, legacy: LegacyKey, key: string, res: Reply, ok: bool)
    requires req.requestMethod != "ACK" && MakeClientTxKey(req.headers) == Key(key)
    requires Legal(SendRequest(l, req, false), run, legacy) && MakeClientTxKey(res.headers) == Key(key)
    ensures var l1 := SendRequest(l, req, false);
            var u := After(l1, run, legacy);
            && (Stranded(u, key, |l.txs|) <==> !Claimed(l1, run, legacy, key))
            && (Stranded(u, key, |l.txs|) ==> HandleResponse(u, res, ok).ups == u.ups)
  {
    hide SendRequest, Claimed, Stranded;
    FailedSendStrands(l, req, key);
    FailedSendStaysInPool(SendRequest(l, req, false), run, legacy, key, |l.txs|, res, ok);
  }

  // ---- the response to a sent request

  /**
   * A response that carries Via and CSeq of the request as it was sent, rewritten, printed and parsed again, finds
   * the client transaction of the request.
   */
  lemma ResponseFindsSender(l: Layer, req: Request, key: string, localHost: string, transport: string, s: Store, ok: bool)
    requires req.requestMethod != "ACK" && MakeClientTxKey(req.headers) == Key(key)
    requires ComesBack(s, req.headers, localHost, transport)
    ensures FindClient(SendRequest(l, req, ok), s) == Found(|l.txs|)
  {
    hide C.Init, C.New, MakeClientTxKey, ComesBack;
    ComesBackKey(s, req.headers, localHost, transport);
  }
}
