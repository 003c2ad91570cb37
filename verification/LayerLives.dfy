/** Every transaction inside a run of the layer lives a run of its own, so its theorems hold in the layer. */
module LayerLives {
  import opened Wrappers
  import opened Timing
  import opened Responses
  import opened Tables
  import opened HeaderStore
  import opened TxKeys
  import opened LayerSteps
  import opened LayerRuns
  import S = ServerSteps
  import SR = ServerRuns
  import ST = ServerTheorems
  import C = ClientSteps
  import CR = ClientRuns

  // ---- lives

  /** The transaction is what a legal run makes of the one that its request created. */
  ghost predicate ServerLives(t: S.Tx, start: nat, run: seq<SR.Step>) {
    var t0 := S.Fresh(t.requestMethod, t.reliable, start);
    SR.Legal(t0, run) && t == SR.After(t0, run)
  }

  /** The same for a client transaction whose first send had the outcome `sent`. */
  ghost predicate ClientLives(t: C.Tx, m: string, sent: bool, start: nat, run: seq<CR.Step>) {
    var t0 := C.Init(C.New(m, t.reliable, start), sent);
    CR.Legal(t0, run) && t == CR.After(t0, run)
  }

  /** A server transaction is always served, a client transaction exactly if its first send succeeded. */
  ghost predicate Lives(r: Record, now: nat) {
    match r.tx
    case ServerSide(t) => r.served && t.now == now && exists run :: ServerLives(t, r.start, run)
    case ClientSide(t) => t.now == now && exists m, run :: ClientLives(t, m, r.served, r.start, run)
  }

  ghost predicate AllLive(l: Layer) {
    forall i :: 0 <= i < |l.txs| ==> Lives(l.txs[i], l.now)
  }

  lemma {:induction false} ServerAppend(t: S.Tx, run: seq<SR.Step>, s: SR.Step)
    requires SR.Legal(t, run) && SR.Enabled(SR.After(t, run), s)
    ensures SR.Legal(t, run + [s]) && SR.After(t, run + [s]) == SR.Next(SR.After(t, run), s)
    decreases |run|
  {
    hide SR.Next, SR.Enabled;
    if run == [] {
      assert [] + [s] == [s] && [s][1..] == [];
      assert SR.Legal(SR.Next(t, s), []) && SR.After(SR.Next(t, s), []) == SR.Next(t, s);
    } else {
      assert (run + [s])[1..] == run[1..] + [s];
      ServerAppend(SR.Next(t, run[0]), run[1..], s);
    }
  }

  lemma {:induction false} ClientAppend(t: C.Tx, run: seq<CR.Step>, s: CR.Step)
    requires CR.Legal(t, run) && CR.Enabled(CR.After(t, run), s)
    ensures CR.Legal(t, run + [s]) && CR.After(t, run + [s]) == CR.Next(CR.After(t, run), s)
    decreases |run|
  {
    hide CR.Next, CR.Enabled;
    if run == [] {
      assert [] + [s] == [s] && [s][1..] == [];
      assert CR.Legal(CR.Next(t, s), []) && CR.After(CR.Next(t, s), []) == CR.Next(t, s);
    } else {
      assert (run + [s])[1..] == run[1..] + [s];
      ClientAppend(CR.Next(t, run[0]), run[1..], s);
    }
  }

  lemma ServerNow(t: S.Tx, s: SR.Step)
    ensures SR.Next(t, s).now == t.now + if s.Wait? then s.time else 0
  {
    hide S.Spin;
  }

  lemma ClientNow(t: C.Tx, s: CR.Step)
    ensures CR.Next(t, s).now == t.now + if s.Wait? then s.time else 0
  {
    hide C.Spin;
  }

  lemma InitNow(m: string, reliable: bool, start: nat, sent: bool)
    ensures C.Init(C.New(m, reliable, start), sent).now == start
    ensures C.Init(C.New(m, reliable, start), sent).reliable == reliable
  {
    hide C.Spin;
  }

  /** One more step of its own keeps a transaction alive. */
  lemma ServerLivesOn(r: Record, now: nat, t: S.Tx, s: SR.Step, r1: Record)
    requires r.tx == ServerSide(t) && Lives(r, now) && SR.Enabled(t, s)
    requires r1 == r.(tx := ServerSide(SR.Next(t, s)), dropped := r1.dropped)
    ensures Lives(r1, now + if s.Wait? then s.time else 0)
  {
    hide SR.Next, SR.Enabled, S.Fresh;
    var run :| ServerLives(t, r.start, run);
    ServerAppend(S.Fresh(t.requestMethod, t.reliable, r.start), run, s);
    ServerNow(t, s);
    ST.SameTable(t, [s]);
    assert SR.After(t, [s]) == SR.Next(t, s) by { assert [s][1..] == []; }
    assert ServerLives(SR.Next(t, s), r.start, run + [s]);
  }

  lemma ClientLivesOn(r: Record, now: nat, t: C.Tx, s: CR.Step, r1: Record)
    requires r.tx == ClientSide(t) && Lives(r, now) && CR.Enabled(t, s)
    requires r1 == r.(tx := ClientSide(CR.Next(t, s)), dropped := r1.dropped)
    ensures Lives(r1, now + if s.Wait? then s.time else 0)
  {
    hide CR.Next, CR.Enabled, C.Init, C.New;
    var m, run :| ClientLives(t, m, r.served, r.start, run);
    ClientAppend(C.Init(C.New(m, t.reliable, r.start), r.served), run, s);
    ClientNow(t, s);
    CR.SameTable(t, [s]);
    assert CR.After(t, [s]) == CR.Next(t, s) by { assert [s][1..] == []; }
    assert ClientLives(CR.Next(t, s), m, r.served, r.start, run + [s]);
  }

  lemma ServerBorn(key: string, m: string, reliable: bool, now: nat)
    ensures Lives(Record(key, now, ServerSide(S.Fresh(m, reliable, now)), true, false), now)
  {
    assert ServerLives(S.Fresh(m, reliable, now), now, []);
  }

  lemma ClientBorn(key: string, m: string, reliable: bool, now: nat, sent: bool)
    ensures Lives(Record(key, now, ClientSide(C.Init(C.New(m, reliable, now), sent)), sent, false), now)
  {
    hide C.Init, C.New;
    InitNow(m, reliable, now, sent);
    assert ClientLives(C.Init(C.New(m, reliable, now), sent), m, sent, now, []);
  }

  // ---- every event keeps all transactions alive

  lemma ArrivalLives(l: Layer, req: Request, legacy: LegacyKey, ok: bool)
    requires AllLive(l)
    ensures AllLive(HandleRequest(l, req, legacy, ok))
  {
    hide Lives, S.Fresh, S.Receive;
    match FindServer(l, req.headers, legacy) {
      case Found(n) =>
        var t := l.txs[n].tx.server;
        var s := SR.Recv(req.requestMethod, req.id, ok);
        ServerLivesOn(l.txs[n], l.now, t, s, l.txs[n].(tx := ServerSide(SR.Next(t, s))));
      case Absent(key) => ServerBorn(key, req.requestMethod, req.reliable, l.now);
      case _ =>
    }
  }

  lemma ReplyLives(l: Layer, res: Reply, ok: bool)
    requires AllLive(l)
    ensures AllLive(HandleResponse(l, res, ok))
  {
    hide Lives, C.Receive;
    match FindClient(l, res.headers) {
      case Found(n) =>
        var t := l.txs[n].tx.client;
        var s := CR.Recv(AsResponse(res), ok);
        ClientLivesOn(l.txs[n], l.now, t, s, l.txs[n].(tx := ClientSide(CR.Next(t, s))));
      case _ =>
    }
  }

  lemma UserRequestLives(l: Layer, req: Request, ok: bool)
    requires AllLive(l)
    ensures AllLive(SendRequest(l, req, ok))
  {
    hide Lives, C.Init, C.New;
    match MakeClientTxKey(req.headers) {
      case Key(k) => ClientBorn(k, req.requestMethod, req.reliable, l.now, ok);
      case _ =>
    }
  }

  lemma UserReplyLives(l: Layer, res: Reply, legacy: LegacyKey, ok: bool)
    requires AllLive(l)
    ensures AllLive(SendResponse(l, res, legacy, ok))
  {
    hide Lives, S.SendResponse;
    match FindServer(l, res.headers, legacy) {
      case Found(n) =>
        var t := l.txs[n].tx.server;
        var s := SR.Offer(AsResponse(res), ok);
        ServerLivesOn(l.txs[n], l.now, t, s, l.txs[n].(tx := ServerSide(SR.Next(t, s))));
      case _ =>
    }
  }

  lemma TimerLives(l: Layer, e: Event, legacy: LegacyKey)
    requires AllLive(l) && Enabled(l, e) && (e.ServerTimer? || e.ClientTimer?)
    ensures AllLive(Next(l, e, legacy))
  {
    hide Lives, SR.Next, CR.Next;
    match e {
      case ServerTimer(n, timer, ok) =>
        var t := l.txs[n].tx.server;
        var s := SR.Fires(timer, ok);
        ServerLivesOn(l.txs[n], l.now, t, s, l.txs[n].(tx := ServerSide(SR.Next(t, s))));
      case ClientTimer(n, timer, ok) =>
        var t := l.txs[n].tx.client;
        var s := CR.Fires(timer, ok);
        ClientLivesOn(l.txs[n], l.now, t, s, l.txs[n].(tx := ClientSide(CR.Next(t, s))));
    }
  }

  lemma WaitLives(l: Layer, d: nat, legacy: LegacyKey)
    requires AllLive(l) && Enabled(l, Event.Wait(d))
    ensures AllLive(Next(l, Event.Wait(d), legacy))
  {
    hide Lives, SR.Next, CR.Next;
    var l1 := Next(l, Event.Wait(d), legacy);
    forall i | 0 <= i < |l1.txs| ensures Lives(l1.txs[i], l1.now) {
      assert MayWait(l.txs[i].tx, d);
      match l.txs[i].tx {
        case ServerSide(t) => ServerLivesOn(l.txs[i], l.now, t, SR.Wait(d), l1.txs[i]);
        case ClientSide(t) => ClientLivesOn(l.txs[i], l.now, t, CR.Wait(d), l1.txs[i]);
      }
    }
  }

  lemma LivesStep(l: Layer, e: Event, legacy: LegacyKey)
    requires AllLive(l) && Enabled(l, e)
    ensures AllLive(Next(l, e, legacy))
  {
    hide HandleRequest, HandleResponse, SendRequest, SendResponse;
    match e {
      case Arrives(req, ok) => ArrivalLives(l, req, legacy, ok);
      case ReplyArrives(res, ok) => ReplyLives(l, res, ok);
      case UserRequest(req, ok) => UserRequestLives(l, req, ok);
      case UserReply(res, ok) => UserReplyLives(l, res, legacy, ok);
      case ServerTimer(_, _, _) => TimerLives(l, e, legacy);
      case ClientTimer(_, _, _) => TimerLives(l, e, legacy);
      case Finished(n) => DropLives(l, n);
      case Wait(d) => WaitLives(l, d, legacy);
    }
  }

  lemma DropLives(l: Layer, n: nat)
    requires AllLive(l) && n < |l.txs|
    ensures AllLive(Drop(l, n))
  {
    hide ServerLives, ClientLives;
    var r := l.txs[n];
    assert Lives(r, l.now);
    assert Lives(r.(dropped := true), l.now);
    hide Lives;
  }

  /** In every run of the layer, each transaction is what a legal run of its own makes of it, on the same clock. */
  lemma {:induction false} LivesRun(l: Layer, run: seq<Event>, legacy: LegacyKey)
    requires AllLive(l) && Legal(l, run, legacy)
    ensures AllLive(After(l, run, legacy))
    decreases |run|
  {
    hide AllLive, Next, Enabled;
    if run != [] {
      LivesStep(l, run[0], legacy);
      LivesRun(Next(l, run[0], legacy), run[1..], legacy);
    }
  }

  lemma FromEmpty(run: seq<Event>, legacy: LegacyKey, n: nat)
    requires Legal(EMPTY_LAYER, run, legacy) && n < |After(EMPTY_LAYER, run, legacy).txs|
    ensures Lives(After(EMPTY_LAYER, run, legacy).txs[n], After(EMPTY_LAYER, run, legacy).now)
  {
    hide Lives, Next, Enabled;
    LivesRun(EMPTY_LAYER, run, legacy);
  }

  // ---- the theorems of the transactions, in the layer

  /** A server transaction in the layer keeps its trace; an INVITE passes up one ACK at most and keeps its deadlines. */
  lemma ServerInLayer(run: seq<Event>, legacy: LegacyKey, n: nat)
    requires Legal(EMPTY_LAYER, run, legacy) && n < |After(EMPTY_LAYER, run, legacy).txs|
    requires After(EMPTY_LAYER, run, legacy).txs[n].tx.ServerSide?
    ensures var l := After(EMPTY_LAYER, run, legacy);
            var t := l.txs[n].tx.server;
            && (SR.QuietAfterFinal(t.out.offered) ==> SR.ProvisionalsThenCopies(t.out.wire))
            && (t.requestMethod == "INVITE" ==>
                  && ST.AtMostOneAck(t.out.ups)
                  && (SR.QuietAfterFinal(t.out.offered) ==> SR.OnlyLastSucceeds(t.out.wire))
                  && (t.state in {S.Completed, S.Confirmed} ==>
                        SR.FirstFinal(t.out.wire).Some? &&
                        l.now <= SR.FirstFinal(t.out.wire).value + TIME_H + if t.state == S.Confirmed then TIME_I else 0))
  {
    hide SR.Next, SR.Enabled, S.Fresh, Next, Enabled, SR.ProvisionalsThenCopies;
    FromEmpty(run, legacy, n);
    var r := After(EMPTY_LAYER, run, legacy).txs[n];
    var t := r.tx.server;
    var own :| ServerLives(t, r.start, own);
    ST.WireTrace(t.requestMethod, t.reliable, r.start, own);
    if t.requestMethod == "INVITE" {
      ST.OneAckPassedUp(t.reliable, r.start, own);
      if t.state in {S.Completed, S.Confirmed} {
        ST.FinalResponseTiming(t.reliable, r.start, own);
      }
    }
  }

  /**
   * A client transaction in the layer whose first send succeeded passes up provisionals and then at most one final,
   * never fails, and, unless it is an INVITE, ends within 64*T1 + T4 of its creation by the layer's clock.
   */
  lemma ClientInLayer(run: seq<Event>, legacy: LegacyKey, n: nat)
    requires Legal(EMPTY_LAYER, run, legacy) && n < |After(EMPTY_LAYER, run, legacy).txs|
    requires After(EMPTY_LAYER, run, legacy).txs[n].tx.ClientSide? && After(EMPTY_LAYER, run, legacy).txs[n].served
    ensures var l := After(EMPTY_LAYER, run, legacy);
            var t := l.txs[n].tx.client;
            && CR.ProvisionalsThenFinal(t.out.ups) && t.out.timeouts <= 1
            && (t.out.timeouts == 1 ==> CR.AllProvisional(t.out.ups))
            && t.out.unhandled == [] && t.out.panics == 0 && (t.state == C.Terminated <==> t.done)
            && (t.table.NonInviteTable? && t.state != C.Terminated ==>
                  l.now <= l.txs[n].start + TIME_B + if t.reliable then 0 else TIME_K)
  {
    hide CR.Next, CR.Enabled, C.Init, Next, Enabled;
    FromEmpty(run, legacy, n);
    var r := After(EMPTY_LAYER, run, legacy).txs[n];
    var t := r.tx.client;
    var m, own :| ClientLives(t, m, true, r.start, own);
    CR.Delivery(m, t.reliable, r.start, own);
    CR.ClientSafety(m, t.reliable, r.start, own);
    if m != "INVITE" {
      CR.NonInviteDeadline(m, t.reliable, r.start, own);
    } else {
      CR.SameTable(C.Init(C.New(m, t.reliable, r.start), true), own);
      InitTable(m, t.reliable, r.start);
    }
  }

  lemma InitTable(m: string, reliable: bool, start: nat)
    ensures C.Init(C.New(m, reliable, start), true).table == TableFor(m)
  {
  }

  // ---- when a finished transaction leaves the pool

  lemma SendsGrow(t: C.Tx, s: CR.Step)
    requires t.out.sends != []
    ensures CR.Next(t, s).out.sends != [] && CR.Next(t, s).out.sends[0] == t.out.sends[0]
  {
    hide C.Spin, CR.Settled;
    forall u: C.Tx, i: C.Input, ok: bool | u.out.sends == t.out.sends && C.Rank(i) == 2
      ensures C.Spin(u, i, ok).out.sends != [] && C.Spin(u, i, ok).out.sends[0] == t.out.sends[0]
    {
      CR.SpinSettles(u, i, ok);
      SettledGrows(u, i, ok);
    }
  }

  lemma SettledGrows(t: C.Tx, i: C.Input, ok: bool)
    requires t.out.sends != []
    ensures var u := CR.Settled(t, i, ok); u.out.sends != [] && u.out.sends[0] == t.out.sends[0]
  {
    hide C.InviteRow, C.NonInviteRow, C.Row, C.Act, CR.Failed, CR.Closed;
    if C.Row(t, i).Some? {
      var row := C.Row(t, i).value;
      ActGrows(t, row.action, ok);
      FailedSends(C.Act(t, row.action, ok).0.(state := row.state));
    }
  }

  lemma ActGrows(t: C.Tx, a: C.Action, ok: bool)
    requires t.out.sends != []
    ensures var u := C.Act(t, a, ok).0; u.out.sends != [] && u.out.sends[0] == t.out.sends[0]
  {
  }

  lemma FailedSends(t: C.Tx)
    ensures CR.Failed(t).out.sends == t.out.sends && CR.Closed(t).out.sends == t.out.sends
  {
  }

  lemma {:induction false} FirstSendKept(t: C.Tx, run: seq<CR.Step>)
    requires t.out.sends != []
    ensures var u := CR.After(t, run); u.out.sends != [] && u.out.sends[0] == t.out.sends[0]
    decreases |run|
  {
    hide CR.Next;
    if run != [] {
      SendsGrow(t, run[0]);
      FirstSendKept(CR.Next(t, run[0]), run[1..]);
    }
  }

  lemma InitSends(m: string, reliable: bool, start: nat, sent: bool)
    ensures var u := C.Init(C.New(m, reliable, start), sent); u.out.sends != [] && u.out.sends[0] == C.Sent(start, sent)
  {
    hide C.Spin;
    if !sent {
      CR.FailedInit(m, reliable, start);
    }
  }

  /** The outcome of the first send decided whether a client transaction is served. */
  lemma ServedIsSent(r: Record, now: nat)
    requires Lives(r, now) && r.tx.ClientSide?
    ensures var sends := r.tx.client.out.sends; sends != [] && sends[0] == C.Sent(r.start, r.served)
  {
    hide CR.Next, CR.Enabled, C.Init, C.New;
    var t := r.tx.client;
    var m, own :| ClientLives(t, m, r.served, r.start, own);
    InitSends(m, t.reliable, r.start, r.served);
    FirstSendKept(C.Init(C.New(m, t.reliable, r.start), r.served), own);
  }

  /**
   * In every run of the layer a finished transaction can leave the pool, or has left it, if and only if it is a
   * server transaction or its first send succeeded; leaving takes its key out of the pool.
   */
  lemma FinishedLeaves(run: seq<Event>, legacy: LegacyKey, n: nat)
    requires Legal(EMPTY_LAYER, run, legacy) && n < |After(EMPTY_LAYER, run, legacy).txs|
    requires After(EMPTY_LAYER, run, legacy).txs[n].Done()
    ensures var l := After(EMPTY_LAYER, run, legacy);
            var r := l.txs[n];
            && (r.tx.ClientSide? ==> r.tx.client.out.sends != [])
            && (Enabled(l, Finished(n)) || r.dropped <==> r.tx.ServerSide? || r.tx.client.out.sends[0].ok)
            && (Enabled(l, Finished(n)) ==> r.key !in Next(l, Finished(n), legacy).pool)
  {
    hide Lives;
    FromEmpty(run, legacy, n);
    NeverDroppedUnserved(run, legacy, n);
    var l := After(EMPTY_LAYER, run, legacy);
    if l.txs[n].tx.ClientSide? {
      ServedIsSent(l.txs[n], l.now);
    } else {
      ServerServed(l.txs[n], l.now);
    }
  }

  lemma ServerServed(r: Record, now: nat)
    requires Lives(r, now) && r.tx.ServerSide?
    ensures r.served
  {
  }

  ghost predicate DroppedServed(l: Layer) {
    forall i :: 0 <= i < |l.txs| && l.txs[i].dropped ==> l.txs[i].served
  }

  lemma DroppedStep(l: Layer, e: Event, legacy: LegacyKey)
    requires DroppedServed(l) && Enabled(l, e)
    ensures DroppedServed(Next(l, e, legacy))
  {
    hide S.Receive, S.SendResponse, S.Fresh, C.Receive, C.Init, SR.Next, CR.Next;
  }

  lemma {:induction false} DroppedRun(l: Layer, run: seq<Event>, legacy: LegacyKey)
    requires DroppedServed(l) && Legal(l, run, legacy)
    ensures DroppedServed(After(l, run, legacy))
    decreases |run|
  {
    hide DroppedServed, Next, Enabled;
    if run != [] {
      DroppedStep(l, run[0], legacy);
      DroppedRun(Next(l, run[0], legacy), run[1..], legacy);
    }
  }

  lemma NeverDroppedUnserved(run: seq<Event>, legacy: LegacyKey, n: nat)
    requires Legal(EMPTY_LAYER, run, legacy) && n < |After(EMPTY_LAYER, run, legacy).txs|
    ensures After(EMPTY_LAYER, run, legacy).txs[n].dropped ==> After(EMPTY_LAYER, run, legacy).txs[n].served
  {
    hide Next, Enabled;
    DroppedRun(EMPTY_LAYER, run, legacy);
  }

  // ---- one request, one ACK

  /**
   * A request that creates a transaction is handed up once; until its key is claimed, the pool holds that
   * transaction under the key, no other request is handed up under it, and at most one ACK goes up through it.
   */
  lemma OneRequestOneAck(before: seq<Event>, req: Request, ok: bool, run: seq<Event>, legacy: LegacyKey)
    requires Legal(EMPTY_LAYER, before, legacy) && WellFormed(req) && NeedsTransaction(req)
    requires FindServer(After(EMPTY_LAYER, before, legacy), req.headers, legacy).Absent?
    requires Legal(HandleRequest(After(EMPTY_LAYER, before, legacy), req, legacy, ok), run, legacy)
    ensures var l := After(EMPTY_LAYER, before, legacy);
            var (l1, n) := (HandleRequest(l, req, legacy, ok), |l.txs|);
            var key := KeyText(ViaOf(req.headers).value, req.requestMethod);
            var u := After(l1, run, legacy);
            && (Holds(u, key, n) <==> !Claimed(l1, run, legacy, key))
            && (!Claimed(l1, run, legacy, key) ==> HandedUp(u.ups, key) == HandedUp(l.ups, key) + 1)
            && n < |u.txs| && u.txs[n].tx.ServerSide?
            && (req.requestMethod == "INVITE" ==> ST.AtMostOneAck(u.txs[n].tx.server.out.ups))
  {
    hide Next, Enabled, HandleRequest, KeyText, HandedUp, FindServer, Claimed, AllLive, S.Fresh;
    var l := After(EMPTY_LAYER, before, legacy);
    var (l1, n) := (HandleRequest(l, req, legacy, ok), |l.txs|);
    var key := KeyText(ViaOf(req.headers).value, req.requestMethod);
    CreationHandsUp(l, req, legacy, ok);
    HoldsRun(l1, run, legacy, key, n);
    if !Claimed(l1, run, legacy, key) {
      RetransmissionsAbsorbed(l1, run, legacy, key, n);
    }
    NewMethod(req.requestMethod, req.reliable, l.now);
    RecordRun(l1, run, legacy, n);
    assert AllLive(EMPTY_LAYER) by { NothingLives(); }
    LivesRun(EMPTY_LAYER, before, legacy);
    ArrivalLives(l, req, legacy, ok);
    LivesRun(l1, run, legacy);
    if req.requestMethod == "INVITE" {
      OneAckOf(After(l1, run, legacy), n);
    }
  }

  lemma NewMethod(m: string, reliable: bool, now: nat)
    ensures S.Fresh(m, reliable, now).requestMethod == m
  {
  }

  lemma NothingLives()
    ensures AllLive(EMPTY_LAYER)
  {
  }

  lemma OneAckOf(l: Layer, n: nat)
    requires AllLive(l) && n < |l.txs| && l.txs[n].tx.ServerSide? && l.txs[n].tx.server.requestMethod == "INVITE"
    ensures ST.AtMostOneAck(l.txs[n].tx.server.out.ups)
  {
    hide SR.Next, SR.Enabled, S.Fresh;
    var r := l.txs[n];
    assert Lives(r, l.now);
    var own :| ServerLives(r.tx.server, r.start, own);
    ST.OneAckPassedUp(r.tx.server.reliable, r.start, own);
  }
}
