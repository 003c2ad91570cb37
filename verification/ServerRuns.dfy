/** What every run of a server transaction keeps, from its creation on. */
module ServerRuns {
  import opened Wrappers
  import opened Timing
  import opened Responses
  import opened Tables
  import opened ServerSteps

  /** One thing that happens to a transaction: a matched request, a response to send, a timer, or time passing. */
  datatype Step =
    | Recv(requestMethod: string, id: nat, ok: bool)
    | Offer(resp: Response, ok: bool)
    | Fires(timer: TimerName, ok: bool)
    | Wait(time: nat)

  /** A timer runs only when it is due, and time does not overtake a due timer. */
  predicate Enabled(t: Tx, s: Step) {
    match s
    case Recv(_, _, _) => true
    case Offer(_, _) => true
    case Fires(n, _) => TimerOf(t, n).DueAt(t.now)
    case Wait(d) =>
      && t.timerG.Allows(t.now + d) && t.timerH.Allows(t.now + d) && t.timerI.Allows(t.now + d)
      && t.timerJ.Allows(t.now + d) && t.timer1xx.Allows(t.now + d)
  }

  function Next(t: Tx, s: Step): Tx {
    match s
    case Recv(m, id, ok) => Receive(t, m, id, ok)
    case Offer(r, ok) => SendResponse(t, r, ok)
    case Fires(n, ok) => Fire(t, n, ok)
    case Wait(d) => t.(now := t.now + d)
  }

  ghost predicate Legal(t: Tx, run: seq<Step>)
    decreases |run|
  {
    run == [] || (Enabled(t, run[0]) && Legal(Next(t, run[0]), run[1..]))
  }

  ghost function After(t: Tx, run: seq<Step>): Tx
    decreases |run|
  {
    if run == [] then t else After(Next(t, run[0]), run[1..])
  }

  // ---- Spin in closed form

  /** A failed send: the error is reported and the transaction deleted. */
  function Failed(t: Tx): Tx {
    Deleted(if t.done then t else t.(out := t.out.(errors := t.out.errors + 1))).(state := Terminated)
  }

  function Settled(t: Tx, i: Input, ok: bool): Tx {
    match Row(t, i)
    case None => t.(out := t.out.Refused(t.state, i))
    case Some(To(s, a)) =>
      var (t1, next) := Act(t, i, a, ok);
      var t2 := t1.(state := s);
      if next.None? then t2
      else if Row(t2, TransportErr).Some? then Failed(t2)
      else t2.(out := t2.out.Refused(s, TransportErr))
  }

  lemma ErrorRow(t: Tx)
    ensures Row(t, TransportErr).Some? ==> Row(t, TransportErr).value == To(Terminated, TransErr)
    ensures t.state == Terminated ==> Row(t, Delete) == Some(To(Terminated, DeleteTx))
  {
  }

  /** A transport error ends the transaction in two inputs wherever the table has a row for it. */
  lemma SpinError(t: Tx, ok: bool)
    requires Row(t, TransportErr).Some?
    ensures Spin(t, TransportErr, ok) == Failed(t)
    ensures Cascade(t, TransportErr, ok) == [TransportErr, Delete]
  {
    hide InviteRow, NonInviteRow, Row, Deleted;
    ErrorRow(t);
    var t1 := Act(t, TransportErr, TransErr, ok).0;
    SpinDelete(t1.(state := Terminated), ok);
    DeletedState(t1);
  }

  lemma DeletedState(t: Tx)
    ensures Deleted(t.(state := Terminated)).(state := Terminated) == Deleted(t).(state := Terminated)
  {
  }

  lemma SpinDelete(t: Tx, ok: bool)
    requires t.state == Terminated
    ensures Spin(t, Delete, ok) == Deleted(t).(state := Terminated)
    ensures Cascade(t, Delete, ok) == [Delete]
  {
    hide InviteRow, NonInviteRow, Row, Deleted;
    ErrorRow(t);
  }

  /** The inputs that a failed send makes Spin consume next. */
  function FollowUps(t: Tx, next: Option<Input>): seq<Input> {
    if next.None? then [] else if Row(t, TransportErr).Some? then [TransportErr, Delete] else [TransportErr]
  }

  function Consumed(t: Tx, i: Input, ok: bool): seq<Input> {
    match Row(t, i)
    case None => [i]
    case Some(To(s, a)) => [i] + FollowUps(Act(t, i, a, ok).0.(state := s), Act(t, i, a, ok).1)
  }

  /** Spin ends after at most three inputs, of which the second and third follow a failed send. */
  lemma SpinSettles(t: Tx, i: Input, ok: bool)
    requires Rank(i) == 2
    ensures Spin(t, i, ok) == Settled(t, i, ok)
    ensures Cascade(t, i, ok) == Consumed(t, i, ok) && |Consumed(t, i, ok)| <= 3
    ensures ok ==> Consumed(t, i, ok) == [i]
  {
    hide Act, InviteRow, NonInviteRow, Deleted, Row;
    match Row(t, i)
    case None =>
    case Some(To(s, a)) =>
      var (t1, next) := Act(t, i, a, ok);
      var t2 := t1.(state := s);
      if next.Some? && Row(t2, TransportErr).Some? {
        SpinError(t2, ok);
      }
  }

  /** What a row that answers with the last response does, in a state in which a failed send is reported. */
  lemma Responds(t: Tx, i: Input, s: State, ok: bool)
    requires Row(t, i) == Some(To(s, Respond)) && t.lastResp.Some?
    requires Row(t.(state := s), TransportErr).Some?
    ensures var t1 := Attempted(t, i, ok).(state := s); Settled(t, i, ok) == if ok then t1 else Failed(t1)
  {
    hide InviteRow, NonInviteRow, Failed;
  }

  /** What a row without an action does. */
  lemma OnlyMoves(t: Tx, i: Input, s: State, ok: bool)
    requires Row(t, i) == Some(To(s, NoAction))
    ensures Settled(t, i, ok) == t.(state := s)
  {
    hide InviteRow, NonInviteRow, Failed;
  }

  /** What a row with an action that sends no response does. */
  lemma QuietForm(t: Tx, i: Input, s: State, a: Action, ok: bool)
    requires Row(t, i) == Some(To(s, a)) && a in {Confirm, CancelOk, CancelNotExist}
    ensures Settled(t, i, ok) ==
            (match a
             case Confirm => Confirming(t)
             case CancelOk => CancelAccepted(t)
             case _ => CancelRefused(t)).(state := s)
  {
    hide InviteRow, NonInviteRow, Failed, Confirming, CancelAccepted, CancelRefused;
  }

  // ---- histories

  /** When the first final response was sent. */
  function FirstFinal(w: seq<Attempt>): Option<nat> {
    if w == [] then None
    else
      var (init, last) := (w[..|w| - 1], w[|w| - 1]);
      if FirstFinal(init).Some? then FirstFinal(init)
      else if last.resp.Provisional() then None else Some(last.at)
  }

  /** The instants of the sends that timer G caused. */
  function Resends(w: seq<Attempt>): seq<nat> {
    if w == [] then []
    else
      var (init, last) := (w[..|w| - 1], w[|w| - 1]);
      Resends(init) + if last.cause == TimerG then [last.at] else []
  }

  lemma Snoc(w: seq<Attempt>, a: Attempt)
    ensures FirstFinal(w + [a]) == if FirstFinal(w).Some? then FirstFinal(w)
                                   else if a.resp.Provisional() then None else Some(a.at)
    ensures Resends(w + [a]) == Resends(w) + if a.cause == TimerG then [a.at] else []
  {
    assert (w + [a])[..|w|] == w;
  }

  /** The resends are at the sums of the capped waits after the instant `f`. */
  predicate OnSchedule(resends: seq<nat>, f: nat) {
    forall k :: 0 <= k < |resends| ==> resends[k] == f + CappedAt(k + 1)
  }

  /** Once a final response was sent, only copies of it follow. */
  predicate ProvisionalsThenCopies(w: seq<Attempt>) {
    forall i, j :: 0 <= i < j < |w| && !w[i].resp.Provisional() ==> w[j].resp == w[i].resp
  }

  /** Everything given to SendResponse before the last response was provisional. */
  predicate QuietAfterFinal(offered: seq<Response>) {
    forall i :: 0 <= i < |offered| - 1 ==> offered[i].Provisional()
  }

  predicate AllProvisional(w: seq<Attempt>) {
    forall i :: 0 <= i < |w| ==> w[i].resp.Provisional()
  }

  predicate OnlyLastSucceeds(w: seq<Attempt>) {
    forall i :: 0 <= i < |w| - 1 ==> !w[i].resp.Success()
  }

  // ---- the invariant of the INVITE transaction

  /** Timer G and its wait, after the resends made since the final response at `f`. */
  predicate Retransmitting(t: Tx, f: nat) {
    var resends := Resends(t.out.wire);
    if t.reliable then resends == [] && t.timerG == OFF
    else
      && t.timerG.Armed(f + CappedAt(|resends| + 1))
      && t.now <= f + CappedAt(|resends| + 1)
      && t.gTime == CappedWait(|resends|)
      && CappedAt(|resends|) <= TIME_H
  }

  /** lastResp is the last response given to SendResponse. */
  predicate LastIsOffered(t: Tx) {
    t.lastResp == if t.out.offered == [] then None else Some(t.out.offered[|t.out.offered| - 1])
  }

  predicate InProceeding(t: Tx, start: nat) {
    && t.state == Proceeding && !t.done
    && t.timerG == OFF && t.timerH == OFF && t.timerI == OFF && t.timerJ == OFF
    && t.gTime == (if t.reliable then 0 else TIME_G)
    && (t.timer1xx == OFF ||
        (t.timer1xx.Armed(start + TIME_1XX) && t.now <= start + TIME_1XX && t.out.wire == [] && t.lastResp.None?))
    && AllProvisional(t.out.wire) && Resends(t.out.wire) == [] && FirstFinal(t.out.wire).None?
    && (t.lastResp.Some? ==> t.lastResp.value.Provisional())
  }

  predicate InCompleted(t: Tx, f: nat) {
    && t.state == Completed && !t.done
    && t.timerI == OFF && t.timerJ == OFF && t.timer1xx == OFF
    && t.lastResp.Some? && FirstFinal(t.out.wire) == Some(f)
    && t.timerH.Armed(f + TIME_H) && f <= t.now <= f + TIME_H
    && Retransmitting(t, f) && OnSchedule(Resends(t.out.wire), f)
  }

  predicate InConfirmed(t: Tx, f: nat) {
    && t.state == Confirmed && !t.done
    && t.timerG == OFF && t.timerH == OFF && t.timerJ == OFF && t.timer1xx == OFF
    && FirstFinal(t.out.wire) == Some(f)
    && t.timerI.isSet && t.timerI.due.Some? && t.now <= t.timerI.due.value <= f + TIME_H + TIME_I
    && OnSchedule(Resends(t.out.wire), f)
  }

  /** Terminated with every timer stopped, or left behind by a second ACK with timer I still set. */
  predicate InTerminated(t: Tx) {
    && t.state == Terminated
    && t.timerG == OFF && t.timerH == OFF && t.timerJ == OFF && t.timer1xx == OFF
    && (t.done ==> t.timerI == OFF)
    && (FirstFinal(t.out.wire).Some? ==> OnSchedule(Resends(t.out.wire), FirstFinal(t.out.wire).value))
  }

  predicate InviteInv(t: Tx, start: nat) {
    && t.table.InviteTable? && LastIsOffered(t)
    && match t.state
       case Trying => false
       case Proceeding => InProceeding(t, start)
       case Completed => FirstFinal(t.out.wire).Some? && InCompleted(t, FirstFinal(t.out.wire).value)
       case Confirmed => FirstFinal(t.out.wire).Some? && InConfirmed(t, FirstFinal(t.out.wire).value)
       case Terminated => InTerminated(t)
  }

  predicate Stoppable(t: Tx) {
    && (t.timerG == OFF || t.timerG.isSet) && (t.timerH == OFF || t.timerH.isSet)
    && (t.timerI == OFF || t.timerI.isSet) && (t.timerJ == OFF || t.timerJ.isSet)
    && (t.timer1xx == OFF || t.timer1xx.isSet)
  }

  predicate ScheduleKept(t: Tx) {
    FirstFinal(t.out.wire).Some? ==> OnSchedule(Resends(t.out.wire), FirstFinal(t.out.wire).value)
  }

  lemma Closing(t: Tx)
    requires !t.done && Stoppable(t) && ScheduleKept(t)
    ensures InTerminated(Failed(t)) && Failed(t).done
    ensures InTerminated(Deleted(t).(state := Terminated))
  {
    hide Resends, FirstFinal, CappedAt;
  }

  /** The invariant after a failed send. */
  lemma FailedInv(t: Tx, start: nat)
    requires t.table.InviteTable? && LastIsOffered(t) && !t.done && Stoppable(t) && ScheduleKept(t)
    ensures InviteInv(Failed(t), start)
  {
    hide Resends, FirstFinal, CappedAt, OnSchedule, Failed;
    Closing(t);
    FailedKeeps(t);
  }

  lemma FirstWaits()
    ensures CappedAt(0) == 0 && CappedAt(1) == T1 && CappedWait(0) == T1
  {
    assert Pow2(0) == 1;
  }

  /** A transaction in which nothing but the last response and its history changed. */
  function Responding(t: Tx, i: Input, r: Response, ok: bool): Tx {
    t.(lastResp := Some(r), out := t.out.Sent(Attempt(t.now, i, r, ok)))
  }

  lemma ProceedingRequest(t: Tx, start: nat, ok: bool)
    requires t.table.InviteTable? && LastIsOffered(t) && InProceeding(t, start) && t.timer1xx == OFF
    ensures InviteInv(Settled(t, Request, ok), start)
  {
    hide Resends, FirstFinal, Spin, Cascade, NonInviteRow, CappedAt, CappedWait;
    assert Row(t, Request) == Some(To(Proceeding, Respond));
    if t.lastResp.Some? {
      ProceedingProvisional(t, start, t.lastResp.value, Request, ok);
    }
  }

  lemma ProceedingAckOrCancel(t: Tx, start: nat, i: Input, ok: bool)
    requires t.table.InviteTable? && LastIsOffered(t) && InProceeding(t, start) && t.timer1xx == OFF
    requires i in {Ack, Cancel}
    ensures InviteInv(Settled(t, i, ok), start)
  {
    hide Resends, FirstFinal, Spin, Cascade, NonInviteRow, CappedAt, CappedWait;
    assert Row(t, Ack) == None && Row(t, Cancel) == Some(To(Proceeding, CancelOk));
  }

  /** A provisional response, offered now or before. */
  lemma ProceedingProvisional(t: Tx, start: nat, r: Response, i: Input, ok: bool)
    requires t.table.InviteTable? && InProceeding(t, start) && t.timer1xx == OFF
    requires LastIsOffered(t) && t.lastResp == Some(r) && i in {Request, User1xx}
    ensures InviteInv(Settled(t, i, ok), start)
  {
    hide Resends, FirstFinal, Spin, Cascade, NonInviteRow, CappedAt, CappedWait, Settled, Act, Failed;
    var t1 := Responding(t, i, r, ok);
    Snoc(t.out.wire, Attempt(t.now, i, r, ok));
    Responds(t, i, Proceeding, ok);
    assert Settled(t, i, ok) == if ok then t1 else Failed(t1);
    FailedInv(t1, start);
  }

  lemma ProceedingSuccess(t: Tx, start: nat, r: Response, ok: bool)
    requires t.table.InviteTable? && InProceeding(t.(lastResp := None), start) && t.timer1xx == OFF
    requires LastIsOffered(t) && t.lastResp == Some(r) && r.Success()
    ensures InviteInv(Settled(t, User2xx, ok), start)
  {
    hide Resends, FirstFinal, Spin, Cascade, Row, CappedAt, CappedWait, Settled, Act, Deleted;
    Snoc(t.out.wire, Attempt(t.now, User2xx, r, ok));
    Closing(Responding(t, User2xx, r, ok));
    SuccessForm(t, ok);
  }

  lemma SuccessForm(t: Tx, ok: bool)
    requires t.table.InviteTable? && t.state == Proceeding && !t.done && t.lastResp.Some?
    ensures var t2 := Deleted(Responding(t, User2xx, t.lastResp.value, ok)).(state := Terminated);
            Settled(t, User2xx, ok) == if ok then t2 else t2.(out := t2.out.Refused(Terminated, TransportErr))
  {
    hide NonInviteRow, InviteRow, Row, Act, Deleted;
    RespondDeleteForm(t, ok);
    NoErrorRow(Deleted(Responding(t, User2xx, t.lastResp.value, ok)));
  }

  lemma RespondDeleteForm(t: Tx, ok: bool)
    requires t.table.InviteTable? && t.state == Proceeding && !t.done && t.lastResp.Some?
    ensures Row(t, User2xx) == Some(To(Terminated, RespondDelete))
    ensures Act(t, User2xx, RespondDelete, ok) ==
            (Deleted(Responding(t, User2xx, t.lastResp.value, ok)), if ok then None else Some(TransportErr))
  {
    hide NonInviteRow, Deleted;
    DeletedFirst(t, User2xx, ok);
  }

  lemma NoErrorRow(t: Tx)
    ensures t.table.InviteTable? ==> Row(t.(state := Terminated), TransportErr).None?
  {
  }

  /** Deleting and then sending is sending and then deleting. */
  lemma DeletedFirst(t: Tx, i: Input, ok: bool)
    requires t.lastResp.Some? && !t.done
    ensures Deleted(t).lastResp == t.lastResp
    ensures Attempted(Deleted(t), i, ok) == Deleted(Responding(t, i, t.lastResp.value, ok))
  {
  }

  lemma ProceedingFinal(t: Tx, start: nat, r: Response, ok: bool)
    requires t.table.InviteTable? && InProceeding(t.(lastResp := None), start) && t.timer1xx == OFF
    requires LastIsOffered(t) && t.lastResp == Some(r) && !r.Provisional() && !r.Success()
    ensures InviteInv(Settled(t, User300Plus, ok), start)
  {
    hide Resends, FirstFinal, Spin, Cascade, Row, CappedAt, CappedWait, Settled, Act, Failed;
    FirstWaits();
    var t1 := Responding(t, User300Plus, r, ok).(state := Completed);
    Snoc(t.out.wire, Attempt(t.now, User300Plus, r, ok));
    FinalForm(t, ok);
    if ok {
      assert InCompleted(RespondCompleted(t1), t.now);
    } else {
      FailedInv(t1, start);
    }
  }

  lemma FinalForm(t: Tx, ok: bool)
    requires t.table.InviteTable? && t.state == Proceeding && t.lastResp.Some?
    ensures var t1 := Responding(t, User300Plus, t.lastResp.value, ok).(state := Completed);
            Settled(t, User300Plus, ok) == if ok then RespondCompleted(t1) else Failed(t1)
  {
    hide NonInviteRow, Failed;
    assert Row(t, User300Plus) == Some(To(Completed, RespondComplete));
  }

  lemma CompletedRequest(t: Tx, start: nat, f: nat, ok: bool)
    requires t.table.InviteTable? && LastIsOffered(t) && InCompleted(t, f)
    ensures InviteInv(Settled(t, Request, ok), start)
  {
    hide Resends, FirstFinal, Spin, Cascade, NonInviteRow, CappedAt, CappedWait, Settled, Act, Failed;
    var t1 := Responding(t, Request, t.lastResp.value, ok);
    Snoc(t.out.wire, Attempt(t.now, Request, t.lastResp.value, ok));
    Responds(t, Request, Completed, ok);
    assert Settled(t, Request, ok) == if ok then t1 else Failed(t1);
    if ok {
      assert InCompleted(t1, f) by { StillCompleted(t, t1, f); }
    } else {
      hide InviteInv;
      FailedInv(t1, start);
    }
  }

  /** Sends that timer G did not cause change neither the instant of the final response nor the resends. */
  lemma StillCompleted(t: Tx, u: Tx, f: nat)
    requires InCompleted(t, f) && u == t.(out := u.out)
    requires FirstFinal(u.out.wire) == FirstFinal(t.out.wire) && Resends(u.out.wire) == Resends(t.out.wire)
    ensures InCompleted(u, f)
  {
    hide Resends, FirstFinal, CappedAt, CappedWait;
  }

  lemma CompletedAck(t: Tx, start: nat, f: nat, ok: bool)
    requires t.table.InviteTable? && LastIsOffered(t) && InCompleted(t, f)
    ensures InviteInv(Settled(t, Ack, ok), start)
  {
    hide Resends, FirstFinal, Spin, Cascade, NonInviteRow, CappedAt, CappedWait, Settled, Act;
    assert Row(t, Ack) == Some(To(Confirmed, Confirm));
    QuietForm(t, Ack, Confirmed, Confirm, ok);
    assert InConfirmed(Settled(t, Ack, ok), f);
  }

  lemma CompletedCancel(t: Tx, start: nat, f: nat, ok: bool)
    requires t.table.InviteTable? && LastIsOffered(t) && InCompleted(t, f)
    ensures InviteInv(Settled(t, Cancel, ok), start)
  {
    hide Resends, FirstFinal, Spin, Cascade, NonInviteRow, CappedAt, CappedWait, Settled, Act;
    assert Row(t, Cancel) == Some(To(Completed, CancelNotExist));
    QuietForm(t, Cancel, Completed, CancelNotExist, ok);
    assert InCompleted(Settled(t, Cancel, ok), f);
  }

  /** A resend by timer G puts timer G on its next instant. */
  lemma Rescheduled(t: Tx, f: nat)
    requires InCompleted(t, f) && t.timerG.DueAt(t.now)
    ensures InCompleted(RespondCompleted(Responding(t.(timerG := t.timerG.Fired()), TimerG, t.lastResp.value, true)), f)
  {
    hide Resends, FirstFinal, CappedWait, CappedAt;
    var k := |Resends(t.out.wire)|;
    Snoc(t.out.wire, Attempt(t.now, TimerG, t.lastResp.value, true));
    CappedDoubling(k);
    CappedSum(k + 1);
  }

  lemma CompletedTimerG(t: Tx, start: nat, f: nat, ok: bool)
    requires t.table.InviteTable? && LastIsOffered(t) && InCompleted(t, f) && t.timerG.DueAt(t.now)
    ensures InviteInv(Settled(t.(timerG := t.timerG.Fired()), TimerG, ok), start)
  {
    hide Resends, FirstFinal, Spin, Cascade, NonInviteRow, CappedWait, CappedAt, Settled, Act, Failed, RespondCompleted;
    var t0 := t.(timerG := t.timerG.Fired());
    var t1 := Responding(t0, TimerG, t.lastResp.value, ok);
    ResendForm(t0, ok);
    if ok {
      Rescheduled(t, f);
    } else {
      Snoc(t.out.wire, Attempt(t.now, TimerG, t.lastResp.value, ok));
      hide InviteInv;
      FailedInv(t1, start);
    }
  }

  lemma ResendForm(t: Tx, ok: bool)
    requires t.table.InviteTable? && t.state == Completed && t.lastResp.Some?
    ensures var t1 := Responding(t, TimerG, t.lastResp.value, ok);
            Settled(t, TimerG, ok) == if ok then RespondCompleted(t1) else Failed(t1)
  {
    hide NonInviteRow, RespondCompleted, Failed;
    assert Row(t, TimerG) == Some(To(Completed, RespondComplete));
  }

  lemma CompletedTimerH(t: Tx, start: nat, f: nat, ok: bool)
    requires t.table.InviteTable? && LastIsOffered(t) && InCompleted(t, f) && t.timerH.DueAt(t.now)
    ensures InviteInv(Settled(t.(timerH := t.timerH.Fired()), TimerH, ok), start)
  {
    hide Resends, FirstFinal, Spin, NonInviteRow, CappedWait, CappedAt;
    Closing(t.(timerH := t.timerH.Fired()));
  }

  /** A response offered after the final one only replaces the last response. */
  lemma LateOffer(t: Tx, start: nat, r: Response, ok: bool)
    requires t.table.InviteTable? && t.state in {Completed, Confirmed, Terminated} && InviteInv(t, start)
    ensures var t1 := t.(lastResp := Some(r), out := t.out.(offered := t.out.offered + [r]));
            InviteInv(Settled(t1, UserInput(r), ok), start)
  {
    hide Resends, FirstFinal, Spin, Cascade, NonInviteRow, CappedAt, CappedWait, Settled, Act;
    var t1 := t.(lastResp := Some(r), out := t.out.(offered := t.out.offered + [r]));
    OnlyMoves(t1, UserInput(r), t.state, ok);
  }

  lemma ConfirmedRecv(t: Tx, start: nat, f: nat, i: Input, ok: bool)
    requires t.table.InviteTable? && LastIsOffered(t) && InConfirmed(t, f)
    requires i in {Request, Ack, Cancel}
    ensures InviteInv(Settled(t, i, ok), start)
  {
    hide Resends, FirstFinal, Spin, Cascade, NonInviteRow, CappedAt, CappedWait, Settled, Act;
    if i == Cancel {
      QuietForm(t, i, Confirmed, CancelNotExist, ok);
    } else {
      OnlyMoves(t, i, if i == Ack then Terminated else Confirmed, ok);
    }
  }

  lemma ConfirmedTimerI(t: Tx, start: nat, f: nat, ok: bool)
    requires t.table.InviteTable? && LastIsOffered(t) && InConfirmed(t, f)
    ensures InviteInv(Settled(t.(timerI := t.timerI.Fired()), TimerI, ok), start)
  {
    hide Resends, FirstFinal, Spin, Cascade, NonInviteRow, CappedAt, CappedWait;
    Closing(t.(timerI := t.timerI.Fired()));
  }

  lemma TerminatedSettles(t: Tx, start: nat, i: Input, ok: bool)
    requires t.table.InviteTable? && LastIsOffered(t) && InTerminated(t)
    requires i in {Request, Ack, Cancel, TimerI}
    ensures InviteInv(Settled(t, i, ok), start)
  {
    hide Resends, FirstFinal, Spin, Cascade, NonInviteRow, CappedAt, CappedWait;
  }

  /** A received request, once timer 1xx is stopped. */
  lemma RecvInput(t: Tx, start: nat, i: Input, ok: bool)
    requires InviteInv(t, start) && t.timer1xx == OFF && i in {Request, Ack, Cancel}
    ensures InviteInv(Settled(t, i, ok), start)
  {
    hide Resends, FirstFinal, Settled, Row, Act;
    match t.state {
      case Proceeding =>
        if i == Request {
          ProceedingRequest(t, start, ok);
        } else {
          ProceedingAckOrCancel(t, start, i, ok);
        }
      case Completed =>
        var f := FirstFinal(t.out.wire).value;
        if i == Request {
          CompletedRequest(t, start, f, ok);
        } else if i == Ack {
          CompletedAck(t, start, f, ok);
        } else {
          CompletedCancel(t, start, f, ok);
        }
      case Confirmed => ConfirmedRecv(t, start, FirstFinal(t.out.wire).value, i, ok);
      case Terminated => TerminatedSettles(t, start, i, ok);
    }
  }

  lemma Timer1xxStopped(t: Tx, start: nat)
    requires InviteInv(t, start)
    ensures InviteInv(t.(timer1xx := t.timer1xx.Stopped()), start) && t.timer1xx.Stopped() == OFF
  {
    hide Resends, FirstFinal, CappedAt, CappedWait;
  }

  lemma RequestStored(t: Tx, start: nat, id: nat)
    requires InviteInv(t, start)
    ensures InviteInv(t.(lastAck := Some(id)), start) && InviteInv(t.(lastCancel := Some(id)), start)
  {
    hide Resends, FirstFinal, CappedAt, CappedWait;
  }

  lemma RecvStep(t: Tx, start: nat, m: string, id: nat, ok: bool)
    requires InviteInv(t, start)
    ensures InviteInv(Receive(t, m, id, ok), start)
  {
    hide Spin, Settled, InviteInv;
    var t1 := t.(timer1xx := t.timer1xx.Stopped());
    Timer1xxStopped(t, start);
    RequestStored(t1, start, id);
    if Accepts(t, m) {
      var (t2, i) :=
        if m == t.requestMethod then (t1, Request)
        else if m == "ACK" then (t1.(lastAck := Some(id)), Ack)
        else (t1.(lastCancel := Some(id)), Cancel);
      assert Receive(t, m, id, ok) == Spin(t2, i, ok);
      SpinSettles(t2, i, ok);
      RecvInput(t2, start, i, ok);
    }
  }

  lemma OfferStep(t: Tx, start: nat, r: Response, ok: bool)
    requires InviteInv(t.(timer1xx := t.timer1xx.Stopped()), start)
    requires r.cancel ==> InviteInv(t, start)
    ensures InviteInv(SendResponse(t, r, ok), start)
  {
    hide Resends, FirstFinal, Spin, Settled, Row, Act;
    if !r.cancel {
      var t1 := t.(lastResp := Some(r), timer1xx := t.timer1xx.Stopped(),
                   out := t.out.(offered := t.out.offered + [r]));
      SpinSettles(t1, UserInput(r), ok);
      if t.state == Proceeding {
        if r.Provisional() {
          ProceedingProvisional(t1, start, r, User1xx, ok);
        } else if r.Success() {
          ProceedingSuccess(t1, start, r, ok);
        } else {
          ProceedingFinal(t1, start, r, ok);
        }
      } else {
        LateOffer(t.(timer1xx := t.timer1xx.Stopped()), start, r, ok);
      }
    }
  }

  lemma FireStep(t: Tx, start: nat, n: TimerName, ok: bool)
    requires InviteInv(t, start) && TimerOf(t, n).DueAt(t.now)
    ensures InviteInv(Fire(t, n, ok), start)
  {
    hide Resends, FirstFinal, Spin, Settled, Row, Act;
    match n {
      case G =>
        SpinSettles(t.(timerG := t.timerG.Fired()), TimerG, ok);
        CompletedTimerG(t, start, FirstFinal(t.out.wire).value, ok);
      case H =>
        SpinSettles(t.(timerH := t.timerH.Fired()), TimerH, ok);
        CompletedTimerH(t, start, FirstFinal(t.out.wire).value, ok);
      case I =>
        var t1 := t.(timerI := t.timerI.Fired());
        SpinSettles(t1, TimerI, ok);
        if t.state == Confirmed {
          ConfirmedTimerI(t, start, FirstFinal(t.out.wire).value, ok);
        } else {
          TerminatedSettles(t1, start, TimerI, ok);
        }
      case J =>
      case OneXX => OfferStep(t.(timer1xx := t.timer1xx.Fired()), start, TRYING_100, ok);
    }
  }

  /** Every step keeps the invariant of the INVITE transaction. */
  lemma InviteStep(t: Tx, start: nat, s: Step)
    requires InviteInv(t, start) && Enabled(t, s)
    ensures InviteInv(Next(t, s), start)
  {
    hide Resends, FirstFinal, Spin, Receive, SendResponse, Fire;
    match s {
      case Wait(_) =>
      case Recv(m, id, ok) => RecvStep(t, start, m, id, ok);
      case Offer(r, ok) => OfferStep(t, start, r, ok);
      case Fires(n, ok) => FireStep(t, start, n, ok);
    }
  }

  lemma InviteStarts(reliable: bool, start: nat)
    ensures InviteInv(Fresh("INVITE", reliable, start), start)
  {
  }

  lemma InviteRun(t: Tx, start: nat, run: seq<Step>)
    requires InviteInv(t, start) && Legal(t, run)
    ensures InviteInv(After(t, run), start)
    decreases |run|
  {
    if run != [] {
      InviteStep(t, start, run[0]);
      InviteRun(Next(t, run[0]), start, run[1..]);
    }
  }

  // ---- what the INVITE transaction sends

  lemma FailedKeeps(t: Tx)
    ensures var u := Failed(t);
            && u.state == Terminated && u.lastResp == t.lastResp && u.table == t.table
            && u.out.wire == t.out.wire && u.out.offered == t.out.offered
  {
  }

  /** One input sends the last response or nothing; the new state is the row's, or Terminated after a failed send. */
  lemma SendsLast(t: Tx, i: Input, ok: bool)
    requires Rank(i) == 2
    ensures var u := Settled(t, i, ok);
            && u.lastResp == t.lastResp && u.out.offered == t.out.offered && u.table == t.table
            && (match Row(t, i)
                case None => u.state == t.state && u.out.wire == t.out.wire
                case Some(To(s, a)) =>
                  && (u.state == s || (u.state == Terminated && Sends(a) && !ok))
                  && u.out.wire ==
                     t.out.wire + if Sends(a) && t.lastResp.Some? then [Attempt(t.now, i, t.lastResp.value, ok)] else [])
  {
    hide InviteRow, NonInviteRow, Row, Act, Deleted, Failed;
    match Row(t, i)
    case None =>
    case Some(To(s, a)) =>
      FailedKeeps(Act(t, i, a, ok).0.(state := s));
  }

  /** Whether one input closes the transaction, and whether it finds no row. */
  lemma Closes(t: Tx, i: Input, ok: bool)
    requires Rank(i) == 2
    ensures var u := Settled(t, i, ok);
            match Row(t, i)
            case None => u.state == t.state && u.done == t.done && u.out.unhandled == t.out.unhandled + [(t.state, i)]
            case Some(To(s, a)) =>
              var failed := Sends(a) && t.lastResp.Some? && !ok;
              var t1 := Act(t, i, a, ok).0.(state := s);
              && u.done == (t.done || a == RespondDelete || a == DeleteTx || (failed && Row(t1, TransportErr).Some?))
              && u.state == (if failed && Row(t1, TransportErr).Some? then Terminated else s)
              && u.out.unhandled ==
                 t.out.unhandled + if failed && Row(t1, TransportErr).None? then [(s, TransportErr)] else []
  {
    hide InviteRow, NonInviteRow, Row, Act;
  }
}
