/** What every run of a client transaction keeps, from its first send on, and the theorems about whole runs. */
module ClientRuns {
  import opened Wrappers
  import opened Timing
  import opened Responses
  import opened Tables
  import opened ClientSteps

  datatype Step =
    | Recv(resp: Response, ok: bool)
    | Fires(timer: TimerName, ok: bool)
    | Wait(time: nat)

  /** A timer runs only when it is due, and time does not overtake a due timer. */
  predicate Enabled(t: Tx, s: Step) {
    match s
    case Recv(_, _) => true
    case Fires(n, _) => TimerOf(t, n).DueAt(t.now)
    case Wait(d) => t.timerA.Allows(t.now + d) && t.timerB.Allows(t.now + d) && t.timerD.Allows(t.now + d)
  }

  function Next(t: Tx, s: Step): Tx {
    match s
    case Recv(r, ok) => Receive(t, r, ok)
    case Fires(n, ok) => Fire(t, n, ok)
    case Wait(d) => t.(now := t.now + d)
  }

  ghost predicate Legal(t: Tx, run: seq<Step>)
    decreases |run|
  {
    run == [] || (Enabled(t, run[0]) && Legal(Next(t, run[0]), run[1..]))
  }

  ghost function After(t: Tx, run: seq<Step>): Tx
    decreases |run|
  {
    if run == [] then t else After(Next(t, run[0]), run[1..])
  }

  // ---- Spin in closed form

  function Closed(t: Tx): Tx {
    Deleted(t).(state := Terminated)
  }

  function Failed(t: Tx): Tx {
    Closed(Act(t, TransErr, true).0.(state := Terminated))
  }

  function Settled(t: Tx, i: Input, ok: bool): Tx {
    match Row(t, i)
    case None => t.(out := t.out.(unhandled := t.out.unhandled + [(t.state, i)]))
    case Some(To(s, a)) =>
      var (t1, next) := Act(t, a, ok);
      var t2 := t1.(state := s);
      if next.None? then t2
      else if next.value == Delete then
        if s == Terminated then Closed(t2) else t2.(out := t2.out.(unhandled := t2.out.unhandled + [(s, Delete)]))
      else if Row(t2, TransportErr).Some? then Failed(t2)
      else t2.(out := t2.out.(unhandled := t2.out.unhandled + [(s, TransportErr)]))
  }

  lemma ErrorRow(t: Tx)
    ensures Row(t, TransportErr).Some? ==> Row(t, TransportErr).value == To(Terminated, TransErr)
    ensures Row(t, Delete) == if t.state == Terminated then Some(To(Terminated, DeleteTx)) else None
  {
  }

  lemma SpinDelete(t: Tx, ok: bool)
    ensures Spin(t, Delete, ok) == if t.state == Terminated then Closed(t)
                                   else t.(out := t.out.(unhandled := t.out.unhandled + [(t.state, Delete)]))
    ensures Cascade(t, Delete, ok) == [Delete]
  {
    hide InviteRow, NonInviteRow, Row;
    ErrorRow(t);
  }

  lemma SpinError(t: Tx, ok: bool)
    requires Row(t, TransportErr).Some?
    ensures Spin(t, TransportErr, ok) == Failed(t)
    ensures Cascade(t, TransportErr, ok) == [TransportErr, Delete]
  {
    hide InviteRow, NonInviteRow, Row, Deleted;
    ErrorRow(t);
    SpinDelete(Act(t, TransErr, ok).0.(state := Terminated), ok);
  }

  /** The inputs that the action of a row makes Spin consume next. */
  function FollowUps(t: Tx, next: Option<Input>): seq<Input> {
    if next.None? then []
    else if next.value == Delete then [Delete]
    else if Row(t, TransportErr).Some? then [TransportErr, Delete]
    else [TransportErr]
  }

  function Consumed(t: Tx, i: Input, ok: bool): seq<Input> {
    match Row(t, i)
    case None => [i]
    case Some(To(s, a)) => [i] + FollowUps(Act(t, a, ok).0.(state := s), Act(t, a, ok).1)
  }

  /** Spin ends after at most three inputs; the second and third follow a failed send or a deletion. */
  lemma SpinSettles(t: Tx, i: Input, ok: bool)
    requires Rank(i) == 2
    ensures Spin(t, i, ok) == Settled(t, i, ok)
    ensures Cascade(t, i, ok) == Consumed(t, i, ok) && |Consumed(t, i, ok)| <= 3
  {
    hide InviteRow, NonInviteRow, Row, Deleted, Act;
    match Row(t, i)
    case None =>
    case Some(To(s, a)) =>
      var (t1, next) := Act(t, a, ok);
      var t2 := t1.(state := s);
      if next == Some(Delete) {
        SpinDelete(t2, ok);
      } else if next.Some? && Row(t2, TransportErr).Some? {
        SpinError(t2, ok);
      }
  }

  // ---- the invariant

  /** The wait before resend `k + 1`, and the instant of resend `k` counted from the first send. */
  function WaitOf(table: Table, k: nat): nat {
    if table.InviteTable? then T1 * Pow2(k) else CappedWait(k)
  }

  function OffsetOf(table: Table, k: nat): nat {
    if table.InviteTable? then T1 * (Pow2(k) - 1) else CappedAt(k)
  }

  lemma Waits(table: Table, k: nat)
    ensures OffsetOf(table, k + 1) == OffsetOf(table, k) + WaitOf(table, k)
    ensures WaitOf(table, k + 1) == if table.InviteTable? then 2 * WaitOf(table, k) else Min(2 * WaitOf(table, k), T2)
    ensures OffsetOf(table, 0) == 0 && WaitOf(table, 0) == T1
  {
    CappedDoubling(k);
    CappedSum(k);
    assert Pow2(k + 1) == 2 * Pow2(k);
    assert Pow2(0) == 1;
  }

  /** The first send at `start` and every further one at its instant. */
  predicate OnSchedule(t: Tx, start: nat) {
    && 1 <= |t.out.sends| && (t.reliable ==> |t.out.sends| == 1)
    && OffsetOf(t.table, |t.out.sends| - 1) <= TIME_B
    && forall j :: 0 <= j < |t.out.sends| ==> t.out.sends[j].at == start + OffsetOf(t.table, j)
  }

  function Linger(t: Tx): nat {
    if t.reliable then 0 else if t.table.InviteTable? then TIME_D else TIME_K
  }

  predicate InCalling(t: Tx, start: nat) {
    && t.state == Calling && !t.done && 1 <= |t.out.sends| && t.lastResp.None? && t.timerD == OFF
    && t.out.ups == [] && t.out.acks == [] && t.out.timeouts == 0 && t.out.transportErrors == 0
    && t.timerB.Armed(start + TIME_B) && t.now <= start + TIME_B
    && (t.reliable ==> t.timerA == OFF)
    && (!t.reliable ==>
          && t.timerA.Armed(start + OffsetOf(t.table, |t.out.sends|))
          && t.now <= start + OffsetOf(t.table, |t.out.sends|)
          && t.aTime == WaitOf(t.table, |t.out.sends| - 1))
  }

  predicate InProceeding(t: Tx, start: nat) {
    && t.state == Proceeding && !t.done && t.timerA == OFF && t.timerD == OFF && t.timerB.isSet
    && t.out.acks == [] && t.out.timeouts == 0 && t.out.transportErrors == 0
    && AllProvisional(t.out.ups) && t.out.ups != []
    && (t.table.NonInviteTable? ==> t.timerB.Armed(start + TIME_B) && t.now <= start + TIME_B)
  }

  predicate InCompleted(t: Tx, start: nat) {
    && t.state == Completed && !t.done && t.timerA == OFF && t.timerB.isSet
    && t.out.timeouts == 0 && t.out.transportErrors == 0 && t.lastResp.Some?
    && FinalLast(t.out.ups)
    && t.timerD.isSet && t.timerD.due.Some? && t.now <= t.timerD.due.value
    && (t.table.NonInviteTable? ==>
          t.out.acks == [] && t.timerD.due.value <= start + TIME_B + Linger(t))
    && (t.table.InviteTable? ==> AllAcked(t.out.acks))
  }

  predicate InTerminated(t: Tx, start: nat) {
    && t.state == Terminated && t.done && !t.timerA.isSet && t.timerB == OFF && t.timerD == OFF
    && ProvisionalsThenFinal(t.out.ups)
    && t.out.timeouts <= 1 && t.out.transportErrors <= 1
    && (t.out.timeouts == 1 ==>
          && AllProvisional(t.out.ups) && t.out.transportErrors == 0 && t.out.acks == []
          && (t.table.InviteTable? ==> t.out.ups == [])
          && (t.out.ups == [] && !t.reliable ==> |t.out.sends| == if t.table.InviteTable? then 7 else 11))
    && (t.table.NonInviteTable? ==> t.out.acks == [] && t.out.transportErrors == 0)
    && (t.out.transportErrors == 1 <==> t.out.acks != [] && !t.out.acks[|t.out.acks| - 1].ok)
  }

  predicate AllProvisional(ups: seq<Response>) {
    forall i :: 0 <= i < |ups| ==> ups[i].Provisional()
  }

  /** Provisional responses followed by at most one final response. */
  predicate ProvisionalsThenFinal(ups: seq<Response>) {
    forall i :: 0 <= i < |ups| - 1 ==> ups[i].Provisional()
  }

  predicate FinalLast(ups: seq<Response>) {
    ProvisionalsThenFinal(ups) && ups != [] && !ups[|ups| - 1].Provisional()
  }

  predicate AllAcked(acks: seq<Acked>) {
    acks != [] && forall i :: 0 <= i < |acks| ==> acks[i].ok
  }

  predicate ClientInv(t: Tx, start: nat) {
    && t.out.panics == 0 && t.out.unhandled == [] && OnSchedule(t, start)
    && t.dTime == Linger(t)
    && match t.state
       case Calling => InCalling(t, start)
       case Proceeding => InProceeding(t, start)
       case Completed => InCompleted(t, start)
       case Terminated => InTerminated(t, start)
  }

  lemma Starts(requestMethod: string, reliable: bool, start: nat)
    ensures ClientInv(Init(New(requestMethod, reliable, start), true), start)
  {
    Waits(TableFor(requestMethod), 0);
  }

  lemma EarlyGot1xx(t: Tx, start: nat, ok: bool)
    requires Early(t, start) && t.lastResp.Some? && t.lastResp.value.Provisional()
    ensures ClientInv(Settled(t, Got1xx, ok), start)
  {
    hide OffsetOf, WaitOf, Spin, Cascade;
    assert Row(t, Got1xx) == Some(To(Proceeding, PassUp));
  }

  predicate Early(t: Tx, start: nat) {
    || (t.state == Calling && ClientInv(t.(lastResp := None), start))
    || (t.state == Proceeding && ClientInv(t, start))
  }

  lemma InviteSuccess(t: Tx, start: nat, ok: bool)
    requires Early(t, start) && t.table.InviteTable? && t.lastResp.Some? && t.lastResp.value.Success()
    ensures ClientInv(Settled(t, Got2xx, ok), start)
  {
    hide OffsetOf, WaitOf, Spin, Cascade, NonInviteRow;
    assert Row(t, Got2xx) == Some(To(Terminated, PassUpDelete));
  }

  lemma InviteFailureAcked(t: Tx, start: nat)
    requires Early(t, start) && t.table.InviteTable?
    requires t.lastResp.Some? && !t.lastResp.value.Provisional() && !t.lastResp.value.Success()
    ensures ClientInv(Settled(t, Got300Plus, true), start)
  {
    hide OffsetOf, WaitOf, Spin, Cascade, NonInviteRow, Deleted;
    assert Row(t, Got300Plus) == Some(To(Completed, InviteFinal));
  }

  lemma InviteFailureUnacked(t: Tx, start: nat)
    requires Early(t, start) && t.table.InviteTable?
    requires t.lastResp.Some? && !t.lastResp.value.Provisional() && !t.lastResp.value.Success()
    ensures ClientInv(Settled(t, Got300Plus, false), start)
  {
    hide OffsetOf, WaitOf, Spin, Cascade, Settled, Row, Act, Deleted;
    UnackedForm(t);
  }

  lemma UnackedForm(t: Tx)
    requires t.table.InviteTable? && t.state in {Calling, Proceeding} && !t.done && t.lastResp.Some?
    ensures Settled(t, Got300Plus, false) ==
            t.(timerA := t.timerA.Stopped(), timerB := t.timerB.Stopped(), timerD := OFF, done := true,
               state := Terminated,
               out := t.out.(ups := t.out.ups + [t.lastResp.value],
                             acks := t.out.acks + [Acked(t.lastResp.value, false)],
                             transportErrors := t.out.transportErrors + 1))
  {
    hide NonInviteRow;
    assert Row(t, Got300Plus) == Some(To(Completed, InviteFinal));
    var t2 := Act(t, InviteFinal, false).0.(state := Completed);
    assert Row(t2, TransportErr).Some?;
    assert Settled(t, Got300Plus, false) == Failed(t2);
  }

  lemma NonInviteGotFinal(t: Tx, start: nat, i: Input, ok: bool)
    requires Early(t, start) && t.table.NonInviteTable? && t.lastResp.Some? && !t.lastResp.value.Provisional()
    requires i == Got2xx || i == Got300Plus
    ensures ClientInv(Settled(t, i, ok), start)
  {
    hide OffsetOf, WaitOf, Spin, Cascade, Settled, Row, Act, Deleted;
    NonInviteFinalForm(t, i, ok);
  }

  lemma NonInviteFinalForm(t: Tx, i: Input, ok: bool)
    requires t.table.NonInviteTable? && t.state in {Calling, Proceeding} && !t.done && t.lastResp.Some?
    requires i == Got2xx || i == Got300Plus
    ensures Settled(t, i, ok) ==
            t.(timerA := t.timerA.Stopped(), timerD := Start(t.now, t.dTime), state := Completed,
               out := t.out.(ups := t.out.ups + [t.lastResp.value]))
  {
    hide InviteRow, Deleted;
    assert Row(t, i) == Some(To(Completed, NonInviteFinal));
  }

  lemma CompletedGot(t: Tx, start: nat, r: Response, ok: bool)
    requires ClientInv(t, start) && t.state == Completed
    ensures ClientInv(Settled(t.(lastResp := Some(r)), InputOf(r), ok), start)
  {
    hide OffsetOf, WaitOf, Spin, Cascade, Settled, Row, Act, Deleted;
    var t1 := t.(lastResp := Some(r));
    if t.table.InviteTable? && InputOf(r) == Got300Plus {
      CompletedAckForm(t1, ok);
    } else {
      CompletedQuiet(t1, InputOf(r), ok);
    }
  }

  lemma CompletedAckForm(t: Tx, ok: bool)
    requires t.table.InviteTable? && t.state == Completed && !t.done && t.lastResp.Some?
    ensures var t2 := t.(out := t.out.(acks := t.out.acks + [Acked(t.lastResp.value, ok)]));
            Settled(t, Got300Plus, ok) ==
            if ok then t2
            else
              t2.(timerA := t.timerA.Stopped(), timerB := t.timerB.Stopped(), timerD := t.timerD.Stopped(), done := true,
                  state := Terminated, out := t2.out.(transportErrors := t.out.transportErrors + 1))
  {
    hide NonInviteRow;
    assert Row(t, Got300Plus) == Some(To(Completed, SendAck));
    var t2 := Act(t, SendAck, ok).0;
    assert Row(t2, TransportErr).Some?;
    assert !ok ==> Settled(t, Got300Plus, ok) == Failed(t2);
  }

  lemma CompletedQuiet(t: Tx, i: Input, ok: bool)
    requires t.state == Completed && i in {Got1xx, Got2xx, Got300Plus, TimerA, TimerB}
    requires t.table.InviteTable? ==> i != Got300Plus
    ensures Settled(t, i, ok) == t
  {
    assert Row(t, i) == Some(To(Completed, NoAction));
  }

  lemma TerminatedSettles(t: Tx, start: nat, i: Input, ok: bool)
    requires ClientInv(t, start) && t.state == Terminated && Rank(i) == 2
    ensures Settled(t, i, ok) == t
  {
    assert Row(t, i) == Some(To(Terminated, NoAction));
  }

  /** What timer A does in Calling. */
  lemma TimerASettles(t: Tx, ok: bool)
    requires t.state == Calling && !t.done
    ensures var wait := if t.table.InviteTable? then 2 * t.aTime else Min(2 * t.aTime, T2);
            var t2 := Resent(t, wait, ok);
            Settled(t, TimerA, ok) == if ok then t2 else Failed(t2)
  {
    hide Spin, Cascade, Deleted, Resent;
    var a := if t.table.InviteTable? then InviteResend else NonInviteResend;
    assert Row(t, TimerA) == Some(To(Calling, a));
    assert Row(Act(t, a, ok).0, TransportErr) == Some(To(Terminated, TransErr));
  }

  /** The wait and the instant of the resend that timer A makes when it is due in Calling. */
  lemma ResentOnSchedule(t: Tx, start: nat, ok: bool)
    requires ClientInv(t, start) && t.state == Calling && t.timerA.DueAt(t.now)
    ensures var wait := WaitOf(t.table, |t.out.sends|);
            && wait == (if t.table.InviteTable? then 2 * t.aTime else Min(2 * t.aTime, T2))
            && OnSchedule(Resent(t.(timerA := t.timerA.Fired()), wait, ok), start)
  {
    hide OffsetOf, WaitOf, Deleted;
    Waits(t.table, |t.out.sends| - 1);
  }

  lemma CallingTimerA(t: Tx, start: nat, ok: bool)
    requires ClientInv(t, start) && t.state == Calling && t.timerA.DueAt(t.now)
    ensures ClientInv(Settled(t.(timerA := t.timerA.Fired()), TimerA, ok), start)
  {
    hide OffsetOf, WaitOf, Spin, Cascade, Settled, Act, OnSchedule;
    TimerASettles(t.(timerA := t.timerA.Fired()), ok);
    ResentOnSchedule(t, start, ok);
    Waits(t.table, |t.out.sends|);
    if !ok {
      CallingFails(Resent(t.(timerA := t.timerA.Fired()), WaitOf(t.table, |t.out.sends|), ok), start);
    }
  }

  lemma CallingFails(t: Tx, start: nat)
    requires t.state == Calling && !t.done && t.lastResp.None? && t.timerD == OFF && t.timerA.isSet && t.timerB.isSet
    requires t.out.ups == [] && t.out.acks == [] && t.out.timeouts == 0 && t.out.transportErrors == 0
    requires t.out.panics == 0 && t.out.unhandled == [] && OnSchedule(t, start) && t.dTime == Linger(t)
    ensures ClientInv(Failed(t), start)
  {
    hide OffsetOf;
  }

  lemma CallingTimerB(t: Tx, start: nat, ok: bool)
    requires ClientInv(t, start) && t.state == Calling && t.timerB.DueAt(t.now)
    ensures ClientInv(Settled(t.(timerB := t.timerB.Fired()), TimerB, ok), start)
  {
    hide OffsetOf, WaitOf, Spin, Cascade, Settled, Row, Act, Deleted;
    TimeoutForm(t.(timerB := t.timerB.Fired()), ok);
    if !t.reliable {
      SendsAtTimeout(t, start);
    }
  }

  lemma ProceedingTimerB(t: Tx, start: nat, ok: bool)
    requires ClientInv(t, start) && t.state == Proceeding && t.timerB.DueAt(t.now)
    ensures ClientInv(Settled(t.(timerB := t.timerB.Fired()), TimerB, ok), start)
  {
    hide OffsetOf, WaitOf, Spin, Cascade, Settled, Row, Act, Deleted;
    if t.table.InviteTable? {
      ProceedingIgnores(t.(timerB := t.timerB.Fired()), ok);
    } else {
      TimeoutForm(t.(timerB := t.timerB.Fired()), ok);
    }
  }

  lemma ProceedingIgnores(t: Tx, ok: bool)
    requires t.table.InviteTable? && t.state == Proceeding
    ensures Settled(t, TimerB, ok) == t
  {
    assert Row(t, TimerB) == Some(To(Proceeding, NoAction));
  }

  lemma TimeoutForm(t: Tx, ok: bool)
    requires t.state == Calling || (t.table.NonInviteTable? && t.state == Proceeding)
    requires !t.done
    ensures Settled(t, TimerB, ok) ==
            t.(timerA := t.timerA.Stopped(), timerB := t.timerB.Stopped(), timerD := t.timerD.Stopped(), done := true,
               state := Terminated, out := t.out.(timeouts := t.out.timeouts + 1))
  {
    assert Row(t, TimerB) == Some(To(Terminated, Timeout));
  }

  lemma SendsAtTimeout(t: Tx, start: nat)
    requires ClientInv(t, start) && t.state == Calling && !t.reliable && t.now == start + TIME_B
    ensures |t.out.sends| == if t.table.InviteTable? then 7 else 11
  {
    var k := |t.out.sends| - 1;
    if t.table.InviteTable? {
      SixDoublingResends(k);
    } else {
      TenCappedResends(k);
    }
  }

  lemma CompletedTimer(t: Tx, start: nat, n: TimerName, ok: bool)
    requires ClientInv(t, start) && t.state == Completed && n != A
    ensures n == B ==> ClientInv(Settled(t.(timerB := t.timerB.Fired()), TimerB, ok), start)
    ensures n == D ==> ClientInv(Settled(t.(timerD := t.timerD.Fired()), TimerD, ok), start)
  {
    hide OffsetOf, WaitOf, Spin, Cascade, Settled, Row, Act, Deleted;
    CompletedQuiet(t.(timerB := t.timerB.Fired()), TimerB, ok);
    CompletedEnds(t.(timerD := t.timerD.Fired()), ok);
  }

  lemma CompletedEnds(t: Tx, ok: bool)
    requires t.state == Completed && !t.done
    ensures Settled(t, TimerD, ok) ==
            t.(timerA := t.timerA.Stopped(), timerB := t.timerB.Stopped(), timerD := t.timerD.Stopped(), done := true,
               state := Terminated)
  {
    assert Row(t, TimerD) == Some(To(Terminated, DeleteTx));
  }

  /** Every step keeps the invariant. */
  lemma ClientStep(t: Tx, start: nat, s: Step)
    requires ClientInv(t, start) && Enabled(t, s)
    ensures ClientInv(Next(t, s), start)
  {
    hide OffsetOf, WaitOf, Spin, Cascade, Settled, Row, Act;
    match s {
      case Wait(_) =>
      case Recv(r, ok) =>
        var t1 := t.(lastResp := Some(r));
        SpinSettles(t1, InputOf(r), ok);
        match t.state {
          case Completed => CompletedGot(t, start, r, ok);
          case Terminated => TerminatedSettles(t1, start, InputOf(r), ok);
          case _ =>
            assert t.state == Calling ==> t1.(lastResp := None) == t;
            if r.Provisional() {
              EarlyGot1xx(t1, start, ok);
            } else if t.table.NonInviteTable? {
              NonInviteGotFinal(t1, start, InputOf(r), ok);
            } else if r.Success() {
              InviteSuccess(t1, start, ok);
            } else {
              InviteFailureAcked(t1, start);
              InviteFailureUnacked(t1, start);
            }
        }
      case Fires(n, ok) =>
        var t1 := match n
                  case A => t.(timerA := t.timerA.Fired())
                  case B => t.(timerB := t.timerB.Fired())
                  case D => t.(timerD := t.timerD.Fired());
        var i := match n case A => TimerA case B => TimerB case D => TimerD;
        SpinSettles(t1, i, ok);
        match t.state {
          case Calling =>
            if n == A {
              CallingTimerA(t, start, ok);
            } else {
              CallingTimerB(t, start, ok);
            }
          case Proceeding => ProceedingTimerB(t, start, ok);
          case Completed => CompletedTimer(t, start, n, ok);
          case Terminated => TerminatedSettles(t1, start, i, ok);
        }
    }
  }

  lemma ClientRun(t: Tx, start: nat, run: seq<Step>)
    requires ClientInv(t, start) && Legal(t, run)
    ensures ClientInv(After(t, run), start)
    decreases |run|
  {
    hide ClientInv, Next;
    if run != [] {
      ClientStep(t, start, run[0]);
      ClientRun(Next(t, run[0]), start, run[1..]);
    }
  }

  // ---- theorems about every run

  /**
   * After a successful first send, in every run: Spin always finds a row, no nil timer is Reset and nothing is
   * sent on a closed channel; the channels are closed exactly when the state is Terminated.
   */
  lemma ClientSafety(requestMethod: string, reliable: bool, start: nat, run: seq<Step>)
    requires Legal(Init(New(requestMethod, reliable, start), true), run)
    ensures var t := After(Init(New(requestMethod, reliable, start), true), run);
            t.out.unhandled == [] && t.out.panics == 0 && (t.state == Terminated <==> t.done)
  {
    Starts(requestMethod, reliable, start);
    ClientRun(Init(New(requestMethod, reliable, start), true), start, run);
  }

  /**
   * Every send of the request is at its instant of the doubling (INVITE) or capped (other) schedule, at most 7
   * or 11 in all and one on a reliable transport; a timeout before any response on an unreliable transport
   * comes after exactly 7 or 11 sends.
   */
  lemma RequestTiming(requestMethod: string, reliable: bool, start: nat, run: seq<Step>)
    requires Legal(Init(New(requestMethod, reliable, start), true), run)
    ensures var t := After(Init(New(requestMethod, reliable, start), true), run);
            var most := if requestMethod == "INVITE" then 7 else 11;
            && |t.out.sends| <= (if reliable then 1 else most)
            && (forall j :: 0 <= j < |t.out.sends| ==>
                  t.out.sends[j].at == start + if requestMethod == "INVITE" then T1 * (Pow2(j) - 1) else CappedAt(j))
            && (t.out.timeouts == 1 && t.out.ups == [] && !reliable ==> |t.out.sends| == most)
  {
    var t0 := Init(New(requestMethod, reliable, start), true);
    Starts(requestMethod, reliable, start);
    ClientRun(t0, start, run);
    SameTable(t0, run);
    SendsAtMost(After(t0, run), start);
  }

  lemma SendsAtMost(t: Tx, start: nat)
    requires ClientInv(t, start)
    ensures var most := if t.table.InviteTable? then 7 else 11;
            && |t.out.sends| <= (if t.reliable then 1 else most)
            && (t.out.timeouts == 1 && t.out.ups == [] && !t.reliable ==> |t.out.sends| == most)
  {
    var k := |t.out.sends| - 1;
    if t.table.InviteTable? {
      AtMostSixDoubling(k);
    } else {
      AtMostTenCapped(k);
    }
  }

  lemma SameTable(t: Tx, run: seq<Step>)
    ensures After(t, run).table == t.table && After(t, run).reliable == t.reliable
    decreases |run|
  {
    hide Spin;
    if run != [] {
      SameTable(Next(t, run[0]), run[1..]);
    }
  }

  /**
   * The responses passed up are provisional ones and then at most one final; a timeout excludes a final; an
   * INVITE timeout excludes any response. Errors of the transport are reported only for a failed ACK, so never
   * by a non-INVITE transaction.
   */
  lemma Delivery(requestMethod: string, reliable: bool, start: nat, run: seq<Step>)
    requires Legal(Init(New(requestMethod, reliable, start), true), run)
    ensures var t := After(Init(New(requestMethod, reliable, start), true), run);
            && ProvisionalsThenFinal(t.out.ups) && t.out.timeouts <= 1
            && (t.out.timeouts == 1 ==> AllProvisional(t.out.ups) && t.out.acks == [])
            && (t.out.timeouts == 1 && requestMethod == "INVITE" ==> t.out.ups == [])
            && (t.out.transportErrors > 0 ==> t.out.acks != [] && !t.out.acks[|t.out.acks| - 1].ok)
            && (requestMethod != "INVITE" ==> t.out.acks == [] && t.out.transportErrors == 0)
  {
    var t0 := Init(New(requestMethod, reliable, start), true);
    Starts(requestMethod, reliable, start);
    ClientRun(t0, start, run);
    SameTable(t0, run);
  }

  /**
   * Until it is Terminated, a non-INVITE transaction is at most 64*T1 + T4 old, or 64*T1 on a reliable
   * transport, whatever the order of responses, timers and failed sends.
   */
  lemma NonInviteDeadline(requestMethod: string, reliable: bool, start: nat, run: seq<Step>)
    requires requestMethod != "INVITE"
    requires Legal(Init(New(requestMethod, reliable, start), true), run)
    ensures var t := After(Init(New(requestMethod, reliable, start), true), run);
            t.state != Terminated ==> t.now <= start + TIME_B + if reliable then 0 else TIME_K
  {
    var t0 := Init(New(requestMethod, reliable, start), true);
    Starts(requestMethod, reliable, start);
    ClientRun(t0, start, run);
    SameTable(t0, run);
  }

  lemma Cons(t: Tx, s: Step, run: seq<Step>)
    ensures After(t, [s] + run) == After(Next(t, s), run)
    ensures Legal(t, [s] + run) <==> Enabled(t, s) && Legal(Next(t, s), run)
  {
    assert ([s] + run)[1..] == run;
  }

  /** An INVITE transaction has no such deadline: after a provisional response it can wait for any time. */
  lemma InviteWaitsForever(reliable: bool, wait: nat)
    ensures exists run ::
              && Legal(Init(New("INVITE", reliable, 0), true), run)
              && var t := After(Init(New("INVITE", reliable, 0), true), run);
                 t.state == Proceeding && t.now == TIME_B + wait
  {
    var t0 := Init(New("INVITE", reliable, 0), true);
    var t1 := Next(t0, Recv(Response(180, false, 1), true));
    var t2 := Next(t1, Wait(TIME_B));
    var t3 := Next(t2, Fires(B, true));
    var t4 := Next(t3, Wait(wait));
    assert t1 == t0.(state := Proceeding, lastResp := Some(Response(180, false, 1)), timerA := OFF,
                     out := t0.out.(ups := [Response(180, false, 1)])) by {
      SpinSettles(t0.(lastResp := Some(Response(180, false, 1))), Got1xx, true);
    }
    assert t3 == t2.(timerB := t2.timerB.Fired()) by {
      SpinSettles(t2.(timerB := t2.timerB.Fired()), TimerB, true);
    }
    hide Next, Init, New;
    Cons(t3, Wait(wait), []);
    Cons(t2, Fires(B, true), [Wait(wait)] + []);
    Cons(t1, Wait(TIME_B), [Fires(B, true)] + ([Wait(wait)] + []));
    Cons(t0, Recv(Response(180, false, 1), true), [Wait(TIME_B)] + ([Fires(B, true)] + ([Wait(wait)] + [])));
  }

  /** The final responses of class 300 and up that an INVITE transaction receives before it is Terminated. */
  ghost function FailuresReceived(t: Tx, run: seq<Step>): seq<Response>
    decreases |run|
  {
    if run == [] then []
    else (if run[0].Recv? && t.state != Terminated && InputOf(run[0].resp) == Got300Plus then [run[0].resp] else [])
         + FailuresReceived(Next(t, run[0]), run[1..])
  }

  /** The responses that a transaction receives in Calling or Proceeding. */
  ghost function EarlyReceived(t: Tx, run: seq<Step>): seq<Response>
    decreases |run|
  {
    if run == [] then []
    else (if run[0].Recv? && (t.state == Calling || t.state == Proceeding) then [run[0].resp] else [])
         + EarlyReceived(Next(t, run[0]), run[1..])
  }

  function AckedResponses(acks: seq<Acked>): seq<Response> {
    seq(|acks|, i requires 0 <= i < |acks| => acks[i].resp)
  }

  /** What one response makes an INVITE transaction acknowledge, and any transaction pass up. */
  lemma RecvEffects(t: Tx, start: nat, r: Response, ok: bool)
    requires ClientInv(t, start)
    ensures var u := Receive(t, r, ok);
            && u.out.ups == t.out.ups + (if t.state == Calling || t.state == Proceeding then [r] else [])
            && (t.table.InviteTable? ==>
                  u.out.acks == t.out.acks +
                    if t.state != Terminated && InputOf(r) == Got300Plus then [Acked(r, ok)] else [])
  {
    hide Spin, Cascade, OffsetOf, WaitOf, Act, Failed, Closed, OnSchedule, Settled;
    var t1 := t.(lastResp := Some(r));
    SpinSettles(t1, InputOf(r), ok);
    SettledEffects(t1, InputOf(r), ok);
  }

  /** What an input passes up and acknowledges is what the action of its row does. */
  lemma SettledEffects(t: Tx, i: Input, ok: bool)
    requires t.lastResp.Some? && Rank(i) == 2
    ensures var u := Settled(t, i, ok);
            match Row(t, i)
            case None => u.out.ups == t.out.ups && u.out.acks == t.out.acks
            case Some(To(_, a)) =>
              && u.out.ups == t.out.ups + (if Passes(a) && !t.done then [t.lastResp.value] else [])
              && u.out.acks == t.out.acks + if a == InviteFinal || a == SendAck then [Acked(t.lastResp.value, ok)] else []
  {
    hide InviteRow, NonInviteRow, Row, Act, Failed, Deleted;
    match Row(t, i)
    case None =>
    case Some(To(s, a)) =>
      ActEffects(t, a, ok);
      FailedKeeps(Act(t, a, ok).0.(state := s));
      ClosedKeeps(Act(t, a, ok).0.(state := s));
  }

  lemma ActEffects(t: Tx, a: Action, ok: bool)
    requires t.lastResp.Some?
    ensures var u := Act(t, a, ok).0;
            && u.out.ups == t.out.ups + (if Passes(a) && !t.done then [t.lastResp.value] else [])
            && u.out.acks == t.out.acks + if a == InviteFinal || a == SendAck then [Acked(t.lastResp.value, ok)] else []
  {
  }

  lemma ClosedKeeps(t: Tx)
    ensures Closed(t).out == t.out
  {
  }

  lemma OtherEffects(t: Tx, start: nat, s: Step)
    requires ClientInv(t, start) && Enabled(t, s) && !s.Recv?
    ensures Next(t, s).out.ups == t.out.ups && Next(t, s).out.acks == t.out.acks
  {
    hide Spin, Cascade, OffsetOf, WaitOf, Settled;
    if s.Fires? {
      var t1 := match s.timer
                case A => t.(timerA := t.timerA.Fired())
                case B => t.(timerB := t.timerB.Fired())
                case D => t.(timerD := t.timerD.Fired());
      var i := match s.timer case A => TimerA case B => TimerB case D => TimerD;
      SpinSettles(t1, i, s.ok);
      TimerKeepsUps(t1, i, s.ok);
    }
  }

  lemma TimerKeepsUps(t: Tx, i: Input, ok: bool)
    requires i in {TimerA, TimerB, TimerD}
    ensures Settled(t, i, ok).out.ups == t.out.ups && Settled(t, i, ok).out.acks == t.out.acks
  {
    hide InviteRow, NonInviteRow, Row, Act;
    if Row(t, i).Some? {
      ActKeeps(t, Row(t, i).value.action, ok);
      FailedKeeps(Act(t, Row(t, i).value.action, ok).0.(state := Row(t, i).value.state));
    }
  }

  lemma ActKeeps(t: Tx, a: Action, ok: bool)
    requires !Passes(a) && a != SendAck
    ensures Act(t, a, ok).0.out.ups == t.out.ups && Act(t, a, ok).0.out.acks == t.out.acks
  {
  }

  lemma FailedKeeps(t: Tx)
    ensures Failed(t).out.ups == t.out.ups && Failed(t).out.acks == t.out.acks
  {
  }

  /**
   * Over every run, what goes up is exactly the responses received in Calling or Proceeding, in order, and an
   * INVITE transaction attempts exactly one ACK for each 300+ response received before it is Terminated.
   */
  lemma ExactlyOnce(t: Tx, start: nat, run: seq<Step>)
    requires ClientInv(t, start) && Legal(t, run)
    ensures After(t, run).out.ups == t.out.ups + EarlyReceived(t, run)
    ensures t.table.InviteTable? ==>
              AckedResponses(After(t, run).out.acks) == AckedResponses(t.out.acks) + FailuresReceived(t, run)
    decreases |run|
  {
    hide Next, ClientInv, Enabled;
    if run != [] {
      var u := Next(t, run[0]);
      ClientStep(t, start, run[0]);
      SameTable(t, [run[0]]);
      assert After(t, [run[0]]) == u;
      StepEffects(t, start, run[0]);
      ExactlyOnce(u, start, run[1..]);
    }
  }

  lemma StepEffects(t: Tx, start: nat, s: Step)
    requires ClientInv(t, start) && Enabled(t, s)
    ensures Next(t, s).out.ups == t.out.ups + EarlyReceived(t, [s])
    ensures t.table.InviteTable? ==>
              AckedResponses(Next(t, s).out.acks) == AckedResponses(t.out.acks) + FailuresReceived(t, [s])
  {
    hide ClientInv, Enabled, Receive, Fire;
    if s.Recv? {
      RecvEffects(t, start, s.resp, s.ok);
    } else {
      OtherEffects(t, start, s);
    }
    assert [s][1..] == [];
    assert EarlyReceived(Next(t, s), []) == [] && FailuresReceived(Next(t, s), []) == [];
  }

  /** A transaction whose first send failed is closed at once, and its error channel stays empty. */
  lemma FailedInit(requestMethod: string, reliable: bool, start: nat)
    ensures var t := Init(New(requestMethod, reliable, start), false);
            t.state == Terminated && t.done && t.out.transportErrors == 0 && t.out.unhandled == [] &&
            t.out.sends == [Sent(start, false)]
  {
    SpinError(New(requestMethod, reliable, start).(out := NOTHING.(sends := [Sent(start, false)])), false);
  }
}
