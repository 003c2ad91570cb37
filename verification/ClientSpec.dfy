/**
 * The client transactions as section 17.1 of RFC 3261 tells them, with the deviations of the code spelled out: phases
 * with the instants of their timers in milliseconds, no tables and no timer objects. The transaction of ClientSteps is
 * proved to do the same at every step of every run.
 */
module ClientSpec {
  import opened Wrappers
  import opened Timing
  import opened Responses
  import opened Tables
  import opened ClientSteps
  import opened ClientRuns

  /**
   * Asking has had no response and knows how often the request was sent again; Rung has had a provisional response;
   * Answered has had a final one and ends at its instant; Over may have a resend left behind, which sends nothing.
   */
  datatype Phase = Asking(resends: nat) | Rung | Answered(until: nat) | Over(left: Option<nat>)

  /** `deadline` is the instant of timer B, while it runs. */
  datatype Spec = Spec(
    requestMethod: string, reliable: bool, start: nat, now: nat, phase: Phase, deadline: Option<nat>,
    sends: seq<Sent>, acks: seq<Acked>, ups: seq<Response>, timeouts: nat, transportErrors: nat
  ) {
    predicate Invite() {
      requestMethod == "INVITE"
    }
  }

  /** The first send, with its outcome. */
  function Begin(requestMethod: string, reliable: bool, now: nat, sent: bool): Spec {
    Spec(requestMethod, reliable, now, now, if sent then Asking(0) else Over(None),
         if sent then Some(now + 32000) else None, [Sent(now, sent)], [], [], 0, 0)
  }

  /** When resend number `k` is due: an INVITE doubles the wait each time, any other request up to 4000. */
  function ResendAt(a: Spec, k: nat): nat {
    a.start + if a.Invite() then 500 * (Pow2(k) - 1) else CappedAt(k)
  }

  function Due(a: Spec, n: TimerName): Option<nat> {
    match n
    case A =>
      if a.phase.Asking? && !a.reliable then Some(ResendAt(a, a.phase.resends + 1))
      else if a.phase.Over? then a.phase.left else None
    case B => a.deadline
    case D => if a.phase.Answered? then Some(a.phase.until) else None
  }

  predicate SpecEnabled(a: Spec, s: Step) {
    match s
    case Recv(_, _) => true
    case Fires(n, _) => Due(a, n).Some? && Due(a, n).value <= a.now
    case Wait(d) => forall n: TimerName :: Due(a, n).Some? ==> a.now + d <= Due(a, n).value
  }

  function Ended(a: Spec): Spec {
    a.(phase := Over(None), deadline := None)
  }

  /** An ACK for a final response of class 300 and up; a failed one is reported and ends the transaction. */
  function AckSent(a: Spec, r: Response, ok: bool, then': Phase): Spec {
    var b := a.(acks := a.acks + [Acked(r, ok)]);
    if ok then b.(phase := then') else Ended(b).(transportErrors := a.transportErrors + 1)
  }

  function Received(a: Spec, r: Response, ok: bool): Spec {
    match a.phase
    case Over(_) => a
    case Answered(_) => if a.Invite() && 300 <= r.code then AckSent(a, r, ok, a.phase) else a
    case _ =>
      var b := a.(ups := a.ups + [r]);
      if r.code < 200 then b.(phase := Rung)
      else if !a.Invite() then b.(phase := Answered(a.now + if a.reliable then 0 else 5000))
      else if r.code < 300 then Ended(b).(phase := Over(Due(a, A)))
      else AckSent(b, r, ok, Answered(a.now + if a.reliable then 0 else 32000))
  }

  function TimedOut(a: Spec, n: TimerName, ok: bool): Spec {
    match n
    case A =>
      (match a.phase
       case Asking(k) =>
         var b := a.(sends := a.sends + [Sent(a.now, ok)]);
         if ok then b.(phase := Asking(k + 1)) else Ended(b)
       case Over(_) => a.(phase := Over(None))
       case _ => a)
    case B =>
      if a.phase.Asking? || (a.phase.Rung? && !a.Invite()) then Ended(a).(timeouts := a.timeouts + 1)
      else a.(deadline := None)
    case D => Ended(a)
  }

  function SpecNext(a: Spec, s: Step): Spec {
    match s
    case Recv(r, ok) => Received(a, r, ok)
    case Fires(n, ok) => TimedOut(a, n, ok)
    case Wait(d) => a.(now := a.now + d)
  }

  // ---- the relation between transaction and specification

  predicate SameHistory(t: Tx, a: Spec) {
    && t.table == TableFor(a.requestMethod) && t.reliable == a.reliable && t.now == a.now
    && t.out.sends == a.sends && t.out.acks == a.acks && t.out.ups == a.ups && t.out.timeouts == a.timeouts
    && t.out.transportErrors == a.transportErrors && t.out.panics == 0 && t.out.unhandled == []
  }

  predicate SameTimers(t: Tx, a: Spec) {
    && t.timerA.due == Due(a, A) && t.timerB.due == Due(a, B) && t.timerD.due == Due(a, D)
    && forall n: TimerName :: Due(a, n).Some? ==> a.now <= Due(a, n).value
  }

  function LingerFor(a: Spec): nat {
    if a.reliable then 0 else if a.Invite() then 32000 else 5000
  }

  predicate SamePhase(t: Tx, a: Spec) {
    match a.phase
    case Asking(k) =>
      && t.state == Calling && !t.done && t.lastResp.None? && t.timerD == OFF && t.timerB.isSet
      && t.dTime == LingerFor(a) && (a.reliable ==> t.timerA == OFF)
      && (!a.reliable ==> t.timerA.isSet && t.aTime == WaitOf(t.table, k))
    case Rung =>
      && t.state == Proceeding && !t.done && t.timerA == OFF && t.timerD == OFF && t.timerB.isSet
      && t.dTime == LingerFor(a)
    case Answered(_) =>
      t.state == Completed && !t.done && t.timerA == OFF && t.timerD.isSet && t.timerB.isSet && t.lastResp.Some?
    case Over(_) => t.state == Terminated && t.done && a.deadline.None?
  }

  predicate Same(t: Tx, a: Spec) {
    SameHistory(t, a) && SameTimers(t, a) && SamePhase(t, a)
  }

  lemma SameStart(requestMethod: string, reliable: bool, now: nat, sent: bool)
    ensures Same(Init(New(requestMethod, reliable, now), sent), Begin(requestMethod, reliable, now, sent))
  {
    if sent {
      SameFirst(requestMethod, reliable, now);
    } else {
      SameUnsent(requestMethod, reliable, now);
    }
  }

  lemma SameFirst(requestMethod: string, reliable: bool, now: nat)
    ensures Same(Init(New(requestMethod, reliable, now), true), Begin(requestMethod, reliable, now, true))
  {
    hide Spin, Pow2, CappedAt, CappedWait, WaitOf;
    Waits(TableFor(requestMethod), 0);
    FirstResend(Begin(requestMethod, reliable, now, true));
  }

  lemma FirstResend(a: Spec)
    ensures ResendAt(a, 1) == a.start + 500
  {
    assert Pow2(1) == 2 * Pow2(0) && Pow2(0) == 1;
    CappedSum(0);
  }

  /** A transaction whose first send failed is over. */
  lemma SameUnsent(requestMethod: string, reliable: bool, now: nat)
    ensures Same(Init(New(requestMethod, reliable, now), false), Begin(requestMethod, reliable, now, false))
  {
    hide Init, New;
    UnsentForm(requestMethod, reliable, now);
  }

  lemma UnsentForm(requestMethod: string, reliable: bool, now: nat)
    ensures Init(New(requestMethod, reliable, now), false) ==
            Tx(TableFor(requestMethod), reliable, Terminated, now, None, 0, OFF, OFF, 0, OFF, true,
               NOTHING.(sends := [Sent(now, false)]))
  {
    hide Spin, Failed, NonInviteRow, InviteRow;
    var t := New(requestMethod, reliable, now).(out := NOTHING.(sends := [Sent(now, false)]));
    assert [] + [Sent(now, false)] == [Sent(now, false)];
    ErrorRowEarly(t);
    SpinError(t, false);
    SilentlyFailed(t);
  }

  lemma ErrorRowEarly(t: Tx)
    requires t.state == Calling
    ensures Row(t, TransportErr).Some?
  {
  }

  lemma SilentlyFailed(t: Tx)
    requires !t.done && t.lastResp.None? && t.timerA == OFF && t.timerB == OFF && t.timerD == OFF
    ensures Failed(t) == t.(state := Terminated, done := true)
  {
  }

  /** The same steps are possible. */
  lemma SameEnabled(t: Tx, a: Spec, s: Step)
    requires Same(t, a)
    ensures Enabled(t, s) <==> SpecEnabled(a, s)
  {
    hide ResendAt, WaitOf;
    if s.Wait? {
      assert Due(a, A) == t.timerA.due && Due(a, B) == t.timerB.due && Due(a, D) == t.timerD.due;
    }
  }

  // ---- responses

  lemma SameProvisional(t: Tx, a: Spec, r: Response, ok: bool)
    requires Same(t, a) && (a.phase.Asking? || a.phase.Rung?) && r.code < 200
    ensures Same(Settled(t.(lastResp := Some(r)), Got1xx, ok), Received(a, r, ok))
  {
    hide ResendAt, WaitOf;
    assert Row(t, Got1xx) == Some(To(Proceeding, PassUp));
  }

  lemma SameSuccess(t: Tx, a: Spec, r: Response, ok: bool)
    requires Same(t, a) && (a.phase.Asking? || a.phase.Rung?) && 200 <= r.code < 300 && a.Invite()
    ensures Same(Settled(t.(lastResp := Some(r)), Got2xx, ok), Received(a, r, ok))
  {
    hide ResendAt, WaitOf, NonInviteRow;
    assert Row(t, Got2xx) == Some(To(Terminated, PassUpDelete));
  }

  lemma SameFinal(t: Tx, a: Spec, r: Response, i: Input, ok: bool)
    requires Same(t, a) && (a.phase.Asking? || a.phase.Rung?) && 200 <= r.code && !a.Invite()
    requires i == InputOf(r)
    ensures Same(Settled(t.(lastResp := Some(r)), i, ok), Received(a, r, ok))
  {
    hide ResendAt, WaitOf, Settled;
    NonInviteFinalForm(t.(lastResp := Some(r)), i, ok);
  }

  lemma SameFailure(t: Tx, a: Spec, r: Response, ok: bool)
    requires Same(t, a) && (a.phase.Asking? || a.phase.Rung?) && 300 <= r.code && a.Invite()
    ensures Same(Settled(t.(lastResp := Some(r)), Got300Plus, ok), Received(a, r, ok))
  {
    hide ResendAt, WaitOf, Settled;
    if ok {
      AckedForm(t.(lastResp := Some(r)));
    } else {
      UnackedForm(t.(lastResp := Some(r)));
    }
  }

  lemma AckedForm(t: Tx)
    requires t.table.InviteTable? && t.state in {Calling, Proceeding} && !t.done && t.lastResp.Some?
    ensures Settled(t, Got300Plus, true) ==
            t.(timerA := t.timerA.Stopped(), timerD := Start(t.now, t.dTime), state := Completed,
               out := t.out.(ups := t.out.ups + [t.lastResp.value], acks := t.out.acks + [Acked(t.lastResp.value, true)]))
  {
    hide NonInviteRow, Deleted;
    assert Row(t, Got300Plus) == Some(To(Completed, InviteFinal));
  }

  lemma SameRepeated(t: Tx, a: Spec, r: Response, ok: bool)
    requires Same(t, a) && a.phase.Answered?
    ensures Same(Settled(t.(lastResp := Some(r)), InputOf(r), ok), Received(a, r, ok))
  {
    hide ResendAt, WaitOf, Settled;
    var t1 := t.(lastResp := Some(r));
    if a.Invite() && 300 <= r.code {
      CompletedAckForm(t1, ok);
    } else {
      CompletedQuiet(t1, InputOf(r), ok);
    }
  }

  lemma OverQuiet(t: Tx, i: Input, ok: bool)
    requires t.state == Terminated && Rank(i) == 2
    ensures Settled(t, i, ok) == t
  {
    assert Row(t, i) == Some(To(Terminated, NoAction));
  }

  lemma SameReceived(t: Tx, a: Spec, r: Response, ok: bool)
    requires Same(t, a)
    ensures Same(Receive(t, r, ok), Received(a, r, ok))
  {
    var t1 := t.(lastResp := Some(r));
    SpinSettles(t1, InputOf(r), ok);
    hide ResendAt, WaitOf, Settled, Spin, Received, Row;
    match a.phase {
      case Over(_) =>
        OverQuiet(t1, InputOf(r), ok);
        SameLate(t, a, r, ok);
      case Answered(_) => SameRepeated(t, a, r, ok);
      case _ =>
        hide Same;
        if r.code < 200 {
          SameProvisional(t, a, r, ok);
        } else if !a.Invite() {
          SameFinal(t, a, r, InputOf(r), ok);
        } else if r.code < 300 {
          SameSuccess(t, a, r, ok);
        } else {
          SameFailure(t, a, r, ok);
        }
    }
  }

  lemma SameLate(t: Tx, a: Spec, r: Response, ok: bool)
    requires Same(t, a) && a.phase.Over?
    ensures Same(t.(lastResp := Some(r)), Received(a, r, ok))
  {
    hide ResendAt, WaitOf;
  }

  // ---- timers

  /** The wait before the next resend, and its instant. */
  lemma NextResend(t: Tx, a: Spec)
    requires Same(t, a) && a.phase.Asking? && !a.reliable
    ensures var k := a.phase.resends;
            && WaitOf(t.table, k + 1) == (if t.table.InviteTable? then 2 * t.aTime else Min(2 * t.aTime, T2))
            && ResendAt(a, k + 2) == ResendAt(a, k + 1) + WaitOf(t.table, k + 1)
  {
    var k := a.phase.resends;
    Waits(t.table, k);
    Waits(t.table, k + 1);
  }

  lemma SilentFailure(t: Tx)
    requires t.state == Calling && !t.done && t.lastResp.None? && t.timerD == OFF && t.timerA.isSet && t.timerB.isSet
    ensures Failed(t) == t.(timerA := OFF, timerB := OFF, state := Terminated, done := true)
  {
  }

  lemma SameResend(t: Tx, a: Spec, ok: bool)
    requires Same(t, a) && a.phase.Asking? && t.timerA.DueAt(t.now)
    ensures Same(Settled(t.(timerA := t.timerA.Fired()), TimerA, ok), TimedOut(a, A, ok))
  {
    hide Settled, ResendAt, WaitOf, Failed;
    var (t1, k) := (t.(timerA := t.timerA.Fired()), a.phase.resends);
    TimerASettles(t1, ok);
    NextResend(t, a);
    assert Due(a, A) == Some(a.now);
    if ok {
      var b := TimedOut(a, A, ok);
      assert Due(b, B) == Due(a, B) && Due(b, D) == Due(a, D) && Due(b, A) == Some(ResendAt(b, k + 2));
      assert ResendAt(b, k + 2) == ResendAt(a, k + 2) by { SameInstants(a, b, k + 2); }
    } else {
      SilentFailure(Resent(t1, WaitOf(t.table, k + 1), ok));
    }
  }

  lemma SameInstants(a: Spec, b: Spec, k: nat)
    requires a.start == b.start && a.requestMethod == b.requestMethod
    ensures ResendAt(a, k) == ResendAt(b, k)
  {
  }

  lemma SameA(t: Tx, a: Spec, ok: bool)
    requires Same(t, a) && t.timerA.DueAt(t.now)
    ensures Same(Fire(t, A, ok), TimedOut(a, A, ok))
  {
    var t1 := t.(timerA := t.timerA.Fired());
    SpinSettles(t1, TimerA, ok);
    hide ResendAt, WaitOf, Settled, Spin, Row;
    if a.phase.Asking? {
      SameResend(t, a, ok);
    } else {
      OverQuiet(t1, TimerA, ok);
    }
  }

  lemma SameTimeout(t: Tx, a: Spec, ok: bool)
    requires Same(t, a) && (a.phase.Asking? || (a.phase.Rung? && !a.Invite()))
    ensures Same(Settled(t.(timerB := t.timerB.Fired()), TimerB, ok), TimedOut(a, B, ok))
  {
    hide ResendAt, WaitOf, Settled;
    TimeoutForm(t.(timerB := t.timerB.Fired()), ok);
  }

  lemma NoTimeout(t: Tx, a: Spec, ok: bool)
    requires Same(t, a) && (a.phase.Answered? || (a.phase.Rung? && a.Invite()))
    ensures Settled(t, TimerB, ok) == t
  {
    hide ResendAt, WaitOf, Settled;
    if a.phase.Rung? {
      ProceedingIgnores(t, ok);
    } else {
      CompletedQuiet(t, TimerB, ok);
    }
  }

  lemma DeadlineRuns(t: Tx, a: Spec)
    requires Same(t, a) && t.timerB.due.Some?
    ensures !a.phase.Over?
  {
    hide ResendAt, WaitOf;
  }

  lemma SameB(t: Tx, a: Spec, ok: bool)
    requires Same(t, a) && t.timerB.DueAt(t.now)
    ensures Same(Fire(t, B, ok), TimedOut(a, B, ok))
  {
    hide Same, Settled, Spin, Row;
    var t1 := t.(timerB := t.timerB.Fired());
    SpinSettles(t1, TimerB, ok);
    DeadlineRuns(t, a);
    if a.phase.Asking? || (a.phase.Rung? && !a.Invite()) {
      SameTimeout(t, a, ok);
    } else {
      SameWithoutDeadline(t, a);
      NoTimeout(t1, a.(deadline := None), ok);
    }
  }

  lemma SameWithoutDeadline(t: Tx, a: Spec)
    requires Same(t, a) && !a.phase.Over?
    ensures Same(t.(timerB := t.timerB.Fired()), a.(deadline := None))
  {
    hide ResendAt, WaitOf;
    var b := a.(deadline := None);
    assert a.phase.Asking? ==> ResendAt(b, a.phase.resends + 1) == ResendAt(a, a.phase.resends + 1) by {
      if a.phase.Asking? {
        SameInstants(a, b, a.phase.resends + 1);
      }
    }
    assert Due(b, A) == Due(a, A) && Due(b, D) == Due(a, D);
  }

  lemma SameD(t: Tx, a: Spec, ok: bool)
    requires Same(t, a) && t.timerD.DueAt(t.now)
    ensures Same(Fire(t, D, ok), TimedOut(a, D, ok))
  {
    hide ResendAt, WaitOf, Settled, Spin, Row;
    var t1 := t.(timerD := t.timerD.Fired());
    SpinSettles(t1, TimerD, ok);
    CompletedEnds(t1, ok);
  }

  lemma SameWait(t: Tx, a: Spec, d: nat)
    requires Same(t, a) && SpecEnabled(a, Wait(d))
    ensures Same(t.(now := t.now + d), a.(now := a.now + d))
  {
    hide WaitOf;
    var b := a.(now := a.now + d);
    assert forall n: TimerName :: Due(b, n) == Due(a, n);
  }

  // ---- refinement

  /** Every step of a transaction is possible when the specification's is, and does what the specification does. */
  lemma SameStep(t: Tx, a: Spec, s: Step)
    requires Same(t, a) && Enabled(t, s)
    ensures SpecEnabled(a, s) && Same(Next(t, s), SpecNext(a, s))
  {
    hide Same, Receive, Fire, Received, TimedOut;
    SameEnabled(t, a, s);
    match s {
      case Recv(r, ok) => SameReceived(t, a, r, ok);
      case Fires(n, ok) =>
        match n {
          case A => SameA(t, a, ok);
          case B => SameB(t, a, ok);
          case D => SameD(t, a, ok);
        }
      case Wait(d) => SameWait(t, a, d);
    }
  }

  ghost function SpecAfter(a: Spec, run: seq<Step>): Spec
    decreases |run|
  {
    if run == [] then a else SpecAfter(SpecNext(a, run[0]), run[1..])
  }

  ghost predicate SpecLegal(a: Spec, run: seq<Step>)
    decreases |run|
  {
    run == [] || (SpecEnabled(a, run[0]) && SpecLegal(SpecNext(a, run[0]), run[1..]))
  }

  lemma {:induction false} SameRun(t: Tx, a: Spec, run: seq<Step>)
    requires Same(t, a)
    ensures Legal(t, run) <==> SpecLegal(a, run)
    ensures Legal(t, run) ==> Same(After(t, run), SpecAfter(a, run))
    decreases |run|
  {
    hide Same, Next, Enabled, SpecNext, SpecEnabled;
    if run != [] {
      SameEnabled(t, a, run[0]);
      if Enabled(t, run[0]) {
        SameStep(t, a, run[0]);
        SameRun(Next(t, run[0]), SpecNext(a, run[0]), run[1..]);
      }
    }
  }

  /**
   * For every method, transport and outcome of the first send, the transaction and the specification have the same
   * legal runs, and at the end of each of them the same history, instants and phase.
   */
  lemma ClientRefines(requestMethod: string, reliable: bool, start: nat, sent: bool, run: seq<Step>)
    ensures var t0 := Init(New(requestMethod, reliable, start), sent);
            var a0 := Begin(requestMethod, reliable, start, sent);
            && (Legal(t0, run) <==> SpecLegal(a0, run))
            && (Legal(t0, run) ==> Same(After(t0, run), SpecAfter(a0, run)))
  {
    SameStart(requestMethod, reliable, start, sent);
    SameRun(Init(New(requestMethod, reliable, start), sent), Begin(requestMethod, reliable, start, sent), run);
  }

  // ---- how long a final response keeps a transaction

  /** Every ACK that the run makes an INVITE transaction send is taken by the transport. */
  predicate AcksSucceed(run: seq<Step>) {
    forall i :: 0 <= i < |run| && run[i].Recv? && 300 <= run[i].resp.code ==> run[i].ok
  }

  /** The responses of class 300 and up in a run. */
  function FailuresIn(run: seq<Step>): seq<Response>
    decreases |run|
  {
    if run == [] then []
    else (if run[0].Recv? && 300 <= run[0].resp.code then [run[0].resp] else []) + FailuresIn(run[1..])
  }

  lemma AnsweredStep(a: Spec, s: Step)
    requires a.phase.Answered? && SpecEnabled(a, s) && AcksSucceed([s]) && a.now <= a.phase.until
    ensures var b := SpecNext(a, s);
            && b.requestMethod == a.requestMethod && a.now <= b.now
            && ((b.phase == a.phase && b.now <= a.phase.until) || (b.phase.Over? && a.phase.until <= b.now))
            && (b.phase == a.phase && a.Invite() ==>
                  AckedResponses(b.acks) == AckedResponses(a.acks) + FailuresIn([s]))
  {
    assert s == [s][0] && [s][1..] == [];
    if s.Wait? {
      assert Due(a, D) == Some(a.phase.until);
    }
  }

  lemma {:induction false} OverStays(a: Spec, run: seq<Step>)
    requires a.phase.Over? && SpecLegal(a, run)
    ensures SpecAfter(a, run).phase.Over? && a.now <= SpecAfter(a, run).now
    decreases |run|
  {
    hide SpecEnabled;
    if run != [] {
      OverStep(a, run[0]);
      OverStays(SpecNext(a, run[0]), run[1..]);
    }
  }

  lemma OverStep(a: Spec, s: Step)
    requires a.phase.Over?
    ensures SpecNext(a, s).phase.Over? && a.now <= SpecNext(a, s).now
  {
  }

  lemma {:induction false} AnsweredRun(a: Spec, run: seq<Step>)
    requires a.phase.Answered? && SpecLegal(a, run) && AcksSucceed(run) && a.now <= a.phase.until
    ensures var b := SpecAfter(a, run);
            && ((b.phase == a.phase && b.now <= a.phase.until) || (b.phase.Over? && a.phase.until <= b.now))
            && (b.phase == a.phase && a.Invite() ==>
                  AckedResponses(b.acks) == AckedResponses(a.acks) + FailuresIn(run))
    decreases |run|
  {
    hide SpecNext, SpecEnabled, FailuresIn, AckedResponses;
    if run != [] {
      var (s, b) := (run[0], SpecNext(a, run[0]));
      assert AcksSucceed([s]);
      AnsweredStep(a, s);
      FailuresSplit(run);
      if b.phase.Over? {
        OverStays(b, run[1..]);
      } else {
        assert AcksSucceed(run[1..]) by {
          assert forall i :: 0 <= i < |run[1..]| ==> run[1..][i] == run[i + 1];
        }
        AnsweredRun(b, run[1..]);
      }
    } else {
      NoFailures(AckedResponses(a.acks));
    }
  }

  lemma NoFailures(acks: seq<Response>)
    ensures acks + FailuresIn([]) == acks
  {
  }

  lemma FailuresSplit(run: seq<Step>)
    requires run != []
    ensures FailuresIn(run) == FailuresIn([run[0]]) + FailuresIn(run[1..])
  {
    assert [run[0]][1..] == [];
  }

  /**
   * From the first final response that does not end it, a transaction stays in Completed exactly until its instant:
   * 32000 for an INVITE, 5000 for any other request, at once on a reliable transport, if no ACK fails. Until then an
   * INVITE acknowledges every response of class 300 and up.
   */
  lemma CompletedLingers(requestMethod: string, reliable: bool, start: nat, before: seq<Step>, r: Response,
                         run: seq<Step>)
    requires Legal(Init(New(requestMethod, reliable, start), true), before)
    requires var t := After(Init(New(requestMethod, reliable, start), true), before);
             && t.state in {Calling, Proceeding} && Legal(Receive(t, r, true), run) && AcksSucceed(run)
             && (if requestMethod == "INVITE" then 300 else 200) <= r.code
    ensures var t := After(Init(New(requestMethod, reliable, start), true), before);
            var u := After(Receive(t, r, true), run);
            var end := t.now + if reliable then 0 else if requestMethod == "INVITE" then 32000 else 5000;
            && ((u.state == Completed && u.now <= end) || (u.state == Terminated && end <= u.now))
            && (u.state == Completed && requestMethod == "INVITE" ==>
                  AckedResponses(u.out.acks) == [r] + FailuresIn(run))
  {
    hide Same, Receive, Received, Next, Enabled, FailuresIn, AckedResponses, SpecAfter, SpecLegal, After, Legal;
    ClientRefines(requestMethod, reliable, start, true, before);
    var t := After(Init(New(requestMethod, reliable, start), true), before);
    var a := SpecAfter(Begin(requestMethod, reliable, start, true), before);
    FixedRun(Begin(requestMethod, reliable, start, true), before);
    SameReceived(t, a, r, true);
    Starts(requestMethod, reliable, start);
    ClientRun(Init(New(requestMethod, reliable, start), true), start, before);
    FirstFinal(t, a, start, r);
    var b := Received(a, r, true);
    SameRun(Receive(t, r, true), b, run);
    AnsweredRun(b, run);
    PhaseState(After(Receive(t, r, true), run), SpecAfter(b, run));
  }

  lemma FirstFinal(t: Tx, a: Spec, start: nat, r: Response)
    requires Same(t, a) && ClientInv(t, start) && t.state in {Calling, Proceeding}
    requires (if a.Invite() then 300 else 200) <= r.code
    ensures t.now == a.now
    ensures var b := Received(a, r, true);
            && b.phase == Answered(a.now + LingerFor(a)) && b.now == a.now && b.requestMethod == a.requestMethod
            && (a.Invite() ==> AckedResponses(b.acks) == [r])
  {
    hide Due, OffsetOf, WaitOf;
  }

  lemma PhaseState(t: Tx, a: Spec)
    requires Same(t, a)
    ensures t.now == a.now && t.out.acks == a.acks
    ensures (t.state == Completed <==> a.phase.Answered?) && (t.state == Terminated <==> a.phase.Over?)
  {
    hide Due;
  }

  lemma {:induction false} FixedRun(a: Spec, run: seq<Step>)
    ensures SpecAfter(a, run).requestMethod == a.requestMethod && SpecAfter(a, run).reliable == a.reliable
    decreases |run|
  {
    hide Due;
    if run != [] {
      FixedRun(SpecNext(a, run[0]), run[1..]);
    }
  }
}
