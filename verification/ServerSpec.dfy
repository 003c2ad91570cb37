/**
 * The server transactions as section 17.2 of RFC 3261 tells them, with the deviations of the code spelled out: phases
 * with the instants of their timers in milliseconds, no tables and no timer objects. The transaction of ServerSteps is
 * proved to do the same at every step of every run.
 */
module ServerSpec {
  import opened Wrappers
  import opened Timing
  import opened Responses
  import opened Tables
  import opened ServerSteps
  import opened ServerRuns
  import ServerNonInvite

  /**
   * Waiting is a non-INVITE without a response; Answered knows the instant of the final response and the resends
   * since; Acked ends at its instant; Astray is a non-INVITE that got a CANCEL; Over may have a timer left behind.
   */
  datatype Phase =
    | Waiting
    | Open
    | Answered(at: nat, resends: nat)
    | Acked(until: nat)
    | Astray(left: Option<nat>)
    | Over(left: Option<nat>)

  datatype Spec = Spec(
    requestMethod: string, reliable: bool, now: nat, phase: Phase, trying: Option<nat>, closed: bool,
    offered: seq<Response>, wire: seq<Attempt>, forwarded: seq<Response>, answers: seq<Answer>, ups: seq<Up>, errors: nat
  ) {
    predicate Invite() {
      requestMethod == "INVITE"
    }
  }

  function Begin(requestMethod: string, reliable: bool, now: nat): Spec {
    var invite := requestMethod == "INVITE";
    Spec(requestMethod, reliable, now, if invite then Open else Waiting, if invite then Some(now + 200) else None, false,
         [], [], [], [], [], 0)
  }

  /** When a timer is due, if it runs. */
  function Due(a: Spec, n: TimerName): Option<nat> {
    match n
    case G =>
      if a.phase.Answered? && a.Invite() && !a.reliable then Some(a.phase.at + CappedAt(a.phase.resends + 1)) else None
    case H => if a.phase.Answered? && a.Invite() then Some(a.phase.at + 32000) else None
    case I => if a.phase.Acked? then Some(a.phase.until) else if a.phase.Over? then a.phase.left else None
    case J =>
      if a.phase.Answered? && !a.Invite() then Some(a.phase.at + 32000)
      else if a.phase.Astray? then a.phase.left else None
    case OneXX => a.trying
  }

  predicate SpecEnabled(a: Spec, s: Step) {
    match s
    case Recv(_, _, _) => true
    case Offer(_, _) => true
    case Fires(n, _) => Due(a, n).Some? && Due(a, n).value <= a.now
    case Wait(d) => forall n: TimerName :: Due(a, n).Some? ==> a.now + d <= Due(a, n).value
  }

  /** An attempt to send; a failed one is reported and ends the transaction. */
  function Sent(a: Spec, cause: Input, r: Response, ok: bool, then': Phase): Spec {
    var b := a.(wire := a.wire + [Attempt(a.now, cause, r, ok)]);
    if ok then b.(phase := then') else b.(phase := Over(None), closed := true, trying := None, errors := a.errors + 1)
  }

  /** The last offered response is sent again. */
  function SentAgain(a: Spec, cause: Input, ok: bool, then': Phase): Spec {
    if a.offered == [] then a else Sent(a, cause, a.offered[|a.offered| - 1], ok, then')
  }

  function Ended(a: Spec): Spec {
    a.(phase := Over(None), closed := true, trying := None)
  }

  function Offered(a: Spec, r: Response, ok: bool): Spec {
    var b := a.(offered := a.offered + [r], trying := None);
    if a.phase != Waiting && a.phase != Open then b
    else if r.code < 200 then Sent(b, User1xx, r, ok, Open)
    else if 300 <= r.code then Sent(b, User300Plus, r, ok, Answered(a.now, 0))
    else if !a.Invite() then Sent(b, User2xx, r, ok, Answered(a.now, 0))
    else Ended(b.(wire := b.wire + [Attempt(a.now, User2xx, r, ok)]))
  }

  /** A repeated request, an ACK or a CANCEL; anything else only ends the wait for the automatic 100. */
  function Received(a: Spec, m: string, id: nat, ok: bool): Spec {
    var b := a.(trying := None);
    if m == a.requestMethod then
      if a.phase.Open? || a.phase.Answered? then SentAgain(b, Request, ok, a.phase) else b
    else if m == "ACK" && a.Invite() then
      match a.phase
      case Answered(_, _) => b.(phase := Acked(a.now + 5000), ups := a.ups + [AckUp(id)])
      case Acked(until) => b.(phase := Over(Some(until)))
      case _ => b
    else if m == "CANCEL" && a.Invite() then
      match a.phase
      case Open => b.(answers := a.answers + [Answer(id, 200)], ups := a.ups + [CancelUp(id)])
      case Answered(_, _) => b.(answers := a.answers + [Answer(id, 481)])
      case Acked(_) => b.(answers := a.answers + [Answer(id, 481)])
      case _ => b
    else if m == "CANCEL" then b.(phase := Astray(Due(a, J)))
    else b
  }

  function TimedOut(a: Spec, n: TimerName, ok: bool): Spec {
    match n
    case G =>
      if a.phase.Answered? then SentAgain(a, TimerG, ok, Answered(a.phase.at, a.phase.resends + 1)) else a
    case H => Ended(a)
    case I => if a.phase.Over? then a.(phase := Over(None)) else Ended(a)
    case J => if a.phase.Astray? then a.(phase := Astray(None)) else Ended(a)
    case OneXX => Offered(a, Response(100, false, 0), ok)
  }

  function SpecNext(a: Spec, s: Step): Spec {
    match s
    case Recv(m, id, ok) => Received(a, m, id, ok)
    case Offer(r, ok) => if r.cancel then a.(forwarded := a.forwarded + [r]) else Offered(a, r, ok)
    case Fires(n, ok) => TimedOut(a, n, ok)
    case Wait(d) => a.(now := a.now + d)
  }

  // ---- the relation between transaction and specification

  /** The timers are due when the specification says. */
  predicate SameTimers(t: Tx, a: Spec) {
    && t.timerG.due == Due(a, G) && t.timerH.due == Due(a, H) && t.timerI.due == Due(a, I)
    && t.timerJ.due == Due(a, J) && t.timer1xx.due == a.trying
    && (t.timerG.due.Some? ==> t.timerG.isSet) && (t.timerH.due.Some? ==> t.timerH.isSet)
    && (t.timerI.due.Some? ==> t.timerI.isSet) && (t.timerJ.due.Some? ==> t.timerJ.isSet)
    && (t.timer1xx.due.Some? ==> t.timer1xx.isSet)
    && (forall n: TimerName :: Due(a, n).Some? ==> a.now <= Due(a, n).value)
  }

  predicate SameHistory(t: Tx, a: Spec) {
    && t.requestMethod == a.requestMethod && t.reliable == a.reliable && t.now == a.now && t.done == a.closed
    && t.table == TableFor(a.requestMethod) && LastIsOffered(t)
    && t.out.offered == a.offered && t.out.wire == a.wire && t.out.forwarded == a.forwarded
    && t.out.answers == a.answers && t.out.ups == a.ups && t.out.errors == a.errors
  }

  /** The state that stands for a phase, and what it needs besides the instants. */
  predicate SamePhase(t: Tx, a: Spec) {
    match a.phase
    case Waiting => !a.Invite() && t.state == Trying && !t.done
    case Open =>
      && t.state == Proceeding && !t.done
      && (a.Invite() ==> !t.timerG.isSet && !t.timerH.isSet && t.gTime == if t.reliable then 0 else 500)
    case Answered(_, k) =>
      && t.state == Completed && !t.done && a.offered != []
      && (a.Invite() ==> t.timerH.isSet)
      && (a.Invite() && !t.reliable ==> t.timerG.isSet && t.gTime == CappedWait(k))
    case Acked(_) => a.Invite() && t.state == Confirmed && !t.done
    case Astray(_) => !a.Invite() && t.state == Confirmed
    case Over(left) => t.state == Terminated && (left.Some? ==> a.Invite() && !t.done)
  }

  predicate Same(t: Tx, a: Spec) {
    SameHistory(t, a) && SameTimers(t, a) && SamePhase(t, a)
  }

  lemma SameStart(requestMethod: string, reliable: bool, now: nat)
    ensures Same(Fresh(requestMethod, reliable, now), Begin(requestMethod, reliable, now))
  {
  }

  /** The same steps are possible. */
  lemma SameEnabled(t: Tx, a: Spec, s: Step)
    requires Same(t, a)
    ensures Enabled(t, s) <==> SpecEnabled(a, s)
  {
    hide CappedAt, CappedWait;
    if s.Wait? {
      assert Due(a, G) == t.timerG.due && Due(a, H) == t.timerH.due && Due(a, I) == t.timerI.due;
      assert Due(a, J) == t.timerJ.due && Due(a, OneXX) == t.timer1xx.due;
    }
  }

  // ---- the ends of a transaction

  lemma SameFailed(t: Tx, a: Spec)
    requires SameHistory(t, a) && !t.done && SameSet(t)
    ensures Same(Failed(t), a.(phase := Over(None), closed := true, trying := None, errors := a.errors + 1))
  {
    hide CappedAt, CappedWait;
  }

  lemma SameDeleted(t: Tx, a: Spec)
    requires SameHistory(t, a) && !t.done && SameSet(t)
    ensures Same(Deleted(t).(state := Terminated), Ended(a))
  {
    hide CappedAt, CappedWait;
  }

  /** A timer that is due can be stopped. */
  predicate SameSet(t: Tx) {
    && (t.timerG.due.Some? ==> t.timerG.isSet) && (t.timerH.due.Some? ==> t.timerH.isSet)
    && (t.timerI.due.Some? ==> t.timerI.isSet) && (t.timerJ.due.Some? ==> t.timerJ.isSet)
    && (t.timer1xx.due.Some? ==> t.timer1xx.isSet)
  }

  lemma SameStopped(t: Tx, a: Spec)
    requires Same(t, a)
    ensures Same(t.(timer1xx := t.timer1xx.Stopped()), a.(trying := None))
  {
    hide CappedAt, CappedWait;
  }

  lemma AttemptedMoves(t: Tx, i: Input, ok: bool, s: State)
    requires t.lastResp.Some?
    ensures Attempted(t.(state := s), i, ok) == Attempted(t, i, ok).(state := s)
  {
  }

  /** A send in a state that answers with the last response, and the timers as they are. */
  lemma SameSent(t: Tx, a: Spec, i: Input, ok: bool, s: State, p: Phase)
    requires Row(t, i) == Some(To(s, Respond)) && Row(t.(state := s), TransportErr).Some?
    requires SameHistory(t, a) && !t.done && SameSet(t) && t.lastResp.Some?
    requires Same(t.(state := s), a.(phase := p))
    ensures Same(Settled(t, i, ok), Sent(a, i, t.lastResp.value, ok, p))
  {
    hide Row, Settled, Failed, Same, SameHistory, SameSet, Attempted;
    Responds(t, i, s, ok);
    if ok {
      AttemptedMoves(t, i, ok, s);
      SameMoreSent(t.(state := s), a.(phase := p), i, ok);
      SameNow(t.(state := s), a.(phase := p));
    } else {
      SameAttempt(t, a, i, ok, s);
      SameFailed(Attempted(t, i, ok).(state := s), a.(wire := a.wire + [Attempt(a.now, i, t.lastResp.value, ok)]));
    }
  }

  lemma SameNow(t: Tx, a: Spec)
    requires Same(t, a)
    ensures t.now == a.now
  {
  }

  lemma SameAttempt(t: Tx, a: Spec, i: Input, ok: bool, s: State)
    requires SameHistory(t, a) && !t.done && SameSet(t) && t.lastResp.Some?
    ensures var t1 := Attempted(t, i, ok).(state := s);
            && SameHistory(t1, a.(wire := a.wire + [Attempt(a.now, i, t.lastResp.value, ok)]))
            && !t1.done && SameSet(t1)
  {
  }

  lemma SameMoreSent(t: Tx, a: Spec, i: Input, ok: bool)
    requires Same(t, a) && t.lastResp.Some?
    ensures Same(Attempted(t, i, ok), a.(wire := a.wire + [Attempt(a.now, i, t.lastResp.value, ok)]))
  {
    hide CappedAt, CappedWait;
    var b := a.(wire := a.wire + [Attempt(a.now, i, t.lastResp.value, ok)]);
    assert forall n: TimerName :: Due(b, n) == Due(a, n);
  }

  // ---- received requests

  lemma SameRequest(t: Tx, a: Spec, ok: bool)
    requires Same(t, a) && a.trying.None?
    ensures Same(Settled(t, Request, ok),
                 if a.phase.Open? || a.phase.Answered? then SentAgain(a, Request, ok, a.phase) else a)
  {
    hide CappedAt, CappedWait, Settled, Failed, Due;
    if a.phase.Open? || a.phase.Answered? {
      assert Row(t, Request) == Some(To(t.state, Respond));
      if a.offered == [] {
        SettledSilent(t, Request, ok);
      } else {
        assert t.(state := t.state) == t && a.(phase := a.phase) == a;
        SameSent(t, a, Request, ok, t.state, a.phase);
      }
    } else if a.phase.Astray? {
      SettledRefused(t, Request, ok);
    } else {
      OnlyMoves(t, Request, t.state, ok);
    }
  }

  /** Nothing to answer with. */
  lemma SettledSilent(t: Tx, i: Input, ok: bool)
    requires Row(t, i) == Some(To(t.state, Respond)) && t.lastResp.None?
    ensures Settled(t, i, ok) == t
  {
    hide InviteRow, NonInviteRow;
  }

  lemma SettledRefused(t: Tx, i: Input, ok: bool)
    requires Row(t, i).None?
    ensures Settled(t, i, ok) == t.(out := t.out.Refused(t.state, i))
  {
  }

  lemma SameRefused(t: Tx, a: Spec, i: Input)
    requires Same(t, a)
    ensures Same(t.(out := t.out.Refused(t.state, i)), a)
  {
    hide CappedAt, CappedWait, Due;
  }

  lemma SameAck(t: Tx, a: Spec, id: nat, ok: bool)
    requires Same(t, a) && a.trying.None? && t.lastAck == Some(id) && a.requestMethod != "ACK"
    ensures Same(Settled(t, Ack, ok), Received(a, "ACK", id, ok))
  {
    hide Settled, Same, Confirming;
    assert a.(trying := None) == a;
    AckRow(t, a);
    if a.Invite() && a.phase.Answered? {
      QuietForm(t, Ack, Confirmed, Confirm, ok);
      SameConfirming(t, a, id);
    } else if a.Invite() && a.phase.Acked? {
      OnlyMoves(t, Ack, Terminated, ok);
      SameSecondAck(t, a);
    } else if a.Invite() && a.phase.Over? {
      OnlyMoves(t, Ack, Terminated, ok);
      SameOver(t, a);
    } else {
      SettledRefused(t, Ack, ok);
      SameRefused(t, a, Ack);
    }
  }

  /** What the tables have for an ACK, phase by phase. */
  lemma AckRow(t: Tx, a: Spec)
    requires Same(t, a)
    ensures Row(t, Ack) ==
            if !a.Invite() then None
            else match a.phase
                 case Answered(_, _) => Some(To(Confirmed, Confirm))
                 case Acked(_) => Some(To(Terminated, NoAction))
                 case Over(_) => Some(To(Terminated, NoAction))
                 case _ => None
  {
    hide CappedAt, CappedWait, Due;
  }

  lemma SameConfirming(t: Tx, a: Spec, id: nat)
    requires Same(t, a) && a.Invite() && a.phase.Answered? && t.lastAck == Some(id)
    ensures Same(Confirming(t).(state := Confirmed), a.(phase := Acked(a.now + 5000), ups := a.ups + [AckUp(id)]))
  {
    hide CappedAt, CappedWait;
    var b := a.(phase := Acked(a.now + 5000), ups := a.ups + [AckUp(id)]);
    assert Due(b, OneXX) == Due(a, OneXX) && Due(b, I) == Some(a.now + 5000);
    assert forall n: TimerName :: n != I && n != OneXX ==> Due(b, n).None?;
    assert Due(a, J).None? && Due(a, I).None?;
  }

  lemma SameSecondAck(t: Tx, a: Spec)
    requires Same(t, a) && a.phase.Acked?
    ensures Same(t.(state := Terminated), a.(phase := Over(Some(a.phase.until))))
  {
    hide CappedAt, CappedWait;
    var b := a.(phase := Over(Some(a.phase.until)));
    assert forall n: TimerName :: Due(b, n) == Due(a, n);
  }

  lemma SameOver(t: Tx, a: Spec)
    requires Same(t, a) && a.phase.Over?
    ensures t.(state := Terminated) == t
  {
  }

  lemma SameCancel(t: Tx, a: Spec, id: nat, ok: bool)
    requires Same(t, a) && a.trying.None? && t.lastCancel == Some(id) && a.requestMethod != "CANCEL"
    ensures Same(Settled(t, Cancel, ok), Received(a, "CANCEL", id, ok))
  {
    hide Same, Settled, Received;
    if a.Invite() {
      SameInviteCancel(t, a, id, ok);
    } else {
      SameStrayCancel(t, a, id, ok);
    }
  }

  lemma SameInviteCancel(t: Tx, a: Spec, id: nat, ok: bool)
    requires Same(t, a) && a.trying.None? && t.lastCancel == Some(id) && a.Invite()
    ensures Same(Settled(t, Cancel, ok), Received(a, "CANCEL", id, ok))
  {
    hide Settled, Same, CancelAccepted, CancelRefused;
    assert a.(trying := None) == a;
    CancelRow(t, a);
    if a.phase.Open? {
      QuietForm(t, Cancel, Proceeding, CancelOk, ok);
      SameAccepted(t, a, id);
    } else if a.phase.Over? {
      OnlyMoves(t, Cancel, Terminated, ok);
      SameOver(t, a);
    } else {
      QuietForm(t, Cancel, t.state, CancelNotExist, ok);
      SameRejected(t, a, id);
    }
  }

  lemma CancelRow(t: Tx, a: Spec)
    requires Same(t, a) && a.Invite()
    ensures Row(t, Cancel) ==
            match a.phase
            case Open => Some(To(Proceeding, CancelOk))
            case Over(_) => Some(To(Terminated, NoAction))
            case _ => Some(To(t.state, CancelNotExist))
    ensures a.phase.Open? || a.phase.Over? || a.phase.Answered? || a.phase.Acked?
  {
    hide CappedAt, CappedWait, Due;
  }

  lemma SameAccepted(t: Tx, a: Spec, id: nat)
    requires Same(t, a) && a.phase.Open? && t.lastCancel == Some(id)
    ensures Same(CancelAccepted(t).(state := Proceeding),
                 a.(answers := a.answers + [Answer(id, 200)], ups := a.ups + [CancelUp(id)]))
  {
    hide CappedAt, CappedWait, SameTimers;
    SameTimersKept(t, a, CancelAccepted(t).(state := Proceeding),
                   a.(answers := a.answers + [Answer(id, 200)], ups := a.ups + [CancelUp(id)]));
  }

  lemma SameRejected(t: Tx, a: Spec, id: nat)
    requires Same(t, a) && (a.phase.Answered? || a.phase.Acked?) && t.lastCancel == Some(id)
    ensures Same(CancelRefused(t).(state := t.state), a.(answers := a.answers + [Answer(id, 481)]))
  {
    hide CappedAt, CappedWait, SameTimers;
    SameTimersKept(t, a, CancelRefused(t).(state := t.state), a.(answers := a.answers + [Answer(id, 481)]));
  }

  /** The timers are those of the transaction and the phase. */
  lemma SameTimersKept(t: Tx, a: Spec, u: Tx, b: Spec)
    requires SameTimers(t, a) && b.phase == a.phase && b.trying == a.trying && b.now == a.now
    requires b.requestMethod == a.requestMethod && b.reliable == a.reliable
    requires u.timerG == t.timerG && u.timerH == t.timerH && u.timerI == t.timerI && u.timerJ == t.timerJ
    requires u.timer1xx == t.timer1xx
    ensures SameTimers(u, b)
  {
    hide CappedAt;
    assert forall n: TimerName :: Due(b, n) == Due(a, n);
  }

  lemma SameStrayCancel(t: Tx, a: Spec, id: nat, ok: bool)
    requires Same(t, a) && a.trying.None? && !a.Invite() && a.requestMethod != "CANCEL"
    ensures Same(Settled(t, Cancel, ok), Received(a, "CANCEL", id, ok))
  {
    hide CappedAt, CappedWait, Settled, InviteRow;
    assert a.(trying := None) == a;
    if a.phase.Astray? {
      SettledRefused(t, Cancel, ok);
      SameRefused(t, a, Cancel);
    } else {
      OnlyMoves(t, Cancel, Confirmed, ok);
      var b := a.(phase := Astray(Due(a, J)));
      assert forall n: TimerName :: Due(b, n) == Due(a, n);
    }
  }

  lemma SameStored(t: Tx, a: Spec, id: nat)
    requires Same(t, a)
    ensures Same(t.(lastAck := Some(id)), a) && Same(t.(lastCancel := Some(id)), a)
  {
    hide CappedAt, CappedWait, Due;
  }

  lemma SameRecv(t: Tx, a: Spec, m: string, id: nat, ok: bool)
    requires Same(t, a)
    ensures Same(Receive(t, m, id, ok), Received(a, m, id, ok))
  {
    hide Same, Spin, Settled, Due;
    var (t1, b) := (t.(timer1xx := t.timer1xx.Stopped()), a.(trying := None));
    SameStopped(t, a);
    SameMethod(t, a);
    SameStored(t1, b, id);
    SameLate(a, m, id, ok);
    if m == t.requestMethod {
      SpinSettles(t1, Request, ok);
      SameRequest(t1, b, ok);
    } else if m == "ACK" {
      SpinSettles(t1.(lastAck := Some(id)), Ack, ok);
      SameAck(t1.(lastAck := Some(id)), b, id, ok);
    } else if m == "CANCEL" {
      SpinSettles(t1.(lastCancel := Some(id)), Cancel, ok);
      SameCancel(t1.(lastCancel := Some(id)), b, id, ok);
    }
  }

  lemma SameMethod(t: Tx, a: Spec)
    requires Same(t, a)
    ensures t.requestMethod == a.requestMethod
  {
  }

  /** Receiving ends the wait for the automatic 100 first. */
  lemma SameLate(a: Spec, m: string, id: nat, ok: bool)
    ensures Received(a, m, id, ok) == Received(a.(trying := None), m, id, ok)
  {
    assert Due(a.(trying := None), J) == Due(a, J);
  }

  // ---- responses of the user

  lemma SameOffer(t: Tx, a: Spec, r: Response, ok: bool)
    requires Same(t, a)
    ensures Same(SendResponse(t, r, ok), SpecNext(a, Offer(r, ok)))
  {
    hide CappedAt, CappedWait, Settled, Spin, Same, Due;
    if r.cancel {
      SameForwarded(t, a, r);
    } else {
      SameStopped(t, a);
      var (t0, a0) := (t.(timer1xx := t.timer1xx.Stopped()), a.(trying := None));
      var (t1, b) := (t0.(lastResp := Some(r), out := t.out.(offered := t.out.offered + [r])),
                      a0.(offered := a.offered + [r]));
      SpinSettles(t1, UserInput(r), ok);
      SameEarlyOffer(t0, a0, r, ok);
      SameLateOffer(t0, a0, r, ok);
      assert Offered(a, r, ok) == Offered(a0, r, ok);
    }
  }

  lemma SameForwarded(t: Tx, a: Spec, r: Response)
    requires Same(t, a)
    ensures Same(t.(out := t.out.(forwarded := t.out.forwarded + [r])), a.(forwarded := a.forwarded + [r]))
  {
    hide CappedAt, CappedWait;
    var b := a.(forwarded := a.forwarded + [r]);
    assert forall n: TimerName :: Due(b, n) == Due(a, n);
  }

  /** A response behind the final one, or to a transaction that got a CANCEL: stored, and nothing else. */
  lemma SameLateOffer(t: Tx, a: Spec, r: Response, ok: bool)
    requires Same(t, a) && a.trying.None?
    ensures a.phase != Waiting && a.phase != Open ==>
              Same(Settled(t.(lastResp := Some(r), out := t.out.(offered := t.out.offered + [r])), UserInput(r), ok),
                   Offered(a, r, ok))
  {
    hide CappedAt, CappedWait, Settled;
    var t1 := t.(lastResp := Some(r), out := t.out.(offered := t.out.offered + [r]));
    var b := a.(offered := a.offered + [r]);
    assert forall n: TimerName :: Due(b, n) == Due(a, n);
    if a.phase.Astray? {
      SettledRefused(t1, UserInput(r), ok);
      SameRefused(t1, b, UserInput(r));
    } else if a.phase != Waiting && a.phase != Open {
      OnlyMoves(t1, UserInput(r), t.state, ok);
    }
  }

  lemma SameWaiting(t: Tx, a: Spec)
    requires Same(t, a)
    ensures a.phase.Waiting? ==> !a.Invite()
  {
  }

  lemma SameEarlyOffer(t: Tx, a: Spec, r: Response, ok: bool)
    requires Same(t, a) && a.trying.None?
    ensures a.phase == Waiting || a.phase == Open ==>
              Same(Settled(t.(lastResp := Some(r), out := t.out.(offered := t.out.offered + [r])), UserInput(r), ok),
                   Offered(a, r, ok))
  {
    hide Same, Settled;
    SameWaiting(t, a);
    if a.phase == Waiting || a.phase == Open {
      if r.code < 200 {
        SameProvisional(t, a, r, ok);
      } else if !a.Invite() {
        SameFinal(t, a, r, ok);
      } else if r.code < 300 {
        SameSuccess(t, a, r, ok);
      } else {
        SameFailure(t, a, r, ok);
      }
    }
  }

  /** The transaction with the response stored, before anything is sent. */
  lemma SameOffered(t: Tx, a: Spec, r: Response)
    requires Same(t, a)
    ensures var t1 := t.(lastResp := Some(r), out := t.out.(offered := t.out.offered + [r]));
            var b := a.(offered := a.offered + [r]);
            SameHistory(t1, b) && SameSet(t1) && t1.table == TableFor(a.requestMethod)
  {
    hide CappedAt, CappedWait, Due;
  }

  lemma SameProvisional(t: Tx, a: Spec, r: Response, ok: bool)
    requires Same(t, a) && a.trying.None? && (a.phase == Waiting || a.phase == Open) && r.code < 200
    ensures Same(Settled(t.(lastResp := Some(r), out := t.out.(offered := t.out.offered + [r])), User1xx, ok),
                 Offered(a, r, ok))
  {
    hide CappedAt, CappedWait, Settled;
    SameOffered(t, a, r);
    var t1 := t.(lastResp := Some(r), out := t.out.(offered := t.out.offered + [r]));
    var b := a.(offered := a.offered + [r]);
    SameOpened(t, a, r);
    SameSent(t1, b, User1xx, ok, Proceeding, Open);
  }

  lemma SameOpened(t: Tx, a: Spec, r: Response)
    requires Same(t, a) && (a.phase == Waiting || a.phase == Open)
    ensures Same(t.(lastResp := Some(r), out := t.out.(offered := t.out.offered + [r]), state := Proceeding),
                 a.(offered := a.offered + [r], phase := Open))
  {
    hide CappedAt, CappedWait;
    var b := a.(offered := a.offered + [r], phase := Open);
    assert forall n: TimerName :: Due(b, n) == Due(a, n);
  }

  /** The final response to a request other than INVITE. */
  lemma SameFinal(t: Tx, a: Spec, r: Response, ok: bool)
    requires Same(t, a) && a.trying.None? && (a.phase == Waiting || a.phase == Open) && r.code >= 200 && !a.Invite()
    ensures Same(Settled(t.(lastResp := Some(r), out := t.out.(offered := t.out.offered + [r])), UserInput(r), ok),
                 Offered(a, r, ok))
  {
    hide CappedAt, CappedWait, Settled, Failed;
    SameOffered(t, a, r);
    var t1 := t.(lastResp := Some(r), out := t.out.(offered := t.out.offered + [r]));
    var b := a.(offered := a.offered + [r]);
    ServerNonInvite.SettledSending(t1, UserInput(r), ok);
    var t2 := Attempted(t1, UserInput(r), ok).(state := Completed);
    var b2 := b.(wire := b.wire + [Attempt(a.now, UserInput(r), r, ok)]);
    if !ok {
      SameFailed(t2, b2);
    }
  }

  lemma SameSuccess(t: Tx, a: Spec, r: Response, ok: bool)
    requires Same(t, a) && a.trying.None? && a.phase == Open && 200 <= r.code < 300 && a.Invite()
    ensures Same(Settled(t.(lastResp := Some(r), out := t.out.(offered := t.out.offered + [r])), User2xx, ok),
                 Offered(a, r, ok))
  {
    hide CappedAt, CappedWait, Settled, Deleted;
    SameOffered(t, a, r);
    var t1 := t.(lastResp := Some(r), out := t.out.(offered := t.out.offered + [r]));
    var b := a.(offered := a.offered + [r]);
    SuccessForm(t1, ok);
    var b2 := b.(wire := b.wire + [Attempt(a.now, User2xx, r, ok)]);
    SameDeleted(Responding(t1, User2xx, r, ok), b2);
    SameRefused(Deleted(Responding(t1, User2xx, r, ok)).(state := Terminated), Ended(b2), TransportErr);
  }

  lemma SameFailure(t: Tx, a: Spec, r: Response, ok: bool)
    requires Same(t, a) && a.trying.None? && a.phase == Open && 300 <= r.code && a.Invite()
    ensures Same(Settled(t.(lastResp := Some(r), out := t.out.(offered := t.out.offered + [r])), User300Plus, ok),
                 Offered(a, r, ok))
  {
    hide CappedAt, CappedWait, Settled, Failed;
    SameOffered(t, a, r);
    FirstWaits();
    var t1 := t.(lastResp := Some(r), out := t.out.(offered := t.out.offered + [r]));
    var b := a.(offered := a.offered + [r]);
    FinalForm(t1, ok);
    if !ok {
      SameFailed(Responding(t1, User300Plus, r, ok).(state := Completed),
                 b.(wire := b.wire + [Attempt(a.now, User300Plus, r, ok)]));
    }
  }

  // ---- timers

  lemma SameG(t: Tx, a: Spec, ok: bool)
    requires Same(t, a) && t.timerG.DueAt(t.now)
    ensures Same(Settled(t.(timerG := t.timerG.Fired()), TimerG, ok), TimedOut(a, G, ok))
  {
    hide CappedAt, CappedWait, Settled, Failed;
    var t0 := t.(timerG := t.timerG.Fired());
    var (k, r) := (a.phase.resends, t.lastResp.value);
    ResendForm(t0, ok);
    var t1 := Responding(t0, TimerG, r, ok);
    if ok {
      CappedDoubling(k);
      CappedSum(k + 1);
      var b := TimedOut(a, G, ok);
      assert Due(a, G) == Some(a.phase.at + CappedAt(k + 1));
      assert forall n: TimerName :: n != G ==> Due(b, n) == Due(a, n);
    } else {
      SameFailed(t1, a.(wire := a.wire + [Attempt(a.now, TimerG, r, ok)]));
    }
  }

  /** A timer that ends the transaction. */
  lemma SameEnding(t: Tx, a: Spec, i: Input, ok: bool)
    requires SameHistory(t, a) && !t.done && SameSet(t) && Row(t, i) == Some(To(Terminated, DeleteTx))
    ensures Same(Settled(t, i, ok), Ended(a))
  {
    hide CappedAt, CappedWait, Row, InviteRow, NonInviteRow, Deleted, Same;
    SameDeleted(t, a);
    EndingForm(t, i, ok);
  }

  lemma EndingForm(t: Tx, i: Input, ok: bool)
    requires Row(t, i) == Some(To(Terminated, DeleteTx))
    ensures Settled(t, i, ok) == Deleted(t).(state := Terminated)
  {
    hide InviteRow, NonInviteRow;
  }

  /** A timer left behind runs: nothing but the timer changes. */
  lemma SameLeft(t: Tx, a: Spec)
    requires Same(t, a)
    ensures a.phase.Over? ==> Same(t.(timerI := t.timerI.Fired()), a.(phase := Over(None)))
    ensures a.phase.Astray? ==> Same(t.(timerJ := t.timerJ.Fired()), a.(phase := Astray(None)))
  {
    hide CappedAt, CappedWait;
    var (b, c) := (a.(phase := Over(None)), a.(phase := Astray(None)));
    assert a.phase.Over? ==> forall n: TimerName :: n != I ==> Due(b, n) == Due(a, n);
    assert a.phase.Astray? ==> forall n: TimerName :: n != J ==> Due(c, n) == Due(a, n);
  }

  lemma SameParts(t: Tx, a: Spec)
    requires Same(t, a)
    ensures SameHistory(t, a) && SameSet(t)
    ensures a.phase.Answered? || a.phase.Acked? ==> !t.done
  {
    hide CappedAt, CappedWait, Due;
  }

  lemma SameH(t: Tx, a: Spec, ok: bool)
    requires Same(t, a) && t.timerH.DueAt(t.now)
    ensures Same(Fire(t, H, ok), TimedOut(a, H, ok))
  {
    hide CappedAt, CappedWait, Settled, Spin, NonInviteRow;
    var t1 := t.(timerH := t.timerH.Fired());
    SpinSettles(t1, TimerH, ok);
    assert Row(t1, TimerH) == Some(To(Terminated, DeleteTx));
    SameParts(t, a);
    hide Same, Row;
    SameEnding(t1, a, TimerH, ok);
  }

  lemma TimerIRow(t: Tx, a: Spec)
    requires Same(t, a) && t.timerI.due.Some?
    ensures a.phase.Over? || a.phase.Acked?
    ensures Row(t, TimerI) == if a.phase.Over? then None else Some(To(Terminated, DeleteTx))
  {
    hide CappedAt, CappedWait, NonInviteRow;
  }

  lemma SameI(t: Tx, a: Spec, ok: bool)
    requires Same(t, a) && t.timerI.DueAt(t.now)
    ensures Same(Fire(t, I, ok), TimedOut(a, I, ok))
  {
    hide Same, Settled, Spin, InviteRow, NonInviteRow;
    var t1 := t.(timerI := t.timerI.Fired());
    SpinSettles(t1, TimerI, ok);
    TimerIRow(t, a);
    SameParts(t, a);
    SameLeft(t, a);
    if a.phase.Over? {
      SettledRefused(t1, TimerI, ok);
      SameRefused(t1, a.(phase := Over(None)), TimerI);
    } else {
      SameEnding(t1, a, TimerI, ok);
    }
  }

  lemma TimerJRow(t: Tx, a: Spec)
    requires Same(t, a) && t.timerJ.due.Some?
    ensures a.phase.Astray? || a.phase.Answered?
    ensures Row(t, TimerJ) == if a.phase.Astray? then None else Some(To(Terminated, DeleteTx))
  {
    hide CappedAt, CappedWait, InviteRow;
  }

  lemma SameJ(t: Tx, a: Spec, ok: bool)
    requires Same(t, a) && t.timerJ.DueAt(t.now)
    ensures Same(Fire(t, J, ok), TimedOut(a, J, ok))
  {
    hide Same, Settled, Spin, InviteRow, NonInviteRow;
    var t1 := t.(timerJ := t.timerJ.Fired());
    SpinSettles(t1, TimerJ, ok);
    TimerJRow(t, a);
    SameParts(t, a);
    SameLeft(t, a);
    if a.phase.Astray? {
      SettledRefused(t1, TimerJ, ok);
      SameRefused(t1, a.(phase := Astray(None)), TimerJ);
    } else {
      SameEnding(t1, a, TimerJ, ok);
    }
  }

  lemma SameTrying(t: Tx, a: Spec, ok: bool)
    requires Same(t, a) && t.timer1xx.DueAt(t.now)
    ensures Same(Fire(t, OneXX, ok), TimedOut(a, OneXX, ok))
  {
    hide CappedAt, CappedWait, Settled, Spin, Same, SendResponse, SpecNext;
    var (t1, b) := (t.(timer1xx := t.timer1xx.Fired()), a.(trying := None));
    SameFired(t, a);
    SameOffer(t1, b, TRYING_100, ok);
    SameTryingOffer(a, ok);
  }

  lemma SameFired(t: Tx, a: Spec)
    requires Same(t, a)
    ensures Same(t.(timer1xx := t.timer1xx.Fired()), a.(trying := None))
  {
    hide CappedAt, CappedWait;
  }

  lemma SameTryingOffer(a: Spec, ok: bool)
    ensures SpecNext(a.(trying := None), Offer(TRYING_100, ok)) == TimedOut(a, OneXX, ok)
  {
  }

  // ---- refinement

  /** Every step of a transaction is possible when the specification's is, and does what the specification does. */
  lemma SameStep(t: Tx, a: Spec, s: Step)
    requires Same(t, a) && Enabled(t, s)
    ensures SpecEnabled(a, s) && Same(Next(t, s), SpecNext(a, s))
  {
    hide CappedAt, CappedWait, Settled, Spin, Receive, SendResponse, Fire, Offered, Received, TimedOut;
    SameEnabled(t, a, s);
    match s {
      case Recv(m, id, ok) => SameRecv(t, a, m, id, ok);
      case Offer(r, ok) => SameOffer(t, a, r, ok);
      case Fires(n, ok) =>
        match n {
          case G => SameG(t, a, ok); SpinSettles(t.(timerG := t.timerG.Fired()), TimerG, ok); FiresG(t, ok);
          case OneXX => SameTrying(t, a, ok);
          case H => SameH(t, a, ok);
          case I => SameI(t, a, ok);
          case J => SameJ(t, a, ok);
        }
      case Wait(d) => SameWait(t, a, d);
    }
  }

  lemma FiresG(t: Tx, ok: bool)
    ensures Fire(t, G, ok) == Spin(t.(timerG := t.timerG.Fired()), TimerG, ok)
  {
    hide Spin;
  }

  lemma SameWait(t: Tx, a: Spec, d: nat)
    requires Same(t, a) && SpecEnabled(a, Wait(d))
    ensures Same(t.(now := t.now + d), a.(now := a.now + d))
  {
    hide CappedAt, CappedWait;
    var b := a.(now := a.now + d);
    assert forall n: TimerName :: Due(b, n) == Due(a, n);
  }

  ghost function SpecAfter(a: Spec, run: seq<Step>): Spec
    decreases |run|
  {
    if run == [] then a else SpecAfter(SpecNext(a, run[0]), run[1..])
  }

  ghost predicate SpecLegal(a: Spec, run: seq<Step>)
    decreases |run|
  {
    run == [] || (SpecEnabled(a, run[0]) && SpecLegal(SpecNext(a, run[0]), run[1..]))
  }

  lemma {:induction false} SameRun(t: Tx, a: Spec, run: seq<Step>)
    requires Same(t, a)
    ensures Legal(t, run) <==> SpecLegal(a, run)
    ensures Legal(t, run) ==> Same(After(t, run), SpecAfter(a, run))
    decreases |run|
  {
    hide Same, Next, Enabled, SpecNext, SpecEnabled;
    if run != [] {
      SameEnabled(t, a, run[0]);
      if Enabled(t, run[0]) {
        SameStep(t, a, run[0]);
        SameRun(Next(t, run[0]), SpecNext(a, run[0]), run[1..]);
      }
    }
  }

  /**
   * For every method and transport, the transaction and the specification have the same legal runs, and at the end of
   * each of them the same history, instants and phase.
   */
  lemma ServerRefines(requestMethod: string, reliable: bool, start: nat, run: seq<Step>)
    ensures var (t0, a0) := (Fresh(requestMethod, reliable, start), Begin(requestMethod, reliable, start));
            && (Legal(t0, run) <==> SpecLegal(a0, run))
            && (Legal(t0, run) ==> Same(After(t0, run), SpecAfter(a0, run)))
  {
    SameStart(requestMethod, reliable, start);
    SameRun(Fresh(requestMethod, reliable, start), Begin(requestMethod, reliable, start), run);
  }
}
