/** The theorems about whole runs of a server transaction. */
module ServerTheorems {
  import opened Wrappers
  import opened Timing
  import opened Responses
  import opened Tables
  import opened ServerSteps
  import opened ServerRuns

  // ---- what is sent: provisional responses, then copies of one final response

  /** Where the INVITE table sends, and where it goes. */
  lemma InviteMoves(t: Tx, i: Input, ok: bool)
    requires t.table.InviteTable? && Rank(i) == 2 && t.state != Trying
    ensures Moves(t, i, Settled(t, i, ok), ok)
    ensures t.state == Proceeding && Settled(t, i, ok).state == Completed ==> i == User300Plus
  {
    hide NonInviteRow, Settled;
    SendsLast(t, i, ok);
  }

  lemma NonInviteMoves(t: Tx, i: Input, ok: bool)
    requires t.table.NonInviteTable? && Rank(i) == 2
    ensures Moves(t, i, Settled(t, i, ok), ok)
  {
    hide InviteRow, Settled;
    SendsLast(t, i, ok);
  }

  predicate Early(s: State) {
    s == Trying || s == Proceeding
  }

  /** What one input can do to the state and to what was sent, in either table. */
  predicate Moves(t: Tx, i: Input, u: Tx, ok: bool) {
    && (t.state in {Confirmed, Terminated} ==> u.state in {Confirmed, Terminated} && u.out.wire == t.out.wire)
    && (t.state == Completed ==> u.state in {Completed, Confirmed, Terminated})
    && (t.table.InviteTable? && u.state == Confirmed ==> t.state in {Completed, Confirmed})
    && (u.state == Trying ==> t.state == Trying)
    && (Early(t.state) ==>
          && (u.state == Completed ==> i in {User2xx, User300Plus})
          && (Early(u.state) ==> i !in {User2xx, User300Plus})
          && (u.state == Completed && t.lastResp.Some? ==>
                u.out.wire == t.out.wire + [Attempt(t.now, i, t.lastResp.value, ok)]))
  }

  predicate NoSuccess(w: seq<Attempt>) {
    forall i :: 0 <= i < |w| ==> !w[i].resp.Success()
  }

  /** The first final response that was offered. */
  function FirstFinalOffered(offered: seq<Response>): Option<Response> {
    if offered == [] then None
    else
      var (init, last) := (offered[..|offered| - 1], offered[|offered| - 1]);
      if FirstFinalOffered(init).Some? then FirstFinalOffered(init)
      else if last.Provisional() then None else Some(last)
  }

  /** The first final response that was sent. */
  function FirstFinalSent(w: seq<Attempt>): Option<Response> {
    FirstFinalOffered(seq(|w|, i requires 0 <= i < |w| => w[i].resp))
  }

  lemma OfferedSnoc(offered: seq<Response>, r: Response)
    ensures FirstFinalOffered(offered + [r]) ==
            if FirstFinalOffered(offered).Some? then FirstFinalOffered(offered)
            else if r.Provisional() then None else Some(r)
  {
    assert (offered + [r])[..|offered|] == offered;
  }

  lemma SentSnoc(w: seq<Attempt>, a: Attempt)
    ensures FirstFinalSent(w + [a]) ==
            if FirstFinalSent(w).Some? then FirstFinalSent(w) else if a.resp.Provisional() then None else Some(a.resp)
  {
    var rs := seq(|w|, i requires 0 <= i < |w| => w[i].resp);
    OfferedSnoc(rs, a.resp);
    assert seq(|w + [a]|, i requires 0 <= i < |w + [a]| => (w + [a])[i].resp) == rs + [a.resp];
  }

  lemma {:induction false} OfferedFirst(offered: seq<Response>)
    ensures match FirstFinalOffered(offered)
            case None => forall i :: 0 <= i < |offered| ==> offered[i].Provisional()
            case Some(f) => !f.Provisional() && exists i :: 0 <= i < |offered| && offered[i] == f
    decreases |offered|
  {
    if offered != [] {
      var init := offered[..|offered| - 1];
      OfferedFirst(init);
      assert forall i :: 0 <= i < |init| ==> init[i] == offered[i];
    }
  }

  lemma SentFirst(w: seq<Attempt>)
    ensures match FirstFinalSent(w)
            case None => AllProvisional(w)
            case Some(f) => !f.Provisional() && exists i :: 0 <= i < |w| && w[i].resp == f
  {
    var rs := seq(|w|, i requires 0 <= i < |w| => w[i].resp);
    OfferedFirst(rs);
    assert forall i :: 0 <= i < |w| ==> rs[i] == w[i].resp;
  }

  /** One more attempt keeps the trace exactly when it repeats the final response, if one was sent. */
  lemma CopiesSnoc(w: seq<Attempt>, a: Attempt)
    ensures ProvisionalsThenCopies(w + [a]) <==>
            ProvisionalsThenCopies(w) && (FirstFinalSent(w).Some? ==> a.resp == FirstFinalSent(w).value)
  {
    hide FirstFinalSent;
    SentFirst(w);
    var v := w + [a];
    assert forall i :: 0 <= i < |w| ==> v[i] == w[i];
    assert v[|w|] == a;
    if ProvisionalsThenCopies(v) {
      assert forall i, j :: 0 <= i < j < |w| && !w[i].resp.Provisional() ==> v[j].resp == v[i].resp;
    }
  }

  /** The last response offered is not the first final one that was. */
  predicate LastIsStale(t: Tx) {
    t.out.offered != [] && FirstFinalOffered(t.out.offered) != Some(t.out.offered[|t.out.offered| - 1])
  }

  /**
   * A resend of something else than the final response: in Completed the request comes again or timer G runs,
   * while another response was offered behind the final one.
   */
  predicate StaleResend(t: Tx, s: Step) {
    && t.state == Completed && LastIsStale(t)
    && ((s.Recv? && s.requestMethod == t.requestMethod) || (t.table.InviteTable? && s.Fires? && s.timer == G))
  }

  /** What the states say about the responses offered and sent. */
  predicate TraceInv(t: Tx) {
    && LastIsOffered(t)
    && (t.table.InviteTable? ==> t.state != Trying)
    && (Early(t.state) ==> FirstFinalSent(t.out.wire).None? && FirstFinalOffered(t.out.offered).None?)
    && (t.state == Completed ==>
          t.lastResp.Some? && FirstFinalSent(t.out.wire).Some? &&
          FirstFinalSent(t.out.wire) == FirstFinalOffered(t.out.offered))
    && (t.table.InviteTable? && ProvisionalsThenCopies(t.out.wire) ==>
          OnlyLastSucceeds(t.out.wire) && (t.state in {Completed, Confirmed} ==> NoSuccess(t.out.wire)))
  }

  /** In Completed, only a repeated request and timer G send. */
  lemma CompletedSends(t: Tx, i: Input, ok: bool)
    requires t.state == Completed && t.lastResp.Some? && Rank(i) == 2
    ensures Settled(t, i, ok).out.wire ==
            t.out.wire + if i == Request || (t.table.InviteTable? && i == TimerG)
                         then [Attempt(t.now, i, t.lastResp.value, ok)] else []
  {
    hide Settled;
    SendsLast(t, i, ok);
  }

  lemma AnyMoves(t: Tx, i: Input, ok: bool)
    requires Rank(i) == 2 && (t.table.InviteTable? ==> t.state != Trying)
    ensures Moves(t, i, Settled(t, i, ok), ok)
    ensures t.table.InviteTable? && t.state == Proceeding && Settled(t, i, ok).state == Completed ==> i == User300Plus
  {
    hide Settled, Moves;
    if t.table.InviteTable? {
      InviteMoves(t, i, ok);
    } else {
      NonInviteMoves(t, i, ok);
    }
  }

  /** An input in Completed that is not a response of the user. */
  lemma TraceCompleted(t: Tx, i: Input, ok: bool)
    requires TraceInv(t) && t.state == Completed && Rank(i) == 2
    ensures var u := Settled(t, i, ok);
            && TraceInv(u)
            && (ProvisionalsThenCopies(u.out.wire) <==>
                  && ProvisionalsThenCopies(t.out.wire)
                  && (i == Request || (t.table.InviteTable? && i == TimerG) ==> t.lastResp == FirstFinalSent(t.out.wire)))
  {
    hide Settled, Row, FirstFinalSent, FirstFinalOffered, ProvisionalsThenCopies;
    var a := Attempt(t.now, i, t.lastResp.value, ok);
    SendsLast(t, i, ok);
    CompletedSends(t, i, ok);
    AnyMoves(t, i, ok);
    CopiesSnoc(t.out.wire, a);
    SentSnoc(t.out.wire, a);
    if t.table.InviteTable? && ProvisionalsThenCopies(t.out.wire) {
      SentFirst(t.out.wire);
    }
    assert t.out.wire + [] == t.out.wire;
  }

  /** An input before the final response. */
  lemma TraceEarly(t: Tx, t0: Tx, i: Input, ok: bool)
    requires TraceInv(t0) && Early(t0.state) && Rank(i) == 2
    requires t == t0.(lastResp := t.lastResp, out := t0.out.(offered := t.out.offered)) && LastIsOffered(t)
    requires i in {User1xx, User2xx, User300Plus} ==>
               && t.lastResp.Some? && i == UserInput(t.lastResp.value)
               && t.out.offered == t0.out.offered + [t.lastResp.value]
    requires i !in {User1xx, User2xx, User300Plus} ==> t == t0
    ensures TraceInv(Settled(t, i, ok)) && ProvisionalsThenCopies(Settled(t, i, ok).out.wire)
  {
    hide Settled, Row, FirstFinalSent, FirstFinalOffered;
    SendsLast(t, i, ok);
    AnyMoves(t, i, ok);
    SentFirst(t.out.wire);
    OfferedFirst(t0.out.offered);
    if t.lastResp.Some? {
      SentSnoc(t.out.wire, Attempt(t.now, i, t.lastResp.value, ok));
      OfferedSnoc(t0.out.offered, t.lastResp.value);
    }
    assert t.out.wire + [] == t.out.wire;
  }

  /** In Confirmed and Terminated nothing is sent any more. */
  lemma TraceLate(t: Tx, i: Input, ok: bool)
    requires TraceInv(t) && t.state in {Confirmed, Terminated} && Rank(i) == 2
    ensures TraceInv(Settled(t, i, ok)) && Settled(t, i, ok).out.wire == t.out.wire
  {
    hide Settled, Row, FirstFinalSent, FirstFinalOffered, ProvisionalsThenCopies;
    SendsLast(t, i, ok);
    AnyMoves(t, i, ok);
  }

  /** What an input keeps of the trace. */
  predicate Kept(t: Tx, u: Tx, stale: bool) {
    TraceInv(u) && (ProvisionalsThenCopies(u.out.wire) <==> ProvisionalsThenCopies(t.out.wire) && !stale)
  }

  lemma TraceInput(t: Tx, i: Input, ok: bool)
    requires TraceInv(t) && Rank(i) == 2 && i !in {User1xx, User2xx, User300Plus}
    ensures Kept(t, Spin(t, i, ok),
                 t.state == Completed && (i == Request || (t.table.InviteTable? && i == TimerG)) && LastIsStale(t))
  {
    hide Settled, Row, FirstFinalSent, FirstFinalOffered, ProvisionalsThenCopies, Spin, Cascade;
    SpinSettles(t, i, ok);
    if Early(t.state) {
      TraceEarly(t, t, i, ok);
      EarlyCopies(t);
    } else if t.state == Completed {
      TraceCompleted(t, i, ok);
    } else {
      TraceLate(t, i, ok);
    }
  }

  lemma EarlyCopies(t: Tx)
    requires TraceInv(t) && Early(t.state)
    ensures ProvisionalsThenCopies(t.out.wire)
  {
    SentFirst(t.out.wire);
  }

  lemma TraceOffer(t: Tx, r: Response, ok: bool)
    requires TraceInv(t)
    ensures Kept(t, SendResponse(t, r, ok), false)
  {
    hide Settled, Row, FirstFinalSent, FirstFinalOffered, ProvisionalsThenCopies, Spin, Cascade;
    if !r.cancel {
      var t0 := t.(timer1xx := t.timer1xx.Stopped());
      var t1 := t0.(lastResp := Some(r), out := t.out.(offered := t.out.offered + [r]));
      SpinSettles(t1, UserInput(r), ok);
      if Early(t.state) {
        TraceEarly(t1, t0, UserInput(r), ok);
        EarlyCopies(t);
      } else {
        OfferedSnoc(t.out.offered, r);
        if t.state == Completed {
          TraceCompleted(t1, UserInput(r), ok);
        } else {
          TraceLate(t1, UserInput(r), ok);
        }
      }
    }
  }

  lemma TraceRecv(t: Tx, m: string, id: nat, ok: bool)
    requires TraceInv(t)
    ensures Kept(t, Receive(t, m, id, ok), StaleResend(t, Recv(m, id, ok)))
  {
    hide Spin, FirstFinalSent, FirstFinalOffered, ProvisionalsThenCopies;
    var t1 := t.(timer1xx := t.timer1xx.Stopped());
    if m == t.requestMethod {
      TraceInput(t1, Request, ok);
    } else if m == "ACK" {
      TraceInput(t1.(lastAck := Some(id)), Ack, ok);
    } else if m == "CANCEL" {
      TraceInput(t1.(lastCancel := Some(id)), Cancel, ok);
    }
  }

  /** One step leaves the trace in order if and only if it was and the step is no stale resend. */
  lemma ResendIsCopy(t: Tx, s: Step)
    requires TraceInv(t)
    ensures Kept(t, Next(t, s), StaleResend(t, s))
  {
    hide Spin, Receive, SendResponse, FirstFinalSent, FirstFinalOffered, ProvisionalsThenCopies;
    match s {
      case Wait(d) =>
      case Recv(m, id, ok) => TraceRecv(t, m, id, ok);
      case Offer(r, ok) => TraceOffer(t, r, ok);
      case Fires(n, ok) =>
        match n {
          case G => TraceInput(t.(timerG := t.timerG.Fired()), TimerG, ok);
          case H => TraceInput(t.(timerH := t.timerH.Fired()), TimerH, ok);
          case I => TraceInput(t.(timerI := t.timerI.Fired()), TimerI, ok);
          case J => TraceInput(t.(timerJ := t.timerJ.Fired()), TimerJ, ok);
          case OneXX => TraceOffer(t.(timer1xx := t.timer1xx.Fired()), TRYING_100, ok);
        }
    }
  }

  /** Somewhere in the run stands a stale resend. */
  ghost predicate ResendsStale(t: Tx, run: seq<Step>)
    decreases |run|
  {
    run != [] && (StaleResend(t, run[0]) || ResendsStale(Next(t, run[0]), run[1..]))
  }

  lemma {:induction false} TraceRun(t: Tx, run: seq<Step>)
    requires TraceInv(t)
    ensures Kept(t, After(t, run), ResendsStale(t, run))
    decreases |run|
  {
    hide TraceInv, Next, ProvisionalsThenCopies, StaleResend;
    if run != [] {
      ResendIsCopy(t, run[0]);
      TraceRun(Next(t, run[0]), run[1..]);
    }
  }

  lemma TraceStarts(requestMethod: string, reliable: bool, start: nat)
    ensures TraceInv(Fresh(requestMethod, reliable, start))
  {
  }

  /**
   * In every run of either table, what is sent is provisional responses and then copies of one final response if
   * and only if no step of the run is a stale resend; a 2xx to an INVITE is then the last thing sent.
   */
  lemma WireTraceExactly(requestMethod: string, reliable: bool, start: nat, run: seq<Step>)
    ensures var t0 := Fresh(requestMethod, reliable, start);
            var t := After(t0, run);
            && (ProvisionalsThenCopies(t.out.wire) <==> !ResendsStale(t0, run))
            && (requestMethod == "INVITE" && !ResendsStale(t0, run) ==> OnlyLastSucceeds(t.out.wire))
  {
    hide ProvisionalsThenCopies, Next;
    var t0 := Fresh(requestMethod, reliable, start);
    TraceStarts(requestMethod, reliable, start);
    EarlyCopies(t0);
    TraceRun(t0, run);
    SameTable(t0, run);
  }

  lemma StepOffers(t: Tx, s: Step)
    requires TraceInv(t)
    ensures |t.out.offered| <= |Next(t, s).out.offered|
    ensures t.out.offered == Next(t, s).out.offered[..|t.out.offered|]
  {
    hide Spin, Settled, Row, FirstFinalSent, FirstFinalOffered, ProvisionalsThenCopies;
    forall u: Tx, i: Input, ok: bool | Rank(i) == 2 ensures Spin(u, i, ok).out.offered == u.out.offered {
      SpinSettles(u, i, ok);
      SendsLast(u, i, ok);
    }
  }

  /** A quiet user never causes a stale resend. */
  lemma {:induction false} QuietNeverStale(t: Tx, run: seq<Step>)
    requires TraceInv(t) && QuietAfterFinal(After(t, run).out.offered)
    ensures !ResendsStale(t, run) && QuietAfterFinal(t.out.offered)
    decreases |run|
  {
    hide Next, ProvisionalsThenCopies, FirstFinalSent, FirstFinalOffered;
    if run != [] {
      var u := Next(t, run[0]);
      ResendIsCopy(t, run[0]);
      QuietNeverStale(u, run[1..]);
      StepOffers(t, run[0]);
      assert forall k :: 0 <= k < |t.out.offered| ==> t.out.offered[k] == u.out.offered[k];
      OfferedFirst(t.out.offered);
    }
  }

  /**
   * In every run of either table in which nothing follows the user's final response, the responses sent are
   * provisional ones and then copies of one final response, and a 2xx to an INVITE is the last thing sent.
   */
  lemma WireTrace(requestMethod: string, reliable: bool, start: nat, run: seq<Step>)
    ensures var t := After(Fresh(requestMethod, reliable, start), run);
            QuietAfterFinal(t.out.offered) ==>
              ProvisionalsThenCopies(t.out.wire) && (requestMethod == "INVITE" ==> OnlyLastSucceeds(t.out.wire))
  {
    hide ProvisionalsThenCopies, Next;
    var t0 := Fresh(requestMethod, reliable, start);
    WireTraceExactly(requestMethod, reliable, start, run);
    TraceStarts(requestMethod, reliable, start);
    if QuietAfterFinal(After(t0, run).out.offered) {
      QuietNeverStale(t0, run);
    }
  }

  lemma SameTable(t: Tx, run: seq<Step>)
    ensures var u := After(t, run);
            u.table == t.table && u.requestMethod == t.requestMethod && u.reliable == t.reliable
    decreases |run|
  {
    hide Spin;
    if run != [] {
      SameTable(Next(t, run[0]), run[1..]);
    }
  }

  // ---- the end of the INVITE transaction

  /** A second ACK: the state says Terminated, yet nothing was closed. */
  predicate Leaked(t: Tx) {
    t.state == Terminated && !t.done
  }

  lemma LeakSettles(t: Tx, i: Input, ok: bool)
    requires t.table.InviteTable? && t.state != Trying && (t.state != Terminated ==> !t.done) && Rank(i) == 2
    ensures Leaked(Settled(t, i, ok)) <==> Leaked(t) || (t.state == Confirmed && i == Ack)
  {
    hide NonInviteRow, Act, Settled;
    Closes(t, i, ok);
  }

  predicate SecondAck(t: Tx, s: Step) {
    t.state == Confirmed && s.Recv? && s.requestMethod == "ACK"
  }

  lemma LeakStep(t: Tx, start: nat, s: Step)
    requires InviteInv(t, start) && t.requestMethod == "INVITE"
    ensures Leaked(Next(t, s)) <==> Leaked(t) || SecondAck(t, s)
  {
    hide Spin, Settled, Row, Act, FirstFinal, Resends, CappedAt;
    match s {
      case Wait(_) =>
      case Recv(m, id, ok) =>
        var t1 := t.(timer1xx := t.timer1xx.Stopped());
        if m == "INVITE" {
          SpinSettles(t1, Request, ok);
          LeakSettles(t1, Request, ok);
        } else if m == "ACK" {
          SpinSettles(t1.(lastAck := Some(id)), Ack, ok);
          LeakSettles(t1.(lastAck := Some(id)), Ack, ok);
        } else if m == "CANCEL" {
          SpinSettles(t1.(lastCancel := Some(id)), Cancel, ok);
          LeakSettles(t1.(lastCancel := Some(id)), Cancel, ok);
        }
      case Offer(r, ok) =>
        LeakSend(t, r, ok);
      case Fires(n, ok) =>
        match n {
          case G => LeakTimer(t.(timerG := t.timerG.Fired()), TimerG, ok);
          case H => LeakTimer(t.(timerH := t.timerH.Fired()), TimerH, ok);
          case I => LeakTimer(t.(timerI := t.timerI.Fired()), TimerI, ok);
          case J => LeakTimer(t.(timerJ := t.timerJ.Fired()), TimerJ, ok);
          case OneXX => LeakSend(t.(timer1xx := t.timer1xx.Fired()), TRYING_100, ok);
        }
    }
  }

  lemma LeakTimer(t: Tx, i: Input, ok: bool)
    requires t.table.InviteTable? && t.state != Trying && (t.state != Terminated ==> !t.done)
    requires i in {TimerG, TimerH, TimerI, TimerJ}
    ensures Leaked(Spin(t, i, ok)) <==> Leaked(t)
  {
    SpinSettles(t, i, ok);
    LeakSettles(t, i, ok);
  }

  lemma LeakSend(t: Tx, r: Response, ok: bool)
    requires t.table.InviteTable? && t.state != Trying && (t.state != Terminated ==> !t.done)
    ensures Leaked(SendResponse(t, r, ok)) <==> Leaked(t)
  {
    hide Spin, Settled;
    if !r.cancel {
      var t1 := t.(lastResp := Some(r), timer1xx := t.timer1xx.Stopped(), out := t.out.(offered := t.out.offered + [r]));
      SpinSettles(t1, UserInput(r), ok);
      LeakSettles(t1, UserInput(r), ok);
    }
  }

  /** Somewhere in the run an ACK arrives in the state Confirmed. */
  ghost predicate AckInConfirmed(t: Tx, run: seq<Step>)
    decreases |run|
  {
    run != [] && (SecondAck(t, run[0]) || AckInConfirmed(Next(t, run[0]), run[1..]))
  }

  lemma LeakRun(t: Tx, start: nat, run: seq<Step>)
    requires InviteInv(t, start) && t.requestMethod == "INVITE" && Legal(t, run)
    ensures Leaked(After(t, run)) <==> Leaked(t) || AckInConfirmed(t, run)
    decreases |run|
  {
    hide Next, InviteInv;
    if run != [] {
      InviteStep(t, start, run[0]);
      LeakStep(t, start, run[0]);
      SameTable(t, [run[0]]);
      assert After(t, [run[0]]) == Next(t, run[0]);
      LeakRun(Next(t, run[0]), start, run[1..]);
    }
  }

  /**
   * At the end of every run the INVITE transaction is Terminated exactly when its channels are closed, if and
   * only if no ACK arrived in Confirmed; after such an ACK no continuation of the run ever closes them.
   */
  lemma TerminatedMeansClosed(reliable: bool, start: nat, run: seq<Step>, more: seq<Step>)
    requires Legal(Fresh("INVITE", reliable, start), run)
    requires Legal(After(Fresh("INVITE", reliable, start), run), more)
    ensures var t0 := Fresh("INVITE", reliable, start);
            var t := After(t0, run);
            && ((t.state == Terminated <==> t.done) <==> !AckInConfirmed(t0, run))
            && (AckInConfirmed(t0, run) ==> t.state == Terminated && !After(t, more).done)
  {
    hide InviteInv, Next;
    var t0 := Fresh("INVITE", reliable, start);
    InviteStarts(reliable, start);
    InviteRun(t0, start, run);
    SameTable(t0, run);
    LeakRun(t0, start, run);
    LeakRun(After(t0, run), start, more);
    DoneOnlyTerminated(After(t0, run), start);
  }

  lemma DoneOnlyTerminated(t: Tx, start: nat)
    requires InviteInv(t, start)
    ensures t.done ==> t.state == Terminated
  {
  }

  // ---- deadlines and retransmissions of the INVITE transaction

  /**
   * In every run, timer G has resent the final response at the capped doubling instants and at no other, at
   * most ten times; when timer H ends the wait for an ACK it is exactly ten, or none on a reliable transport.
   * Until it is Terminated, the transaction lives at most 64*T1 + T4 after its final response.
   */
  lemma FinalResponseTiming(reliable: bool, start: nat, run: seq<Step>)
    requires Legal(Fresh("INVITE", reliable, start), run)
    requires After(Fresh("INVITE", reliable, start), run).state in {Completed, Confirmed}
    ensures var t := After(Fresh("INVITE", reliable, start), run);
            var resends := Resends(t.out.wire);
            && FirstFinal(t.out.wire).Some?
            && var f := FirstFinal(t.out.wire).value;
            && t.now <= f + TIME_H + (if t.state == Confirmed then TIME_I else 0)
            && OnSchedule(resends, f)
            && (t.state == Completed ==> |resends| <= 10)
            && (t.state == Completed && t.timerH.DueAt(t.now) ==>
                  t.now == f + TIME_H && |resends| == (if reliable then 0 else 10))
  {
    var t0 := Fresh("INVITE", reliable, start);
    InviteStarts(reliable, start);
    InviteRun(t0, start, run);
    SameTable(t0, run);
    var t := After(t0, run);
    ResendsSoFar(t, FirstFinal(t.out.wire).value);
  }

  lemma ResendsSoFar(t: Tx, f: nat)
    requires t.state == Completed ==> InCompleted(t, f)
    ensures t.state == Completed ==> |Resends(t.out.wire)| <= 10
    ensures t.state == Completed && t.timerH.DueAt(t.now) ==>
              t.now == f + TIME_H && |Resends(t.out.wire)| == (if t.reliable then 0 else 10)
  {
    hide Resends, FirstFinal, CappedWait, CappedAt, OnSchedule;
    if t.state == Completed && !t.reliable {
      var k := |Resends(t.out.wire)|;
      if k > 10 {
        CappedAtGrows(11, k);
        EleventhResend();
      }
      if t.timerH.DueAt(t.now) {
        TenCappedResends(k);
      }
    }
  }

  /** A step with which neither a request arrives nor a response is offered, except one to a CANCEL, nor a timer runs. */
  predicate SilentStep(s: Step) {
    s.Wait? || (s.Offer? && s.resp.cancel)
  }

  predicate Silent(run: seq<Step>) {
    forall i :: 0 <= i < |run| ==> SilentStep(run[i])
  }

  /** No input restarts timer 1xx. */
  lemma Timer1xxSettles(t: Tx, i: Input, ok: bool)
    requires Rank(i) == 2
    ensures Settled(t, i, ok).timer1xx in {t.timer1xx, t.timer1xx.Stopped()}
  {
    hide InviteRow, NonInviteRow, Row;
    if Row(t, i).Some? {
      Timer1xxActs(t, i, Row(t, i).value.action, ok);
    }
  }

  lemma Timer1xxActs(t: Tx, i: Input, a: Action, ok: bool)
    ensures Act(t, i, a, ok).0.timer1xx in {t.timer1xx, t.timer1xx.Stopped()}
  {
    hide Deleted, RespondCompleted, Confirming, CancelAccepted, CancelRefused;
    Timer1xxParts(t);
    if t.lastResp.Some? {
      Timer1xxParts(Attempted(t, i, ok));
    }
  }

  lemma Timer1xxParts(t: Tx)
    ensures Deleted(t).timer1xx in {t.timer1xx, t.timer1xx.Stopped()}
    ensures RespondCompleted(t).timer1xx == t.timer1xx && Confirming(t).timer1xx == t.timer1xx
    ensures CancelAccepted(t).timer1xx == t.timer1xx && CancelRefused(t).timer1xx == t.timer1xx
  {
  }

  /** Every step but a silent one takes timer 1xx away for good. */
  lemma Timer1xxStep(t: Tx, start: nat, s: Step)
    requires InviteInv(t, start) && Enabled(t, s)
    ensures SilentStep(s) ==> Next(t, s).timer1xx == t.timer1xx
    ensures t.timer1xx == OFF ==> Next(t, s).timer1xx == OFF
    ensures !SilentStep(s) ==> Next(t, s).timer1xx == OFF
  {
    hide Spin, Settled, Row, Act, FirstFinal, Resends, CappedAt;
    forall u: Tx, i: Input, ok: bool | Rank(i) == 2 && u.timer1xx == OFF ensures Spin(u, i, ok).timer1xx == OFF {
      SpinSettles(u, i, ok);
      Timer1xxSettles(u, i, ok);
    }
  }

  lemma {:induction false} Timer1xxRun(t: Tx, start: nat, run: seq<Step>)
    requires InviteInv(t, start) && Legal(t, run)
    ensures After(t, run).timer1xx == if Silent(run) then t.timer1xx else OFF
    decreases |run|
  {
    hide InviteInv, Next, Enabled;
    if run != [] {
      InviteStep(t, start, run[0]);
      Timer1xxStep(t, start, run[0]);
      Timer1xxRun(Next(t, run[0]), start, run[1..]);
      assert Silent(run) <==> SilentStep(run[0]) && Silent(run[1..]) by { SilentFirst(run); }
      if !SilentStep(run[0]) || Next(t, run[0]).timer1xx == OFF {
        assert After(t, run).timer1xx == OFF;
      }
    }
  }

  lemma SilentFirst(run: seq<Step>)
    requires run != []
    ensures Silent(run) <==> SilentStep(run[0]) && Silent(run[1..])
  {
    assert forall i :: 1 <= i < |run| ==> run[i] == run[1..][i - 1];
  }

  /**
   * The automatic 100 is due exactly 200 ms after creation and exactly if no request was received, a refused one
   * included, and no response was offered except to a CANCEL; time cannot pass that instant without one of them
   * or the 100, which is then the first response sent.
   */
  lemma AutomaticTrying(reliable: bool, start: nat, run: seq<Step>, ok: bool)
    requires Legal(Fresh("INVITE", reliable, start), run)
    ensures var t := After(Fresh("INVITE", reliable, start), run);
            && (Enabled(t, Fires(OneXX, ok)) <==> Silent(run) && t.now == start + TIME_1XX)
            && (Silent(run) ==> t.now <= start + TIME_1XX)
            && (Enabled(t, Fires(OneXX, ok)) ==>
                  && t.state == Proceeding && t.out.wire == [] && t.out.offered == []
                  && Next(t, Fires(OneXX, ok)).out.wire == [Attempt(t.now, User1xx, TRYING_100, ok)])
  {
    hide Resends, FirstFinal, CappedAt, Spin, Next;
    var t0 := Fresh("INVITE", reliable, start);
    InviteStarts(reliable, start);
    InviteRun(t0, start, run);
    Timer1xxRun(t0, start, run);
    var t := After(t0, run);
    if Enabled(t, Fires(OneXX, ok)) {
      TryingSent(t, start, ok);
    }
  }

  lemma TryingSent(t: Tx, start: nat, ok: bool)
    requires InviteInv(t, start) && t.state == Proceeding && t.out.wire == [] && Enabled(t, Fires(OneXX, ok))
    ensures Next(t, Fires(OneXX, ok)).out.wire == [Attempt(t.now, User1xx, TRYING_100, ok)]
  {
    hide Resends, FirstFinal, CappedAt, Spin, Settled;
    var t1 := t.(timer1xx := t.timer1xx.Fired().Stopped(), lastResp := Some(TRYING_100),
                 out := t.out.(offered := t.out.offered + [TRYING_100]));
    SpinSettles(t1, User1xx, ok);
    SendsLast(t1, User1xx, ok);
  }

  // ---- ACK and CANCEL

  /** What a matched CANCEL gets in each state: one answer, or none once the transaction is Terminated. */
  lemma CancelAnswered(t: Tx, start: nat, id: nat, ok: bool)
    requires InviteInv(t, start) && t.requestMethod == "INVITE"
    ensures var u := Receive(t, "CANCEL", id, ok);
            && u.state == t.state && u.out.wire == t.out.wire && u.out.unhandled == t.out.unhandled
            && u.out.answers == t.out.answers +
               (match t.state
                case Proceeding => [Answer(id, 200)]
                case Completed => [Answer(id, 481)]
                case Confirmed => [Answer(id, 481)]
                case _ => [])
            && u.out.ups == t.out.ups + if t.state == Proceeding then [CancelUp(id)] else []
  {
    hide Spin, Cascade, NonInviteRow, FirstFinal, Resends, CappedAt;
    SpinSettles(t.(timer1xx := t.timer1xx.Stopped(), lastCancel := Some(id)), Cancel, ok);
  }

  /** What an ACK does in each state: only the first one after the final response goes up. */
  lemma AckPassedUp(t: Tx, start: nat, id: nat, ok: bool)
    requires InviteInv(t, start) && t.requestMethod == "INVITE"
    ensures var u := Receive(t, "ACK", id, ok);
            && u.out.wire == t.out.wire && u.out.answers == t.out.answers
            && u.out.ups == t.out.ups + (if t.state == Completed then [AckUp(id)] else [])
            && u.state == (match t.state case Completed => Confirmed case Confirmed => Terminated case s => s)
            && u.out.unhandled == t.out.unhandled + if t.state == Proceeding then [(Proceeding, Ack)] else []
  {
    hide Spin, Cascade, NonInviteRow, FirstFinal, Resends, CappedAt;
    SpinSettles(t.(timer1xx := t.timer1xx.Stopped(), lastAck := Some(id)), Ack, ok);
  }

  // ---- where the state machine has no row

  /**
   * The only three ways in which an INVITE transaction in a run makes Spin fail: an ACK before the final
   * response, a failed send of the 2xx, and timer I after a second ACK.
   */
  predicate Refuses(t: Tx, s: Step) {
    || (t.state == Proceeding && s.Recv? && s.requestMethod == "ACK")
    || (t.state == Proceeding && s.Offer? && !s.resp.cancel && s.resp.Success() && !s.ok)
    || (t.state == Terminated && s.Fires? && s.timer == I)
  }

  lemma SpinFailsExactly(t: Tx, start: nat, s: Step)
    requires InviteInv(t, start) && t.requestMethod == "INVITE" && Enabled(t, s)
    ensures Next(t, s).out.unhandled != t.out.unhandled <==> Refuses(t, s)
  {
    hide Spin, Settled, Act, FirstFinal, Resends, CappedAt, NonInviteRow;
    match s {
      case Wait(_) =>
      case Recv(m, id, ok) =>
        var t1 := t.(timer1xx := t.timer1xx.Stopped());
        if m == "INVITE" {
          RefusesInput(t1, Request, ok);
        } else if m == "ACK" {
          RefusesInput(t1.(lastAck := Some(id)), Ack, ok);
        } else if m == "CANCEL" {
          RefusesInput(t1.(lastCancel := Some(id)), Cancel, ok);
        }
      case Offer(r, ok) =>
        RefusesSend(t, r, ok);
      case Fires(n, ok) =>
        match n {
          case G => RefusesInput(t.(timerG := t.timerG.Fired()), TimerG, ok);
          case H => RefusesInput(t.(timerH := t.timerH.Fired()), TimerH, ok);
          case I => RefusesInput(t.(timerI := t.timerI.Fired()), TimerI, ok);
          case J =>
          case OneXX => RefusesSend(t.(timer1xx := t.timer1xx.Fired()), TRYING_100, ok);
        }
    }
  }

  lemma RefusesInput(t: Tx, i: Input, ok: bool)
    requires t.table.InviteTable? && Rank(i) == 2 && t.state != Trying
    ensures Spin(t, i, ok).out.unhandled != t.out.unhandled <==>
            InviteRow(t.state, i).None? || (t.state == Proceeding && i == User2xx && !ok && t.lastResp.Some?)
  {
    hide Settled, Act, NonInviteRow, Spin, Cascade;
    SpinSettles(t, i, ok);
    Closes(t, i, ok);
  }

  lemma RefusesSend(t: Tx, r: Response, ok: bool)
    requires t.table.InviteTable? && t.state != Trying
    ensures SendResponse(t, r, ok).out.unhandled != t.out.unhandled <==>
            t.state == Proceeding && !r.cancel && r.Success() && !ok
  {
    hide Spin, Settled;
    if !r.cancel {
      var t1 := t.(lastResp := Some(r), timer1xx := t.timer1xx.Stopped(), out := t.out.(offered := t.out.offered + [r]));
      RefusesInput(t1, UserInput(r), ok);
    }
  }

  // ---- a response offered after the final one

  /** Behind a 486, a 180 is stored and nothing else happens, in either table. */
  lemma LateOfferStored(t: Tx, r: Response)
    requires t.state == Completed && !r.cancel
    ensures Next(t, Offer(r, true)) ==
            t.(lastResp := Some(r), timer1xx := t.timer1xx.Stopped(), out := t.out.(offered := t.out.offered + [r]))
  {
    hide Spin, Cascade;
    var t1 := t.(lastResp := Some(r), timer1xx := t.timer1xx.Stopped(),
                 out := t.out.(offered := t.out.offered + [r]));
    SpinSettles(t1, UserInput(r), true);
    OnlyMoves(t1, UserInput(r), Completed, true);
  }

  const REFUSAL := Response(486, false, 1)
  const RINGING := Response(180, false, 2)

  /** The transaction after a 486: Completed, with the timers of its table. */
  lemma AfterRefusal(requestMethod: string) returns (t: Tx)
    ensures t == Next(Fresh(requestMethod, false, 0), Offer(REFUSAL, true))
    ensures t.state == Completed && t.requestMethod == requestMethod && t.out.offered == [REFUSAL] && t.now == 0
    ensures t.table == TableFor(requestMethod) && t.timerI == OFF && t.timer1xx == OFF
    ensures t.table.InviteTable? ==> t.timerG == Start(0, TIME_G) && t.timerH == Start(0, TIME_H) && t.timerJ == OFF
  {
    hide Spin, Cascade;
    var t0 := Fresh(requestMethod, false, 0);
    t := Next(t0, Offer(REFUSAL, true));
    var t1 := t0.(lastResp := Some(REFUSAL), timer1xx := OFF, out := t0.out.(offered := [REFUSAL]));
    assert [] + [REFUSAL] == [REFUSAL];
    SpinSettles(t1, User300Plus, true);
  }

  lemma RingingIsStale(t: Tx)
    requires t.out.offered == [REFUSAL, RINGING]
    ensures LastIsStale(t)
  {
    OfferedSnoc([], REFUSAL);
    OfferedSnoc([REFUSAL], RINGING);
    assert [] + [REFUSAL] == [REFUSAL] && [REFUSAL] + [RINGING] == [REFUSAL, RINGING];
  }

  /** The transaction after a 486 and a 180: still Completed, with the 180 as its last response. */
  lemma AfterRinging(requestMethod: string) returns (t: Tx)
    ensures t == Next(Next(Fresh(requestMethod, false, 0), Offer(REFUSAL, true)), Offer(RINGING, true))
    ensures t.state == Completed && t.requestMethod == requestMethod && LastIsStale(t) && t.now == 0
    ensures t.table == TableFor(requestMethod) && t.timerI == OFF && t.timer1xx == OFF
    ensures t.table.InviteTable? ==> t.timerG == Start(0, TIME_G) && t.timerH == Start(0, TIME_H) && t.timerJ == OFF
  {
    var t1 := AfterRefusal(requestMethod);
    LateOfferStored(t1, RINGING);
    hide Next, LastIsStale;
    t := Next(t1, Offer(RINGING, true));
    assert [REFUSAL] + [RINGING] == [REFUSAL, RINGING];
    RingingIsStale(t);
  }

  /** One more step in front of a run. */
  lemma Preceded(t: Tx, s: Step, run: seq<Step>)
    ensures Enabled(t, s) && Legal(Next(t, s), run) ==> Legal(t, [s] + run)
    ensures StaleResend(t, s) || ResendsStale(Next(t, s), run) ==> ResendsStale(t, [s] + run)
  {
    hide Next, Enabled, StaleResend;
    assert ([s] + run)[1..] == run;
  }

  /** The 486 and the 180 in front of a run. */
  lemma RefusedThenRinging(requestMethod: string, t: Tx, run: seq<Step>)
    requires t == Next(Next(Fresh(requestMethod, false, 0), Offer(REFUSAL, true)), Offer(RINGING, true))
    requires Legal(t, run) && ResendsStale(t, run)
    ensures var all := [Offer(REFUSAL, true)] + ([Offer(RINGING, true)] + run);
            var t0 := Fresh(requestMethod, false, 0);
            Legal(t0, all) && !ProvisionalsThenCopies(After(t0, all).out.wire)
  {
    hide Next, Fresh, StaleResend, ProvisionalsThenCopies;
    var t0 := Fresh(requestMethod, false, 0);
    var t1 := Next(t0, Offer(REFUSAL, true));
    Preceded(t1, Offer(RINGING, true), run);
    Preceded(t0, Offer(REFUSAL, true), [Offer(RINGING, true)] + run);
    WireTraceExactly(requestMethod, false, 0, [Offer(REFUSAL, true)] + ([Offer(RINGING, true)] + run));
  }

  /** A user that sends 180 after its 486 makes either table answer the next request with the 180. */
  lemma LateProvisionalIsSent(requestMethod: string)
    ensures var run := [Offer(REFUSAL, true), Offer(RINGING, true), Recv(requestMethod, 0, true)];
            var t := After(Fresh(requestMethod, false, 0), run);
            Legal(Fresh(requestMethod, false, 0), run) && !ProvisionalsThenCopies(t.out.wire)
  {
    hide Next, Fresh, LastIsStale, ProvisionalsThenCopies;
    var t := AfterRinging(requestMethod);
    var s := Recv(requestMethod, 0, true);
    Preceded(t, s, []);
    assert [s] + [] == [s];
    RefusedThenRinging(requestMethod, t, [s]);
    assert [Offer(REFUSAL, true)] + ([Offer(RINGING, true)] + [s]) == [Offer(REFUSAL, true), Offer(RINGING, true), s];
  }

  /** In an INVITE transaction timer G sends the late 180 by itself, 500 ms after the 486. */
  lemma LateProvisionalByTimer()
    ensures var run := [Offer(REFUSAL, true), Offer(RINGING, true), Wait(TIME_G), Fires(G, true)];
            var t := After(Fresh("INVITE", false, 0), run);
            Legal(Fresh("INVITE", false, 0), run) && !ProvisionalsThenCopies(t.out.wire)
  {
    hide Fresh, ProvisionalsThenCopies, Spin;
    var t := AfterRinging("INVITE");
    var (c, d) := (Wait(TIME_G), Fires(G, true));
    var u := Next(t, c);
    assert LastIsStale(u);
    hide Next, LastIsStale;
    Preceded(u, d, []);
    assert [d] + [] == [d];
    Preceded(t, c, [d]);
    RefusedThenRinging("INVITE", t, [c] + [d]);
    assert [Offer(REFUSAL, true)] + ([Offer(RINGING, true)] + ([c] + [d]))
        == [Offer(REFUSAL, true), Offer(RINGING, true), c, d];
  }

  // ---- at most one ACK goes up

  predicate NoAck(ups: seq<Up>) {
    forall i :: 0 <= i < |ups| ==> !ups[i].AckUp?
  }

  predicate AtMostOneAck(ups: seq<Up>) {
    forall i, j :: 0 <= i < j < |ups| ==> !(ups[i].AckUp? && ups[j].AckUp?)
  }

  predicate AckInv(t: Tx) {
    AtMostOneAck(t.out.ups) && (t.state in {Proceeding, Completed} ==> NoAck(t.out.ups))
  }

  lemma ActKeepsUps(t: Tx, i: Input, a: Action, ok: bool)
    requires !PassesUp(a)
    ensures Act(t, i, a, ok).0.out.ups == t.out.ups
  {
  }

  lemma FailedKeepsUps(t: Tx)
    ensures Failed(t).out.ups == t.out.ups
  {
  }

  lemma InputKeepsUps(t: Tx, i: Input, ok: bool)
    requires Rank(i) == 2 && i != Ack && i != Cancel
    ensures Settled(t, i, ok).out.ups == t.out.ups
  {
    hide InviteRow, NonInviteRow, Row, Act, Failed;
    match Row(t, i) {
      case None =>
      case Some(To(s, a)) =>
        ActKeepsUps(t, i, a, ok);
        FailedKeepsUps(Act(t, i, a, ok).0.(state := s));
    }
  }

  lemma AckInput(t: Tx, i: Input, ok: bool)
    requires t.table.InviteTable? && t.state != Trying && AckInv(t) && Rank(i) == 2 && i != Ack && i != Cancel
    ensures AckInv(Spin(t, i, ok))
  {
    hide Settled, Spin, Act;
    SpinSettles(t, i, ok);
    InputKeepsUps(t, i, ok);
    InviteMoves(t, i, ok);
  }

  lemma AckSend(t: Tx, r: Response, ok: bool)
    requires t.table.InviteTable? && t.state != Trying && AckInv(t)
    ensures AckInv(SendResponse(t, r, ok))
  {
    hide Spin;
    if !r.cancel {
      AckInput(t.(lastResp := Some(r), timer1xx := t.timer1xx.Stopped(), out := t.out.(offered := t.out.offered + [r])),
               UserInput(r), ok);
    }
  }

  lemma InviteShape(t: Tx, start: nat)
    requires InviteInv(t, start)
    ensures t.table.InviteTable? && t.state != Trying
  {
  }

  lemma AckStep(t: Tx, start: nat, s: Step)
    requires InviteInv(t, start) && t.requestMethod == "INVITE" && AckInv(t)
    ensures AckInv(Next(t, s))
  {
    hide Spin, Settled, InviteInv;
    InviteShape(t, start);
    match s {
      case Wait(_) =>
      case Recv(m, id, ok) =>
        if m == "INVITE" {
          AckInput(t.(timer1xx := t.timer1xx.Stopped()), Request, ok);
        } else if m == "ACK" {
          AckPassedUp(t, start, id, ok);
        } else if m == "CANCEL" {
          CancelAnswered(t, start, id, ok);
        }
      case Offer(r, ok) => AckSend(t, r, ok);
      case Fires(n, ok) =>
        match n {
          case G => AckInput(t.(timerG := t.timerG.Fired()), TimerG, ok);
          case H => AckInput(t.(timerH := t.timerH.Fired()), TimerH, ok);
          case I => AckInput(t.(timerI := t.timerI.Fired()), TimerI, ok);
          case J => AckInput(t.(timerJ := t.timerJ.Fired()), TimerJ, ok);
          case OneXX => AckSend(t.(timer1xx := t.timer1xx.Fired()), TRYING_100, ok);
        }
    }
  }

  lemma {:induction false} AckRun(t: Tx, start: nat, run: seq<Step>)
    requires InviteInv(t, start) && t.requestMethod == "INVITE" && AckInv(t) && Legal(t, run)
    ensures AckInv(After(t, run))
    decreases |run|
  {
    hide Next, InviteInv, AckInv, Enabled;
    if run != [] {
      InviteStep(t, start, run[0]);
      AckStep(t, start, run[0]);
      SameTable(t, [run[0]]);
      assert After(t, [run[0]]) == Next(t, run[0]);
      AckRun(Next(t, run[0]), start, run[1..]);
    }
  }

  /** In every run at most one ACK is handed to the user through the transaction. */
  lemma OneAckPassedUp(reliable: bool, start: nat, run: seq<Step>)
    requires Legal(Fresh("INVITE", reliable, start), run)
    ensures AtMostOneAck(After(Fresh("INVITE", reliable, start), run).out.ups)
  {
    InviteStarts(reliable, start);
    AckRun(Fresh("INVITE", reliable, start), start, run);
  }
}
