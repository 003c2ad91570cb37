/** What every run of a non-INVITE server transaction keeps. */
module ServerNonInvite {
  import opened Wrappers
  import opened Timing
  import opened Responses
  import opened Tables
  import opened ServerSteps
  import opened ServerRuns
  import ServerTheorems

  predicate OtherTimersOff(t: Tx) {
    t.timerG == OFF && t.timerH == OFF && t.timerI == OFF && t.timer1xx == OFF
  }

  /** The states and timer J; a matched CANCEL leads to Confirmed, which the table does not define. */
  predicate NonInviteInv(t: Tx) {
    && t.table.NonInviteTable? && OtherTimersOff(t)
    && match t.state
       case Trying => !t.done && t.timerJ == OFF && t.lastResp.None? && FirstFinal(t.out.wire).None?
       case Proceeding =>
         && !t.done && t.timerJ == OFF && FirstFinal(t.out.wire).None?
         && t.lastResp.Some? && t.lastResp.value.Provisional()
       case Completed =>
         && !t.done && t.lastResp.Some? && FirstFinal(t.out.wire).Some?
         && t.timerJ.Armed(FirstFinal(t.out.wire).value + TIME_J)
         && t.now <= FirstFinal(t.out.wire).value + TIME_J
       case Confirmed => true
       case Terminated => t.done && t.timerJ == OFF
  }

  /** The methods for which the layer creates a non-INVITE server transaction. */
  predicate Ordinary(requestMethod: string) {
    requestMethod != "INVITE" && requestMethod != "ACK" && requestMethod != "CANCEL"
  }

  predicate IsCancel(s: Step) {
    s.Recv? && s.requestMethod == "CANCEL"
  }

  lemma RecvSettles(t: Tx, i: Input, ok: bool)
    requires NonInviteInv(t) && t.state != Confirmed && i in {Request, Ack, Cancel}
    ensures NonInviteInv(Settled(t, i, ok))
    ensures Settled(t, i, ok).state == Confirmed <==> i == Cancel
  {
    hide InviteRow, FirstFinal, Resends, Settled, NonInviteRow;
    if i == Request && t.state in {Proceeding, Completed} {
      Snoc(t.out.wire, Attempt(t.now, i, t.lastResp.value, ok));
      RequestForm(t, ok);
    } else {
      QuietRecv(t, i, ok);
    }
  }

  lemma RequestForm(t: Tx, ok: bool)
    requires t.table.NonInviteTable? && t.state in {Proceeding, Completed} && t.lastResp.Some?
    ensures var t1 := Attempted(t, Request, ok);
            Settled(t, Request, ok) == if ok then t1 else Failed(t1)
  {
    hide InviteRow, Deleted;
  }

  lemma QuietRecv(t: Tx, i: Input, ok: bool)
    requires t.table.NonInviteTable? && t.state != Confirmed && i in {Request, Ack, Cancel}
    requires i == Request ==> t.state in {Trying, Terminated}
    ensures Settled(t, i, ok) ==
            match i
            case Ack => t.(out := t.out.Refused(t.state, Ack))
            case Cancel => t.(state := Confirmed)
            case _ => t
  {
    hide InviteRow, Deleted;
  }

  lemma TimerSettles(t: Tx, ok: bool)
    requires NonInviteInv(t) && t.state == Completed
    ensures NonInviteInv(Settled(t.(timerJ := t.timerJ.Fired()), TimerJ, ok))
    ensures Settled(t.(timerJ := t.timerJ.Fired()), TimerJ, ok).state == Terminated
  {
    hide InviteRow, FirstFinal, Resends;
  }

  lemma OfferSettles(t: Tx, r: Response, ok: bool)
    requires NonInviteInv(t) && t.state != Confirmed
    ensures var u := Settled(t.(lastResp := Some(r), out := t.out.(offered := t.out.offered + [r])), UserInput(r), ok);
            NonInviteInv(u) && u.state != Confirmed
  {
    hide InviteRow, FirstFinal, Resends, NonInviteRow, Settled;
    var t1 := t.(lastResp := Some(r), out := t.out.(offered := t.out.offered + [r]));
    if t.state in {Completed, Terminated} {
      SettledQuietly(t1, UserInput(r), ok);
    } else {
      Snoc(t.out.wire, Attempt(t.now, UserInput(r), r, ok));
      SettledSending(t1, UserInput(r), ok);
    }
  }

  lemma SettledQuietly(t: Tx, i: Input, ok: bool)
    requires t.table.NonInviteTable? && t.state in {Completed, Terminated} && i in {User1xx, User2xx, User300Plus}
    ensures Settled(t, i, ok) == t
  {
    hide InviteRow, Deleted;
  }

  lemma SettledSending(t: Tx, i: Input, ok: bool)
    requires t.table.NonInviteTable? && t.state in {Trying, Proceeding} && i in {User1xx, User2xx, User300Plus}
    requires t.lastResp.Some?
    ensures var t1 := Attempted(t, i, ok).(state := if i == User1xx then Proceeding else Completed);
            Settled(t, i, ok) ==
            if !ok then Failed(t1) else if i == User1xx then t1 else t1.(timerJ := Start(t.now, TIME_J))
  {
    hide InviteRow, Deleted, FirstFinal;
  }

  lemma NonInviteRecv(t: Tx, m: string, id: nat, ok: bool)
    requires NonInviteInv(t) && t.state != Confirmed && Ordinary(t.requestMethod)
    ensures NonInviteInv(Receive(t, m, id, ok))
    ensures Receive(t, m, id, ok).state == Confirmed <==> m == "CANCEL"
  {
    hide Spin, Settled, FirstFinal, Row, Act;
    assert t.(timer1xx := t.timer1xx.Stopped()) == t;
    if m == t.requestMethod {
      SpinSettles(t, Request, ok);
      RecvSettles(t, Request, ok);
    } else if m == "ACK" {
      SpinSettles(t.(lastAck := Some(id)), Ack, ok);
      RecvSettles(t.(lastAck := Some(id)), Ack, ok);
    } else if m == "CANCEL" {
      SpinSettles(t.(lastCancel := Some(id)), Cancel, ok);
      RecvSettles(t.(lastCancel := Some(id)), Cancel, ok);
    }
  }

  lemma NonInviteStep(t: Tx, s: Step)
    requires NonInviteInv(t) && t.state != Confirmed && Ordinary(t.requestMethod) && Enabled(t, s)
    ensures NonInviteInv(Next(t, s))
    ensures Next(t, s).state == Confirmed <==> IsCancel(s)
  {
    hide Spin, Settled, FirstFinal, Row, Act, Receive;
    match s {
      case Wait(_) =>
      case Recv(m, id, ok) => NonInviteRecv(t, m, id, ok);
      case Offer(r, ok) =>
        if !r.cancel {
          SpinSettles(t.(lastResp := Some(r), out := t.out.(offered := t.out.offered + [r])), UserInput(r), ok);
          OfferSettles(t, r, ok);
        }
      case Fires(n, ok) =>
        SpinSettles(t.(timerJ := t.timerJ.Fired()), TimerJ, ok);
        TimerSettles(t, ok);
    }
  }

  /** In Confirmed no input finds a row: nothing is sent, answered, passed up or closed any more. */
  predicate Stuck(t: Tx, u: Tx) {
    && u.state == Confirmed && u.table.NonInviteTable? && u.done == t.done
    && u.out.wire == t.out.wire && u.out.answers == t.out.answers
    && u.out.ups == t.out.ups && u.out.errors == t.out.errors
  }

  lemma StuckStep(t: Tx, s: Step)
    requires t.table.NonInviteTable? && t.state == Confirmed
    ensures Stuck(t, Next(t, s))
  {
    hide InviteRow, NonInviteRow, Row, Act, Spin;
    match s {
      case Wait(_) =>
      case Recv(m, id, ok) =>
        StuckSpin(t.(timer1xx := t.timer1xx.Stopped()), Request, ok);
        StuckSpin(t.(timer1xx := t.timer1xx.Stopped(), lastAck := Some(id)), Ack, ok);
        StuckSpin(t.(timer1xx := t.timer1xx.Stopped(), lastCancel := Some(id)), Cancel, ok);
      case Offer(r, ok) => StuckSend(t, r, ok);
      case Fires(n, ok) =>
        match n {
          case G => StuckSpin(t.(timerG := t.timerG.Fired()), TimerG, ok);
          case H => StuckSpin(t.(timerH := t.timerH.Fired()), TimerH, ok);
          case I => StuckSpin(t.(timerI := t.timerI.Fired()), TimerI, ok);
          case J => StuckSpin(t.(timerJ := t.timerJ.Fired()), TimerJ, ok);
          case OneXX => StuckSend(t.(timer1xx := t.timer1xx.Fired()), TRYING_100, ok);
        }
    }
  }

  lemma StuckSend(t: Tx, r: Response, ok: bool)
    requires t.table.NonInviteTable? && t.state == Confirmed
    ensures Stuck(t, SendResponse(t, r, ok))
  {
    StuckSpin(t.(lastResp := Some(r), timer1xx := t.timer1xx.Stopped(), out := t.out.(offered := t.out.offered + [r])),
              UserInput(r), ok);
  }

  lemma StuckSpin(t: Tx, i: Input, ok: bool)
    requires t.table.NonInviteTable? && t.state == Confirmed
    ensures Spin(t, i, ok) == t.(out := t.out.Refused(Confirmed, i))
  {
    hide InviteRow;
  }

  lemma StuckRun(t: Tx, run: seq<Step>)
    requires t.table.NonInviteTable? && t.state == Confirmed
    ensures Stuck(t, After(t, run))
    decreases |run|
  {
    hide Next;
    if run != [] {
      StuckStep(t, run[0]);
      StuckRun(Next(t, run[0]), run[1..]);
    }
  }

  predicate HasCancel(run: seq<Step>) {
    exists i :: 0 <= i < |run| && IsCancel(run[i])
  }

  lemma NonInviteRun(t: Tx, run: seq<Step>)
    requires NonInviteInv(t) && t.state != Confirmed && Ordinary(t.requestMethod) && Legal(t, run)
    ensures After(t, run).state == Confirmed <==> HasCancel(run)
    ensures !HasCancel(run) ==> NonInviteInv(After(t, run))
    decreases |run|
  {
    hide Next, NonInviteInv;
    if run != [] {
      NonInviteStep(t, run[0]);
      ServerTheorems.SameTable(t, [run[0]]);
      assert After(t, [run[0]]) == Next(t, run[0]);
      assert HasCancel(run) <==> IsCancel(run[0]) || HasCancel(run[1..]) by {
        if i :| 0 < i < |run| && IsCancel(run[i]) {
          assert run[1..][i - 1] == run[i];
        }
      }
      if IsCancel(run[0]) {
        TableOf(t);
        StuckRun(Next(t, run[0]), run[1..]);
      } else {
        NonInviteRun(Next(t, run[0]), run[1..]);
      }
    }
  }

  lemma TableOf(t: Tx)
    requires NonInviteInv(t)
    ensures t.table.NonInviteTable?
  {
  }

  /**
   * A non-INVITE transaction is in Confirmed, the state its table lacks, exactly when a CANCEL reached it. In
   * every other run it is Terminated exactly when its channels are closed, and while Completed it is at most
   * 64*T1 past its first final response.
   */
  lemma NonInviteLife(requestMethod: string, reliable: bool, start: nat, run: seq<Step>)
    requires Ordinary(requestMethod) && Legal(Fresh(requestMethod, reliable, start), run)
    ensures var t := After(Fresh(requestMethod, reliable, start), run);
            && (t.state == Confirmed <==> HasCancel(run))
            && (!HasCancel(run) ==>
                  && (t.state == Terminated <==> t.done)
                  && (t.state == Completed ==>
                        FirstFinal(t.out.wire).Some? && t.now <= FirstFinal(t.out.wire).value + TIME_J))
  {
    NonInviteRun(Fresh(requestMethod, reliable, start), run);
  }

  /** Once a CANCEL reached it, no continuation of the run sends, answers, reports or closes anything. */
  lemma CancelStrandsNonInvite(requestMethod: string, reliable: bool, start: nat, run: seq<Step>, more: seq<Step>)
    requires Ordinary(requestMethod) && Legal(Fresh(requestMethod, reliable, start), run) && HasCancel(run)
    ensures var t := After(Fresh(requestMethod, reliable, start), run);
            Stuck(t, After(t, more))
  {
    NonInviteRun(Fresh(requestMethod, reliable, start), run);
    ServerTheorems.SameTable(Fresh(requestMethod, reliable, start), run);
    StuckRun(After(Fresh(requestMethod, reliable, start), run), more);
  }
}
