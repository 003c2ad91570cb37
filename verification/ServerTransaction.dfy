/** The server transaction as the object that the layer holds. */
module ServerTransaction {
  import opened Wrappers
  import opened Timing
  import opened Responses
  import opened Tables
  import opened ServerSteps

  class ServerTx {
    const requestMethod: string
    const reliable: bool
    const table: Table
    var state: State
    var now: nat
    var lastResp: Option<Response>
    var lastAck: Option<nat>
    var lastCancel: Option<nat>
    var timerG: Timer
    var gTime: nat
    var timerH: Timer
    var timerI: Timer
    var timerJ: Timer
    var timer1xx: Timer
    var done: bool
    var out: History

    ghost function View(): Tx
      reads this
    {
      Tx(requestMethod, reliable, table, state, now, lastResp, lastAck, lastCancel,
         timerG, gTime, timerH, timerI, timerJ, timer1xx, done, out)
    }

    constructor (requestMethod: string, reliable: bool, now: nat)
      ensures View() == Fresh(requestMethod, reliable, now)
    {
      this.requestMethod, this.reliable, this.now := requestMethod, reliable, now;
      table := TableFor(requestMethod);
      state := InitialState(TableFor(requestMethod));
      lastResp, lastAck, lastCancel := None, None, None;
      timerG, timerH, timerI, timerJ := OFF, OFF, OFF, OFF;
      gTime := if reliable then 0 else TIME_G;
      timer1xx := if TableFor(requestMethod).InviteTable? then Start(now, TIME_1XX) else OFF;
      done, out := false, NOTHING;
    }

    method Receive(requestMethod: string, id: nat, ok: bool) returns (accepted: bool)
      modifies this
      ensures View() == ServerSteps.Receive(old(View()), requestMethod, id, ok)
      ensures accepted == Accepts(old(View()), requestMethod)
    {
      timer1xx := timer1xx.Stopped();
      var input: Input;
      if requestMethod == this.requestMethod {
        input := Request;
      } else if requestMethod == "ACK" {
        input := Ack;
        lastAck := Some(id);
      } else if requestMethod == "CANCEL" {
        input := Cancel;
        lastCancel := Some(id);
      } else {
        return false;
      }
      accepted := true;
      Spin(input, ok);
    }

    method SendResponse(res: Response, ok: bool)
      modifies this
      ensures View() == ServerSteps.SendResponse(old(View()), res, ok)
    {
      if res.cancel {
        out := out.(forwarded := out.forwarded + [res]);
        return;
      }
      lastResp := Some(res);
      out := out.(offered := out.offered + [res]);
      timer1xx := timer1xx.Stopped();
      Spin(UserInput(res), ok);
    }

    method FireTimer(n: TimerName, ok: bool)
      modifies this
      ensures View() == Fire(old(View()), n, ok)
    {
      match n {
        case G => timerG := timerG.Fired(); Spin(TimerG, ok);
        case H => timerH := timerH.Fired(); Spin(TimerH, ok);
        case I => timerI := timerI.Fired(); Spin(TimerI, ok);
        case J => timerJ := timerJ.Fired(); Spin(TimerJ, ok);
        case OneXX => timer1xx := timer1xx.Fired(); SendResponse(TRYING_100, ok);
      }
    }

    method Spin(input: Input, ok: bool)
      modifies this
      ensures View() == ServerSteps.Spin(old(View()), input, ok)
    {
      ghost var end := ServerSteps.Spin(View(), input, ok);
      var next := Some(input);
      while next.Some?
        invariant end == if next.Some? then ServerSteps.Spin(View(), next.value, ok) else View()
        decreases next.Some?, if next.Some? then Rank(next.value) else 0
      {
        next := Turn(next.value, ok);
      }
    }

    /** Looks up the current row, runs its action, takes its state and returns the input to look up next. */
    method Turn(i: Input, ok: bool) returns (next: Option<Input>)
      modifies this
      ensures next.Some? ==> Rank(next.value) < Rank(i)
      ensures ServerSteps.Spin(old(View()), i, ok)
              == if next.Some? then ServerSteps.Spin(View(), next.value, ok) else View()
    {
      hide InviteRow, NonInviteRow, Act;
      var row := if table.InviteTable? then InviteRow(state, i) else NonInviteRow(state, i);
      if row.None? {
        out := out.Refused(state, i);
        return None;
      }
      next := Perform(row.value.action, i, ok);
      state := row.value.state;
    }

    /** Runs one action and returns the input that it asks for next. */
    method Perform(a: Action, i: Input, ok: bool) returns (next: Option<Input>)
      modifies this
      ensures (View(), next) == Act(old(View()), i, a, ok)
    {
      hide Deleted, RespondCompleted, Confirming, CancelAccepted, CancelRefused;
      next := None;
      match a {
        case NoAction =>
        case TransErr =>
          ReportError();
          next := Some(Delete);
        case DeleteTx =>
          CloseAll();
        case Confirm =>
          ActionConfirm();
        case CancelOk =>
          ActionCancel();
        case CancelNotExist =>
          ActionCancelNotExist();
        case _ =>
          next := PerformSend(a, i, ok);
      }
    }

    method ReportError()
      modifies this`out
      ensures View() == if old(done) then old(View()) else old(View()).(out := old(out).(errors := old(out).errors + 1))
    {
      if !done {
        out := out.(errors := out.errors + 1);
      }
    }

    method ActionCancelNotExist()
      modifies this`out
      ensures View() == CancelRefused(old(View()))
    {
      if lastCancel.Some? {
        out := out.Answered(Answer(lastCancel.value, 481));
      }
    }

    /** The four actions that send the last response. */
    method PerformSend(a: Action, i: Input, ok: bool) returns (next: Option<Input>)
      requires Sends(a)
      modifies this
      ensures (View(), next) == Act(old(View()), i, a, ok)
    {
      hide Deleted, RespondCompleted, Confirming, CancelAccepted, CancelRefused;
      match a {
        case Respond =>
          next := Send(i, ok);
        case RespondComplete =>
          next := Send(i, ok);
          if next.None? && lastResp.Some? {
            StartRetransmission();
          }
        case RespondDelete =>
          CloseAll();
          next := Send(i, ok);
        case Final =>
          next := Send(i, ok);
          if next.None? && lastResp.Some? {
            timerJ := Start(now, TIME_J);
          }
      }
    }

    method ActionConfirm()
      modifies this
      ensures View() == Confirming(old(View()))
    {
      timerG := timerG.Stopped();
      timerH := timerH.Stopped();
      timerI := Start(now, TIME_I);
      if lastAck.Some? && !done {
        out := out.(ups := out.ups + [AckUp(lastAck.value)]);
      }
    }

    method ActionCancel()
      modifies this`out
      ensures View() == CancelAccepted(old(View()))
    {
      if lastCancel.Some? {
        out := out.Answered(Answer(lastCancel.value, 200));
        if !done {
          out := out.(ups := out.ups + [CancelUp(lastCancel.value)]);
        }
      }
    }

    /** Hands the last response to the transport. */
    method Send(i: Input, ok: bool) returns (next: Option<Input>)
      modifies this`out
      ensures old(lastResp).None? ==> next == None && out == old(out)
      ensures old(lastResp).Some? ==>
                out == old(out).Sent(Attempt(now, i, lastResp.value, ok)) &&
                next == if ok then None else Some(TransportErr)
    {
      if lastResp.None? {
        return None;
      }
      out := out.Sent(Attempt(now, i, lastResp.value, ok));
      next := if ok then None else Some(TransportErr);
    }

    /** Starts or restarts timer G and starts timer H the first time. */
    method StartRetransmission()
      modifies this
      ensures View() == RespondCompleted(old(View()))
    {
      if !reliable {
        if !timerG.isSet {
          timerG := Start(now, gTime);
        } else {
          gTime := gTime * 2;
          if gTime > T2 {
            gTime := T2;
          }
          timerG := Start(now, gTime);
        }
      }
      if !timerH.isSet {
        timerH := Start(now, TIME_H);
      }
    }

    /** delete */
    method CloseAll()
      modifies this
      ensures View() == Deleted(old(View()))
    {
      if done {
        return;
      }
      timerI := timerI.Stopped();
      timerG := timerG.Stopped();
      timerH := timerH.Stopped();
      timerJ := timerJ.Stopped();
      timer1xx := timer1xx.Stopped();
      done := true;
    }
  }
}
