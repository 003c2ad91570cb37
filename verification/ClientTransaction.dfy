/** The client transaction as the object that the layer holds. */
module ClientTransaction {
  import opened Wrappers
  import opened Timing
  import opened Responses
  import opened Tables
  import opened ClientSteps

  class ClientTx {
    const reliable: bool
    const table: Table
    var state: State
    var now: nat
    var lastResp: Option<Response>
    var aTime: nat
    var timerA: Timer
    var timerB: Timer
    var dTime: nat
    var timerD: Timer
    var done: bool
    var out: History

    ghost function View(): Tx
      reads this
    {
      Tx(table, reliable, state, now, lastResp, aTime, timerA, timerB, dTime, timerD, done, out)
    }

    constructor (requestMethod: string, reliable: bool, now: nat)
      ensures View() == New(requestMethod, reliable, now)
    {
      table := TableFor(requestMethod);
      this.reliable, this.now := reliable, now;
      state, lastResp := Calling, None;
      aTime, dTime := 0, 0;
      timerA, timerB, timerD := OFF, OFF, OFF;
      done, out := false, NOTHING;
    }

    method Init(ok: bool) returns (sent: bool)
      modifies this
      ensures View() == ClientSteps.Init(old(View()), ok)
      ensures sent == ok
    {
      out := out.(sends := out.sends + [Sent(now, ok)]);
      if !ok {
        Spin(TransportErr, ok);
        return false;
      }
      if reliable {
        dTime := 0;
      } else {
        if table.InviteTable? {
          aTime := TIME_A;
          dTime := TIME_D;
        } else {
          aTime := TIME_E;
          dTime := TIME_K;
        }
        timerA := Start(now, aTime);
      }
      timerB := Start(now, TIME_B);
      sent := true;
    }

    method Receive(res: Response, ok: bool)
      modifies this
      ensures View() == ClientSteps.Receive(old(View()), res, ok)
    {
      lastResp := Some(res);
      Spin(InputOf(res), ok);
    }

    method FireTimer(n: TimerName, ok: bool)
      modifies this
      ensures View() == Fire(old(View()), n, ok)
    {
      match n {
        case A => timerA := timerA.Fired(); Spin(TimerA, ok);
        case B => timerB := timerB.Fired(); Spin(TimerB, ok);
        case D => timerD := timerD.Fired(); Spin(TimerD, ok);
      }
    }

    method Spin(input: Input, ok: bool)
      modifies this
      ensures View() == ClientSteps.Spin(old(View()), input, ok)
    {
      ghost var end := ClientSteps.Spin(View(), input, ok);
      var next := Some(input);
      while next.Some?
        invariant end == if next.Some? then ClientSteps.Spin(View(), next.value, ok) else View()
        decreases next.Some?, if next.Some? then Rank(next.value) else 0
      {
        next := Turn(next.value, ok);
      }
    }

    /** Looks up the current row, runs its action, takes its state and returns the input to look up next. */
    method Turn(i: Input, ok: bool) returns (next: Option<Input>)
      modifies this
      ensures next.Some? ==> Rank(next.value) < Rank(i)
      ensures ClientSteps.Spin(old(View()), i, ok)
              == if next.Some? then ClientSteps.Spin(View(), next.value, ok) else View()
    {
      hide InviteRow, NonInviteRow, Act;
      var row := if table.InviteTable? then InviteRow(state, i) else NonInviteRow(state, i);
      if row.None? {
        out := out.(unhandled := out.unhandled + [(state, i)]);
        return None;
      }
      next := Perform(row.value.action, ok);
      state := row.value.state;
    }

    /** Runs one action and returns the input that it asks for next. */
    method Perform(a: Action, ok: bool) returns (next: Option<Input>)
      modifies this
      ensures (View(), next) == Act(old(View()), a, ok)
    {
      next := None;
      match a {
        case NoAction =>
        case PassUp =>
          Deliver();
          timerA := timerA.Stopped();
        case PassUpDelete =>
          Deliver();
          timerA := timerA.(isSet := false);
          next := Some(Delete);
        case InviteFinal =>
          Deliver();
          next := SendAckRequest(ok);
          Linger();
        case NonInviteFinal =>
          Deliver();
          Linger();
        case InviteResend =>
          next := Resend(aTime * 2, ok);
        case NonInviteResend =>
          var wait := aTime * 2;
          if wait > T2 {
            wait := T2;
          }
          next := Resend(wait, ok);
        case SendAck =>
          next := SendAckRequest(ok);
        case TransErr =>
          if !done && lastResp.Some? {
            out := out.(transportErrors := out.transportErrors + 1);
          }
          timerA := timerA.Stopped();
          next := Some(Delete);
        case Timeout =>
          if !done {
            out := out.(timeouts := out.timeouts + 1);
          }
          timerA := timerA.Stopped();
          next := Some(Delete);
        case DeleteTx =>
          CloseAll();
      }
    }

    /** passUp */
    method Deliver()
      modifies this`out
      ensures View() == PassedUp(old(View()))
    {
      if lastResp.Some? {
        if done {
          out := out.(panics := out.panics + 1);
        } else {
          out := out.(ups := out.ups + [lastResp.value]);
        }
      }
    }

    /** ack */
    method SendAckRequest(ok: bool) returns (next: Option<Input>)
      modifies this`out
      ensures View() == Acknowledged(old(View()), ok)
      ensures next == if ok then None else Some(TransportErr)
    {
      if lastResp.None? {
        out := out.(panics := out.panics + 1);
      } else {
        out := out.(acks := out.acks + [Acked(lastResp.value, ok)]);
      }
      next := if ok then None else Some(TransportErr);
    }

    method Linger()
      modifies this
      ensures View() == Lingering(old(View()))
    {
      timerA := timerA.Stopped();
      timerD := timerD.Stopped();
      timerD := Start(now, dTime);
    }

    method Resend(wait: nat, ok: bool) returns (next: Option<Input>)
      modifies this
      ensures View() == Resent(old(View()), wait, ok)
      ensures next == if ok then None else Some(TransportErr)
    {
      aTime := wait;
      if timerA.isSet {
        timerA := Start(now, wait);
        out := out.(sends := out.sends + [Sent(now, ok)]);
      } else {
        out := out.(panics := out.panics + 1);
      }
      next := if ok then None else Some(TransportErr);
    }

    /** delete */
    method CloseAll()
      modifies this
      ensures View() == Deleted(old(View()))
    {
      if done {
        return;
      }
      timerA := timerA.Stopped();
      timerB := timerB.Stopped();
      timerD := timerD.Stopped();
      done := true;
    }
  }
}
