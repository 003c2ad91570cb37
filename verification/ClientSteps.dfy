/**
 * The client transaction: its two transition tables, its actions and its timers, on values.
 * Every operation that may send takes `ok`, the outcome of the one transport send it can make.
 */
module ClientSteps {
  import opened Wrappers
  import opened Timing
  import opened Responses
  import opened Tables

  datatype State = Calling | Proceeding | Completed | Terminated

  datatype Input = Got1xx | Got2xx | Got300Plus | TimerA | TimerB | TimerD | TransportErr | Delete

  datatype Action =
    | NoAction | PassUp | PassUpDelete | InviteFinal | NonInviteFinal
    | InviteResend | NonInviteResend | SendAck | TransErr | Timeout | DeleteTx

  datatype Outcome = To(state: State, action: Action)

  /** One attempt to send the request, and one attempt to acknowledge a response. */
  datatype Sent = Sent(at: nat, ok: bool)
  datatype Acked = Acked(resp: Response, ok: bool)

  /**
   * What left the transaction, each kind in order: sends of the request, ACKs, responses passed up, errors
   * reported; then runtime panics (a Reset of a nil timer, a send on a closed channel) and inputs without a row.
   */
  datatype History = History(
    sends: seq<Sent>, acks: seq<Acked>, ups: seq<Response>, timeouts: nat, transportErrors: nat,
    panics: nat, unhandled: seq<(State, Input)>
  )

  datatype Tx = Tx(
    table: Table, reliable: bool,
    state: State, now: nat, lastResp: Option<Response>,
    aTime: nat, timerA: Timer, timerB: Timer, dTime: nat, timerD: Timer,
    done: bool, out: History
  )

  // ---- the tables

  function InviteRow(s: State, i: Input): (r: Option<Outcome>)
    ensures r.Some? ==> RowRanks(i, r.value.action)
  {
    match s
    case Calling =>
      (match i
       case Got1xx => Some(To(Proceeding, PassUp))
       case Got2xx => Some(To(Terminated, PassUpDelete))
       case Got300Plus => Some(To(Completed, InviteFinal))
       case TimerA => Some(To(Calling, InviteResend))
       case TimerB => Some(To(Terminated, Timeout))
       case TransportErr => Some(To(Terminated, TransErr))
       case _ => None)
    case Proceeding =>
      (match i
       case Got1xx => Some(To(Proceeding, PassUp))
       case Got2xx => Some(To(Terminated, PassUpDelete))
       case Got300Plus => Some(To(Completed, InviteFinal))
       case TimerA => Some(To(Proceeding, NoAction))
       case TimerB => Some(To(Proceeding, NoAction))
       case _ => None)
    case Completed =>
      (match i
       case Got1xx => Some(To(Completed, NoAction))
       case Got2xx => Some(To(Completed, NoAction))
       case Got300Plus => Some(To(Completed, SendAck))
       case TransportErr => Some(To(Terminated, TransErr))
       case TimerA => Some(To(Completed, NoAction))
       case TimerB => Some(To(Completed, NoAction))
       case TimerD => Some(To(Terminated, DeleteTx))
       case _ => None)
    case Terminated => TerminatedRow(i)
  }

  function NonInviteRow(s: State, i: Input): (r: Option<Outcome>)
    ensures r.Some? ==> RowRanks(i, r.value.action)
  {
    match s
    case Calling =>
      (match i
       case Got1xx => Some(To(Proceeding, PassUp))
       case Got2xx => Some(To(Completed, NonInviteFinal))
       case Got300Plus => Some(To(Completed, NonInviteFinal))
       case TimerA => Some(To(Calling, NonInviteResend))
       case TimerB => Some(To(Terminated, Timeout))
       case TransportErr => Some(To(Terminated, TransErr))
       case _ => None)
    case Proceeding =>
      (match i
       case Got1xx => Some(To(Proceeding, PassUp))
       case Got2xx => Some(To(Completed, NonInviteFinal))
       case Got300Plus => Some(To(Completed, NonInviteFinal))
       case TimerA => Some(To(Proceeding, NonInviteResend))
       case TimerB => Some(To(Terminated, Timeout))
       case TransportErr => Some(To(Terminated, TransErr))
       case _ => None)
    case Completed =>
      (match i
       case Got1xx => Some(To(Completed, NoAction))
       case Got2xx => Some(To(Completed, NoAction))
       case Got300Plus => Some(To(Completed, NoAction))
       case TimerA => Some(To(Completed, NoAction))
       case TimerB => Some(To(Completed, NoAction))
       case TimerD => Some(To(Terminated, DeleteTx))
       case _ => None)
    case Terminated => TerminatedRow(i)
  }

  /** The last row is the same in both tables. */
  function TerminatedRow(i: Input): Option<Outcome> {
    match i
    case Delete => Some(To(Terminated, DeleteTx))
    case TransportErr => None
    case _ => Some(To(Terminated, NoAction))
  }

  function Row(t: Tx, i: Input): (r: Option<Outcome>)
    ensures r.Some? ==> RowRanks(i, r.value.action)
  {
    if t.table.InviteTable? then InviteRow(t.state, i) else NonInviteRow(t.state, i)
  }

  function Rank(i: Input): nat {
    match i
    case TransportErr => 1
    case Delete => 0
    case _ => 2
  }

  predicate Sends(a: Action) {
    a == InviteFinal || a == InviteResend || a == NonInviteResend || a == SendAck
  }

  predicate Passes(a: Action) {
    a == PassUp || a == PassUpDelete || a == InviteFinal || a == NonInviteFinal
  }

  predicate Deletes(a: Action) {
    a == TransErr || a == Timeout || a == PassUpDelete
  }

  /**
   * Actions that pass up or acknowledge stand only in rows of responses, actions that send only in rows of
   * outside inputs, and actions that delete never in the row of Delete.
   */
  predicate RowRanks(i: Input, a: Action) {
    && (Passes(a) || a == SendAck ==> i == Got1xx || i == Got2xx || i == Got300Plus)
    && (Sends(a) ==> Rank(i) == 2)
    && (Deletes(a) ==> Rank(i) >= 1)
    && (a == TransErr ==> i == TransportErr)
  }

  // ---- the actions

  function PassedUp(t: Tx): Tx {
    if t.lastResp.None? then t
    else if t.done then t.(out := t.out.(panics := t.out.panics + 1))
    else t.(out := t.out.(ups := t.out.ups + [t.lastResp.value]))
  }

  function Acknowledged(t: Tx, ok: bool): Tx {
    if t.lastResp.None? then t.(out := t.out.(panics := t.out.panics + 1))
    else t.(out := t.out.(acks := t.out.acks + [Acked(t.lastResp.value, ok)]))
  }

  /** Starts timer D afresh and stops timer A. */
  function Lingering(t: Tx): Tx {
    t.(timerA := t.timerA.Stopped(), timerD := Start(t.now, t.dTime))
  }

  /** Timer A restarted with the wait `wait`, and the request sent again. */
  function Resent(t: Tx, wait: nat, ok: bool): Tx {
    if !t.timerA.isSet then t.(aTime := wait, out := t.out.(panics := t.out.panics + 1))
    else
      t.(aTime := wait, timerA := Start(t.now, wait), out := t.out.(sends := t.out.sends + [Sent(t.now, ok)]))
  }

  /** delete: stop every timer that the transaction still knows and close the channels, once. */
  function Deleted(t: Tx): Tx {
    if t.done then t
    else
      t.(timerA := t.timerA.Stopped(), timerB := t.timerB.Stopped(), timerD := t.timerD.Stopped(), done := true)
  }

  function Act(t: Tx, a: Action, ok: bool): (r: (Tx, Option<Input>))
    ensures r.1 == if Deletes(a) then Some(Delete) else if Sends(a) && !ok then Some(TransportErr) else None
    ensures r.0.state == t.state && r.0.table == t.table && r.0.reliable == t.reliable && r.0.now == t.now
    ensures r.0.out.unhandled == t.out.unhandled
  {
    match a
    case NoAction => (t, None)
    case PassUp => (PassedUp(t).(timerA := t.timerA.Stopped()), None)
    case PassUpDelete => (PassedUp(t).(timerA := t.timerA.(isSet := false)), Some(Delete))
    case InviteFinal =>
      (Lingering(Acknowledged(PassedUp(t), ok)), if ok then None else Some(TransportErr))
    case NonInviteFinal => (Lingering(PassedUp(t)), None)
    case InviteResend => (Resent(t, 2 * t.aTime, ok), if ok then None else Some(TransportErr))
    case NonInviteResend => (Resent(t, Min(2 * t.aTime, T2), ok), if ok then None else Some(TransportErr))
    case SendAck => (Acknowledged(t, ok), if ok then None else Some(TransportErr))
    case TransErr =>
      // reporting reads the last response: without one the report panics, and the panic is recovered
      var t1 := if t.done || t.lastResp.None? then t
                else t.(out := t.out.(transportErrors := t.out.transportErrors + 1));
      (t1.(timerA := t.timerA.Stopped()), Some(Delete))
    case Timeout =>
      var t1 := if t.done then t else t.(out := t.out.(timeouts := t.out.timeouts + 1));
      (t1.(timerA := t.timerA.Stopped()), Some(Delete))
    case DeleteTx => (Deleted(t), None)
  }

  /** The state machine run on one input and the follow-up inputs of its actions. */
  function Spin(t: Tx, i: Input, ok: bool): (r: Tx)
    ensures r.table == t.table && r.reliable == t.reliable && r.now == t.now
    decreases Rank(i)
  {
    match Row(t, i)
    case None => t.(out := t.out.(unhandled := t.out.unhandled + [(t.state, i)]))
    case Some(To(s, a)) =>
      var (t1, next) := Act(t, a, ok);
      if next.None? then t1.(state := s) else Spin(t1.(state := s), next.value, ok)
  }

  /** The inputs one Spin consumes. */
  function Cascade(t: Tx, i: Input, ok: bool): seq<Input>
    decreases Rank(i)
  {
    match Row(t, i)
    case None => [i]
    case Some(To(s, a)) =>
      var (t1, next) := Act(t, a, ok);
      [i] + if next.None? then [] else Cascade(t1.(state := s), next.value, ok)
  }

  // ---- the operations

  const NOTHING := History([], [], [], 0, 0, 0, [])

  function New(requestMethod: string, reliable: bool, now: nat): Tx {
    Tx(TableFor(requestMethod), reliable, Calling, now, None, 0, OFF, OFF, 0, OFF, false, NOTHING)
  }

  /** Init: the first send, then the timers; a failed send ends the transaction. */
  function Init(t: Tx, ok: bool): Tx {
    var t1 := t.(out := t.out.(sends := t.out.sends + [Sent(t.now, ok)]));
    if !ok then Spin(t1, TransportErr, ok)
    else
      var t2 :=
        if t1.reliable then t1.(dTime := 0)
        else if t1.table.InviteTable? then
          t1.(aTime := TIME_A, dTime := TIME_D, timerA := Start(t1.now, TIME_A))
        else
          t1.(aTime := TIME_E, dTime := TIME_K, timerA := Start(t1.now, TIME_E));
      t2.(timerB := Start(t2.now, TIME_B))
  }

  function InputOf(r: Response): Input {
    if r.Provisional() then Got1xx else if r.Success() then Got2xx else Got300Plus
  }

  /** Receive: store the response and spin on its class. */
  function Receive(t: Tx, r: Response, ok: bool): Tx {
    Spin(t.(lastResp := Some(r)), InputOf(r), ok)
  }

  datatype TimerName = A | B | D

  function TimerOf(t: Tx, n: TimerName): Timer {
    match n
    case A => t.timerA
    case B => t.timerB
    case D => t.timerD
  }

  /** The callback of a timer runs. */
  function Fire(t: Tx, n: TimerName, ok: bool): Tx {
    match n
    case A => Spin(t.(timerA := t.timerA.Fired()), TimerA, ok)
    case B => Spin(t.(timerB := t.timerB.Fired()), TimerB, ok)
    case D => Spin(t.(timerD := t.timerD.Fired()), TimerD, ok)
  }
}
