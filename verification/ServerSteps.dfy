/**
 * The server transaction: its two transition tables, its actions and its timers.
 * `Tx` is the state as a value, with what left the transaction recorded in order; the functions on it say
 * what every operation does, and the class `ServerTx` of the module ServerTransaction is proved to do exactly that
 * in place.
 * Every operation that may send takes `ok`, the outcome of the one transport send it can make.
 */
module ServerSteps {
  import opened Wrappers
  import opened Timing
  import opened Responses
  import opened Tables

  datatype State = Trying | Proceeding | Completed | Confirmed | Terminated

  /** The first state that the chosen table defines. */
  function InitialState(table: Table): State {
    if table.InviteTable? then Proceeding else Trying
  }

  datatype Input =
    | Request | Ack | Cancel
    | User1xx | User2xx | User300Plus
    | TimerG | TimerH | TimerI | TimerJ
    | TransportErr | Delete

  datatype Action =
    | NoAction | Respond | RespondComplete | RespondDelete | Final
    | TransErr | DeleteTx | Confirm | CancelOk | CancelNotExist

  datatype Outcome = To(state: State, action: Action)

  const TRYING_100 := Response(100, false, 0)

  /** One attempt to send a non-CANCEL response: when, on which input, what, and whether the transport took it. */
  datatype Attempt = Attempt(at: nat, cause: Input, resp: Response, ok: bool)

  /** A request handed to the user through the transaction's own channel. */
  datatype Up = AckUp(id: nat) | CancelUp(id: nat)

  /** The answer to a matched CANCEL. */
  datatype Answer = Answer(id: nat, code: nat)

  /**
   * What left the transaction, each kind in order: attempts to send responses, responses to CANCEL sent past
   * the state machine, answers to matched CANCELs, requests passed up and the number of errors reported;
   * then what SendResponse was given for the state machine, and the inputs that found no row.
   */
  datatype History = History(
    wire: seq<Attempt>, forwarded: seq<Response>, answers: seq<Answer>, ups: seq<Up>, errors: nat,
    offered: seq<Response>, unhandled: seq<(State, Input)>
  ) {
    function Sent(a: Attempt): History {
      this.(wire := wire + [a])
    }

    function Answered(a: Answer): History {
      this.(answers := answers + [a])
    }

    function Refused(s: State, i: Input): History {
      this.(unhandled := unhandled + [(s, i)])
    }
  }

  const NOTHING := History([], [], [], [], 0, [], [])

  datatype Tx = Tx(
    requestMethod: string, reliable: bool, table: Table,
    state: State, now: nat,
    lastResp: Option<Response>, lastAck: Option<nat>, lastCancel: Option<nat>,
    timerG: Timer, gTime: nat, timerH: Timer, timerI: Timer, timerJ: Timer, timer1xx: Timer,
    done: bool, out: History
  )

  // ---- the tables

  function InviteRow(s: State, i: Input): (r: Option<Outcome>)
    ensures r.Some? && r.value.action == TransErr ==> i == TransportErr && r.value.state == Terminated
    ensures r.Some? && Sends(r.value.action) ==> Rank(i) == 2
    ensures r.Some? && PassesUp(r.value.action) ==> i == Ack || i == Cancel
  {
    match s
    case Trying => None
    case Proceeding =>
      (match i
       case Request => Some(To(Proceeding, Respond))
       case Cancel => Some(To(Proceeding, CancelOk))
       case User1xx => Some(To(Proceeding, Respond))
       case User2xx => Some(To(Terminated, RespondDelete))
       case User300Plus => Some(To(Completed, RespondComplete))
       case TransportErr => Some(To(Terminated, TransErr))
       case _ => None)
    case Completed =>
      (match i
       case Request => Some(To(Completed, Respond))
       case Ack => Some(To(Confirmed, Confirm))
       case Cancel => Some(To(Completed, CancelNotExist))
       case User1xx => Some(To(Completed, NoAction))
       case User2xx => Some(To(Completed, NoAction))
       case User300Plus => Some(To(Completed, NoAction))
       case TimerG => Some(To(Completed, RespondComplete))
       case TimerH => Some(To(Terminated, DeleteTx))
       case TransportErr => Some(To(Terminated, TransErr))
       case _ => None)
    case Confirmed =>
      (match i
       case Request => Some(To(Confirmed, NoAction))
       case Ack => Some(To(Terminated, NoAction))
       case Cancel => Some(To(Confirmed, CancelNotExist))
       case User1xx => Some(To(Confirmed, NoAction))
       case User2xx => Some(To(Confirmed, NoAction))
       case User300Plus => Some(To(Confirmed, NoAction))
       case TimerI => Some(To(Terminated, DeleteTx))
       case TimerG => Some(To(Confirmed, NoAction))
       case TimerH => Some(To(Confirmed, NoAction))
       case _ => None)
    case Terminated =>
      (match i
       case Request => Some(To(Terminated, NoAction))
       case Ack => Some(To(Terminated, NoAction))
       case Cancel => Some(To(Terminated, NoAction))
       case User1xx => Some(To(Terminated, NoAction))
       case User2xx => Some(To(Terminated, NoAction))
       case User300Plus => Some(To(Terminated, NoAction))
       case Delete => Some(To(Terminated, DeleteTx))
       case _ => None)
  }

  function NonInviteRow(s: State, i: Input): (r: Option<Outcome>)
    ensures r.Some? && r.value.action == TransErr ==> i == TransportErr && r.value.state == Terminated
    ensures r.Some? && Sends(r.value.action) ==> Rank(i) == 2
    ensures r.Some? && PassesUp(r.value.action) ==> i == Ack || i == Cancel
  {
    match s
    case Trying =>
      (match i
       case Request => Some(To(Trying, NoAction))
       case Cancel => Some(To(Confirmed, NoAction))
       case User1xx => Some(To(Proceeding, Respond))
       case User2xx => Some(To(Completed, Final))
       case User300Plus => Some(To(Completed, Final))
       case _ => None)
    case Proceeding =>
      (match i
       case Request => Some(To(Proceeding, Respond))
       case Cancel => Some(To(Confirmed, NoAction))
       case User1xx => Some(To(Proceeding, Respond))
       case User2xx => Some(To(Completed, Final))
       case User300Plus => Some(To(Completed, Final))
       case TransportErr => Some(To(Terminated, TransErr))
       case _ => None)
    case Completed =>
      (match i
       case Request => Some(To(Completed, Respond))
       case Cancel => Some(To(Confirmed, NoAction))
       case User1xx => Some(To(Completed, NoAction))
       case User2xx => Some(To(Completed, NoAction))
       case User300Plus => Some(To(Completed, NoAction))
       case TimerJ => Some(To(Terminated, DeleteTx))
       case TransportErr => Some(To(Terminated, TransErr))
       case _ => None)
    case Confirmed => None
    case Terminated =>
      (match i
       case Request => Some(To(Terminated, NoAction))
       case Cancel => Some(To(Confirmed, NoAction))
       case User1xx => Some(To(Terminated, NoAction))
       case User2xx => Some(To(Terminated, NoAction))
       case User300Plus => Some(To(Terminated, NoAction))
       case TimerJ => Some(To(Terminated, NoAction))
       case Delete => Some(To(Terminated, DeleteTx))
       case _ => None)
  }

  function Row(t: Tx, i: Input): (r: Option<Outcome>)
    ensures r.Some? && r.value.action == TransErr ==> i == TransportErr && r.value.state == Terminated
    ensures r.Some? && Sends(r.value.action) ==> Rank(i) == 2
    ensures r.Some? && PassesUp(r.value.action) ==> i == Ack || i == Cancel
  {
    if t.table.InviteTable? then InviteRow(t.state, i) else NonInviteRow(t.state, i)
  }

  /** The follow-up inputs of actions have lower rank than the inputs that caused them. */
  function Rank(i: Input): nat {
    match i
    case TransportErr => 1
    case Delete => 0
    case _ => 2
  }

  // ---- the actions

  function Attempted(t: Tx, i: Input, ok: bool): Tx
    requires t.lastResp.Some?
  {
    t.(out := t.out.Sent(Attempt(t.now, i, t.lastResp.value, ok)))
  }

  /** delete: stop every timer and close the channels, once. */
  function Deleted(t: Tx): (r: Tx)
    ensures r.done && r.out == t.out && r.state == t.state && r.lastResp == t.lastResp && r.table == t.table
  {
    if t.done then t
    else
      t.(timerG := t.timerG.Stopped(), timerH := t.timerH.Stopped(), timerI := t.timerI.Stopped(),
         timerJ := t.timerJ.Stopped(), timer1xx := t.timer1xx.Stopped(), done := true)
  }

  function Passed(t: Tx, u: Up): Tx {
    if t.done then t else t.(out := t.out.(ups := t.out.ups + [u]))
  }

  function RespondCompleted(t: Tx): (r: Tx)
    ensures r.out == t.out && r.state == t.state && r.lastResp == t.lastResp && r.table == t.table && r.done == t.done
  {
    var t1 :=
      if t.reliable then t
      else if !t.timerG.isSet then t.(timerG := Start(t.now, t.gTime))
      else var g := Min(2 * t.gTime, T2); t.(gTime := g, timerG := Start(t.now, g));
    if t1.timerH.isSet then t1 else t1.(timerH := Start(t.now, TIME_H))
  }

  /** actionConfirm: timer I takes the place of timers G and H, and the ACK goes up. */
  function Confirming(t: Tx): Tx {
    var t1 := t.(timerG := t.timerG.Stopped(), timerH := t.timerH.Stopped(), timerI := Start(t.now, TIME_I));
    if t.lastAck.Some? then Passed(t1, AckUp(t.lastAck.value)) else t1
  }

  /** actionCancel: the CANCEL is answered 200 and goes up. */
  function CancelAccepted(t: Tx): Tx {
    if t.lastCancel.None? then t
    else Passed(t.(out := t.out.Answered(Answer(t.lastCancel.value, 200))), CancelUp(t.lastCancel.value))
  }

  /** actionCancelNotExist: the CANCEL is answered 481. */
  function CancelRefused(t: Tx): Tx {
    if t.lastCancel.None? then t else t.(out := t.out.Answered(Answer(t.lastCancel.value, 481)))
  }

  predicate PassesUp(a: Action) {
    a == Confirm || a == CancelOk
  }

  predicate Sends(a: Action) {
    a == Respond || a == RespondComplete || a == RespondDelete || a == Final
  }

  /** What an action does to the transaction, and the input that it returns to the state machine. */
  function Act(t: Tx, i: Input, a: Action, ok: bool): (r: (Tx, Option<Input>))
    ensures r.1 == if a == TransErr then Some(Delete)
                   else if Sends(a) && t.lastResp.Some? && !ok then Some(TransportErr) else None
    ensures r.0.lastResp == t.lastResp && r.0.out.offered == t.out.offered && r.0.out.unhandled == t.out.unhandled
    ensures r.0.done == (t.done || a == RespondDelete || a == DeleteTx)
    ensures r.0.out.wire ==
            t.out.wire + if Sends(a) && t.lastResp.Some? then [Attempt(t.now, i, t.lastResp.value, ok)] else []
    ensures r.0.state == t.state && r.0.requestMethod == t.requestMethod && r.0.table == t.table
    ensures r.0.reliable == t.reliable && r.0.now == t.now
  {
    match a
    case NoAction => (t, None)
    case Respond =>
      if t.lastResp.None? then (t, None)
      else (Attempted(t, i, ok), if ok then None else Some(TransportErr))
    case RespondComplete =>
      if t.lastResp.None? then (t, None)
      else if ok then (RespondCompleted(Attempted(t, i, ok)), None)
      else (Attempted(t, i, ok), Some(TransportErr))
    case RespondDelete =>
      var t1 := Deleted(t);
      if t1.lastResp.None? then (t1, None)
      else (Attempted(t1, i, ok), if ok then None else Some(TransportErr))
    case Final =>
      if t.lastResp.None? then (t, None)
      else if ok then (Attempted(t, i, ok).(timerJ := Start(t.now, TIME_J)), None)
      else (Attempted(t, i, ok), Some(TransportErr))
    case TransErr =>
      (if t.done then t else t.(out := t.out.(errors := t.out.errors + 1)), Some(Delete))
    case DeleteTx => (Deleted(t), None)
    case Confirm => (Confirming(t), None)
    case CancelOk => (CancelAccepted(t), None)
    case CancelNotExist => (CancelRefused(t), None)
  }

  /** The state machine run on one input and the follow-up inputs of its actions. */
  function Spin(t: Tx, i: Input, ok: bool): (r: Tx)
    ensures r.requestMethod == t.requestMethod && r.table == t.table && r.reliable == t.reliable && r.now == t.now
    decreases Rank(i)
  {
    match Row(t, i)
    case None => t.(out := t.out.Refused(t.state, i))
    case Some(To(s, a)) =>
      var (t1, next) := Act(t, i, a, ok);
      if next.None? then t1.(state := s) else Spin(t1.(state := s), next.value, ok)
  }

  /** The inputs one Spin consumes. */
  function Cascade(t: Tx, i: Input, ok: bool): (c: seq<Input>)
    decreases Rank(i)
  {
    match Row(t, i)
    case None => [i]
    case Some(To(s, a)) =>
      var (t1, next) := Act(t, i, a, ok);
      [i] + if next.None? then [] else Cascade(t1.(state := s), next.value, ok)
  }

  // ---- the operations

  /** NewServerTx followed by Init, at the instant `now`. */
  function Fresh(requestMethod: string, reliable: bool, now: nat): Tx {
    var table := TableFor(requestMethod);
    Tx(requestMethod, reliable, table, InitialState(table), now, None, None, None,
       OFF, if reliable then 0 else TIME_G, OFF, OFF, OFF,
       if table.InviteTable? then Start(now, TIME_1XX) else OFF,
       false, NOTHING)
  }

  /** Whether Receive accepts a request of this method for the transaction. */
  predicate Accepts(t: Tx, requestMethod: string) {
    requestMethod == t.requestMethod || requestMethod == "ACK" || requestMethod == "CANCEL"
  }

  /** Receive: the method decides the input; any other method is an error that spins nothing. */
  function Receive(t: Tx, requestMethod: string, id: nat, ok: bool): Tx {
    var t1 := t.(timer1xx := t.timer1xx.Stopped());
    if requestMethod == t.requestMethod then Spin(t1, Request, ok)
    else if requestMethod == "ACK" then Spin(t1.(lastAck := Some(id)), Ack, ok)
    else if requestMethod == "CANCEL" then Spin(t1.(lastCancel := Some(id)), Cancel, ok)
    else t1
  }

  function UserInput(r: Response): Input {
    if r.Provisional() then User1xx else if r.Success() then User2xx else User300Plus
  }

  /** SendResponse: a response to a CANCEL bypasses the state machine. */
  function SendResponse(t: Tx, r: Response, ok: bool): Tx {
    if r.cancel then t.(out := t.out.(forwarded := t.out.forwarded + [r]))
    else
      Spin(t.(lastResp := Some(r), timer1xx := t.timer1xx.Stopped(), out := t.out.(offered := t.out.offered + [r])),
           UserInput(r), ok)
  }

  datatype TimerName = G | H | I | J | OneXX

  function TimerOf(t: Tx, n: TimerName): Timer {
    match n
    case G => t.timerG
    case H => t.timerH
    case I => t.timerI
    case J => t.timerJ
    case OneXX => t.timer1xx
  }

  /** The callback of a timer runs. */
  function Fire(t: Tx, n: TimerName, ok: bool): Tx {
    match n
    case G => Spin(t.(timerG := t.timerG.Fired()), TimerG, ok)
    case H => Spin(t.(timerH := t.timerH.Fired()), TimerH, ok)
    case I => Spin(t.(timerI := t.timerI.Fired()), TimerI, ok)
    case J => Spin(t.(timerJ := t.timerJ.Fired()), TimerJ, ok)
    case OneXX => SendResponse(t.(timer1xx := t.timer1xx.Fired()), TRYING_100, ok)
  }
}
