/** The elastic channel: an unbounded first-in first-out buffer between two bounded channels. */
module ElasticChannel {
  const SIZE: nat := 3

  datatype Phase = Managing | Disposing | Done

  /** `sent` and `received` are what went in and what came out at the two ends, in order. */
  datatype Chan<T> = Chan(
    input: seq<T>, output: seq<T>, buffer: seq<T>, closed: bool, phase: Phase,
    sent: seq<T>, received: seq<T>
  )

  function Init<T>(): Chan<T> {
    Chan([], [], [], false, Managing, [], [])
  }

  /**
   * A sender, a receiver or the owner acts, or the managing goroutine takes one turn: it receives or sends in the
   * loop of manage, leaves that loop, or sends or ends in the loop of dispose.
   */
  datatype Step<T> = Send(item: T) | Receive | Stop | Take | Put | Leave | Flush | Finish

  /** Channel operations block until the channel has room or an item. */
  predicate Enabled<T>(c: Chan<T>, s: Step<T>) {
    match s
    case Send(_) => !c.closed && |c.input| < SIZE
    case Receive => c.output != []
    case Stop => !c.closed
    case Take => c.phase == Managing && c.input != []
    case Put => c.phase == Managing && c.buffer != [] && |c.output| < SIZE
    case Leave => c.phase == Managing && c.closed && c.input == []
    case Flush => c.phase == Disposing && c.buffer != [] && |c.output| < SIZE
    case Finish => c.phase == Disposing && c.buffer == []
  }

  function Next<T>(c: Chan<T>, s: Step<T>): Chan<T>
    requires Enabled(c, s)
  {
    match s
    case Send(x) => c.(input := c.input + [x], sent := c.sent + [x])
    case Receive => c.(output := c.output[1..], received := c.received + [c.output[0]])
    case Stop => c.(closed := true)
    case Take => c.(input := c.input[1..], buffer := c.buffer + [c.input[0]])
    case Put => c.(output := c.output + [c.buffer[0]], buffer := c.buffer[1..])
    case Leave => c.(phase := Disposing)
    case Flush => c.(output := c.output + [c.buffer[0]], buffer := c.buffer[1..])
    case Finish => c.(phase := Done)
  }

  /** Nothing is lost, doubled or reordered, and the bounded channels keep their bounds. */
  predicate Conserved<T(==)>(c: Chan<T>) {
    && c.received + (c.output + (c.buffer + c.input)) == c.sent
    && |c.input| <= SIZE && |c.output| <= SIZE
    && (c.phase != Managing ==> c.closed && c.input == [])
    && (c.phase == Done ==> c.buffer == [])
  }

  lemma StepConserves<T>(c: Chan<T>, s: Step<T>)
    requires Conserved(c) && Enabled(c, s)
    ensures Conserved(Next(c, s))
  {
    match s {
      case Send(x) => assert c.received + (c.output + (c.buffer + (c.input + [x]))) == c.sent + [x];
      case Receive => assert c.output == [c.output[0]] + c.output[1..];
      case Take => assert c.buffer + c.input == c.buffer + [c.input[0]] + c.input[1..];
      case Put => MoveOut(c.output, c.buffer, c.input);
      case Flush => MoveOut(c.output, c.buffer, c.input);
      case _ =>
    }
    assert Next(c, s).received + (Next(c, s).output + (Next(c, s).buffer + Next(c, s).input)) == Next(c, s).sent;
  }

  lemma MoveOut<T>(output: seq<T>, buffer: seq<T>, input: seq<T>)
    requires buffer != []
    ensures output + (buffer + input) == output + [buffer[0]] + (buffer[1..] + input)
  {
    assert buffer == [buffer[0]] + buffer[1..];
  }

  ghost predicate Legal<T>(c: Chan<T>, run: seq<Step<T>>)
    decreases |run|
  {
    run == [] || (Enabled(c, run[0]) && Legal(Next(c, run[0]), run[1..]))
  }

  ghost function After<T>(c: Chan<T>, run: seq<Step<T>>): Chan<T>
    requires Legal(c, run)
    decreases |run|
  {
    if run == [] then c else After(Next(c, run[0]), run[1..])
  }

  /** The items that the senders of a run send, in order. */
  ghost function ItemsSent<T>(run: seq<Step<T>>): seq<T>
    decreases |run|
  {
    if run == [] then [] else (if run[0].Send? then [run[0].item] else []) + ItemsSent(run[1..])
  }

  /** After every run, what was received, held in the three places and sent agree, in order. */
  lemma {:induction false} RunConserves<T>(c: Chan<T>, run: seq<Step<T>>)
    requires Conserved(c) && Legal(c, run)
    ensures Conserved(After(c, run)) && After(c, run).sent == c.sent + ItemsSent(run)
    decreases |run|
  {
    if run != [] {
      StepConserves(c, run[0]);
      RunConserves(Next(c, run[0]), run[1..]);
    }
  }

  /** The work left before a stopped channel is done and drained. */
  function Work<T>(c: Chan<T>): nat {
    3 * |c.input| + 2 * |c.buffer| + |c.output| +
    match c.phase case Managing => 2 case Disposing => 1 case Done => 0
  }

  predicate NothingLeft<T>(c: Chan<T>) {
    && !Enabled(c, Receive) && !Enabled(c, Take) && !Enabled(c, Put)
    && !Enabled(c, Leave) && !Enabled(c, Flush) && !Enabled(c, Finish)
  }

  /**
   * A blocked sender is unblocked by the next turn of the manager. Once stopped, every step that is left does
   * part of the remaining work, and when no step is left everything sent has been received.
   */
  lemma StopDelivers<T>(c: Chan<T>, s: Step<T>)
    requires Conserved(c)
    ensures !c.closed && |c.input| == SIZE ==> Enabled(c, Take)
    ensures c.closed && Enabled(c, s) ==> Work(Next(c, s)) < Work(c)
    ensures c.closed && NothingLeft(c) ==> c.phase == Done && c.received == c.sent
  {
    if c.closed && c.phase == Done && c.output == [] {
      assert c.received + (c.output + (c.buffer + c.input)) == c.received;
    }
  }

  /** ElasticChan: the two loops of the goroutine, with the actions of senders and receivers between their turns. */
  class ElasticChan<T(0, ==)> {
    var input: seq<T>
    var output: seq<T>
    var buffer: seq<T>
    var closed: bool
    var phase: Phase
    var sent: seq<T>
    var received: seq<T>

    ghost function View(): Chan<T>
      reads this
    {
      Chan(input, output, buffer, closed, phase, sent, received)
    }

    constructor ()
      ensures View() == Init() && Conserved(View())
    {
      input, output, buffer, closed, phase, sent, received := [], [], [], false, Managing, [], [];
    }

    /** One action at the ends of the channel. */
    method Act(s: Step<T>)
      requires s.Send? || s.Receive? || s.Stop?
      requires Enabled(View(), s)
      modifies this
      ensures View() == Next(old(View()), s)
    {
      match s {
        case Send(x) =>
          input := input + [x];
          sent := sent + [x];
        case Receive =>
          received := received + [output[0]];
          output := output[1..];
        case Stop =>
          closed := true;
      }
    }

    /** One turn of the loop of manage; `takeFirst` is the choice of select when both cases are ready. */
    method ManageTurn(takeFirst: bool) returns (running: bool)
      requires phase == Managing && Conserved(View())
      modifies this
      ensures Conserved(View()) && sent == old(sent) && closed == old(closed)
      ensures running <==> phase == Managing
      ensures var c := old(View());
              || (Enabled(c, Take) && View() == Next(c, Take))
              || (Enabled(c, Put) && View() == Next(c, Put))
              || (Enabled(c, Leave) && View() == Next(c, Leave))
              || (View() == c && !Enabled(c, Take) && !Enabled(c, Put) && !Enabled(c, Leave))
    {
      ghost var c := View();
      running := true;
      if |buffer| > 0 && |output| < SIZE && !(takeFirst && (|input| > 0 || closed)) {
        StepConserves(c, Put);
        output, buffer := output + [buffer[0]], buffer[1..];
      } else if |input| > 0 {
        StepConserves(c, Take);
        buffer, input := buffer + [input[0]], input[1..];
      } else if closed {
        StepConserves(c, Leave);
        phase := Disposing;
        running := false;
      }
    }

    /** dispose, for a receiver that takes an item whenever the output is full. */
    method Dispose()
      requires phase == Disposing && Conserved(View())
      modifies this
      ensures Conserved(View()) && phase == Done && received + output == sent && sent == old(sent)
    {
      while |buffer| > 0
        invariant phase == Disposing && Conserved(View()) && sent == old(sent)
        decreases 2 * |buffer| + |output|
      {
        if |output| < SIZE {
          StepConserves(View(), Flush);
          output, buffer := output + [buffer[0]], buffer[1..];
        } else {
          StepConserves(View(), Receive);
          Act(Receive);
        }
      }
      StepConserves(View(), Finish);
      phase := Done;
      assert output + (buffer + input) == output;
    }
  }
}
