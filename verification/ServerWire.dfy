/** What a server transaction puts on the wire, step by step: the steps of a run determine it. */
module ServerWire {
  import opened Wrappers
  import opened Timing
  import opened Responses
  import opened Tables
  import opened ServerSteps
  import opened ServerRuns
  import opened ServerSpec

  /** The last response offered to the state machine, sent once, if there is one. */
  function LastAgain(t: Tx, cause: Input, ok: bool): seq<Attempt> {
    if t.out.offered == [] then [] else [Attempt(t.now, cause, t.out.offered[|t.out.offered| - 1], ok)]
  }

  /** The attempts to send that a step makes. */
  function SentBy(t: Tx, s: Step): seq<Attempt> {
    match s
    case Recv(m, _, ok) =>
      if m == t.requestMethod && (t.state == Proceeding || t.state == Completed) then LastAgain(t, Request, ok) else []
    case Offer(r, ok) =>
      if r.cancel || (t.state != Trying && t.state != Proceeding) then []
      else [Attempt(t.now, if r.code < 200 then User1xx else if r.code < 300 then User2xx else User300Plus, r, ok)]
    case Fires(G, ok) => LastAgain(t, TimerG, ok)
    case Fires(OneXX, ok) =>
      if t.state != Trying && t.state != Proceeding then []
      else [Attempt(t.now, User1xx, Response(100, false, 0), ok)]
    case _ => []
  }

  lemma RepeatSends(t: Tx, a: Spec, m: string, id: nat, ok: bool)
    requires Same(t, a)
    ensures Received(a, m, id, ok).wire == a.wire + SentBy(t, Recv(m, id, ok))
  {
    hide Due, CappedAt, CappedWait;
  }

  lemma OfferSends(t: Tx, a: Spec, r: Response, ok: bool)
    requires Same(t, a)
    ensures SpecNext(a, Offer(r, ok)).wire == a.wire + SentBy(t, Offer(r, ok))
  {
    hide Due, CappedAt, CappedWait;
  }

  lemma TimerSends(t: Tx, a: Spec, n: TimerName, ok: bool)
    requires Same(t, a) && Due(a, n).Some?
    ensures TimedOut(a, n, ok).wire == a.wire + SentBy(t, Fires(n, ok))
  {
    hide CappedAt, CappedWait;
  }

  lemma StepSends(t: Tx, a: Spec, s: Step)
    requires Same(t, a) && Enabled(t, s)
    ensures Next(t, s).out.wire == t.out.wire + SentBy(t, s)
  {
    hide Next, Enabled, Received, Offered, TimedOut, SentBy, Due;
    SameStep(t, a, s);
    match s {
      case Recv(m, id, ok) => RepeatSends(t, a, m, id, ok);
      case Offer(r, ok) => OfferSends(t, a, r, ok);
      case Fires(n, ok) => TimerSends(t, a, n, ok);
      case Wait(d) => WaitSends(t, d);
    }
  }

  lemma WaitSends(t: Tx, d: nat)
    ensures SentBy(t, Wait(d)) == []
  {
  }

  /** The attempts that the steps of a run make, in order. */
  ghost function SentOver(t: Tx, run: seq<Step>): seq<Attempt>
    decreases |run|
  {
    if run == [] then [] else SentBy(t, run[0]) + SentOver(Next(t, run[0]), run[1..])
  }

  lemma {:induction false} RunSends(t: Tx, a: Spec, run: seq<Step>)
    requires Same(t, a) && Legal(t, run)
    ensures After(t, run).out.wire == t.out.wire + SentOver(t, run)
    decreases |run|
  {
    hide Next, Enabled, SentBy, Same, SpecNext;
    if run != [] {
      StepSends(t, a, run[0]);
      SameStep(t, a, run[0]);
      RunSends(Next(t, run[0]), SpecNext(a, run[0]), run[1..]);
    }
  }

  /**
   * In every run of either table the wire holds exactly what its steps send: each repeated request in Proceeding or
   * Completed and each timer G sends the last offered response once, each response offered in Trying or Proceeding is
   * sent once, so is the 100 that timer 1xx offers, and nothing else sends anything.
   */
  lemma WireDetermined(requestMethod: string, reliable: bool, start: nat, run: seq<Step>)
    requires Legal(Fresh(requestMethod, reliable, start), run)
    ensures var t0 := Fresh(requestMethod, reliable, start);
            After(t0, run).out.wire == SentOver(t0, run)
  {
    hide Next, Enabled, SentBy, Same, SpecNext;
    SameStart(requestMethod, reliable, start);
    NothingSent(requestMethod, reliable, start);
    var t0 := Fresh(requestMethod, reliable, start);
    RunSends(t0, Begin(requestMethod, reliable, start), run);
    assert [] + SentOver(t0, run) == SentOver(t0, run);
  }

  lemma NothingSent(requestMethod: string, reliable: bool, start: nat)
    ensures Fresh(requestMethod, reliable, start).out.wire == []
  {
  }

  /** After every run, the request received once more is answered with the last offered response, once, or not at all. */
  lemma RequestAnswered(requestMethod: string, reliable: bool, start: nat, run: seq<Step>, id: nat, ok: bool)
    requires Legal(Fresh(requestMethod, reliable, start), run)
    ensures var t := After(Fresh(requestMethod, reliable, start), run);
            var again := (t.state == Proceeding || t.state == Completed) && t.out.offered != [];
            Receive(t, requestMethod, id, ok).out.wire ==
            t.out.wire + if again then [Attempt(t.now, Request, t.out.offered[|t.out.offered| - 1], ok)] else []
  {
    hide Receive, Same;
    ServerRefines(requestMethod, reliable, start, run);
    var t := After(Fresh(requestMethod, reliable, start), run);
    var a := SpecAfter(Begin(requestMethod, reliable, start), run);
    SameMethod(t, a);
    SpecMethod(Begin(requestMethod, reliable, start), run);
    StepSends(t, a, Recv(requestMethod, id, ok));
  }

  lemma SameMethod(t: Tx, a: Spec)
    requires Same(t, a)
    ensures t.requestMethod == a.requestMethod
  {
  }

  lemma {:induction false} SpecMethod(a: Spec, run: seq<Step>)
    ensures SpecAfter(a, run).requestMethod == a.requestMethod
    decreases |run|
  {
    hide SpecNext;
    if run != [] {
      SpecStepMethod(a, run[0]);
      SpecMethod(SpecNext(a, run[0]), run[1..]);
    }
  }

  lemma SpecStepMethod(a: Spec, s: Step)
    ensures SpecNext(a, s).requestMethod == a.requestMethod
  {
    hide Due;
  }

  /** After every run, a response that is offered is sent exactly once, or, after a final or a CANCEL, not at all. */
  lemma OfferAnswered(requestMethod: string, reliable: bool, start: nat, run: seq<Step>, r: Response, ok: bool)
    requires Legal(Fresh(requestMethod, reliable, start), run) && !r.cancel
    ensures var t := After(Fresh(requestMethod, reliable, start), run);
            var u := SendResponse(t, r, ok);
            var first := t.state == Trying || t.state == Proceeding;
            && u.out.wire == t.out.wire + (if first then [Attempt(t.now, UserInput(r), r, ok)] else [])
            && u.out.offered == t.out.offered + [r]
  {
    hide SendResponse, Same;
    ServerRefines(requestMethod, reliable, start, run);
    var t := After(Fresh(requestMethod, reliable, start), run);
    var a := SpecAfter(Begin(requestMethod, reliable, start), run);
    StepSends(t, a, Offer(r, ok));
    OfferKept(t, a, r, ok);
  }

  lemma OfferKept(t: Tx, a: Spec, r: Response, ok: bool)
    requires Same(t, a) && !r.cancel
    ensures SendResponse(t, r, ok).out.offered == t.out.offered + [r]
  {
    hide SendResponse, Same, SpecNext;
    SameStep(t, a, Offer(r, ok));
    SameOffers(t, a);
    SameOffers(SendResponse(t, r, ok), SpecNext(a, Offer(r, ok)));
    SpecOffers(a, r, ok);
  }

  lemma SameOffers(t: Tx, a: Spec)
    requires Same(t, a)
    ensures t.out.offered == a.offered
  {
    hide Due;
  }

  lemma SpecOffers(a: Spec, r: Response, ok: bool)
    requires !r.cancel
    ensures SpecNext(a, Offer(r, ok)).offered == a.offered + [r]
  {
    hide Due;
  }
}
