/** Unstreamed runs in which the skip behind a refused start line becomes negative, and those in which it cannot. */
module FramingCrash {
  import opened Wrappers
  import opened Text
  import opened ParserBuffers
  import opened Framing
  import opened FramingIsolation
  import FramingStream

  // ---- runs that never crash

  /** An empty queue makes the parser wait, not crash. */
  lemma EmptyQueueWaits(x: Syntax, s: string, outs: seq<Outcome>)
    ensures Frames(x, false, s, [], outs).next != Crashed
  {
    var r := Round(x, false, s, []);
    assert r.next in {Ended, Waits};
  }

  /** All datagrams but the last are aligned: the run does not crash. */
  lemma RunNeverCrashes(x: Syntax, ds: seq<string>, outs: seq<Outcome>)
    requires AllAccepted(ds) && AllAligned(x, if ds == [] then [] else ds[..|ds| - 1])
    ensures Frames(x, false, Flatten(ds), Entries(ds), outs).next != Crashed
  {
    hide Aligned, FirstDouble, Round;
    if ds == [] {
      EmptyQueueWaits(x, "", outs);
    } else {
      var (init, d) := (ds[..|ds| - 1], ds[|ds| - 1]);
      assert init + [d] == ds;
      AlignedPrefix(x, init, [d], outs);
      OneEntry(d);
      var all := outs + AllExpected(x, init);
      var r := Round(x, false, d, Entries([d]));
      OwnEntryFits(x, d, FirstDouble(d, 0).value, "", []);
      assert d + "" == d;
      EmptyQueueWaits(x, r.rest, all + r.outs);
    }
  }

  lemma OneEntry(d: string)
    requires FirstDouble(d, 0).Some?
    ensures AllAccepted([d]) && Entries([d]) == [EntryOf(d, FirstDouble(d, 0).value)] + [] && Flatten([d]) == d
  {
    assert [d][1..] == [];
    assert d + "" == d;
  }

  lemma FirstEntry(d: string, more: seq<string>)
    requires FirstDouble(d, 0).Some? && AllAccepted(more)
    ensures AllAccepted([d] + more) && Flatten([d] + more) == d + Flatten(more)
    ensures Entries([d] + more) == [EntryOf(d, FirstDouble(d, 0).value)] + Entries(more)
  {
    assert ([d] + more)[1..] == more;
  }

  // ---- the datagrams of a crash

  /** The first double CRLF behind a text without '\r'. */
  lemma PlainDouble(p: string, b: string)
    requires '\r' !in p
    ensures FirstDouble(p + DOUBLE + b, 0) == Some(|p|)
  {
    hide FirstDouble, DoubleAt;
    var d := p + DOUBLE + b;
    DoubleChars(d, |p|);
    assert d[|p|] == '\r' && d[|p| + 1] == '\n' && d[|p| + 2] == '\r' && d[|p| + 3] == '\n';
    forall k: nat | k < |p| ensures !DoubleAt(d, k) {
      DoubleChars(d, k);
      assert d[k] == p[k] && p[k] in p;
    }
  }

  /** A datagram whose header line ends in '\r': its header section does not end with it. */
  function Odd(s: string, a: string): string {
    s + CRLF + (a + "\r") + DOUBLE
  }

  lemma OddDouble(s: string, a: string)
    requires '\r' !in s && '\r' !in a && a != ""
    ensures FirstDouble(Odd(s, a), 0) == Some(|s| + |a| + 3)
  {
    hide FirstDouble, DoubleAt, Odd;
    var d := Odd(s, a);
    var n := |s| + |a| + 3;
    OddEnd(s, a);
    DoubleChars(d, n);
    forall k: nat | k < n ensures !DoubleAt(d, k) {
      DoubleChars(d, k);
      OddChars(s, a, k);
    }
  }

  lemma OddEnd(s: string, a: string)
    ensures var (d, n) := (Odd(s, a), |s| + |a| + 3);
            && |d| == n + 4
            && d[n] == '\r' && d[n + 1] == '\n' && d[n + 2] == '\r' && d[n + 3] == '\n'
  {
  }

  lemma OddChars(s: string, a: string, k: nat)
    requires '\r' !in s && '\r' !in a && a != "" && k < |s| + |a| + 3
    ensures var d := Odd(s, a);
            k + 4 <= |d| && (d[k] != '\r' || d[k + 1] != '\n' || d[k + 2] != '\r')
  {
    var d := Odd(s, a);
    assert forall j :: 0 <= j < |s| ==> d[j] == s[j];
    assert d[|s|] == '\r' && d[|s| + 1] == '\n';
    assert forall j :: 0 <= j < |a| ==> d[|s| + 2 + j] == a[j];
    assert d[|s| + 2 + |a|] == '\r' && d[|s| + 3 + |a|] == '\r';
  }

  lemma PlainClean(l: string)
    requires '\r' !in l
    ensures Clean(l)
  {
  }

  lemma OddClean(a: string)
    requires '\r' !in a
    ensures Clean(a + "\r\r\n")
  {
    var l := a + "\r\r\n";
    assert forall j :: 0 <= j < |a| ==> l[j] == a[j];
    assert l[|a|] == '\r' && l[|a| + 1] == '\r' && l[|a| + 2] == '\n';
    assert l[..|a| + 1] == a + "\r";
    OddStep(a, '\r');
    assert !OddTail(a);
  }

  /** One round takes a datagram with an odd tail and all of the next one. */
  lemma Swallows(x: Syntax, s: string, a: string, q: string, t: string, e: Entry, queue: seq<Entry>)
    requires x.start(s) && '\r' !in s && '\r' !in a && '\r' !in q && a != "" && q != "" && e.body == 0
    ensures var r := Round(x, false, Odd(s, a) + (q + DOUBLE + t), [e] + queue);
            r.next == Again && r.rest == t && r.queue == queue
  {
    hide Headers, Line, Clean, FramingStream.Lines;
    var lines := [a + "\r\r\n", q];
    var body := FramingStream.Lines(lines) + CRLF + t;
    SwallowText(s, a, q, t);
    PlainClean(s);
    PlainClean(q);
    OddClean(a);
    LineExactly(s, body);
    FramingStream.LinesRead(x, lines, t, "", []);
    assert ([e] + queue)[1..] == queue;
    assert t[..0] == "" && t[0..] == t;
  }

  lemma SwallowText(s: string, a: string, q: string, t: string)
    ensures Odd(s, a) + (q + DOUBLE + t)
         == s + CRLF + (FramingStream.Lines([a + "\r\r\n", q]) + CRLF + t)
  {
    var lines := [a + "\r\r\n", q];
    assert lines[1..] == [q] && [q][1..] == [];
    assert FramingStream.Lines([q]) == q + CRLF;
    assert FramingStream.Lines(lines) == a + "\r\r\n" + CRLF + (q + CRLF);
    assert Odd(s, a) == s + CRLF + (a + "\r\r\n" + CRLF);
  }

  /** A refused start line that is longer than the whole datagram of the entry at the head of the queue. */
  lemma RefusedCrashes(x: Syntax, r: string, t: string, e: Entry, queue: seq<Entry>)
    requires !x.start(r) && '\r' !in r && e.whole < |r| + 2
    ensures Round(x, false, r + DOUBLE + t, [e] + queue).next == Crashed
  {
    hide Line;
    PlainClean(r);
    assert r + DOUBLE + t == r + CRLF + (CRLF + t);
    LineExactly(r, CRLF + t);
  }

  lemma PairEntries(q: string, r: string)
    requires '\r' !in q && '\r' !in r
    ensures AllAccepted([q + DOUBLE, r + DOUBLE])
    ensures Entries([q + DOUBLE, r + DOUBLE]) == [Entry(0, |q| + 4)] + [Entry(0, |r| + 4)]
    ensures Flatten([q + DOUBLE, r + DOUBLE]) == q + DOUBLE + (r + DOUBLE)
  {
    hide FirstDouble;
    PlainDouble(q, "");
    PlainDouble(r, "");
    assert q + DOUBLE + "" == q + DOUBLE && r + DOUBLE + "" == r + DOUBLE;
    OneEntry(r + DOUBLE);
    FirstEntry(q + DOUBLE, [r + DOUBLE]);
    assert [q + DOUBLE] + [r + DOUBLE] == [q + DOUBLE, r + DOUBLE];
  }

  /** The end of all crashes here: `q` is swallowed, and its entry is popped for the longer `r`. */
  lemma SwallowCrashes(x: Syntax, s: string, a: string, q: string, r: string, e: Entry, outs: seq<Outcome>)
    requires x.start(s) && '\r' !in s && '\r' !in a && '\r' !in q && a != "" && q != "" && e.body == 0
    requires !x.start(r) && '\r' !in r && |q| + 2 < |r|
    ensures var queue := [e] + ([Entry(0, |q| + 4)] + [Entry(0, |r| + 4)]);
            Frames(x, false, Odd(s, a) + (q + DOUBLE + (r + DOUBLE)), queue, outs).next == Crashed
  {
    hide Odd, Round;
    var queue := [Entry(0, |q| + 4)] + [Entry(0, |r| + 4)];
    Swallows(x, s, a, q, r + DOUBLE, e, queue);
    assert r + DOUBLE + "" == r + DOUBLE;
    RefusedCrashes(x, r, "", Entry(0, |q| + 4), [Entry(0, |r| + 4)]);
  }

  /**
   * Three accepted datagrams that crash the parser: the header section of the first swallows the second, and the
   * entry of the second is too small for the start line of the third.
   */
  lemma ThreeDatagramsCrash(x: Syntax)
    requires x.start("S") && !x.start("XXXXXXXX")
    ensures var ds := ["S\r\nH: a\r\r\n\r\n", "S\r\n\r\n", "XXXXXXXX\r\n\r\n"];
            AllAccepted(ds) && Frames(x, false, Flatten(ds), Entries(ds), []).next == Crashed
  {
    hide FirstDouble, Frames;
    var (d, more) := (Odd("S", "H: a"), ["S" + DOUBLE, "XXXXXXXX" + DOUBLE]);
    OddDouble("S", "H: a");
    PairEntries("S", "XXXXXXXX");
    FirstEntry(d, more);
    SwallowCrashes(x, "S", "H: a", "S", "XXXXXXXX", EntryOf(d, 8), []);
    assert d == "S\r\nH: a\r\r\n\r\n";
    assert "S" + DOUBLE == "S\r\n\r\n" && "XXXXXXXX" + DOUBLE == "XXXXXXXX\r\n\r\n";
    assert [d] + more == ["S\r\nH: a\r\r\n\r\n", "S\r\n\r\n", "XXXXXXXX\r\n\r\n"];
  }

  // ---- every misaligned datagram can be continued to a crash

  function Pad(k: nat): (p: string)
    ensures |p| == k && '\r' !in p
  {
    seq(k, i => 'Z')
  }

  lemma NoCRJoined(a: string, b: string)
    requires '\r' !in a && '\r' !in b
    ensures '\r' !in a + b
  {
  }

  /** A header section that is still open is closed by any character and a double CRLF. */
  lemma {:induction false} OpenCloses(x: Syntax, s: string, t: string, buffer: string, fields: seq<Field>)
    requires !Closed(s)
    ensures Headers(x, s + ("Z" + DOUBLE + t), buffer, fields).rest == t
    decreases |s|
  {
    hide Line, Flush;
    var more := "Z" + DOUBLE + t;
    if Line(s).NoLine? {
      OpenLine(s, t);
      EmptyLine(CRLF + t);
      assert (CRLF + t)[2..] == t;
    } else {
      var GotLine(line, rest) := Line(s);
      LineExtends(s, more);
      OpenCloses(x, rest, t, line, Flush(x, buffer, fields));
      OpenCloses(x, rest, t, if buffer != "" then buffer + " " + line else "", fields);
    }
  }

  lemma OpenLine(s: string, t: string)
    requires Line(s).NoLine?
    ensures Line(s + ("Z" + DOUBLE + t)) == GotLine(s + "Z", CRLF + t)
  {
    var l := s + "Z";
    forall i | 0 <= i < |l| ensures !EndsAt(l, i) {
      if i + 1 < |s| {
        EndsBefore(s, "Z", i);
      }
    }
    assert !OddTail(l);
    LineExactly(l, CRLF + t);
    assert s + ("Z" + DOUBLE + t) == l + CRLF + (CRLF + t);
  }

  /** The round of a datagram whose header section leaves less than the datagram's body takes bytes that follow. */
  lemma TakesMore(x: Syntax, d: string, n: nat, u: string, rest: string, t: string, queue: seq<Entry>)
    requires Accepted(d, n) && Line(d).GotLine? && x.start(Line(d).line) && |rest| <= |d| - (n + 4)
    requires Headers(x, Line(d).rest + u, "", []).rest == rest + (Pad(|d| - (n + 4) - |rest|) + t)
    ensures var r := Round(x, false, d + u, [EntryOf(d, n)] + queue);
            r.next == Again && r.rest == t && r.queue == queue
  {
    hide Line, Headers, FirstDouble, Pad;
    var pad := Pad(|d| - (n + 4) - |rest|);
    LineExtends(d, u);
    Regroup(rest, pad, t);
    assert (rest + pad + t)[|rest + pad|..] == t;
    assert ([EntryOf(d, n)] + queue)[1..] == queue;
  }

  /** The words of a crash: an accepted start line, a refused one, and no '\r' in either. */
  predicate Words(x: Syntax, s: string, r: string) {
    x.start(s) && '\r' !in s && !x.start(r) && '\r' !in r && |r| >= 4
  }

  lemma PadOdd(k: nat, s: string)
    ensures Pad(k) + Odd(s, "A") == Odd(Pad(k) + s, "A")
  {
  }

  /** The continuation when the header section still ends within the datagram. */
  lemma ClosedCrashes(x: Syntax, d: string, n: nat, s: string, r: string, outs: seq<Outcome>) returns (more: seq<string>)
    requires Accepted(d, n) && !Aligned(x, d, n) && Words(x, s, r) && Line(d).GotLine? && Closed(Line(d).rest)
    ensures AllAccepted([d] + more)
    ensures Frames(x, false, Flatten([d] + more), Entries([d] + more), outs).next == Crashed
  {
    hide FirstDouble, Line, Headers, Odd, Round, OddTail, Pad;
    MisalignedSection(x, d, n, "");
    assert d + "" == d;
    var rest := Headers(x, Line(d).rest, "", []).rest;
    var k := |d| - (n + 4) - |rest|;
    var t := Odd(s, "A") + ("Q" + DOUBLE + (r + DOUBLE));
    HeadersExtend(x, Line(d).rest, Pad(k) + t, "", []);
    var e := Pad(k) + Odd(s, "A");
    PadOdd(k, s);
    NoCRJoined(Pad(k), s);
    OddDouble(Pad(k) + s, "A");
    OddEnd(Pad(k) + s, "A");
    PairEntries("Q", r);
    var pair := ["Q" + DOUBLE, r + DOUBLE];
    FirstEntry(e, pair);
    more := [e] + pair;
    FirstEntry(d, more);
    Regroup(Pad(k), Odd(s, "A"), Flatten(pair));
    TakesMore(x, d, n, Pad(k) + t, rest, t, Entries(more));
    SwallowCrashes(x, s, "A", "Q", r, EntryOf(e, |Pad(k) + s| + 4),
                   outs + Round(x, false, d + (Pad(k) + t), [EntryOf(d, n)] + Entries(more)).outs);
  }

  /** The continuation when it does not. */
  lemma OpenCrashes(x: Syntax, d: string, n: nat, s: string, r: string, outs: seq<Outcome>) returns (more: seq<string>)
    requires Accepted(d, n) && !Aligned(x, d, n) && Words(x, s, r) && Line(d).GotLine? && !Closed(Line(d).rest)
    ensures AllAccepted([d] + more)
    ensures Frames(x, false, Flatten([d] + more), Entries([d] + more), outs).next == Crashed
  {
    hide FirstDouble, Line, Headers, Odd, Round, OddTail, Pad;
    var k := |d| - (n + 4);
    var u := "Z" + DOUBLE + (Pad(k) + r + DOUBLE);
    OpenCloses(x, Line(d).rest, Pad(k) + r + DOUBLE, "", []);
    NoCRJoined(Pad(k), r);
    PairEntries("Z", Pad(k) + r);
    more := ["Z" + DOUBLE, Pad(k) + r + DOUBLE];
    FirstEntry(d, more);
    Regroup(Pad(k), r, DOUBLE);
    assert "" + (Pad(k) + (r + DOUBLE)) == Pad(k) + (r + DOUBLE);
    TakesMore(x, d, n, u, "", r + DOUBLE, Entries(more));
    assert r + DOUBLE + "" == r + DOUBLE;
    RefusedCrashes(x, r, "", Entry(0, 5), [Entry(0, |Pad(k) + r| + 4)]);
  }

  /**
   * Every misaligned datagram, behind any number of aligned ones, can be followed by accepted datagrams that crash the
   * parser, as soon as one start line without '\r' is accepted and one of four bytes or more is refused.
   */
  lemma MisalignedCrashes(x: Syntax, ds: seq<string>, d: string, n: nat, s: string, r: string, outs: seq<Outcome>)
    returns (more: seq<string>)
    requires AllAligned(x, ds) && Accepted(d, n) && !Aligned(x, d, n) && Words(x, s, r)
    ensures AllAccepted(ds + ([d] + more))
    ensures Frames(x, false, Flatten(ds + ([d] + more)), Entries(ds + ([d] + more)), outs).next == Crashed
  {
    hide FirstDouble, Frames, Aligned, Words, Closed;
    FirstEnd(d, n);
    if Closed(Line(d).rest) {
      more := ClosedCrashes(x, d, n, s, r, outs + AllExpected(x, ds));
    } else {
      more := OpenCrashes(x, d, n, s, r, outs + AllExpected(x, ds));
    }
    AlignedPrefix(x, ds, [d] + more, outs);
  }
}
