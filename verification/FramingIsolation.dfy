/** Unstreamed parsing: each round consumes exactly one datagram, and exactly when. */
module FramingIsolation {
  import opened Wrappers
  import opened Text
  import opened ParserBuffers
  import opened Framing

  /** Where the header section ends according to getBodyLength. */
  ghost predicate Accepted(d: string, n: nat) {
    FirstDouble(d, 0) == Some(n)
  }

  /** The start line is refused, or the '\r' of the first double CRLF starts a pair. */
  ghost predicate Aligned(x: Syntax, d: string, n: nat)
    requires Accepted(d, n)
  {
    (Line(d).GotLine? && !x.start(Line(d).line)) || !OddTail(d[..n])
  }

  function EntryOf(d: string, n: nat): Entry
    requires n + 4 <= |d|
  {
    Entry(|d| - (n + 4), |d|)
  }

  /** The entry is the one that Write queues for the datagram, and Write drops exactly the others. */
  lemma WriteQueues(d: string)
    ensures BodyLength(d).Some? <==> FirstDouble(d, 0).Some?
    ensures FirstDouble(d, 0).Some? ==> EntryOf(d, FirstDouble(d, 0).value) == Entry(BodyLength(d).value, |d|)
  {
  }

  /** A header text whose first double CRLF is at `n`, and which does not start with CRLF. */
  ghost predicate SectionText(s: string, n: nat) {
    && 0 < n && DoubleAt(s, n)
    && (forall k :: 0 <= k < n ==> !DoubleAt(s, k))
    && !EndsAt(s, 0)
  }

  /** The section is closed by an empty line before the stream ends. */
  predicate Closed(s: string)
    decreases |s|
  {
    match Line(s) case NoLine => false case GotLine(line, rest) => line == "" || Closed(rest)
  }

  lemma DoubleChars(s: string, i: nat)
    ensures DoubleAt(s, i) <==> i + 4 <= |s| && s[i] == '\r' && s[i + 1] == '\n' && s[i + 2] == '\r' && s[i + 3] == '\n'
  {
    if i + 4 <= |s| {
      assert s[i..i + 4] == [s[i], s[i + 1], s[i + 2], s[i + 3]];
    }
  }

  lemma DoubleBehind(s: string, p: nat, k: nat)
    requires p <= |s|
    ensures DoubleAt(s[p..], k) == DoubleAt(s, p + k)
  {
    DoubleChars(s[p..], k);
    DoubleChars(s, p + k);
  }

  lemma NoTailBehindLF(s: string)
    requires s != "" && s[|s| - 1] == '\n'
    ensures !OddTail(s)
  {
  }

  /** The line that contains the start of the double CRLF ends there, or two bytes later. */
  lemma FirstEnd(s: string, n: nat)
    requires DoubleAt(s, n)
    ensures End(s, 0).Some? && Line(s).GotLine?
    ensures var i := End(s, 0).value; i < n || (i == n && !OddTail(s[..n])) || (i == n + 2 && OddTail(s[..n]))
  {
    DoubleChars(s, n);
    NoTailBehindLF(s[..n + 2]);
    assert EndsAt(s, n + 2);
    assert !EndsAt(s, n + 1);
    assert EndsAt(s, n) <==> !OddTail(s[..n]);
  }

  /** Behind a line that ends before the double CRLF, the rest is again a header text. */
  lemma RestIsSection(s: string, n: nat, i: nat)
    requires DoubleAt(s, n) && (forall k :: 0 <= k < n ==> !DoubleAt(s, k))
    requires i < n && EndsAt(s, i)
    ensures i + 2 < n && SectionText(s[i + 2..], n - i - 2)
    ensures OddTail(s[i + 2..][..n - i - 2]) == OddTail(s[..n])
  {
    hide OddTail, DoubleAt;
    DoubleChars(s, n);
    DoubleChars(s, i);
    assert i + 2 <= n;
    var rest := s[i + 2..];
    forall k: nat ensures DoubleAt(rest, k) == DoubleAt(s, i + 2 + k) {
      DoubleBehind(s, i + 2, k);
    }
    assert i + 2 != n;
    assert s[..i + 2] + rest[..n - i - 2] == s[..n];
    NoTailBehindLF(s[..i + 2]);
    TailBehind(s[..i + 2], rest[..n - i - 2]);
  }

  lemma EmptyLine(s: string)
    requires |s| >= 2 && s[0] == '\r' && s[1] == '\n'
    ensures Line(s) == GotLine("", s[2..])
  {
    assert s[..0] == "";
    assert EndsAt(s, 0);
    LineAt(s, 0);
  }

  /** With an even tail, the header section ends exactly at the double CRLF. */
  lemma {:induction false} SectionEnds(x: Syntax, s: string, n: nat, buffer: string, fields: seq<Field>)
    requires SectionText(s, n) && !OddTail(s[..n])
    ensures Closed(s) && Headers(x, s, buffer, fields).rest == s[n + 4..]
    decreases |s|
  {
    hide OddTail, DoubleAt, EndsAt;
    FirstEnd(s, n);
    var i := End(s, 0).value;
    var GotLine(line, rest) := Line(s);
    assert line != "";
    var buffer' := if !IsWs(line[0]) then line else if buffer != "" then buffer + " " + line else "";
    var fields' := if !IsWs(line[0]) then Flush(x, buffer, fields) else fields;
    assert Headers(x, s, buffer, fields) == Headers(x, rest, buffer', fields');
    DoubleChars(s, n);
    if i == n {
      EmptyLine(rest);
      SliceTwice(s, n + 2, 2);
    } else {
      RestIsSection(s, n, i);
      SectionEnds(x, rest, n - i - 2, buffer', fields');
      SliceTwice(s, i + 2, n - i + 2);
    }
  }

  /** With an odd tail it runs past the double CRLF. */
  lemma {:induction false} SectionOverruns(x: Syntax, s: string, n: nat, buffer: string, fields: seq<Field>)
    requires SectionText(s, n) && OddTail(s[..n])
    ensures var rest := Headers(x, s, buffer, fields).rest; rest == "" || |rest| + 2 + n + 4 <= |s|
    decreases |s|
  {
    hide OddTail, DoubleAt, EndsAt;
    FirstEnd(s, n);
    var i := End(s, 0).value;
    var GotLine(line, rest) := Line(s);
    assert line != "";
    var buffer' := if !IsWs(line[0]) then line else if buffer != "" then buffer + " " + line else "";
    var fields' := if !IsWs(line[0]) then Flush(x, buffer, fields) else fields;
    assert Headers(x, s, buffer, fields) == Headers(x, rest, buffer', fields');
    if i < n {
      RestIsSection(s, n, i);
      SectionOverruns(x, rest, n - i - 2, buffer', fields');
    } else {
      HeadersShrink(x, rest, buffer', fields');
    }
  }

  lemma {:induction false} HeadersShrink(x: Syntax, s: string, buffer: string, fields: seq<Field>)
    ensures var rest := Headers(x, s, buffer, fields).rest; rest == "" || |rest| + 2 <= |s|
    decreases |s|
  {
    match Line(s)
    case NoLine =>
    case GotLine(line, rest) =>
      if line != "" {
        HeadersShrink(x, rest, line, Flush(x, buffer, fields));
        HeadersShrink(x, rest, if buffer != "" then buffer + " " + line else "", fields);
      }
  }

  /** What a closed section holds does not depend on what follows it. */
  lemma {:induction false} HeadersExtend(x: Syntax, s: string, t: string, buffer: string, fields: seq<Field>)
    requires Closed(s)
    ensures var sec := Headers(x, s, buffer, fields);
            Headers(x, s + t, buffer, fields) == Section(sec.fields, sec.rest + t)
    decreases |s|
  {
    hide Line, Flush;
    var GotLine(line, rest) := Line(s);
    LineExtends(s, t);
    if line != "" {
      var buffer' := if !IsWs(line[0]) then line else if buffer != "" then buffer + " " + line else "";
      var fields' := if !IsWs(line[0]) then Flush(x, buffer, fields) else fields;
      HeadersExtend(x, rest, t, buffer', fields');
    }
  }

  /** What comes out for a datagram, by its own bytes alone. */
  ghost function Expected(x: Syntax, d: string, n: nat): Outcome
    requires Accepted(d, n)
  {
    match Line(d)
    case NoLine => BadStart(d)
    case GotLine(line, rest) =>
      if !x.start(line) then BadStart(line)
      else Message(line, Headers(x, rest, "", []).fields, if x.blank(d[n + 4..]) then "" else d[n + 4..])
  }

  lemma SkipWhole(s: string, t: string)
    ensures Skip(s + t, |s|) == t
  {
  }

  /** The path of a refused start line: the skip drops exactly the rest of the datagram. */
  lemma RefusedIsolated(x: Syntax, d: string, n: nat, t: string, queue: seq<Entry>)
    requires Accepted(d, n) && Line(d).GotLine? && !x.start(Line(d).line)
    ensures Round(x, false, d + t, [EntryOf(d, n)] + queue) == Turn([Expected(x, d, n)], t, queue, Again)
  {
    hide Line, Skip, FirstDouble;
    LineExtends(d, t);
    var GotLine(line, rest) := Line(d);
    SkipWhole(rest, t);
    assert ([EntryOf(d, n)] + queue)[1..] == queue;
  }

  /** The header section behind the start line, when the pairs are aligned. */
  lemma AlignedSection(x: Syntax, d: string, n: nat)
    requires Accepted(d, n) && !OddTail(d[..n])
    ensures Line(d).GotLine? && Closed(Line(d).rest) && Headers(x, Line(d).rest, "", []).rest == d[n + 4..]
  {
    hide OddTail, DoubleAt, EndsAt;
    FirstEnd(d, n);
    var i := End(d, 0).value;
    var rest := Line(d).rest;
    DoubleChars(d, n);
    if i == n {
      EmptyLine(rest);
      SliceTwice(d, n + 2, 2);
    } else {
      RestIsSection(d, n, i);
      SectionEnds(x, rest, n - i - 2, "", []);
      SliceTwice(d, i + 2, n - i + 2);
    }
  }

  /** The path of an accepted start line. */
  lemma ReadIsolated(x: Syntax, d: string, n: nat, t: string, queue: seq<Entry>)
    requires Accepted(d, n) && !OddTail(d[..n]) && Line(d).GotLine? && x.start(Line(d).line)
    ensures Round(x, false, d + t, [EntryOf(d, n)] + queue) == Turn([Expected(x, d, n)], t, queue, Again)
  {
    hide Line, FirstDouble, Headers, OddTail;
    AlignedSection(x, d, n);
    LineExtends(d, t);
    var GotLine(line, rest) := Line(d);
    HeadersExtend(x, rest, t, "", []);
    var body := d[n + 4..];
    assert Chunk(body + t, |body|) == GotChunk(body, t);
    assert ([EntryOf(d, n)] + queue)[1..] == queue;
  }

  /** Isolation: the round consumes the datagram's bytes and its entry, and its outcome depends on nothing else. */
  lemma DatagramIsolated(x: Syntax, d: string, n: nat, t: string, queue: seq<Entry>)
    requires Accepted(d, n) && Aligned(x, d, n)
    ensures Round(x, false, d + t, [EntryOf(d, n)] + queue) == Turn([Expected(x, d, n)], t, queue, Again)
  {
    FirstEnd(d, n);
    if !x.start(Line(d).line) {
      RefusedIsolated(x, d, n, t, queue);
    } else {
      ReadIsolated(x, d, n, t, queue);
    }
  }

  /** A misaligned datagram: the header section reads on into the body. */
  lemma MisalignedSection(x: Syntax, d: string, n: nat, t: string)
    requires Accepted(d, n) && OddTail(d[..n])
    ensures Line(d + t).GotLine?
    ensures var rest := Headers(x, Line(d + t).rest, "", []).rest; rest == "" || |rest| + 2 + n + 4 <= |d + t|
  {
    hide OddTail, DoubleAt, EndsAt, FirstDouble;
    var s := d + t;
    DoubleChars(d, n);
    forall k | 0 <= k <= n ensures DoubleAt(s, k) == DoubleAt(d, k) {
      DoubleChars(s, k);
      DoubleChars(d, k);
    }
    assert s[..n] == d[..n];
    FirstEnd(s, n);
    var i := End(s, 0).value;
    var rest := Line(s).rest;
    if i < n {
      RestIsSection(s, n, i);
      SectionOverruns(x, rest, n - i - 2, "", []);
    } else {
      HeadersShrink(x, rest, "", []);
    }
  }

  /**
   * With more bytes behind it, the next round starts at the next datagram if and only if this one is aligned: its
   * start line is refused or an even number of '\r' stands before its first double CRLF.
   */
  lemma IsolatedExactly(x: Syntax, d: string, n: nat, t: string, queue: seq<Entry>)
    requires Accepted(d, n) && t != ""
    ensures Round(x, false, d + t, [EntryOf(d, n)] + queue).rest == t <==> Aligned(x, d, n)
  {
    if Aligned(x, d, n) {
      DatagramIsolated(x, d, n, t, queue);
    } else {
      hide Line, FirstDouble, Headers, OddTail;
      MisalignedSection(x, d, n, t);
      FirstEnd(d, n);
      LineExtends(d, t);
    }
  }

  /**
   * With nothing behind it, the round of a datagram ends as that of an aligned one if and only if it is aligned or has
   * no body.
   */
  lemma LastExactly(x: Syntax, d: string, n: nat, queue: seq<Entry>)
    requires Accepted(d, n)
    ensures Round(x, false, d, [EntryOf(d, n)] + queue) == Turn([Expected(x, d, n)], "", queue, Again) <==>
            Aligned(x, d, n) || |d| == n + 4
  {
    assert d + "" == d;
    if Aligned(x, d, n) {
      DatagramIsolated(x, d, n, "", queue);
    } else {
      hide Line, FirstDouble, Headers, OddTail;
      MisalignedSection(x, d, n, "");
      FirstEnd(d, n);
      var sec := Headers(x, Line(d).rest, "", []);
      assert ([EntryOf(d, n)] + queue)[1..] == queue;
      if |d| == n + 4 {
        assert sec.rest == "" && d[n + 4..] == "" && sec.rest[..0] == "" && sec.rest[0..] == "";
      }
    }
  }

  /** A round that starts at its own datagram with its own entry at the head of the queue pops it and goes on. */
  lemma OwnEntryFits(x: Syntax, d: string, n: nat, t: string, queue: seq<Entry>)
    requires Accepted(d, n)
    ensures var r := Round(x, false, d + t, [EntryOf(d, n)] + queue); r.next == Again && r.queue == queue
  {
    hide Line, FirstDouble, Headers, OddTail, Skip;
    FirstEnd(d, n);
    LineExtends(d, t);
    assert ([EntryOf(d, n)] + queue)[1..] == queue;
  }

  // ---- all datagrams of a run

  ghost predicate AllAccepted(ds: seq<string>) {
    forall i :: 0 <= i < |ds| ==> FirstDouble(ds[i], 0).Some?
  }

  ghost predicate AllAligned(x: Syntax, ds: seq<string>) {
    AllAccepted(ds) && forall i :: 0 <= i < |ds| ==> Aligned(x, ds[i], FirstDouble(ds[i], 0).value)
  }

  ghost function Entries(ds: seq<string>): seq<Entry>
    requires AllAccepted(ds)
  {
    if ds == [] then [] else [EntryOf(ds[0], FirstDouble(ds[0], 0).value)] + Entries(ds[1..])
  }

  ghost function AllExpected(x: Syntax, ds: seq<string>): (outs: seq<Outcome>)
    requires AllAccepted(ds)
    ensures |outs| == |ds|
    ensures forall i :: 0 <= i < |ds| ==> outs[i] == Expected(x, ds[i], FirstDouble(ds[i], 0).value)
  {
    if ds == [] then [] else [Expected(x, ds[0], FirstDouble(ds[0], 0).value)] + AllExpected(x, ds[1..])
  }

  /** Aligned datagrams give one outcome each, in order, and leave both queues at what follows them. */
  lemma {:induction false} AlignedPrefix(x: Syntax, ds: seq<string>, more: seq<string>, outs: seq<Outcome>)
    requires AllAligned(x, ds) && AllAccepted(more) && AllAccepted(ds + more)
    ensures Frames(x, false, Flatten(ds + more), Entries(ds + more), outs)
         == Frames(x, false, Flatten(more), Entries(more), outs + AllExpected(x, ds))
    decreases |ds|
  {
    hide Aligned, FirstDouble, Round;
    if ds == [] {
      assert ds + more == more && outs + [] == outs;
    } else {
      var (d, rest) := (ds[0], ds[1..]);
      var n := FirstDouble(d, 0).value;
      assert (ds + more)[1..] == rest + more;
      DatagramIsolated(x, d, n, Flatten(rest + more), Entries(rest + more));
      AlignedPrefix(x, rest, more, outs + [Expected(x, d, n)]);
      assert outs + AllExpected(x, ds) == outs + [Expected(x, d, n)] + AllExpected(x, rest);
    }
  }

  /** One outcome for each datagram, in order, and nothing left over in either queue. */
  lemma DatagramsIsolated(x: Syntax, ds: seq<string>, outs: seq<Outcome>)
    requires AllAligned(x, ds)
    ensures Frames(x, false, Flatten(ds), Entries(ds), outs) == Turn(outs + AllExpected(x, ds), "", [], Ended)
  {
    hide Aligned, FirstDouble, Round, AllExpected;
    assert ds + [] == ds;
    AlignedPrefix(x, ds, [], outs);
    EmptyStream(x);
    assert outs + AllExpected(x, ds) + [] == outs + AllExpected(x, ds);
  }

  lemma EmptyStream(x: Syntax)
    ensures Round(x, false, "", []) == Turn([], "", [], Ended)
  {
  }
}
