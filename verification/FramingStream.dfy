/** Streamed parsing undoes printing, however the bytes were split into writes. */
module FramingStream {
  import opened Wrappers
  import opened Text
  import opened ParserBuffers
  import opened Framing
  import FramingIsolation

  /** A message to print: each field is a logical header line, folded into one or more physical lines. */
  datatype Source = Source(start: string, headers: seq<seq<string>>, body: string)

  /** The physical lines, each with its CRLF. */
  function Lines(lines: seq<string>): string {
    if lines == [] then "" else lines[0] + CRLF + Lines(lines[1..])
  }

  function Unfolded(headers: seq<seq<string>>): seq<string> {
    if headers == [] then [] else headers[0] + Unfolded(headers[1..])
  }

  /** message.String. */
  function Print(m: Source): string {
    m.start + CRLF + (Lines(Unfolded(m.headers)) + CRLF + m.body)
  }

  function PrintAll(ms: seq<Source>): string {
    if ms == [] then "" else Print(ms[0]) + PrintAll(ms[1..])
  }

  predicate Folding(lines: seq<string>) {
    && lines != []
    && (forall i :: 0 <= i < |lines| ==> lines[i] != "" && Clean(lines[i]))
    && (forall i :: 0 <= i < |lines| ==> (IsWs(lines[i][0]) <==> i > 0))
  }

  /** The headers that the logical lines hold, line by line; a line in error holds none. */
  function FieldsOf(x: Syntax, headers: seq<seq<string>>): seq<Field> {
    if headers == [] then []
    else (match x.header(Join(headers[0], " ")) case None => [] case Some(more) => more) + FieldsOf(x, headers[1..])
  }

  /** Exactly one of the fields is a Content-Length, and it says `n`. */
  ghost predicate OneLength(fields: seq<Field>, n: nat) {
    exists i :: 0 <= i < |fields| && fields[i] == Length(n) &&
                forall j :: 0 <= j < |fields| && j != i ==> !fields[j].Length?
  }

  ghost predicate NoLengths(fields: seq<Field>) {
    forall i :: 0 <= i < |fields| ==> !fields[i].Length?
  }

  ghost predicate TwoLengths(fields: seq<Field>) {
    exists i, j :: 0 <= i < j < |fields| && fields[i].Length? && fields[j].Length?
  }

  /** A start line that is accepted and headers that the reader can cut. */
  ghost predicate WellCut(x: Syntax, m: Source) {
    Clean(m.start) && x.start(m.start) && forall i :: 0 <= i < |m.headers| ==> Folding(m.headers[i])
  }

  /** One Content-Length besides, equal to the size of the body. */
  ghost predicate WellFormed(x: Syntax, m: Source) {
    WellCut(x, m) && OneLength(FieldsOf(x, m.headers), |m.body|)
  }

  function Parsed(x: Syntax, m: Source): Outcome {
    Message(m.start, FieldsOf(x, m.headers), if x.blank(m.body) then "" else m.body)
  }

  function AllParsed(x: Syntax, ms: seq<Source>): (outs: seq<Outcome>)
    ensures |outs| == |ms| && forall i :: 0 <= i < |ms| ==> outs[i] == Parsed(x, ms[i])
  {
    seq(|ms|, i requires 0 <= i < |ms| => Parsed(x, ms[i]))
  }

  // ---- the header section of a printed message

  /** What the section's loop makes of a list of lines; the pair is the open logical line and the headers so far. */
  function Gather(x: Syntax, lines: seq<string>, buffer: string, fields: seq<Field>): (string, seq<Field>)
    requires forall i :: 0 <= i < |lines| ==> lines[i] != ""
  {
    if lines == [] then (buffer, fields)
    else if !IsWs(lines[0][0]) then Gather(x, lines[1..], lines[0], Flush(x, buffer, fields))
    else Gather(x, lines[1..], if buffer != "" then buffer + " " + lines[0] else "", fields)
  }

  predicate Cut(lines: seq<string>) {
    forall i :: 0 <= i < |lines| ==> lines[i] != "" && Clean(lines[i])
  }

  /** The loop reads back the physical lines and stops behind the empty one. */
  lemma {:induction false} LinesRead(x: Syntax, lines: seq<string>, t: string, buffer: string, fields: seq<Field>)
    requires Cut(lines)
    ensures var g := Gather(x, lines, buffer, fields);
            Headers(x, Lines(lines) + CRLF + t, buffer, fields) == Section(Flush(x, g.0, g.1), t)
    decreases |lines|
  {
    hide Line, Clean, Flush;
    if lines == [] {
      assert Lines(lines) + CRLF + t == CRLF + t;
      assert (CRLF + t)[2..] == t;
      FramingIsolation.EmptyLine(CRLF + t);
    } else {
      var rest := Lines(lines[1..]) + CRLF + t;
      assert lines[0] + CRLF + Lines(lines[1..]) + CRLF + t == lines[0] + CRLF + rest;
      LineExactly(lines[0], rest);
      if !IsWs(lines[0][0]) {
        LinesRead(x, lines[1..], t, lines[0], Flush(x, buffer, fields));
      } else {
        LinesRead(x, lines[1..], t, if buffer != "" then buffer + " " + lines[0] else "", fields);
      }
    }
  }

  /** Continuation lines are joined to the open logical line. */
  lemma {:induction false} Continued(x: Syntax, buffer: string, lines: seq<string>, more: seq<string>, fields: seq<Field>)
    requires buffer != "" && Cut(lines) && Cut(more)
    requires forall i :: 0 <= i < |lines| ==> IsWs(lines[i][0])
    ensures Gather(x, lines + more, buffer, fields) == Gather(x, more, Join([buffer] + lines, " "), fields)
    decreases |lines|
  {
    hide Clean;
    if lines == [] {
      assert lines + more == more;
    } else {
      assert (lines + more)[1..] == lines[1..] + more;
      Continued(x, buffer + " " + lines[0], lines[1..], more, fields);
      JoinFirst(buffer, lines[0], lines[1..]);
      assert [buffer] + lines == [buffer, lines[0]] + lines[1..];
    }
  }

  lemma JoinFirst(a: string, b: string, rest: seq<string>)
    ensures Join([a + " " + b] + rest, " ") == Join([a, b] + rest, " ")
  {
    assert ([a, b] + rest)[1..] == [b] + rest;
    if rest != [] {
      assert ([b] + rest)[1..] == rest && ([a + " " + b] + rest)[1..] == rest;
    }
  }

  lemma {:induction false} UnfoldedCut(headers: seq<seq<string>>)
    requires forall i :: 0 <= i < |headers| ==> Folding(headers[i])
    ensures Cut(Unfolded(headers))
    decreases |headers|
  {
    hide Clean;
    if headers != [] {
      UnfoldedCut(headers[1..]);
    }
  }

  /** Folding disappears: the logical lines come out joined with blanks. */
  lemma {:induction false} Gathered(x: Syntax, headers: seq<seq<string>>, buffer: string, fields: seq<Field>)
    requires forall i :: 0 <= i < |headers| ==> Folding(headers[i])
    requires Cut(Unfolded(headers))
    ensures var g := Gather(x, Unfolded(headers), buffer, fields);
            Flush(x, g.0, g.1) == Flush(x, buffer, fields) + FieldsOf(x, headers)
    decreases |headers|
  {
    hide Clean, Flush;
    if headers != [] {
      var (f, more) := (headers[0], Unfolded(headers[1..]));
      UnfoldedCut(headers[1..]);
      var fields' := Flush(x, buffer, fields);
      assert (f + more)[0] == f[0] && (f + more)[1..] == f[1..] + more;
      Continued(x, f[0], f[1..], more, fields');
      assert [f[0]] + f[1..] == f;
      Gathered(x, headers[1..], Join(f, " "), fields');
      LogicalFlush(x, f, fields');
      var first := match x.header(Join(f, " ")) case None => [] case Some(more) => more;
      Regroup(fields', first, FieldsOf(x, headers[1..]));
    }
  }

  /** A whole logical line adds the headers that it holds. */
  lemma LogicalFlush(x: Syntax, lines: seq<string>, fields: seq<Field>)
    requires lines != [] && lines[0] != ""
    ensures Flush(x, Join(lines, " "), fields) ==
            fields + match x.header(Join(lines, " ")) case None => [] case Some(more) => more
  {
    assert Join(lines, " ") != "";
    assert fields + [] == fields;
  }

  // ---- messages

  lemma SectionRead(x: Syntax, m: Source, t: string)
    requires WellCut(x, m)
    ensures Headers(x, Lines(Unfolded(m.headers)) + CRLF + t, "", []) == Section(FieldsOf(x, m.headers), t)
  {
    hide Headers, Gather, Lines, FieldsOf, Clean, Folding;
    UnfoldedCut(m.headers);
    LinesRead(x, Unfolded(m.headers), t, "", []);
    Gathered(x, m.headers, "", []);
    assert [] + FieldsOf(x, m.headers) == FieldsOf(x, m.headers);
  }

  lemma {:induction false} LengthsOf(fields: seq<Field>)
    ensures NoLengths(fields) ==> Lengths(fields) == []
    ensures TwoLengths(fields) ==> |Lengths(fields)| > 1
    ensures forall n: nat :: OneLength(fields, n) ==> Lengths(fields) == [n]
    decreases |fields|
  {
    if fields != [] {
      var rest := fields[1..];
      LengthsOf(rest);
      assert forall i :: 0 <= i < |rest| ==> rest[i] == fields[i + 1];
      if fields[0].Length? {
        assert TwoLengths(fields) ==> !NoLengths(rest);
        LengthsSome(rest);
      } else {
        RestLengths(fields);
      }
    }
  }

  lemma {:induction false} LengthsSome(fields: seq<Field>)
    ensures !NoLengths(fields) ==> Lengths(fields) != []
    decreases |fields|
  {
    if fields != [] {
      LengthsSome(fields[1..]);
      assert forall i :: 1 <= i < |fields| ==> fields[i] == fields[1..][i - 1];
    }
  }

  lemma RestLengths(fields: seq<Field>)
    requires fields != [] && !fields[0].Length?
    ensures TwoLengths(fields) ==> TwoLengths(fields[1..])
    ensures forall n: nat :: OneLength(fields, n) ==> OneLength(fields[1..], n)
  {
    var rest := fields[1..];
    assert forall i :: 0 <= i < |rest| ==> rest[i] == fields[i + 1];
    if i, j :| 0 <= i < j < |fields| && fields[i].Length? && fields[j].Length? {
      assert rest[i - 1].Length? && rest[j - 1].Length?;
    }
    forall n: nat | OneLength(fields, n) ensures OneLength(rest, n) {
      var i :| 0 <= i < |fields| && fields[i] == Length(n) &&
               forall j :: 0 <= j < |fields| && j != i ==> !fields[j].Length?;
      assert rest[i - 1] == Length(n);
    }
  }

  /**
   * One streamed round, whatever stands behind the headers: with one Content-Length it takes that many bytes as the
   * body or, if they are not there, ends in an error; with none or several it reports that and takes no body.
   */
  lemma HeadRead(x: Syntax, m: Source, t: string, n: nat)
    requires WellCut(x, m)
    ensures var (r, fields) := (Round(x, true, Print(m.(body := "")) + t, []), FieldsOf(x, m.headers));
            && (NoLengths(fields) ==> r == Turn([NoLength(m.start, fields)], t, [], Again))
            && (TwoLengths(fields) ==> r == Turn([ManyLengths(m.start, fields)], t, [], Again))
            && (OneLength(fields, n) && n <= |t| ==>
                  r == Turn([Message(m.start, fields, if x.blank(t[..n]) then "" else t[..n])], t[n..], [], Again))
            && (OneLength(fields, n) && n > |t| ==> r == Turn([BrokenBody(m.start, fields)], "", [], Again))
  {
    hide Headers, Lines, Unfolded, FieldsOf, Line, Clean, Folding, Lengths, NoLengths, OneLength, TwoLengths;
    var rest := Lines(Unfolded(m.headers)) + CRLF + t;
    Behind(m.start, Lines(Unfolded(m.headers)), "", t);
    assert "" + t == t;
    LineExactly(m.start, rest);
    SectionRead(x, m, t);
    LengthsOf(FieldsOf(x, m.headers));
  }

  /** A start line that is refused is reported, and the next round starts behind it. */
  lemma RefusedLine(x: Syntax, line: string, t: string, queue: seq<Entry>)
    requires Clean(line) && !x.start(line)
    ensures Round(x, true, line + CRLF + t, queue) == Turn([BadStart(line)], t, queue, Again)
  {
    hide Line, Clean;
    LineExactly(line, t);
  }

  /** A continuation line in front of all headers is dropped. */
  lemma LeadingContinuation(x: Syntax, line: string, rest: string)
    requires Clean(line) && line != "" && IsWs(line[0])
    ensures Headers(x, line + CRLF + rest, "", []) == Headers(x, rest, "", [])
  {
    hide Line, Clean;
    LineExactly(line, rest);
  }

  /** One round reads one printed message, whatever follows. */
  lemma MessageRead(x: Syntax, m: Source, t: string)
    requires WellFormed(x, m)
    ensures Round(x, true, Print(m) + t, []) == Turn([Parsed(x, m)], t, [], Again)
  {
    hide Round, Lines, Unfolded, FieldsOf, Clean, Folding, OneLength;
    HeadRead(x, m, m.body + t, |m.body|);
    var lines := Lines(Unfolded(m.headers));
    Behind(m.start, lines, m.body, t);
    Behind(m.start, lines, "", m.body + t);
    assert "" + (m.body + t) == m.body + t;
    assert (m.body + t)[..|m.body|] == m.body && (m.body + t)[|m.body|..] == t;
  }

  lemma Behind(start: string, lines: string, body: string, t: string)
    ensures start + CRLF + (lines + CRLF + body) + t == start + CRLF + (lines + CRLF + (body + t))
  {
  }

  /** A stream of printed messages is read back message by message, up to whatever follows them. */
  lemma {:induction false} MessagesRead(x: Syntax, ms: seq<Source>, t: string, outs: seq<Outcome>)
    requires forall i :: 0 <= i < |ms| ==> WellFormed(x, ms[i])
    ensures Frames(x, true, PrintAll(ms) + t, [], outs) == Frames(x, true, t, [], outs + AllParsed(x, ms))
    decreases |ms|
  {
    hide WellFormed, Round, Print, Parsed;
    if ms == [] {
      assert outs + AllParsed(x, ms) == outs;
      assert PrintAll(ms) + t == t;
    } else {
      MessageRead(x, ms[0], PrintAll(ms[1..]) + t);
      assert Print(ms[0]) + PrintAll(ms[1..]) + t == Print(ms[0]) + (PrintAll(ms[1..]) + t);
      MessagesRead(x, ms[1..], t, outs + [Parsed(x, ms[0])]);
      assert outs + AllParsed(x, ms) == outs + [Parsed(x, ms[0])] + AllParsed(x, ms[1..]);
    }
  }

  /** Any way of splitting the printed messages into writes gives exactly those messages, in order. */
  lemma StreamFramed(x: Syntax, ms: seq<Source>, writes: seq<string>)
    requires forall i :: 0 <= i < |ms| ==> WellFormed(x, ms[i])
    requires Flatten(writes) == PrintAll(ms)
    ensures Frames(x, true, Flatten(writes), [], []) == Turn(AllParsed(x, ms), "", [], Ended)
  {
    hide WellFormed, PrintAll, AllParsed;
    assert PrintAll(ms) + "" == PrintAll(ms);
    MessagesRead(x, ms, "", []);
    assert [] + AllParsed(x, ms) == AllParsed(x, ms);
  }

  function Original(x: Syntax, m: Source): Outcome {
    Message(m.start, FieldsOf(x, m.headers), m.body)
  }

  /** The bodies come through unchanged if and only if each is empty or not all white space. */
  lemma BodiesKept(x: Syntax, ms: seq<Source>, writes: seq<string>)
    requires forall i :: 0 <= i < |ms| ==> WellFormed(x, ms[i])
    requires Flatten(writes) == PrintAll(ms)
    ensures Frames(x, true, Flatten(writes), [], []).outs == seq(|ms|, i requires 0 <= i < |ms| => Original(x, ms[i]))
            <==> forall i :: 0 <= i < |ms| ==> ms[i].body == "" || !x.blank(ms[i].body)
  {
    hide WellFormed, PrintAll, Frames, FieldsOf;
    StreamFramed(x, ms, writes);
    var originals := seq(|ms|, i requires 0 <= i < |ms| => Original(x, ms[i]));
    forall i | 0 <= i < |ms|
      ensures AllParsed(x, ms)[i] == originals[i] <==> ms[i].body == "" || !x.blank(ms[i].body)
    {
    }
    if forall i :: 0 <= i < |ms| ==> ms[i].body == "" || !x.blank(ms[i].body) {
      assert AllParsed(x, ms) == originals;
    }
  }
}
