/** The parser's loop: it cuts a byte stream into messages, by Content-Length or by the lengths of the datagrams. */
module Framing {
  import opened Wrappers
  import opened Text
  import opened ParserBuffers

  /** A parsed header: Content-Length with its value, or any other one. */
  datatype Field = Length(n: nat) | Other(text: string)

  /**
   * The parsers of single lines: whether a start line is accepted, the headers of a logical header line (None is an
   * error), and whether a body is nothing but white space.
   */
  datatype Syntax = Syntax(start: string -> bool, header: string -> Option<seq<Field>>, blank: string -> bool)

  /** What the parser puts on its two outgoing channels, in order. */
  datatype Outcome =
    | Message(start: string, fields: seq<Field>, body: string)
    | BadStart(line: string)
    | NoLength(start: string, fields: seq<Field>)
    | ManyLengths(start: string, fields: seq<Field>)
    | BrokenBody(start: string, fields: seq<Field>)

  /** A datagram's entry in the queue of lengths: of its body and of the whole. */
  datatype Entry = Entry(body: nat, whole: nat)

  // ---- Write

  const DOUBLE := "\r\n\r\n"

  predicate DoubleAt(s: string, i: nat) {
    i + 4 <= |s| && s[i..i + 4] == DOUBLE
  }

  /** strings.Index of the double CRLF, from `i` on. */
  function FirstDouble(s: string, i: nat): (r: Option<nat>)
    requires i <= |s|
    ensures r.None? ==> forall k :: i <= k <= |s| ==> !DoubleAt(s, k)
    ensures r.Some? ==> i <= r.value && DoubleAt(s, r.value) && forall k :: i <= k < r.value ==> !DoubleAt(s, k)
    decreases |s| - i
  {
    if DoubleAt(s, i) then Some(i) else if i == |s| then None else FirstDouble(s, i + 1)
  }

  /** getBodyLength; None stands for -1. What is counted stands behind the first double CRLF. */
  function BodyLength(data: string): (r: Option<nat>)
    ensures r.None? <==> forall k :: 0 <= k <= |data| ==> !DoubleAt(data, k)
    ensures r.Some? ==>
              && r.value + 4 <= |data| && DoubleAt(data, |data| - r.value - 4)
              && forall k :: 0 <= k < |data| - r.value - 4 ==> !DoubleAt(data, k)
  {
    match FirstDouble(data, 0)
    case None => None
    case Some(i) => Some(|data| - (i + 4))
  }

  // ---- the header section

  function Flush(x: Syntax, buffer: string, fields: seq<Field>): seq<Field> {
    if buffer == "" then fields
    else match x.header(buffer) case None => fields case Some(more) => fields + more
  }

  datatype Section = Section(fields: seq<Field>, rest: string)

  /**
   * The lines up to the first empty one, with `buffer` holding the logical line so far. A stream that ends in the
   * section leaves the last logical line unparsed.
   */
  function Headers(x: Syntax, s: string, buffer: string, fields: seq<Field>): (r: Section)
    ensures |r.rest| <= |s|
    decreases |s|
  {
    match Line(s)
    case NoLine => Section(fields, "")
    case GotLine(line, rest) =>
      if line == "" then Section(Flush(x, buffer, fields), rest)
      else if !IsWs(line[0]) then Headers(x, rest, line, Flush(x, buffer, fields))
      else Headers(x, rest, if buffer != "" then buffer + " " + line else "", fields)
  }

  function Lengths(fields: seq<Field>): seq<nat> {
    if fields == [] then []
    else (if fields[0].Length? then [fields[0].n] else []) + Lengths(fields[1..])
  }

  // ---- one round, and the loop

  /** Again goes on with the loop, Ended is the end of the stream, Waits an empty queue, Crashed a negative size. */
  datatype Next = Again | Ended | Waits | Crashed

  datatype Turn = Turn(outs: seq<Outcome>, rest: string, queue: seq<Entry>, next: Next)

  function Skip(s: string, n: nat): string {
    match Chunk(s, n) case NoChunk => "" case GotChunk(_, rest) => rest
  }

  function Body(x: Syntax, line: string, sec: Section, n: nat, queue: seq<Entry>): Turn {
    match Chunk(sec.rest, n)
    case NoChunk => Turn([BrokenBody(line, sec.fields)], "", queue, Again)
    case GotChunk(body, rest) =>
      Turn([Message(line, sec.fields, if x.blank(body) then "" else body)], rest, queue, Again)
  }

  function Refuse(streamed: bool, line: string, s: string, queue: seq<Entry>): Turn {
    if streamed then Turn([BadStart(line)], s, queue, Again)
    else if queue == [] then Turn([BadStart(line)], s, queue, Waits)
    else if queue[0].whole < |line| + 2 then Turn([BadStart(line)], s, queue[1..], Crashed)
    else Turn([BadStart(line)], Skip(s, queue[0].whole - |line| - 2), queue[1..], Again)
  }

  function Accept(x: Syntax, streamed: bool, line: string, sec: Section, queue: seq<Entry>): Turn {
    if streamed then
      var lengths := Lengths(sec.fields);
      if |lengths| == 0 then Turn([NoLength(line, sec.fields)], sec.rest, queue, Again)
      else if |lengths| > 1 then Turn([ManyLengths(line, sec.fields)], sec.rest, queue, Again)
      else Body(x, line, sec, lengths[0], queue)
    else if queue == [] then Turn([], sec.rest, queue, Waits)
    else Body(x, line, sec, queue[0].body, queue[1..])
  }

  function Round(x: Syntax, streamed: bool, s: string, queue: seq<Entry>): (r: Turn)
    ensures r.next == Again ==> |r.rest| < |s|
  {
    match Line(s)
    case NoLine => Turn([], "", queue, Ended)
    case GotLine(line, rest) =>
      if x.start(line) then Accept(x, streamed, line, Headers(x, rest, "", []), queue)
      else Refuse(streamed, line, rest, queue)
  }

  /** The whole loop; `outs` is what came out before. */
  function Frames(x: Syntax, streamed: bool, s: string, queue: seq<Entry>, outs: seq<Outcome>): Turn
    decreases |s|
  {
    var r := Round(x, streamed, s, queue);
    if r.next == Again then Frames(x, streamed, r.rest, r.queue, outs + r.outs)
    else r.(outs := outs + r.outs)
  }

  class Parser {
    const x: Syntax
    const streamed: bool
    const input: ParserBuffer
    var bodyLengths: seq<Entry>
    var outs: seq<Outcome>

    constructor (x: Syntax, streamed: bool)
      ensures this.x == x && this.streamed == streamed && fresh(input)
      ensures input.Stream() == "" && Flowing(input.pipe) && bodyLengths == [] && outs == []
    {
      this.x, this.streamed := x, streamed;
      input := new ParserBuffer();
      bodyLengths, outs := [], [];
    }

    /**
     * Returns the number of bytes taken: a datagram without a double CRLF is dropped without an error. Only an empty
     * write of a streamed parser can bring the reader to a stall.
     */
    method Write(data: string) returns (n: nat)
      modifies this`bodyLengths, input
      ensures var length := BodyLength(data);
              if !streamed && length.None? then
                n == 0 && input.Stream() == old(input.Stream()) && input.pipe == old(input.pipe) &&
                bodyLengths == old(bodyLengths)
              else
                && n == |data| && input.Stream() == old(input.Stream()) + data
                && input.pipe == old(input.pipe) + [data]
                && bodyLengths == old(bodyLengths) + (if streamed then [] else [Entry(length.value, |data|)])
      ensures Flowing(old(input.pipe)) && (streamed ==> data != "") ==> Flowing(input.pipe)
    {
      if !streamed {
        var length := BodyLength(data);
        if length.None? {
          return 0;
        }
        bodyLengths := bodyLengths + [Entry(length.value, |data|)];
      }
      input.Write(data);
      return |data|;
    }

    /** The inner loop of parse. */
    method ReadHeaders() returns (fields: seq<Field>)
      modifies input
      ensures Flowing(old(input.pipe)) ==>
                Flowing(input.pipe) && Section(fields, input.Stream()) == Headers(x, old(input.Stream()), "", [])
      ensures |input.Stream()| <= |old(input.Stream())|
    {
      hide Flowing, Line;
      ghost var s := input.Stream();
      ghost var flowing := Flowing(input.pipe);
      var buffer := "";
      fields := [];
      while true
        invariant flowing ==> Flowing(input.pipe)
        invariant flowing ==> Headers(x, s, "", []) == Headers(x, input.Stream(), buffer, fields)
        invariant |input.Stream()| <= |s|
        decreases |input.Stream()|
      {
        var line, ok := input.NextLine();
        if !ok {
          return;
        }
        if |line| == 0 {
          fields := Flush(x, buffer, fields);
          return;
        }
        if !IsWs(line[0]) {
          fields := Flush(x, buffer, fields);
          buffer := line;
        } else if |buffer| > 0 {
          buffer := buffer + " " + line;
        }
      }
    }

    /** One turn of the outer loop. */
    method ParseRound() returns (next: Next)
      modifies this, input
      ensures |outs| >= |old(outs)| && outs[..|old(outs)|] == old(outs)
      ensures next == Again ==> |input.Stream()| < |old(input.Stream())|
      ensures Flowing(old(input.pipe)) ==>
                && Flowing(input.pipe)
                && Turn(outs[|old(outs)|..], input.Stream(), bodyLengths, next)
                   == Round(x, streamed, old(input.Stream()), old(bodyLengths))
    {
      hide Flowing, Line, Headers, Body;
      var startLine, ok := input.NextLine();
      if !ok {
        return Ended;
      }
      if !x.start(startLine) {
        outs := outs + [BadStart(startLine)];
        if !streamed {
          if bodyLengths == [] {
            return Waits;
          }
          var skip := bodyLengths[0].whole - |startLine| - 2;
          bodyLengths := bodyLengths[1..];
          if skip < 0 {
            return Crashed;
          }
          var _, _ := input.NextChunk(skip);
        }
        return Again;
      }
      var fields := ReadHeaders();
      var contentLength: nat;
      if streamed {
        var lengths := Lengths(fields);
        if |lengths| == 0 {
          outs := outs + [NoLength(startLine, fields)];
          return Again;
        } else if |lengths| > 1 {
          outs := outs + [ManyLengths(startLine, fields)];
          return Again;
        }
        contentLength := lengths[0];
      } else {
        if bodyLengths == [] {
          return Waits;
        }
        contentLength := bodyLengths[0].body;
        bodyLengths := bodyLengths[1..];
      }
      ReadBody(startLine, fields, contentLength);
      return Again;
    }

    /** The end of a round: the body. */
    method ReadBody(startLine: string, fields: seq<Field>, contentLength: nat)
      modifies this`outs, input
      ensures |outs| >= |old(outs)| && outs[..|old(outs)|] == old(outs)
      ensures |input.Stream()| <= |old(input.Stream())|
      ensures Flowing(old(input.pipe)) ==> Flowing(input.pipe)
      ensures Turn(outs[|old(outs)|..], input.Stream(), bodyLengths, Again)
              == Body(x, startLine, Section(fields, old(input.Stream())), contentLength, bodyLengths)
    {
      var body, whole := input.NextChunk(contentLength);
      if !whole {
        outs := outs + [BrokenBody(startLine, fields)];
      } else {
        outs := outs + [Message(startLine, fields, if x.blank(body) then "" else body)];
      }
    }

    /** The outer loop; a reader that gives up at a stall ends it. */
    method Parse() returns (next: Next)
      modifies this, input
      ensures Flowing(old(input.pipe)) ==>
                Turn(outs, input.Stream(), bodyLengths, next)
                == Frames(x, streamed, old(input.Stream()), old(bodyLengths), old(outs))
      ensures next != Again
    {
      hide Flowing, Round;
      ghost var all := Frames(x, streamed, input.Stream(), bodyLengths, outs);
      ghost var flowing := Flowing(input.pipe);
      next := Again;
      while next == Again
        invariant flowing ==> Flowing(input.pipe)
        invariant flowing ==> if next == Again then Frames(x, streamed, input.Stream(), bodyLengths, outs) == all
                              else Turn(outs, input.Stream(), bodyLengths, next) == all
        decreases next == Again, |input.Stream()|
      {
        ghost var before := outs;
        next := ParseRound();
        assert outs == before + outs[|before|..];
      }
    }
  }
}
