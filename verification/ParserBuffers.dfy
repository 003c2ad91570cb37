/**
 * The parser's input: a buffered reader over the writes that the parser receives. All writes of a run are in the
 * pipe from the start, and the end of the pipe is its closing.
 */
module ParserBuffers {
  import opened Wrappers
  import opened Text

  const CRLF := "\r\n"

  /** What the reader still holds: buffered bytes, then the unread writes in order. */
  function Flatten(writes: seq<string>): string {
    if writes == [] then "" else writes[0] + Flatten(writes[1..])
  }

  // ---- lines and chunks of a stream

  datatype LineResult = GotLine(line: string, rest: string) | NoLine

  /** An odd number of '\r' stands at the end: read in pairs, the last one takes the next byte as its partner. */
  predicate OddTail(s: string) {
    s != "" && s[|s| - 1] == '\r' && !OddTail(s[..|s| - 1])
  }

  /** A CRLF at `i` ends the line unless its '\r' is the partner of another one. */
  predicate EndsAt(s: string, i: nat) {
    i + 1 < |s| && s[i] == '\r' && s[i + 1] == '\n' && !OddTail(s[..i])
  }

  /** The first end of line at or behind `i`. */
  function End(s: string, i: nat): (r: Option<nat>)
    requires i <= |s|
    ensures r.None? ==> forall k :: i <= k < |s| ==> !EndsAt(s, k)
    ensures r.Some? ==> i <= r.value < |s| - 1 && EndsAt(s, r.value) && forall k :: i <= k < r.value ==> !EndsAt(s, k)
    decreases |s| - i
  {
    if i == |s| then None else if EndsAt(s, i) then Some(i) else End(s, i + 1)
  }

  /** NextLine, as a function of the whole stream. */
  function Line(s: string): (r: LineResult)
    ensures r.GotLine? ==> |r.line| + 2 + |r.rest| == |s|
  {
    match End(s, 0)
    case None => NoLine
    case Some(i) => GotLine(s[..i], s[i + 2..])
  }

  datatype ChunkResult = GotChunk(data: string, rest: string) | NoChunk

  /** NextChunk: exactly `n` bytes. */
  function Chunk(s: string, n: nat): ChunkResult {
    if n <= |s| then GotChunk(s[..n], s[n..]) else NoChunk
  }

  /** A text without an end of line in it and with no '\r' that would take the next byte as its partner. */
  predicate Clean(l: string) {
    !OddTail(l) && forall i :: 0 <= i < |l| ==> !EndsAt(l, i)
  }

  /** Whether a line ends at `i` depends on nothing behind the CRLF. */
  lemma EndsBefore(s: string, t: string, i: nat)
    requires i + 1 < |s|
    ensures EndsAt(s + t, i) == EndsAt(s, i)
  {
    assert (s + t)[..i] == s[..i];
  }

  /** The first end of line, wherever it is found. */
  lemma LineAt(s: string, i: nat)
    requires EndsAt(s, i) && forall k :: 0 <= k < i ==> !EndsAt(s, k)
    ensures Line(s) == GotLine(s[..i], s[i + 2..])
  {
  }

  /** A text is read back as a line in front of every continuation if and only if it is clean. */
  lemma LineExactly(l: string, rest: string)
    ensures Line(l + CRLF + rest) == GotLine(l, rest) <==> Clean(l)
  {
    var s := l + CRLF + rest;
    assert s[..|l|] == l && s[|l| + 2..] == rest;
    forall k | 0 <= k < |l| ensures EndsAt(s, k) == EndsAt(l, k) {
      if k + 1 < |l| {
        assert s == l + (CRLF + rest);
        EndsBefore(l, CRLF + rest, k);
      }
    }
    if Clean(l) {
      LineAt(s, |l|);
    }
  }

  /** Every line that is read is clean and stands in front of a CRLF. */
  lemma LineIsClean(s: string)
    requires Line(s).GotLine?
    ensures var GotLine(l, r) := Line(s);
            s == l + CRLF + r && Clean(l)
  {
    var i := End(s, 0).value;
    assert s == s[..i] + CRLF + s[i + 2..];
    LineExactly(s[..i], s[i + 2..]);
  }

  /** What a line is does not depend on what comes after its end. */
  lemma LineExtends(s: string, more: string)
    requires Line(s).GotLine?
    ensures Line(s + more) == GotLine(Line(s).line, Line(s).rest + more)
  {
    var GotLine(l, r) := Line(s);
    LineIsClean(s);
    LineExactly(l, r + more);
    assert s + more == l + CRLF + (r + more);
  }

  /** Behind a text without an odd tail, the pairs are those of the text that follows. */
  lemma {:induction false} TailBehind(p: string, q: string)
    requires !OddTail(p)
    ensures OddTail(p + q) == OddTail(q)
    decreases |q|
  {
    if q == "" {
      assert p + q == p;
    } else {
      TailBehind(p, q[..|q| - 1]);
      assert (p + q)[..|p + q| - 1] == p + q[..|q| - 1];
    }
  }

  // ---- what one turn of the reading loop finds, `buffer` having been read and `now` being left of `s`

  predicate Reading(s: string, buffer: string, now: string) {
    s == buffer + now && !OddTail(buffer) && forall k :: 0 <= k < |buffer| ==> !EndsAt(s, k)
  }

  predicate UpToCR(now: string, data: string) {
    data != "" && |data| <= |now| && data == now[..|data|] && data[|data| - 1] == '\r' && '\r' !in data[..|data| - 1]
  }

  lemma NoEnd(s: string, buffer: string, now: string)
    requires Reading(s, buffer, now) && '\r' !in now
    ensures Line(s) == NoLine
  {
    forall k | 0 <= k < |s| ensures !EndsAt(s, k) {
      if k >= |buffer| {
        assert s[k] == now[k - |buffer|];
      }
    }
  }

  lemma BeforeCR(s: string, buffer: string, now: string, data: string)
    requires Reading(s, buffer, now) && UpToCR(now, data)
    ensures forall k :: 0 <= k < |buffer + data| - 1 ==> !EndsAt(s, k)
    ensures s[..|buffer + data| - 1] == buffer + data[..|data| - 1]
    ensures !OddTail(buffer + data[..|data| - 1])
  {
    var n := |data| - 1;
    forall k | |buffer| <= k < |buffer| + n ensures !EndsAt(s, k) {
      assert s[k] == data[..n][k - |buffer|];
    }
    if n == 0 {
      assert buffer + data[..n] == buffer;
    } else {
      assert (buffer + data[..n])[|buffer| + n - 1] == data[..n][n - 1];
    }
  }

  lemma NoMoreBytes(s: string, buffer: string, now: string, data: string)
    requires Reading(s, buffer, now) && UpToCR(now, data) && data == now
    ensures Line(s) == NoLine
  {
    BeforeCR(s, buffer, now, data);
  }

  lemma PairRead(s: string, buffer: string, now: string, data: string, b: char, rest: string)
    requires Reading(s, buffer, now) && UpToCR(now, data) && now == data + ([b] + rest)
    ensures b == '\n' ==> Line(s) == GotLine((buffer + data + [b])[..|buffer + data| - 1], rest)
    ensures b != '\n' ==> Reading(s, buffer + data + [b], rest)
    ensures data != ""
  {
    hide OddTail;
    BeforeCR(s, buffer, now, data);
    var i := |buffer + data| - 1;
    assert s == buffer + data + [b] + rest;
    assert s[i] == '\r' && s[i + 1] == b;
    assert s[..i + 1] == s[..i] + "\r";
    OddStep(s[..i], '\r');
    assert buffer + data + [b] == s[..i] + "\r" + [b];
    OddStep(s[..i] + "\r", b);
    if b == '\n' {
      LineAt(s, i);
    }
  }

  lemma OddStep(p: string, c: char)
    ensures OddTail(p + [c]) == (c == '\r' && !OddTail(p))
  {
    assert (p + [c])[..|p|] == p;
  }

  lemma StartReading(s: string)
    ensures Reading(s, "", s)
  {
    assert s == "" + s;
  }

  lemma CutAtCR(s: string, data: string, buffered: string, pipe: string, i: nat)
    requires s == data + (buffered + pipe) && '\r' !in data && i < |buffered| && IndexOf(buffered, '\r') == Some(i)
    ensures UpToCR(s, data + buffered[..i + 1])
    ensures s == data + buffered[..i + 1] + (buffered[i + 1..] + pipe)
  {
    hide IndexOf, UpToCR;
    var (front, rest) := (buffered[..i], buffered[i + 1..]);
    CutsAt(buffered, i);
    FourParts(data, front + "\r", rest, pipe, buffered);
    CutIs(s, data, front, rest + pipe);
  }

  lemma CutsAt(s: string, i: nat)
    requires IndexOf(s, '\r') == Some(i)
    ensures i < |s| && s[..i + 1] == s[..i] + "\r" && s == s[..i + 1] + s[i + 1..]
    ensures '\r' !in s[..i]
  {
    hide IndexOf;
    OneMore(s, i);
    NoneBefore(s, i);
  }

  lemma OneMore(s: string, i: nat)
    requires i < |s|
    ensures s[..i + 1] == s[..i] + [s[i]] && s == s[..i + 1] + s[i + 1..]
  {
  }

  lemma NoneBefore(s: string, i: nat)
    requires i <= |s| && forall j :: 0 <= j < i ==> s[j] != '\r'
    ensures '\r' !in s[..i]
  {
    assert forall k :: 0 <= k < i ==> s[..i][k] == s[k];
  }

  lemma CutIs(s: string, data: string, front: string, rest: string)
    requires '\r' !in data && '\r' !in front && s == data + (front + "\r") + rest
    ensures UpToCR(s, data + (front + "\r"))
  {
    var cut := data + (front + "\r");
    assert cut[..|cut| - 1] == data + front;
  }

  lemma FourParts(a: string, b: string, c: string, d: string, bc: string)
    requires bc == b + c
    ensures a + (bc + d) == a + b + (c + d)
  {
    assert bc + d == b + (c + d);
  }

  // ---- empty reads

  /** After so many empty reads in a row, bufio.Reader gives up waiting for the next byte. */
  const EMPTY_READS: nat := 100

  /** An empty write is an empty read: here the next reads are all empty until the reader gives up. */
  predicate Stalls(writes: seq<string>) {
    EMPTY_READS <= |writes| && forall j :: 0 <= j < EMPTY_READS ==> writes[j] == ""
  }

  /** The bytes in front of the first stall. */
  function UpToStall(writes: seq<string>): string {
    if writes == [] || Stalls(writes) then "" else writes[0] + UpToStall(writes[1..])
  }

  /** The writes from the first stall on. */
  function FromStall(writes: seq<string>): (r: seq<string>)
    ensures r == [] || Stalls(r)
  {
    if writes == [] || Stalls(writes) then writes else FromStall(writes[1..])
  }

  predicate Flowing(writes: seq<string>) {
    FromStall(writes) == []
  }

  /** What a reader that gave up at the first stall, or at the end, leaves behind. */
  function BehindStall(writes: seq<string>): seq<string> {
    var r := FromStall(writes);
    if r == [] then [] else r[EMPTY_READS..]
  }

  lemma {:induction false} StallSplits(writes: seq<string>)
    ensures UpToStall(writes) + Flatten(FromStall(writes)) == Flatten(writes)
    decreases |writes|
  {
    hide Stalls;
    if writes != [] && !Stalls(writes) {
      StallSplits(writes[1..]);
      Regroup(writes[0], UpToStall(writes[1..]), Flatten(FromStall(writes)));
    }
  }

  /** Fewer empty writes in front of another one are no stall. */
  lemma {:induction false} SkipEmpty(writes: seq<string>, k: nat)
    requires k < EMPTY_READS && k <= |writes| && (forall j :: 0 <= j < k ==> writes[j] == "")
    requires k < |writes| ==> writes[k] != ""
    ensures !Stalls(writes) && UpToStall(writes) == UpToStall(writes[k..]) && FromStall(writes) == FromStall(writes[k..])
    decreases k
  {
    if k == 0 {
      assert writes[0..] == writes;
    } else {
      SkipEmpty(writes[1..], k - 1);
      assert writes[1..][k - 1..] == writes[k..];
      assert "" + UpToStall(writes[1..]) == UpToStall(writes[1..]);
    }
  }

  lemma {:induction false} FlowingSnoc(writes: seq<string>, data: string)
    requires Flowing(writes) && data != ""
    ensures Flowing(writes + [data])
    decreases |writes|
  {
    var w := writes + [data];
    assert w[|writes|] == data;
    if writes == [] {
      assert w[1..] == [];
    } else {
      assert forall j :: 0 <= j < |writes| ==> w[j] == writes[j];
      assert w[1..] == writes[1..] + [data];
      FlowingSnoc(writes[1..], data);
    }
  }

  /** Taking bytes from the first write, but not all, or all of it, moves no stall. */
  lemma TakeFirst(writes: seq<string>, n: nat)
    requires writes != [] && 0 < n <= |writes[0]|
    ensures var w := if n == |writes[0]| then writes[1..] else [writes[0][n..]] + writes[1..];
            && UpToStall(writes) == writes[0][..n] + UpToStall(w) && FromStall(w) == FromStall(writes)
            && Flatten(writes) == writes[0][..n] + Flatten(w)
  {
    assert writes[0] == writes[0][..n] + writes[0][n..];
    if n < |writes[0]| {
      var w := [writes[0][n..]] + writes[1..];
      assert w[1..] == writes[1..] && w[0] != "";
      Regroup(writes[0][..n], writes[0][n..], UpToStall(writes[1..]));
      Regroup(writes[0][..n], writes[0][n..], Flatten(writes[1..]));
    }
  }

  /**
   * A line of the whole stream is read if and only if it ends, with its CRLF, in front of the first stall; it is then
   * the same line.
   */
  lemma StallExactly(buffered: string, writes: seq<string>)
    requires Line(buffered + Flatten(writes)).GotLine?
    ensures var (line, before) := (Line(buffered + Flatten(writes)).line, Line(buffered + UpToStall(writes)));
            && (before.GotLine? <==> |line| + 2 <= |buffered + UpToStall(writes)|)
            && (before.GotLine? ==> before.line == line)
  {
    hide Line, Clean;
    var (s, a) := (buffered + Flatten(writes), buffered + UpToStall(writes));
    StallSplits(writes);
    Regroup(buffered, UpToStall(writes), Flatten(FromStall(writes)));
    if Line(a).GotLine? {
      LineExtends(a, Flatten(FromStall(writes)));
      LineIsClean(a);
    }
    var GotLine(l, r) := Line(s);
    LineIsClean(s);
    if |l| + 2 <= |a| {
      assert a == s[..|a|] && (l + CRLF) == s[..|l| + 2];
      assert a == l + CRLF + a[|l| + 2..];
      LineExactly(l, a[|l| + 2..]);
    }
  }

  // ---- the reader

  const CAPACITY: nat := 4096

  class ParserBuffer {
    var buffered: string
    var pipe: seq<string>

    /** All bytes that are still to come. */
    ghost function Stream(): string
      reads this
    {
      buffered + Flatten(pipe)
    }

    /** The bytes that come before the first stall. */
    ghost function Available(): string
      reads this
    {
      buffered + UpToStall(pipe)
    }

    lemma StreamSplits()
      ensures Stream() == Available() + Flatten(FromStall(pipe))
      ensures Flowing(pipe) ==> Available() == Stream()
    {
      StallSplits(pipe);
      Regroup(buffered, UpToStall(pipe), Flatten(FromStall(pipe)));
    }

    constructor ()
      ensures Stream() == "" && buffered == "" && pipe == [] && Flowing(pipe)
    {
      buffered, pipe := "", [];
    }

    /** The other end: one write. */
    method Write(data: string)
      modifies this
      ensures Stream() == old(Stream()) + data && pipe == old(pipe) + [data]
      ensures Flowing(old(pipe)) && data != "" ==> Flowing(pipe)
    {
      FlattenSnoc(pipe, data);
      if Flowing(pipe) && data != "" {
        FlowingSnoc(pipe, data);
      }
      pipe := pipe + [data];
    }

    /** Takes at most the capacity of the first write. */
    method Load()
      requires buffered == "" && pipe != [] && pipe[0] != ""
      modifies this
      ensures buffered != "" && Available() == old(UpToStall(pipe)) && FromStall(pipe) == old(FromStall(pipe))
      ensures Stream() == old(Flatten(pipe)) && Total(pipe) + |buffered| == old(Total(pipe))
      ensures |pipe| <= |old(pipe)|
    {
      var n := if |pipe[0]| <= CAPACITY then |pipe[0]| else CAPACITY;
      TakeFirst(pipe, n);
      buffered := pipe[0][..n];
      ghost var tail := pipe[1..];
      pipe := if n == |pipe[0]| then pipe[1..] else [pipe[0][n..]] + pipe[1..];
      assert n < |old(pipe)[0]| ==> pipe[1..] == tail;
    }

    /** bufio's fill: reads until there are bytes, a hundred times at most; false at a stall or at the end. */
    method Fill() returns (more: bool)
      requires buffered == ""
      modifies this
      ensures more <==> old(Available()) != ""
      ensures more ==> buffered != "" && Available() == old(Available()) && FromStall(pipe) == old(FromStall(pipe))
      ensures more ==> Total(pipe) + |buffered| == old(Total(pipe))
      ensures !more ==> buffered == "" && pipe == old(BehindStall(pipe))
    {
      ghost var w := pipe;
      var tries := 0;
      assert w[0..] == w;
      while tries < EMPTY_READS && |pipe| > 0 && pipe[0] == ""
        invariant tries <= EMPTY_READS && tries <= |w| && pipe == w[tries..] && buffered == ""
        invariant forall j :: 0 <= j < tries ==> w[j] == ""
        invariant Total(pipe) == Total(w)
        decreases |pipe|
      {
        pipe := pipe[1..];
        tries := tries + 1;
      }
      if tries == EMPTY_READS {
        assert Stalls(w);
        return false;
      }
      SkipEmpty(w, tries);
      if |pipe| == 0 {
        return false;
      }
      Load();
      return true;
    }

    /** bufio.Reader.ReadString('\r'): the bytes up to and with the first '\r', or none when there is no such byte. */
    method ReadToCR() returns (data: string, found: bool)
      modifies this
      ensures found <==> '\r' in old(Available())
      ensures found ==> UpToCR(old(Available()), data) && old(Available()) == data + Available()
      ensures found ==> FromStall(pipe) == old(FromStall(pipe))
      ensures !found ==> buffered == "" && pipe == old(BehindStall(pipe))
    {
      hide UpToStall, FromStall;
      ghost var s := Available();
      data := "";
      while '\r' !in buffered
        invariant s == data + Available() && '\r' !in data && FromStall(pipe) == old(FromStall(pipe))
        decreases Total(pipe) + |buffered|, if buffered == "" then 1 else 0
      {
        Regroup(data, buffered, UpToStall(pipe));
        data := data + buffered;
        buffered := "";
        assert Available() == UpToStall(pipe);
        var more := Fill();
        if !more {
          return data, false;
        }
      }
      var i := IndexOf(buffered, '\r').value;
      CutAtCR(s, data, buffered, UpToStall(pipe), i);
      data := data + buffered[..i + 1];
      buffered := buffered[i + 1..];
      found := true;
    }

    method ReadByte() returns (b: char, found: bool)
      modifies this
      ensures found <==> old(Available()) != ""
      ensures found ==> old(Available()) == [b] + Available() && FromStall(pipe) == old(FromStall(pipe))
      ensures !found ==> buffered == "" && pipe == old(BehindStall(pipe))
    {
      hide UpToStall, FromStall;
      if buffered == "" {
        var more := Fill();
        if !more {
          return 0 as char, false;
        }
      }
      ghost var s := Available();
      assert buffered == [buffered[0]] + buffered[1..];
      b := buffered[0];
      buffered := buffered[1..];
      found := true;
      Regroup([b], buffered, UpToStall(pipe));
      assert s == [b] + Available();
    }

    /**
     * The next line, if it ends in front of the first stall; otherwise an error, and everything up to the stall is
     * gone. Without a stall the line and the rest are those of the whole stream.
     */
    method NextLine() returns (response: string, ok: bool)
      modifies this
      ensures match Line(old(Available()))
              case GotLine(l, r) => ok && response == l && Available() == r && FromStall(pipe) == old(FromStall(pipe))
              case NoLine => !ok && buffered == "" && pipe == old(BehindStall(pipe))
      ensures Flowing(old(pipe)) ==>
                && Flowing(pipe)
                && match Line(old(Stream()))
                   case GotLine(l, r) => ok && response == l && Stream() == r
                   case NoLine => !ok && Stream() == ""
      ensures |Stream()| + (if ok then |response| + 2 else 0) <= |old(Stream())|
    {
      hide Line, Reading, UpToCR, UpToStall, FromStall, BehindStall;
      StreamSplits();
      BehindSmaller(pipe);
      ghost var s := Available();
      var buffer := "";
      assert Reading(s, buffer, Available()) by { StartReading(s); }
      while true
        invariant Reading(s, buffer, Available()) && FromStall(pipe) == old(FromStall(pipe))
        decreases |Available()|
      {
        ghost var now := Available();
        BehindSame(pipe, old(pipe));
        var data, found := ReadToCR();
        if !found {
          NoEnd(s, buffer, now);
          if Flowing(old(pipe)) {
            NothingBehind(old(pipe));
          }
          return "", false;
        }
        BehindSame(pipe, old(pipe));
        var b: char;
        b, found := ReadByte();
        if !found {
          assert data + "" == data;
          NoMoreBytes(s, buffer, now, data);
          if Flowing(old(pipe)) {
            NothingBehind(old(pipe));
          }
          return "", false;
        }
        PairRead(s, buffer, now, data, b, Available());
        buffer := buffer + data + [b];
        if b == '\n' {
          response := buffer[..|buffer| - 2];
          StreamSplits();
          return response, true;
        }
      }
    }

    /** bufio.Reader.Read: some of the next bytes; none for an empty read, or at the end of the stream. */
    method Read(most: nat) returns (data: string, end: bool)
      requires most > 0
      modifies this
      ensures |data| <= most && old(Stream()) == data + Stream()
      ensures end ==> data == "" && Stream() == ""
      ensures !end && data == "" ==> |pipe| < |old(pipe)|
      ensures |pipe| <= |old(pipe)|
      ensures Flowing(old(pipe)) ==> Flowing(pipe)
    {
      hide Flatten, UpToStall, FromStall;
      if buffered == "" {
        if pipe == [] {
          NoWrites();
          return "", true;
        }
        if pipe[0] == "" {
          DropEmpty(pipe);
          pipe := pipe[1..];
          return "", false;
        }
        Load();
      }
      var n := if |buffered| <= most then |buffered| else most;
      TakePart(buffered, n, Flatten(pipe));
      data := buffered[..n];
      buffered := buffered[n..];
      end := false;
    }

    /** Stalls do not matter here: an empty read is no error. */
    method NextChunk(n: nat) returns (response: string, ok: bool)
      modifies this
      ensures match Chunk(old(Stream()), n)
              case GotChunk(d, r) => ok && response == d && Stream() == r
              case NoChunk => !ok && Stream() == ""
      ensures Flowing(old(pipe)) ==> Flowing(pipe)
    {
      ghost var s := Stream();
      response := "";
      while |response| < n
        invariant |response| <= n && s == response + Stream()
        invariant Flowing(old(pipe)) ==> Flowing(pipe)
        decreases n - |response|, |pipe|
      {
        var data, end := Read(n - |response|);
        if end {
          assert s == response;
          return "", false;
        }
        Regroup(response, data, Stream());
        response := response + data;
      }
      ok := true;
      assert s[..n] == response;
      assert s[n..] == Stream();
    }
  }

  lemma BehindSame(writes: seq<string>, before: seq<string>)
    requires FromStall(writes) == FromStall(before)
    ensures BehindStall(writes) == BehindStall(before)
  {
  }

  lemma {:induction false} FlattenDrop(writes: seq<string>, k: nat)
    requires k <= |writes|
    ensures |Flatten(writes[k..])| <= |Flatten(writes)|
    decreases k
  {
    if k == 0 {
      assert writes[0..] == writes;
    } else {
      FlattenDrop(writes[1..], k - 1);
      assert writes[1..][k - 1..] == writes[k..];
    }
  }

  lemma BehindSmaller(writes: seq<string>)
    ensures |Flatten(BehindStall(writes))| <= |Flatten(writes)|
  {
    hide UpToStall;
    StallSplits(writes);
    var r := FromStall(writes);
    if r != [] {
      FlattenDrop(r, EMPTY_READS);
    }
  }

  lemma TakePart(s: string, n: nat, rest: string)
    requires n <= |s|
    ensures s + rest == s[..n] + (s[n..] + rest)
  {
    assert s == s[..n] + s[n..];
  }

  lemma NoWrites()
    ensures Flatten([]) == "" && Flowing([])
  {
  }

  lemma DropEmpty(writes: seq<string>)
    requires writes != [] && writes[0] == ""
    ensures "" + Flatten(writes) == "" + ("" + Flatten(writes[1..]))
    ensures Flowing(writes) ==> Flowing(writes[1..])
  {
  }

  lemma NothingBehind(writes: seq<string>)
    requires Flowing(writes)
    ensures BehindStall(writes) == [] && FromStall([]) == [] && Flatten([]) == ""
  {
  }

  function Total(writes: seq<string>): nat {
    if writes == [] then 0 else |writes[0]| + Total(writes[1..])
  }

  lemma FlattenSnoc(writes: seq<string>, data: string)
    ensures Flatten(writes + [data]) == Flatten(writes) + data
  {
    if writes != [] {
      assert (writes + [data])[1..] == writes[1..] + [data];
      FlattenSnoc(writes[1..], data);
    }
  }
}
