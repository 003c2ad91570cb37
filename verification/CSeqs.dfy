/** The CSeq header: the printer, the parser, and the exact domain of their round trip. */
module CSeqs {
  import opened Wrappers
  import opened Text

  const MAX_CSEQ: nat := 0x7FFF_FFFF

  /** What Go writes for a byte that starts no valid character: U+FFFD. */
  const REPLACEMENT: string := [0xEF as char, 0xBF as char, 0xBD as char]

  datatype CSeqResult = CSeq(seqNo: nat, requestMethod: string) | BadCSeq

  /** The value of a CSeq header, without its name. */
  function PrintCSeq(seqNo: nat, requestMethod: string): string {
    Decimal(seqNo) + " " + requestMethod
  }

  // ---- the parser

  /** The number of bytes that one turn of the loop takes, and the text that it stores for them. */
  function TurnSize(s: string): (n: nat)
    requires s != ""
    ensures 0 < n <= |s|
  {
    if RuneSize(s) == 0 then 1 else RuneSize(s)
  }

  function TurnText(s: string): string
    requires s != ""
  {
    if RuneSize(s) == 0 then REPLACEMENT else s[..RuneSize(s)]
  }

  /** The loop of SplitByWhitespace on the rest of its text. */
  function SplitFrom(s: string, buffer: string, inString: bool, parts: seq<string>): seq<string>
    decreases |s|
  {
    if s == "" then parts + if buffer == "" then [] else [buffer]
    else if IsWs(s[0]) then
      if inString then SplitFrom(s[1..], "", false, parts + [buffer]) else SplitFrom(s[1..], buffer, false, parts)
    else SplitFrom(s[TurnSize(s)..], buffer + TurnText(s), true, parts)
  }

  /** One turn of the loop. */
  lemma SplitTurn(s: string, buffer: string, inString: bool, parts: seq<string>)
    ensures SplitFrom(s, buffer, inString, parts) ==
            if s == "" then parts + (if buffer == "" then [] else [buffer])
            else if !IsWs(s[0]) then SplitFrom(s[TurnSize(s)..], buffer + TurnText(s), true, parts)
            else if inString then SplitFrom(s[1..], "", false, parts + [buffer])
            else SplitFrom(s[1..], buffer, false, parts)
  {
    hide TurnSize, TurnText;
  }

  method SplitByWhitespace(text: string) returns (parts: seq<string>)
    ensures parts == SplitFrom(text, "", true, [])
  {
    hide SplitFrom, TurnSize, TurnText;
    parts := [];
    var buffer, inString, i := "", true, 0;
    assert text[0..] == text;
    while i < |text|
      invariant i <= |text|
      invariant SplitFrom(text[i..], buffer, inString, parts) == SplitFrom(text, "", true, [])
    {
      var rest := text[i..];
      var n := if IsWs(rest[0]) then 1 else TurnSize(rest);
      SliceTwice(text, i, n);
      SplitTurn(rest, buffer, inString, parts);
      if IsWs(rest[0]) {
        if inString {
          parts := parts + [buffer];
          buffer := "";
        }
        inString := false;
      } else {
        buffer := buffer + TurnText(rest);
        inString := true;
      }
      i := i + n;
    }
    SplitTurn("", buffer, inString, parts);
    assert text[i..] == "" && parts + [] == parts;
    if |buffer| > 0 {
      parts := parts + [buffer];
    }
  }

  /** parseCSeq */
  function ParseCSeq(text: string): CSeqResult {
    var parts := SplitFrom(text, "", true, []);
    if |parts| != 2 then BadCSeq
    else
      match DigitsValue(parts[0])
      case None => BadCSeq
      case Some(n) =>
        var m := TrimSpace(parts[1]);
        if n > 0xFFFF_FFFF || n > MAX_CSEQ || ';' in m then BadCSeq else CSeq(n, m)
  }

  method ParseCSeqHeader(headerText: string) returns (r: CSeqResult)
    ensures r == ParseCSeq(headerText)
  {
    var parts := SplitByWhitespace(headerText);
    if |parts| != 2 {
      return BadCSeq;
    }
    var seqNo := DigitsValue(parts[0]);
    if seqNo.None? || seqNo.value > 0xFFFF_FFFF {
      return BadCSeq;
    }
    if seqNo.value > MAX_CSEQ {
      return BadCSeq;
    }
    var requestMethod := TrimSpace(parts[1]);
    if ';' in requestMethod {
      return BadCSeq;
    }
    r := CSeq(seqNo.value, requestMethod);
  }

  // ---- the round trip

  /** A method that survives: not empty, valid UTF-8, no blank, tab or ';', no white space around it. */
  predicate LegalMethod(m: string) {
    m != "" && Utf8(m) && !HasWs(m) && Trimmed(m) && ';' !in m
  }

  lemma WsFirst(s: string)
    requires s != "" && !HasWs(s)
    ensures !IsWs(s[0]) && forall n :: 0 <= n <= |s| ==> !HasWs(s[n..])
  {
    assert s[0] in s;
    forall n | 0 <= n <= |s| ensures !HasWs(s[n..]) {
      assert forall i :: 0 <= i < |s[n..]| ==> s[n..][i] == s[n + i] && s[n + i] in s;
    }
  }

  /** The loop stores a valid character as it is. */
  lemma RuneStored(s: string, buffer: string, inString: bool, parts: seq<string>)
    requires s != "" && !IsWs(s[0]) && RuneSize(s) > 0
    ensures SplitFrom(s, buffer, inString, parts) ==
            SplitFrom(s[RuneSize(s)..], buffer + s[..RuneSize(s)], true, parts)
  {
    hide RuneSize, SplitFrom;
    SplitTurn(s, buffer, inString, parts);
  }

  /** The loop stores a valid word as it is. */
  lemma {:induction false} SplitWord(w: string, rest: string, buffer: string, inString: bool, parts: seq<string>)
    requires Utf8(w) && !HasWs(w)
    ensures SplitFrom(w + rest, buffer, inString, parts) == SplitFrom(rest, buffer + w, inString || w != "", parts)
    decreases |w|
  {
    hide HasWs, RuneSize, SplitFrom;
    if w == "" {
      assert w + rest == rest && buffer + w == buffer;
    } else {
      var (s, n) := (w + rest, RuneSize(w));
      WsFirst(w);
      RunePrefix(w, rest);
      assert s[n..] == w[n..] + rest && s[..n] == w[..n];
      RuneStored(s, buffer, inString, parts);
      SplitWord(w[n..], rest, buffer + w[..n], true, parts);
      assert buffer + w[..n] + w[n..] == buffer + w by { Regroup(buffer, w[..n], w[n..]); assert w[..n] + w[n..] == w; }
    }
  }

  lemma {:induction false} DigitsUtf8(s: string)
    requires forall i :: 0 <= i < |s| ==> IsDigit(s[i])
    ensures Utf8(s) && !HasWs(s)
    decreases |s|
  {
    if s != "" {
      DigitsUtf8(s[1..]);
      assert s == [s[0]] + s[1..];
    }
  }

  /** What the loop makes of a printed CSeq once it has passed the number. */
  lemma SplitPrinted(seqNo: nat, m: string)
    ensures SplitFrom(PrintCSeq(seqNo, m), "", true, []) == SplitFrom(m, "", false, [Decimal(seqNo)])
  {
    hide Decimal, Utf8, HasWs;
    var d := Decimal(seqNo);
    DigitsUtf8(d);
    Regroup(d, " ", m);
    SplitWord(d, " " + m, "", true, []);
    assert "" + d == d && (" " + m)[1..] == m && [] + [d] == [d];
  }

  predicate CleanWord(s: string) {
    Utf8(s) && !HasWs(s)
  }

  lemma TurnClean(s: string, buffer: string)
    requires s != "" && !IsWs(s[0]) && CleanWord(buffer)
    ensures CleanWord(buffer + TurnText(s))
  {
    var t := TurnText(s);
    assert Utf8(t) by { OneRune(s); }
    Utf8Joined(buffer, t);
    assert forall i :: 0 <= i < |t| ==> !IsWs(t[i]);
  }

  lemma OneRune(s: string)
    requires s != ""
    ensures Utf8(TurnText(s))
  {
    var n := RuneSize(s);
    if n > 0 {
      RuneOfPrefix(s, n);
      assert s[..n][n..] == "";
    } else {
      assert RuneSize(REPLACEMENT) == 3 && REPLACEMENT[3..] == "";
    }
  }

  /** Every part is valid and without blanks. */
  lemma {:induction false} PartsClean(s: string, buffer: string, inString: bool, parts: seq<string>)
    requires CleanWord(buffer) && forall i :: 0 <= i < |parts| ==> CleanWord(parts[i])
    ensures var r := SplitFrom(s, buffer, inString, parts);
            && |parts| <= |r| && r[..|parts|] == parts
            && forall i :: 0 <= i < |r| ==> CleanWord(r[i])
    decreases |s|
  {
    hide CleanWord;
    if s != "" {
      if IsWs(s[0]) {
        assert CleanWord("") by { NothingClean(); }
        if inString {
          PartsClean(s[1..], "", false, parts + [buffer]);
          var r := SplitFrom(s, buffer, inString, parts);
          assert r[..|parts|] == r[..|parts + [buffer]|][..|parts|];
        } else {
          PartsClean(s[1..], buffer, false, parts);
        }
      } else {
        TurnClean(s, buffer);
        PartsClean(s[TurnSize(s)..], buffer + TurnText(s), true, parts);
      }
    }
  }

  lemma NothingClean()
    ensures CleanWord("")
  {
  }

  /** A printed CSeq parses back to itself if and only if its number has 31 bits and its method is legal. */
  lemma CSeqRoundTripExactly(seqNo: nat, m: string)
    ensures ParseCSeq(PrintCSeq(seqNo, m)) == CSeq(seqNo, m) <==> seqNo <= MAX_CSEQ && LegalMethod(m)
  {
    hide Decimal, DigitsValue, PrintCSeq, Trimmed, TrimSpace, Utf8, HasWs;
    var d := Decimal(seqNo);
    SplitPrinted(seqNo, m);
    DecimalValue(seqNo);
    if seqNo <= MAX_CSEQ && LegalMethod(m) {
      assert m + "" == m && "" + m == m;
      SplitWord(m, "", "", false, [d]);
      TrimBlank(m);
    } else if ParseCSeq(PrintCSeq(seqNo, m)) == CSeq(seqNo, m) {
      DigitsUtf8(d);
      NothingClean();
      PartsClean(m, "", false, [d]);
      var part := SplitFrom(m, "", false, [d])[1];
      TrimmedPart(part);
      assert false;
    }
  }

  lemma TrimmedPart(part: string)
    requires CleanWord(part)
    ensures var m := TrimSpace(part); Utf8(m) && !HasWs(m) && Trimmed(m)
  {
    TrimFacts(part);
    TrimLeftUtf8(part);
    TrimRightUtf8(TrimLeft(part));
  }
}
