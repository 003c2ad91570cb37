/** The string operations of the parsers, on byte strings: a byte is a character below 256. */
module Text {
  import opened Wrappers

  /** The index of the first occurrence of a character. */
  function IndexOf(s: string, c: char): (r: Option<nat>)
    ensures r.Some? <==> c in s
    ensures r.Some? ==> r.value < |s| && s[r.value] == c && forall j :: 0 <= j < r.value ==> s[j] != c
  {
    if s == [] then None
    else if s[0] == c then Some(0)
    else
      var rest := IndexOf(s[1..], c);
      if rest.None? then None else Some(rest.value + 1)
  }

  /** The first occurrence is where the text before it ends. */
  lemma IndexAfter(a: string, c: char, b: string)
    requires c !in a
    ensures IndexOf(a + [c] + b, c) == Some(|a|)
  {
    var s := a + [c] + b;
    assert s[|a|] == c;
    assert forall j :: 0 <= j < |a| ==> s[j] == a[j] && a[j] in a;
  }

  function Split(s: string, sep: char): (parts: seq<string>)
    ensures parts != []
  {
    match IndexOf(s, sep)
    case None => [s]
    case Some(i) => [s[..i]] + Split(s[i + 1..], sep)
  }

  /** The parts with a separator between every two of them. */
  function Join(parts: seq<string>, sep: string): string {
    if parts == [] then "" else if |parts| == 1 then parts[0] else parts[0] + sep + Join(parts[1..], sep)
  }

  lemma SplitOnce(a: string, sep: char, b: string)
    requires sep !in a
    ensures Split(a + [sep] + b, sep) == [a] + Split(b, sep)
  {
    var s := a + [sep] + b;
    IndexAfter(a, sep, b);
    assert s[..|a|] == a;
    assert s[|a| + 1..] == b;
  }

  lemma JoinPair(a: string, rest: seq<string>, sep: string)
    requires rest != []
    ensures Join([a] + rest, sep) == a + sep + Join(rest, sep)
  {
    assert ([a] + rest)[1..] == rest;
  }

  /** Splitting undoes joining when no part contains the separator. */
  lemma {:induction false} SplitJoin(parts: seq<string>, sep: char)
    requires parts != [] && forall i :: 0 <= i < |parts| ==> sep !in parts[i]
    ensures Split(Join(parts, [sep]), sep) == parts
  {
    if |parts| > 1 {
      var rest := Join(parts[1..], [sep]);
      SplitOnce(parts[0], sep, rest);
      SplitJoin(parts[1..], sep);
      assert parts == [parts[0]] + parts[1..];
    }
  }

  /** Joining undoes splitting, for every text. */
  lemma {:induction false} JoinSplit(s: string, sep: char)
    ensures Join(Split(s, sep), [sep]) == s
    decreases |s|
  {
    match IndexOf(s, sep) {
      case None =>
      case Some(i) =>
        JoinSplit(s[i + 1..], sep);
        assert Split(s, sep)[1..] == Split(s[i + 1..], sep);
        assert s == s[..i] + [sep] + s[i + 1..];
    }
  }

  /** The parts, with a blank in front of all but the first. */
  function Blanked(parts: seq<string>, blank: string): (r: seq<string>)
    ensures |r| == |parts|
  {
    if parts == [] then [] else [blank + parts[0]] + Blanked(parts[1..], " ")
  }

  /** Joining with ", " is joining with "," the parts that have a blank in front of all but the first. */
  lemma {:induction false} JoinBlanked(parts: seq<string>, blank: string)
    requires parts != []
    ensures Join(Blanked(parts, blank), ",") == blank + Join(parts, ", ")
    decreases |parts|
  {
    if |parts| > 1 {
      JoinBlanked(parts[1..], " ");
      assert Blanked(parts, blank)[1..] == Blanked(parts[1..], " ");
      var rest := Join(parts[1..], ", ");
      assert Join(Blanked(parts, blank), ",") == blank + parts[0] + "," + (" " + rest);
      JoinedPair(blank, parts[0], rest);
    }
  }

  lemma JoinedPair(blank: string, part: string, rest: string)
    ensures blank + part + "," + (" " + rest) == blank + (part + ", " + rest)
  {
  }

  lemma {:induction false} BlankedHasNo(parts: seq<string>, blank: string, c: char)
    requires c !in blank && c != ' ' && forall i :: 0 <= i < |parts| ==> c !in parts[i]
    ensures forall i :: 0 <= i < |parts| ==> c !in Blanked(parts, blank)[i]
    decreases |parts|
  {
    if parts != [] {
      BlankedHasNo(parts[1..], " ", c);
    }
  }

  lemma Regroup<T>(a: seq<T>, b: seq<T>, c: seq<T>)
    ensures (a + b) + c == a + (b + c)
  {
  }

  lemma SliceTwice<T>(s: seq<T>, p: nat, q: nat)
    requires p + q <= |s|
    ensures s[p..][q..] == s[p + q..]
  {
  }

  lemma EndOfEnd<T>(s: seq<T>, n: nat, r: seq<T>)
    requires n <= |s| && |r| <= |s[n..]| && r == s[n..][|s[n..]| - |r|..]
    ensures r == s[|s| - |r|..]
  {
    SliceTwice(s, n, |s[n..]| - |r|);
  }

  // ---- white space and letters

  /** The white space of the SIP grammar: blank and tab. */
  predicate IsWs(c: char) {
    c == ' ' || c == '\t'
  }

  predicate HasWs(s: string) {
    ' ' in s || '\t' in s
  }

  /** The ASCII characters that TrimSpace removes. */
  predicate IsSpace(c: char) {
    c == ' ' || '\t' <= c <= '\r'
  }

  /** The white space of Unicode that takes two bytes in UTF-8: U+0085 and U+00A0. */
  predicate IsSpace2(a: char, b: char) {
    a as int == 0xC2 && (b as int == 0x85 || b as int == 0xA0)
  }

  /** The white space that takes three bytes: U+1680, U+2000 to U+200A, U+2028, U+2029, U+202F, U+205F, U+3000. */
  predicate IsSpace3(a: char, b: char, c: char) {
    var (x, y, z) := (a as int, b as int, c as int);
    || (x == 0xE1 && y == 0x9A && z == 0x80)
    || (x == 0xE2 && y == 0x80 && (0x80 <= z <= 0x8A || z == 0xA8 || z == 0xA9 || z == 0xAF))
    || (x == 0xE2 && y == 0x81 && z == 0x9F)
    || (x == 0xE3 && y == 0x80 && z == 0x80)
  }

  /** The number of bytes of the white space at the front, 0 when there is none. */
  function SpaceFront(s: string): (n: nat)
    ensures n <= |s|
  {
    if |s| >= 1 && IsSpace(s[0]) then 1
    else if |s| >= 2 && IsSpace2(s[0], s[1]) then 2
    else if |s| >= 3 && IsSpace3(s[0], s[1], s[2]) then 3
    else 0
  }

  /** The number of bytes of the white space at the end. */
  function SpaceBack(s: string): (n: nat)
    ensures n <= |s|
  {
    var k := |s|;
    if k >= 1 && IsSpace(s[k - 1]) then 1
    else if k >= 2 && IsSpace2(s[k - 2], s[k - 1]) then 2
    else if k >= 3 && IsSpace3(s[k - 3], s[k - 2], s[k - 1]) then 3
    else 0
  }

  function TrimLeft(s: string): (r: string)
    ensures |r| <= |s| && r == s[|s| - |r|..]
    ensures SpaceFront(r) == 0
    decreases |s|
  {
    if SpaceFront(s) > 0 then
      var r := TrimLeft(s[SpaceFront(s)..]);
      EndOfEnd(s, SpaceFront(s), r);
      r
    else s
  }

  function TrimRight(s: string): (r: string)
    ensures |r| <= |s| && r == s[..|r|]
    ensures SpaceBack(r) == 0
    decreases |s|
  {
    if SpaceBack(s) > 0 then TrimRight(s[..|s| - SpaceBack(s)]) else s
  }

  function TrimSpace(s: string): string {
    TrimRight(TrimLeft(s))
  }

  /** White space stands neither at the front nor at the end. */
  predicate Trimmed(s: string) {
    SpaceFront(s) == 0 && SpaceBack(s) == 0
  }

  /** Shortening a text at its end brings no white space to its front. */
  lemma FrontOfPrefix(s: string, n: nat)
    requires n <= |s| && SpaceFront(s) == 0
    ensures SpaceFront(s[..n]) == 0
  {
  }

  /** What is left after trimming, and where it was. */
  lemma TrimPlace(s: string) returns (at: nat)
    ensures var r := TrimSpace(s);
            at + |r| <= |s| && r == s[at..at + |r|] && at == |s| - |TrimLeft(s)|
  {
    hide TrimLeft, TrimRight;
    var left := TrimLeft(s);
    at := |s| - |left|;
    var r := TrimSpace(s);
    assert r == left[..|r|];
    assert left[..|r|] == s[at..at + |r|];
  }

  lemma TrimFacts(s: string)
    ensures Trimmed(TrimSpace(s)) && forall c :: c in TrimSpace(s) ==> c in s
  {
    hide TrimLeft, TrimRight;
    var at := TrimPlace(s);
    var (left, r) := (TrimLeft(s), TrimSpace(s));
    assert r == left[..|r|];
    FrontOfPrefix(left, |r|);
    assert forall i :: 0 <= i < |r| ==> r[i] == s[at + i];
  }

  lemma TrimBlank(s: string)
    requires Trimmed(s)
    ensures TrimSpace(s) == s && TrimSpace(" " + s) == s
  {
    hide TrimLeft, TrimRight;
    TrimNone(s);
    LeftBlank(s);
  }

  lemma TrimNone(s: string)
    requires Trimmed(s)
    ensures TrimLeft(s) == s && TrimRight(s) == s
  {
  }

  lemma LeftBlank(s: string)
    ensures TrimLeft(" " + s) == TrimLeft(s)
  {
    assert (" " + s)[1..] == s;
  }

  // ---- UTF-8

  predicate Within(s: string, i: nat, low: int, high: int) {
    i < |s| && low <= s[i] as int <= high
  }

  /** The number of bytes of the character at the front, 0 when there is none or its encoding is invalid. */
  function RuneSize(s: string): (n: nat)
    ensures n <= |s|
    ensures forall i :: 1 <= i < n ==> 0x80 <= s[i] as int <= 0xBF
  {
    if s == "" then 0
    else
      var a := s[0] as int;
      if a < 0x80 then 1
      else if 0xC2 <= a <= 0xDF && Within(s, 1, 0x80, 0xBF) then 2
      else if && 0xE0 <= a <= 0xEF && Within(s, 2, 0x80, 0xBF)
              && Within(s, 1, if a == 0xE0 then 0xA0 else 0x80, if a == 0xED then 0x9F else 0xBF) then 3
      else if && 0xF0 <= a <= 0xF4 && Within(s, 2, 0x80, 0xBF) && Within(s, 3, 0x80, 0xBF)
              && Within(s, 1, if a == 0xF0 then 0x90 else 0x80, if a == 0xF4 then 0x8F else 0xBF) then 4
      else 0
  }

  predicate Utf8(s: string)
    decreases |s|
  {
    s == "" || (RuneSize(s) > 0 && Utf8(s[RuneSize(s)..]))
  }

  lemma RunePrefix(a: string, b: string)
    requires RuneSize(a) > 0
    ensures RuneSize(a + b) == RuneSize(a)
  {
    assert forall i :: 0 <= i < |a| ==> (a + b)[i] == a[i];
  }

  lemma {:induction false} Utf8Joined(a: string, b: string)
    requires Utf8(a) && Utf8(b)
    ensures Utf8(a + b)
    decreases |a|
  {
    hide RuneSize;
    if a == "" {
      assert a + b == b;
    } else {
      RunePrefix(a, b);
      var n := RuneSize(a);
      Utf8Joined(a[n..], b);
      assert (a + b)[n..] == a[n..] + b;
    }
  }

  /** White space at the front is the first character. */
  lemma SpaceIsRune(s: string)
    requires SpaceFront(s) > 0
    ensures RuneSize(s) == SpaceFront(s)
  {
  }

  lemma {:induction false} TrimLeftUtf8(s: string)
    requires Utf8(s)
    ensures Utf8(TrimLeft(s))
    decreases |s|
  {
    if SpaceFront(s) > 0 {
      SpaceIsRune(s);
      TrimLeftUtf8(s[SpaceFront(s)..]);
    }
  }

  lemma BackStart(s: string)
    requires SpaceBack(s) > 0
    ensures !(0x80 <= s[|s| - SpaceBack(s)] as int <= 0xBF)
  {
  }

  lemma BackOfRest(s: string, n: nat)
    requires SpaceBack(s) > 0 && n <= |s| - SpaceBack(s)
    ensures SpaceBack(s[n..]) == SpaceBack(s)
  {
    assert forall i :: n <= i < |s| ==> s[n..][i - n] == s[i];
  }

  lemma Slices(s: string, n: nat, k: nat)
    requires n <= k <= |s|
    ensures s[..k][n..] == s[n..][..k - n]
  {
  }

  /** White space at the end starts at a character. */
  lemma {:induction false} DropBackUtf8(s: string)
    requires Utf8(s) && SpaceBack(s) > 0
    ensures Utf8(s[..|s| - SpaceBack(s)])
    decreases |s|
  {
    hide RuneSize, SpaceBack;
    var (n, k) := (RuneSize(s), |s| - SpaceBack(s));
    if k > 0 {
      BackStart(s);
      assert n <= k;
      BackOfRest(s, n);
      DropBackUtf8(s[n..]);
      Slices(s, n, k);
      RuneOfPrefix(s, k);
    }
  }

  lemma RuneOfPrefix(s: string, k: nat)
    requires 0 < RuneSize(s) <= k <= |s|
    ensures RuneSize(s[..k]) == RuneSize(s)
  {
    assert forall i :: 0 <= i < k ==> s[..k][i] == s[i];
  }

  lemma {:induction false} TrimRightUtf8(s: string)
    requires Utf8(s)
    ensures Utf8(TrimRight(s))
    decreases |s|
  {
    if SpaceBack(s) > 0 {
      DropBackUtf8(s);
      TrimRightUtf8(s[..|s| - SpaceBack(s)]);
    }
  }

  function LowerChar(c: char): char {
    if 'A' <= c <= 'Z' then ((c as int) + 32) as char else c
  }

  function ToLower(s: string): (r: string)
    ensures |r| == |s|
  {
    seq(|s|, i requires 0 <= i < |s| => LowerChar(s[i]))
  }

  predicate Ascii(s: string) {
    forall i :: 0 <= i < |s| ==> s[i] < 128 as char
  }

  // ---- decimal numbers

  predicate IsDigit(c: char) {
    '0' <= c <= '9'
  }

  function Digit(n: nat): (c: char)
    requires n < 10
    ensures IsDigit(c)
  {
    ('0' as int + n) as char
  }

  function Decimal(n: nat): (s: string)
    ensures s != [] && forall i :: 0 <= i < |s| ==> IsDigit(s[i])
  {
    if n < 10 then [Digit(n)] else Decimal(n / 10) + [Digit(n % 10)]
  }

  /** The value of a string of digits; None when it is empty or holds anything else. */
  function DigitsValue(s: string): Option<nat>
    decreases |s|
  {
    if s == [] then None
    else
      var (init, last) := (s[..|s| - 1], s[|s| - 1]);
      if !IsDigit(last) then None
      else
        var d := last as int - '0' as int;
        if init == [] then Some(d)
        else if DigitsValue(init).None? then None
        else Some(DigitsValue(init).value * 10 + d)
  }

  /** Unsigned decimal of at most 16 bits. */
  function ParseUint16(s: string): Option<nat> {
    match DigitsValue(s)
    case Some(n) => if n <= 0xFFFF then Some(n) else None
    case None => None
  }

  lemma {:induction false} DecimalValue(n: nat)
    ensures DigitsValue(Decimal(n)) == Some(n)
  {
    if n >= 10 {
      DecimalValue(n / 10);
      assert Decimal(n)[..|Decimal(n)| - 1] == Decimal(n / 10);
    }
  }
}
