/**
 Python's string operations, as the release tools use them.  A byte string is a
 string with one character per byte.
 */
module Text {
  import opened Wrappers

  // ----- whitespace and words -----

  predicate IsSpace(c: char) {
    var u := c as int;
    9 <= u <= 13 || 28 <= u <= 32 || u == 0x85 || u == 0xA0 || u == 0x1680 || 0x2000 <= u <= 0x200A
    || u == 0x2028 || u == 0x2029 || u == 0x202F || u == 0x205F || u == 0x3000
  }

  predicate SpaceFree(s: string) {
    forall i :: 0 <= i < |s| ==> !IsSpace(s[i])
  }

  predicate IsAscii(s: string) {
    forall i :: 0 <= i < |s| ==> s[i] < 128 as char
  }

  /** `s.split()`: the maximal runs of non-space characters. */
  function Words(s: string): (words: seq<string>)
    ensures s != "" && !IsSpace(s[|s| - 1]) ==> words != []
  {
    if s == "" then []
    else
      var n := |s| - 1;
      var before := Words(s[..n]);
      if IsSpace(s[n]) then before
      else if n == 0 || IsSpace(s[n - 1]) then before + [[s[n]]]
      else before[..|before| - 1] + [before[|before| - 1] + [s[n]]]
  }

  lemma {:induction false} WordsAreSpaceFree(s: string)
    ensures forall i :: 0 <= i < |Words(s)| ==> Words(s)[i] != "" && SpaceFree(Words(s)[i])
  {
    if s != "" {
      WordsAreSpaceFree(s[..|s| - 1]);
    }
  }

  /** One more character of the last word, or the first of a new one. */
  lemma WordsGrow(s: string, c: char)
    requires !IsSpace(c)
    ensures var before := Words(s);
            Words(s + [c]) == if s == "" || IsSpace(s[|s| - 1]) then before + [[c]]
                              else before[..|before| - 1] + [before[|before| - 1] + [c]]
  {
    var t := s + [c];
    assert |t| - 1 == |s| && t[|s|] == c && t[..|s|] == s;
    assert s != "" ==> t[|s| - 1] == s[|s| - 1];
  }

  lemma {:induction false} WordAfter(s: string, w: string)
    requires s == "" || IsSpace(s[|s| - 1])
    requires w != "" && SpaceFree(w)
    ensures Words(s + w) == Words(s) + [w]
  {
    var n := |w| - 1;
    var before, c := w[..n], w[n];
    assert w == before + [c] && s + w == (s + before) + [c];
    WordsGrow(s + before, c);
    if n == 0 {
      assert s + before == s;
    } else {
      WordAfter(s, before);
      assert (s + before)[|s + before| - 1] == before[n - 1];
    }
  }

  lemma SpaceAfter(s: string, c: char)
    requires IsSpace(c)
    ensures Words(s + [c]) == Words(s)
  {
    assert (s + [c])[..|s|] == s;
  }

  lemma ThreeWords(a: string, b: string, c: string)
    requires a != "" && SpaceFree(a) && b != "" && SpaceFree(b) && c != "" && SpaceFree(c)
    ensures Words(a + " " + b + " " + c) == [a, b, c]
  {
    assert "" + a == a;
    WordAfter("", a);
    SpaceAfter(a, ' ');
    WordAfter(a + " ", b);
    SpaceAfter(a + " " + b, ' ');
    WordAfter(a + " " + b + " ", c);
  }

  lemma TwoWords(a: string, b: string)
    requires a != "" && SpaceFree(a) && b != "" && SpaceFree(b)
    ensures Words(a + " " + b) == [a, b]
  {
    assert "" + a == a;
    WordAfter("", a);
    SpaceAfter(a, ' ');
    WordAfter(a + " ", b);
  }

  // ----- strip -----

  function StripLeft(s: string): string {
    if s != "" && IsSpace(s[0]) then StripLeft(s[1..]) else s
  }

  function StripRight(s: string): string {
    if s != "" && IsSpace(s[|s| - 1]) then StripRight(s[..|s| - 1]) else s
  }

  /** `s.strip()` */
  function Strip(s: string): string {
    StripRight(StripLeft(s))
  }

  predicate Trimmed(s: string) {
    s == "" || (!IsSpace(s[0]) && !IsSpace(s[|s| - 1]))
  }

  lemma StripTrimmed(s: string)
    requires Trimmed(s)
    ensures Strip(s) == s
  {
  }

  predicate Blank(s: string) {
    forall i :: 0 <= i < |s| ==> IsSpace(s[i])
  }

  lemma {:induction false} LeftStripped(lead: string, s: string)
    requires Blank(lead)
    ensures StripLeft(lead + s) == StripLeft(s)
  {
    if lead == "" {
      assert lead + s == s;
    } else {
      assert (lead + s)[1..] == lead[1..] + s;
      LeftStripped(lead[1..], s);
    }
  }

  lemma {:induction false} RightStripped(s: string, trail: string)
    requires Blank(trail)
    ensures StripRight(s + trail) == StripRight(s)
    decreases |trail|
  {
    var n := |trail| - 1;
    if trail == "" {
      assert s + trail == s;
    } else {
      assert (s + trail)[..|s + trail| - 1] == s + trail[..n];
      RightStripped(s, trail[..n]);
    }
  }

  /** Stripping removes exactly the surrounding space. */
  lemma StripExact(lead: string, t: string, trail: string)
    requires Blank(lead) && Blank(trail) && Trimmed(t)
    ensures Strip(lead + t + trail) == t
  {
    assert lead + t + trail == lead + (t + trail);
    LeftStripped(lead, t + trail);
    if t == "" {
      assert t + trail == trail == trail + "";
      LeftStripped(trail, "");
    } else {
      assert (t + trail)[0] == t[0];
      RightStripped(t, trail);
    }
  }

  // ----- find, split and join -----

  /** `s.find(c, from)` for a start inside the string. */
  function Find(s: string, c: char, from: nat): (at: int)
    requires from <= |s|
    ensures at == -1 || (from <= at < |s| && s[at] == c)
    ensures forall k :: from <= k < (if at == -1 then |s| else at) ==> s[k] != c
    decreases |s| - from
  {
    if from == |s| then -1 else if s[from] == c then from else Find(s, c, from + 1)
  }

  /** `s.split(sep)` */
  function Split(s: string, sep: char): (parts: seq<string>)
    ensures parts != []
  {
    if s == "" then [""]
    else
      var n := |s| - 1;
      var before := Split(s[..n], sep);
      if s[n] == sep then before + [""]
      else before[..|before| - 1] + [before[|before| - 1] + [s[n]]]
  }

  /** `sep.join(parts)` */
  function Join(parts: seq<string>, sep: string): string {
    if parts == [] then ""
    else if |parts| == 1 then parts[0]
    else Join(parts[..|parts| - 1], sep) + sep + parts[|parts| - 1]
  }

  lemma {:induction false} SplitParts(s: string, sep: char)
    ensures forall i :: 0 <= i < |Split(s, sep)| ==> sep !in Split(s, sep)[i]
    ensures forall i, c :: 0 <= i < |Split(s, sep)| && c in Split(s, sep)[i] ==> c in s
  {
    if s != "" {
      var n := |s| - 1;
      SplitParts(s[..n], sep);
      assert s == s[..n] + [s[n]];
    }
  }

  lemma {:induction false} SplitAppend(s: string, sep: char, w: string)
    requires sep !in w
    ensures Split(s + [sep] + w, sep) == Split(s, sep) + [w]
  {
    if w == "" {
      assert s + [sep] + w == s + [sep];
      assert (s + [sep])[..|s|] == s;
    } else {
      var n := |w| - 1;
      SplitAppend(s, sep, w[..n]);
      assert (s + [sep] + w)[..|s| + 1 + n] == s + [sep] + w[..n];
      assert w == w[..n] + [w[n]];
      assert (Split(s, sep) + [w[..n]])[..|Split(s, sep)|] == Split(s, sep);
    }
  }

  lemma {:induction false} SplitNone(s: string, sep: char)
    requires sep !in s
    ensures Split(s, sep) == [s]
  {
    if s != "" {
      SplitNone(s[..|s| - 1], sep);
      assert s == s[..|s| - 1] + [s[|s| - 1]];
    }
  }

  lemma {:induction false} SplitJoin(parts: seq<string>, sep: char)
    requires parts != []
    requires forall i :: 0 <= i < |parts| ==> sep !in parts[i]
    ensures Split(Join(parts, [sep]), sep) == parts
  {
    var n := |parts| - 1;
    if n == 0 {
      SplitNone(parts[0], sep);
    } else {
      SplitJoin(parts[..n], sep);
      SplitAppend(Join(parts[..n], [sep]), sep, parts[n]);
      assert parts == parts[..n] + [parts[n]];
    }
  }

  /** Joining puts the separator after the first part as after the others. */
  lemma {:induction false} JoinFirst(first: string, rest: seq<string>, sep: string)
    ensures Join([first] + rest, sep) == if rest == [] then first else first + sep + Join(rest, sep)
  {
    if |rest| > 1 {
      var n := |rest| - 1;
      JoinFirst(first, rest[..n], sep);
      assert ([first] + rest)[..n + 1] == [first] + rest[..n];
      assert Join([first] + rest, sep) == first + sep + Join(rest[..n], sep) + sep + rest[n];
    } else {
      assert ([first] + rest)[..|rest|] == if rest == [] then [] else [first];
    }
  }

  lemma {:induction false} JoinCharacters(parts: seq<string>, sep: char, c: char)
    requires c != sep
    requires forall i :: 0 <= i < |parts| ==> c !in parts[i]
    ensures c !in Join(parts, [sep])
  {
    if |parts| > 1 {
      JoinCharacters(parts[..|parts| - 1], sep, c);
    }
  }

  /** A cut at the first `sep`: `s.split(sep, 1)` when it yields two parts. */
  datatype Cut = Cut(before: string, after: string)

  function CutAt(s: string, sep: char): (cut: Option<Cut>)
    ensures cut == None <==> sep !in s
    ensures cut.Some? ==> sep !in cut.value.before && s == cut.value.before + [sep] + cut.value.after
  {
    var at := Find(s, sep, 0);
    if at < 0 then None else Some(Cut(s[..at], s[at + 1..]))
  }

  /** The cut is the only one whose first part has no separator. */
  lemma CutUnique(before: string, sep: char, after: string)
    requires sep !in before
    ensures CutAt(before + [sep] + after, sep) == Some(Cut(before, after))
  {
    var s := before + [sep] + after;
    assert s[|before|] == sep;
    assert forall k :: 0 <= k < |before| ==> s[k] == before[k];
    assert Find(s, sep, 0) == |before|;
    assert s[..|before|] == before && s[|before| + 1..] == after;
  }

  // ----- lines -----

  predicate IsBreak(c: char) {
    var u := c as int;
    10 <= u <= 13 || 28 <= u <= 30 || u == 0x85 || u == 0x2028 || u == 0x2029
  }

  predicate BreakFree(s: string) {
    forall i :: 0 <= i < |s| ==> !IsBreak(s[i])
  }

  /** The first break from a position on, or the end. */
  function BreakFrom(s: string, from: nat): (at: nat)
    requires from <= |s|
    ensures from <= at <= |s|
    ensures forall k :: from <= k < at ==> !IsBreak(s[k])
    ensures at < |s| ==> IsBreak(s[at])
    decreases |s| - from
  {
    if from == |s| || IsBreak(s[from]) then from else BreakFrom(s, from + 1)
  }

  /** The position after a break; a carriage return and line feed are one. */
  function AfterBreak(s: string, at: nat): (next: nat)
    requires at < |s|
    ensures at < next <= |s|
  {
    if s[at] == '\r' && at + 1 < |s| && s[at + 1] == '\n' then at + 2 else at + 1
  }

  /** The lines from a position on. */
  function LinesFrom(s: string, from: nat): seq<string>
    requires from <= |s|
    decreases |s| - from
  {
    if from == |s| then []
    else
      var at := BreakFrom(s, from);
      [s[from..at]] + if at == |s| then [] else LinesFrom(s, AfterBreak(s, at))
  }

  /** `s.splitlines()` */
  function Lines(s: string): seq<string> {
    LinesFrom(s, 0)
  }

  /** A line that stands at a position and ends in a newline is the first one from there. */
  lemma LineFirst(s: string, from: nat, line: string)
    requires BreakFree(line)
    requires from + |line| < |s| && s[from..from + |line|] == line && s[from + |line|] == '\n'
    ensures LinesFrom(s, from) == [line] + LinesFrom(s, from + |line| + 1)
  {
    assert forall k :: from <= k < from + |line| ==> s[k] == line[k - from];
    assert BreakFrom(s, from) == from + |line|;
  }

  // ----- decimal numbers -----

  function DigitChar(d: nat): (c: char)
    requires d < 10
    ensures '0' <= c <= '9' && DigitValue(c) == d
  {
    '0' + d as char
  }

  predicate IsDigit(c: char) {
    '0' <= c <= '9'
  }

  function DigitValue(c: char): (d: nat)
    requires IsDigit(c)
    ensures d < 10
  {
    c as int - '0' as int
  }

  /** `str(n)` for a natural number. */
  function Print(n: nat): string {
    (if n < 10 then "" else Print(n / 10)) + [DigitChar(n % 10)]
  }

  /** Decimal digits, with single underscores allowed between them. */
  function Digits(s: string): Option<nat> {
    if s == "" || !IsDigit(s[|s| - 1]) then None
    else
      var n := |s| - 1;
      var d := DigitValue(s[n]);
      if n == 0 then Some(d)
      else
        match Digits(if s[n - 1] == '_' then s[..n - 1] else s[..n])
        case Some(high) => Some(10 * high + d)
        case None => None
  }

  /** `int(s)` for an ASCII word; `None` stands for ValueError. */
  function ParseInt(s: string): Option<int> {
    if s != "" && (s[0] == '+' || s[0] == '-') then
      match Digits(s[1..])
      case Some(n) => var m: int := n; Some(if s[0] == '-' then -m else m)
      case None => None
    else
      match Digits(s)
      case Some(n) => Some(n)
      case None => None
  }

  lemma {:induction false} PrintParses(n: nat)
    ensures Print(n) != "" && forall i :: 0 <= i < |Print(n)| ==> IsDigit(Print(n)[i])
    ensures Digits(Print(n)) == Some(n)
    ensures ParseInt(Print(n)) == Some(n)
    ensures SpaceFree(Print(n)) && IsAscii(Print(n))
  {
    var s := Print(n);
    if n < 10 {
      assert s == [DigitChar(n)];
    } else {
      PrintParses(n / 10);
      assert s[..|s| - 1] == Print(n / 10);
      assert IsDigit(s[|s| - 2]);
    }
  }
}
