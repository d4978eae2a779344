/**
 Scanning one text: tools/secret_scan.py, scan_text.  The matches of the regular
 expressions are parameters: any list of them is allowed.
 */
module ScanText {
  import opened Wrappers
  import opened Sequences
  import opened Text

  /** A match is not empty: every pattern asks for characters. */
  datatype Range = Range(start: nat, end: nat)
  type Span = s: Range | s.start < s.end witness Range(0, 1)

  datatype Token = Token(name: string, value: string, span: Span)

  datatype FieldMatch = FieldMatch(field: string, value: string, bare: bool, span: Span)

  datatype Block = Block(start: nat, body: string)

  datatype Patterns = Patterns(
    blocks: string -> seq<Block>,
    tokens: string -> seq<Token>,
    fields: string -> seq<FieldMatch>,
    suspiciousBody: string -> bool,
    placeholder: string -> bool,
    suspiciousValue: (string, bool) -> bool,
    lower: string -> string)

  datatype Finding = Finding(line: nat, name: string)

  // ----- what is reported, without the bookkeeping -----

  predicate Inside(k: nat, s: Span) {
    s.start <= k < s.end
  }

  /** No character is in both. */
  ghost predicate Disjoint(a: Span, b: Span) {
    forall k: nat :: Inside(k, a) ==> !Inside(k, b)
  }

  predicate Real(t: Token, p: Patterns) {
    !p.placeholder(t.value)
  }

  /** No token that is reported on the line shares a character with the value. */
  ghost predicate Standalone(f: FieldMatch, tokens: seq<Token>, p: Patterns) {
    forall t | t in tokens && Real(t, p) :: Disjoint(t.span, f.span)
  }

  ghost predicate Reported(f: FieldMatch, tokens: seq<Token>, p: Patterns) {
    Standalone(f, tokens, p) && p.suspiciousValue(f.value, f.bare)
  }

  function TokenFinding(line: nat, p: Patterns): Token -> seq<Finding> {
    (t: Token) => if Real(t, p) then [Finding(line, t.name)] else []
  }

  ghost function FieldFinding(line: nat, tokens: seq<Token>, p: Patterns): FieldMatch -> seq<Finding> {
    (f: FieldMatch) => if Reported(f, tokens, p) then [Finding(line, p.lower(f.field))] else []
  }

  ghost function LineFindings(text: string, line: nat, p: Patterns): seq<Finding> {
    FlatMap(TokenFinding(line, p), p.tokens(text)) + FlatMap(FieldFinding(line, p.tokens(text), p), p.fields(text))
  }

  function Itself<T>(): T -> T { (x: T) => x }

  /** The findings of each line, numbered from 1. */
  ghost function LineLists(lines: seq<string>, p: Patterns): (lists: seq<seq<Finding>>)
    ensures |lists| == |lines| && forall i :: 0 <= i < |lines| ==> lists[i] == LineFindings(lines[i], i + 1, p)
  {
    seq(|lines|, i requires 0 <= i < |lines| => LineFindings(lines[i], i + 1, p))
  }

  ghost function LinesFindings(lines: seq<string>, p: Patterns): seq<Finding> {
    FlatMap(Itself<seq<Finding>>(), LineLists(lines, p))
  }

  function BlockFinding(text: string, p: Patterns): Block -> seq<Finding> {
    (b: Block) => if p.suspiciousBody(b.body) then [Finding(Newlines(text, b.start) + 1, "private_key")] else []
  }

  /** `text.count("\n", 0, end)` */
  function Newlines(text: string, end: nat): nat {
    if end == 0 then 0
    else Newlines(text, end - 1) + if end <= |text| && text[end - 1] == '\n' then 1 else 0
  }

  // ----- the program -----

  predicate Overlap(a: Span, b: Span) {
    a.start < b.end && b.start < a.end
  }

  lemma OverlapIsSharing(a: Span, b: Span)
    ensures Overlap(a, b) <==> !Disjoint(a, b)
  {
    var first := if a.start < b.start then b.start else a.start;
    if Overlap(a, b) {
      assert Inside(first, a) && Inside(first, b);
    }
  }

  method ScanText(text: string, p: Patterns) returns (findings: seq<Finding>)
    ensures findings == FlatMap(BlockFinding(text, p), p.blocks(text)) + LinesFindings(Lines(text), p)
  {
    var first := ScanBlocks(text, p.blocks(text), p);
    var second := ScanLines(Lines(text), p);
    findings := first + second;
  }

  method ScanBlocks(text: string, blocks: seq<Block>, p: Patterns) returns (findings: seq<Finding>)
    ensures findings == FlatMap(BlockFinding(text, p), blocks)
  {
    findings := [];
    for k := 0 to |blocks|
      invariant findings == FlatMap(BlockFinding(text, p), blocks[..k])
    {
      FlatMapOneMore(BlockFinding(text, p), blocks, k);
      if p.suspiciousBody(blocks[k].body) {
        findings := findings + [Finding(Newlines(text, blocks[k].start) + 1, "private_key")];
      }
    }
    assert blocks[..|blocks|] == blocks;
  }

  method ScanLines(lines: seq<string>, p: Patterns) returns (findings: seq<Finding>)
    ensures findings == LinesFindings(lines, p)
  {
    ghost var lists := LineLists(lines, p);
    findings := [];
    for k := 0 to |lines|
      invariant findings == FlatMap(Itself<seq<Finding>>(), lists[..k])
    {
      FlatMapOneMore(Itself<seq<Finding>>(), lists, k);
      var more := ScanLine(lines[k], k + 1, p);
      findings := findings + more;
    }
    assert lists[..|lines|] == lists;
  }

  method ScanLine(text: string, line: nat, p: Patterns) returns (findings: seq<Finding>)
    ensures findings == LineFindings(text, line, p)
  {
    var tokens := p.tokens(text);
    var found, occupied := ScanTokens(tokens, line, p);
    var more := ScanFields(p.fields(text), tokens, occupied, line, p);
    findings := found + more;
  }

  /** The spans of the reported tokens. */
  ghost predicate AreOccupied(occupied: seq<Span>, tokens: seq<Token>, p: Patterns) {
    forall s :: s in occupied <==> exists t :: t in tokens && Real(t, p) && t.span == s
  }

  lemma OneMoreOccupied(occupied: seq<Span>, tokens: seq<Token>, k: nat, p: Patterns)
    requires k < |tokens| && AreOccupied(occupied, tokens[..k], p)
    ensures AreOccupied(if Real(tokens[k], p) then occupied + [tokens[k].span] else occupied, tokens[..k + 1], p)
  {
    var t, after := tokens[k], tokens[..k + 1];
    assert forall u :: u in after <==> u in tokens[..k] || u == t by {
      assert after == tokens[..k] + [t];
    }
    assert t in after;
  }

  method ScanTokens(tokens: seq<Token>, line: nat, p: Patterns) returns (findings: seq<Finding>, occupied: seq<Span>)
    ensures findings == FlatMap(TokenFinding(line, p), tokens)
    ensures AreOccupied(occupied, tokens, p)
  {
    findings, occupied := [], [];
    for k := 0 to |tokens|
      invariant findings == FlatMap(TokenFinding(line, p), tokens[..k])
      invariant AreOccupied(occupied, tokens[..k], p)
    {
      FlatMapOneMore(TokenFinding(line, p), tokens, k);
      OneMoreOccupied(occupied, tokens, k, p);
      if p.placeholder(tokens[k].value) {
        continue;
      }
      findings := findings + [Finding(line, tokens[k].name)];
      occupied := occupied + [tokens[k].span];
    }
    assert tokens[..|tokens|] == tokens;
  }

  method ScanFields(fields: seq<FieldMatch>, tokens: seq<Token>, occupied: seq<Span>, line: nat, p: Patterns) returns (findings: seq<Finding>)
    requires AreOccupied(occupied, tokens, p)
    ensures findings == FlatMap(FieldFinding(line, tokens, p), fields)
  {
    findings := [];
    for k := 0 to |fields|
      invariant findings == FlatMap(FieldFinding(line, tokens, p), fields[..k])
    {
      FlatMapOneMore(FieldFinding(line, tokens, p), fields, k);
      var f := fields[k];
      OccupiedMeansTaken(f, tokens, occupied, p);
      assert FieldFinding(line, tokens, p)(f) == if Reported(f, tokens, p) then [Finding(line, p.lower(f.field))] else [];
      if exists i :: 0 <= i < |occupied| && Overlap(occupied[i], f.span) {
        continue;
      }
      if p.suspiciousValue(f.value, f.bare) {
        findings := findings + [Finding(line, p.lower(f.field))];
      }
    }
    assert fields[..|fields|] == fields;
  }

  /** The test against the occupied spans finds exactly the values that are not standalone. */
  lemma OccupiedMeansTaken(f: FieldMatch, tokens: seq<Token>, occupied: seq<Span>, p: Patterns)
    requires AreOccupied(occupied, tokens, p)
    ensures (exists i :: 0 <= i < |occupied| && Overlap(occupied[i], f.span)) <==> !Standalone(f, tokens, p)
  {
    forall t | t in tokens && Real(t, p) ensures t.span in occupied && (Overlap(t.span, f.span) <==> !Disjoint(t.span, f.span)) {
      OverlapIsSharing(t.span, f.span);
    }
    if i :| 0 <= i < |occupied| && Overlap(occupied[i], f.span) {
      assert occupied[i] in occupied;
      var t :| t in tokens && Real(t, p) && t.span == occupied[i];
    }
    if !Standalone(f, tokens, p) {
      var t :| t in tokens && Real(t, p) && !Disjoint(t.span, f.span);
      var i :| 0 <= i < |occupied| && occupied[i] == t.span;
    }
  }

  // ----- what a finding says -----

  /** The line holds a reported token of this name, or a reported field with this name in lower case. */
  ghost predicate Names(text: string, name: string, p: Patterns) {
    || (exists t :: t in p.tokens(text) && NamesToken(t, name, p))
    || (exists f :: f in p.fields(text) && NamesField(f, p.tokens(text), name, p))
  }

  predicate NamesToken(t: Token, name: string, p: Patterns) {
    !p.placeholder(t.value) && t.name == name
  }

  /** The field's value looks like a secret and no token that counts shares a character with it. */
  ghost predicate NamesField(f: FieldMatch, tokens: seq<Token>, name: string, p: Patterns) {
    && p.suspiciousValue(f.value, f.bare) && p.lower(f.field) == name
    && forall t | t in tokens && !p.placeholder(t.value) :: forall k: nat :: Inside(k, t.span) ==> !Inside(k, f.span)
  }

  lemma FieldReported(f: FieldMatch, tokens: seq<Token>, p: Patterns)
    ensures Reported(f, tokens, p) <==> NamesField(f, tokens, p.lower(f.field), p)
  {
    forall t | t in tokens && Real(t, p) ensures Disjoint(t.span, f.span) <==> forall k: nat :: Inside(k, t.span) ==> !Inside(k, f.span) {
    }
  }

  lemma TokenFound(finding: Finding, t: Token, line: nat, p: Patterns)
    ensures finding in TokenFinding(line, p)(t) <==> finding.line == line && NamesToken(t, finding.name, p)
  {
  }

  lemma FieldFound(finding: Finding, f: FieldMatch, tokens: seq<Token>, line: nat, p: Patterns)
    ensures finding in FieldFinding(line, tokens, p)(f) <==> finding.line == line && NamesField(f, tokens, finding.name, p)
  {
    FieldReported(f, tokens, p);
  }

  lemma InEither<T>(xs: seq<T>, ys: seq<T>, x: T)
    ensures x in xs + ys <==> x in xs || x in ys
  {
  }

  lemma LineFindingsNamed(text: string, line: nat, finding: Finding, p: Patterns)
    ensures finding in LineFindings(text, line, p) <==> finding.line == line && Names(text, finding.name, p)
  {
    var tokens, fields := p.tokens(text), p.fields(text);
    FlatMapMembers(TokenFinding(line, p), tokens);
    FlatMapMembers(FieldFinding(line, tokens, p), fields);
    forall t | t in tokens ensures finding in TokenFinding(line, p)(t) <==> finding.line == line && NamesToken(t, finding.name, p) {
      TokenFound(finding, t, line, p);
    }
    forall f | f in fields ensures finding in FieldFinding(line, tokens, p)(f) <==> finding.line == line && NamesField(f, tokens, finding.name, p) {
      FieldFound(finding, f, tokens, line, p);
    }
    InEither(FlatMap(TokenFinding(line, p), tokens), FlatMap(FieldFinding(line, tokens, p), fields), finding);
  }

  /** A finding names a line by its number, counted from 1, and what was found in that line. */
  lemma FindingsNumbered(lines: seq<string>, finding: Finding, p: Patterns)
    ensures finding in LinesFindings(lines, p) <==>
            1 <= finding.line <= |lines| && Names(lines[finding.line - 1], finding.name, p)
  {
    var lists, named := LineLists(lines, p), NamedLines(lines, finding.name, p);
    forall i | 0 <= i < |lines| ensures finding in lists[i] <==> finding.line == i + 1 && named[i] {
      LineFindingsNamed(lines[i], i + 1, finding, p);
    }
    InNumbered(lists, finding, named);
  }

  ghost function NamedLines(lines: seq<string>, name: string, p: Patterns): (named: seq<bool>)
    ensures |named| == |lines| && forall i :: 0 <= i < |lines| ==> named[i] == Names(lines[i], name, p)
  {
    seq(|lines|, i requires 0 <= i < |lines| => Names(lines[i], name, p))
  }

  lemma InNumbered(lists: seq<seq<Finding>>, x: Finding, named: seq<bool>)
    requires |named| == |lists| && forall i :: 0 <= i < |lists| ==> (x in lists[i] <==> x.line == i + 1 && named[i])
    ensures x in FlatMap(Itself<seq<Finding>>(), lists) <==> 1 <= x.line <= |lists| && named[x.line - 1]
  {
    InSome(lists, x);
    if 1 <= x.line <= |lists| && named[x.line - 1] {
      assert x in lists[x.line - 1];
    }
  }

  lemma InSome<T>(lists: seq<seq<T>>, x: T)
    ensures x in FlatMap(Itself<seq<T>>(), lists) <==> exists i :: 0 <= i < |lists| && x in lists[i]
  {
    FlatMapMembers(Itself<seq<T>>(), lists);
    if i :| 0 <= i < |lists| && x in lists[i] {
      assert lists[i] in lists && x in Itself<seq<T>>()(lists[i]);
    }
  }

  /** A key block is reported exactly when its body is suspicious, under the number of newlines before it plus one. */
  lemma BlocksReported(text: string, finding: Finding, p: Patterns)
    ensures finding in FlatMap(BlockFinding(text, p), p.blocks(text)) <==>
            exists b :: b in p.blocks(text) && p.suspiciousBody(b.body) && finding == Finding(Newlines(text, b.start) + 1, "private_key")
  {
    FlatMapMembers(BlockFinding(text, p), p.blocks(text));
    if b :| b in p.blocks(text) && p.suspiciousBody(b.body) && finding == Finding(Newlines(text, b.start) + 1, "private_key") {
      assert finding in BlockFinding(text, p)(b);
    }
  }

  // ----- line numbers -----

  /** A line ends at `i`; of a carriage return and line feed it ends at the second. */
  predicate EndsLine(text: string, i: nat)
    requires i < |text|
  {
    IsBreak(text[i]) && !(text[i] == '\r' && i + 1 < |text| && text[i + 1] == '\n')
  }

  /** The number of lines that end before `end`. */
  function Ended(text: string, end: nat): nat
    requires end <= |text|
  {
    if end == 0 then 0 else Ended(text, end - 1) + if EndsLine(text, end - 1) then 1 else 0
  }

  predicate StartsLine(text: string, b: nat)
    requires b <= |text|
  {
    b == 0 || EndsLine(text, b - 1)
  }

  /** Line `n` is the text from `b`, where a line starts, to the next break or the end, and `n` lines end before it. */
  predicate LineAt(text: string, lines: seq<string>, n: nat, b: nat, e: nat)
    requires b <= e <= |text|
  {
    && StartsLine(text, b) && (e == |text| || IsBreak(text[e])) && Ended(text, b) == n
    && n < |lines| && lines[n] == text[b..e]
  }

  /** `at` is in the line with index `n`, before which there are `n` lines. */
  ghost predicate InLine(text: string, at: nat, n: nat) {
    exists b, e :: 0 <= b <= at < e <= |text| && LineAt(text, Lines(text), n, b, e)
  }

  lemma {:induction false} SameEnded(text: string, b: nat, at: nat)
    requires b <= at <= |text| && forall i :: b <= i < at ==> !IsBreak(text[i])
    ensures Ended(text, at) == Ended(text, b)
    decreases at
  {
    if b < at {
      SameEnded(text, b, at - 1);
    }
  }

  /** After the break of a line one more line has ended, and the next one starts. */
  lemma OneMoreEnded(text: string, from: nat)
    requires from <= |text| && BreakFrom(text, from) < |text|
    ensures var next := AfterBreak(text, BreakFrom(text, from));
            EndsLine(text, next - 1) && Ended(text, next) == Ended(text, from) + 1
  {
    var e := BreakFrom(text, from);
    SameEnded(text, from, e);
    assert Ended(text, e + 1) == Ended(text, e) + if EndsLine(text, e) then 1 else 0;
  }

  /** From a line start on, a character that ends no line is in the line that the ended lines count. */
  lemma {:induction false} LineIndexFrom(text: string, from: nat, at: nat) returns (b: nat, e: nat)
    requires from <= at < |text| && StartsLine(text, from) && !IsBreak(text[at])
    ensures from <= b <= at < e <= |text| && StartsLine(text, b) && (e == |text| || IsBreak(text[e]))
    ensures Ended(text, b) == Ended(text, at) >= Ended(text, from)
    ensures var k := Ended(text, at) - Ended(text, from);
            k < |LinesFrom(text, from)| && LinesFrom(text, from)[k] == text[b..e]
    decreases |text| - from
  {
    e := BreakFrom(text, from);
    if at < e {
      b := from;
      SameEnded(text, from, at);
    } else {
      var next := AfterBreak(text, e);
      OneMoreEnded(text, from);
      b, e := LineIndexFrom(text, next, at);
    }
  }

  /** The lines that have ended before a line start are the lines of what stands before it. */
  lemma {:induction false} PartLines(text: string, b: nat, from: nat)
    requires from <= b <= |text| && StartsLine(text, from) && StartsLine(text, b)
    ensures Ended(text, b) == Ended(text, from) + |LinesFrom(text[..b], from)|
    decreases b - from
  {
    if from < b {
      var part, e := text[..b], BreakFrom(text, from);
      assert forall i :: 0 <= i < b ==> part[i] == text[i];
      assert e <= b - 1;
      assert BreakFrom(part, from) == e;
      assert AfterBreak(part, e) == AfterBreak(text, e) <= b;
      OneMoreEnded(text, from);
      PartLines(text, b, AfterBreak(text, e));
    }
  }

  /** Before a line start there are as many lines as have ended. */
  lemma LinesEnded(text: string, b: nat)
    requires b <= |text| && StartsLine(text, b)
    ensures |Lines(text[..b])| == Ended(text, b)
  {
    PartLines(text, b, 0);
  }

  lemma {:induction false} LinesBreakFree(text: string, from: nat)
    requires from <= |text|
    ensures forall n :: 0 <= n < |LinesFrom(text, from)| ==> BreakFree(LinesFrom(text, from)[n])
    decreases |text| - from
  {
    if from < |text| {
      var e := BreakFrom(text, from);
      assert forall i :: 0 <= i < |text[from..e]| ==> text[from..e][i] == text[from + i];
      if e < |text| {
        LinesBreakFree(text, AfterBreak(text, e));
      }
    }
  }

  /** There is one line that holds a position. */
  lemma InLineUnique(text: string, at: nat, n: nat)
    requires at < |text| && InLine(text, at, n)
    ensures n == Ended(text, at)
  {
    var lines := Lines(text);
    var b, e :| 0 <= b <= at < e <= |text| && LineAt(text, lines, n, b, e);
    LinesBreakFree(text, 0);
    forall i | b <= i < at ensures !IsBreak(text[i]) {
      assert text[b..e][i - b] == text[i];
    }
    SameEnded(text, b, at);
  }

  /**
   The line number of a key block counts newlines; it is the number of the line
   that holds the block's start exactly when no line before it ends otherwise.
   */
  lemma BlockLineNumber(text: string, at: nat)
    requires at < |text| && !IsBreak(text[at])
    ensures forall n: nat :: InLine(text, at, n) <==> n == Ended(text, at)
    ensures InLine(text, at, Newlines(text, at)) <==> forall i :: 0 <= i < at && EndsLine(text, i) ==> text[i] == '\n'
  {
    var b, e := LineIndexFrom(text, 0, at);
    assert LineAt(text, Lines(text), Ended(text, at), b, e);
    forall n: nat ensures InLine(text, at, n) <==> n == Ended(text, at) {
      if InLine(text, at, n) {
        InLineUnique(text, at, n);
      }
    }
    NewlinesEnd(text, at);
  }

  /** After a carriage return alone, any block is in the second line and reported in the first. */
  lemma WrongLineNumber(key: string, p: Patterns, body: string)
    requires key != "" && !IsBreak(key[0]) && p.suspiciousBody(body)
    ensures var text := "\r" + key;
            && BlockFinding(text, p)(Block(1, body)) == [Finding(1, "private_key")]
            && InLine(text, 1, 1) && !InLine(text, 1, 0)
  {
    var text := "\r" + key;
    assert text[0] == '\r' && text[1] == key[0] && EndsLine(text, 0);
    assert Newlines(text, 1) == 0 && Ended(text, 1) == 1;
    BlockLineNumber(text, 1);
  }

  lemma {:induction false} NewlinesEnd(text: string, end: nat)
    requires end <= |text|
    ensures Newlines(text, end) <= Ended(text, end)
    ensures Newlines(text, end) == Ended(text, end) <==> forall i :: 0 <= i < end && EndsLine(text, i) ==> text[i] == '\n'
  {
    if end > 0 {
      NewlinesEnd(text, end - 1);
    }
  }
}
