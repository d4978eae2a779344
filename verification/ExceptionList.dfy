/**
 The list of accepted audit exceptions:
 tools/check_pnpm_audit_exceptions.py, split_kv and parse_exceptions.
 */
module ExceptionList {
  import opened Wrappers
  import opened Sequences
  import opened Text

  type Record = map<string, string>

  datatype Field = Field(key: string, value: string)

  /** A key-value line without a colon. */
  datatype ListError = NoColon(line: string)

  // ----- one line -----

  /** `value[1:-1]` */
  function Inner(value: string): string {
    if |value| < 2 then "" else value[1..|value| - 1]
  }

  predicate QuotedBy(value: string, quote: char) {
    value != "" && value[0] == quote && value[|value| - 1] == quote
  }

  function SplitKv(line: string): Result<Field, ListError> {
    match CutAt(line, ':')
    case None => Err(NoColon(line))
    case Some(Cut(key, after)) =>
      var value := Strip(after);
      Ok(Field(Strip(key), if QuotedBy(value, '"') || QuotedBy(value, '\'') then Inner(value) else value))
  }

  /** What one stripped line asks for. */
  datatype Request = Skip | Open | OpenWith(field: string) | Set(field: string)

  function RequestOf(line: string): Request {
    if line == "" || "#" <= line then Skip
    else if "version:" <= line || "exceptions:" <= line then Skip
    else if "- " <= line then
      var rest := Strip(line[2..]);
      if rest == "" then Open else OpenWith(rest)
    else if ':' in line then Set(line)
    else Skip
  }

  // ----- the reader -----

  datatype State = State(done: seq<Record>, current: Option<Record>)

  /** A record that is open and not empty is closed; an empty one is dropped. */
  function Closed(s: State): seq<Record> {
    if s.current.Some? && s.current.value != map[] then s.done + [s.current.value] else s.done
  }

  function Obey(s: State, request: Request): Result<State, ListError> {
    match request
    case Skip => Ok(s)
    case Open => Ok(State(Closed(s), Some(map[])))
    case OpenWith(field) =>
      (match SplitKv(field)
       case Err(e) => Err(e)
       case Ok(f) => Ok(State(Closed(s), Some(map[f.key := f.value]))))
    case Set(field) =>
      if s.current == None then Ok(s)
      else
        match SplitKv(field)
        case Err(e) => Err(e)
        case Ok(f) => Ok(s.(current := Some(s.current.value[f.key := f.value])))
  }

  function Step(s: State, raw: string): Result<State, ListError> {
    Obey(s, RequestOf(Strip(raw)))
  }

  type Stepper = (State, string) -> Result<State, ListError>

  function Run(step: Stepper, s: State, lines: seq<string>): Result<State, ListError>
    decreases |lines|
  {
    if lines == [] then Ok(s)
    else
      match step(s, lines[0])
      case Err(e) => Err(e)
      case Ok(t) => Run(step, t, lines[1..])
  }

  /** The records of a list, or the error of its first malformed line. */
  function Records(lines: seq<string>): Result<seq<Record>, ListError> {
    match Run(Step, State([], None), lines)
    case Err(e) => Err(e)
    case Ok(s) => Ok(Closed(s))
  }

  method ParseExceptions(lines: seq<string>) returns (answer: Result<seq<Record>, ListError>)
    ensures answer == Records(lines)
  {
    var exceptions: seq<Record> := [];
    var current: Option<Record> := None;
    for k := 0 to |lines|
      invariant Run(Step, State(exceptions, current), lines[k..]) == Run(Step, State([], None), lines)
    {
      assert lines[k..][0] == lines[k] && lines[k..][1..] == lines[k + 1..];
      var request := RequestOf(Strip(lines[k]));
      if request.Open? || request.OpenWith? {
        var field := Ok(Field("", ""));
        if request.OpenWith? {
          field := SplitKv(request.field);
          if field.Err? {
            return Err(field.error);
          }
        }
        exceptions := Closed(State(exceptions, current));
        current := Some(if request.Open? then map[] else map[field.value.key := field.value.value]);
      } else if request.Set? && current.Some? {
        var field := SplitKv(request.field);
        if field.Err? {
          return Err(field.error);
        }
        current := Some(current.value[field.value.key := field.value.value]);
      }
    }
    return Ok(Closed(State(exceptions, current)));
  }

  /** The list is refused only for an opening line: every other line is read or ignored. */
  lemma OnlyOpeningLinesFail(s: State, raw: string)
    ensures Step(s, raw).Err? <==> RequestOf(Strip(raw)).OpenWith? && ':' !in RequestOf(Strip(raw)).field
  {
  }

  /** The line opens a record with text that has no colon. */
  predicate IsMalformed(raw: string) {
    RequestOf(Strip(raw)).OpenWith? && ':' !in RequestOf(Strip(raw)).field
  }

  ghost predicate RefusesMalformed(step: Stepper, malformed: string -> bool) {
    forall s: State, raw: string :: step(s, raw).Err? <==> malformed(raw)
  }

  lemma {:induction false} RunRefuses(step: Stepper, s: State, lines: seq<string>, malformed: string -> bool)
    requires RefusesMalformed(step, malformed)
    ensures Run(step, s, lines).Err? <==> exists i :: 0 <= i < |lines| && malformed(lines[i])
    decreases |lines|
  {
    if lines != [] {
      assert lines == [lines[0]] + lines[1..];
      match step(s, lines[0])
      case Err(_) =>
        assert malformed(lines[0]);
      case Ok(t) =>
        assert !malformed(lines[0]);
        RunRefuses(step, t, lines[1..], malformed);
        if i :| 0 <= i < |lines| && malformed(lines[i]) {
          assert lines[1..][i - 1] == lines[i];
        }
        if i :| 0 <= i < |lines[1..]| && malformed(lines[1..][i]) {
          assert lines[i + 1] == lines[1..][i];
        }
    }
  }

  /** A list is refused exactly when one of its lines opens a record with text that has no colon. */
  lemma ListRefused(lines: seq<string>)
    ensures Records(lines).Err? <==> exists i :: 0 <= i < |lines| && IsMalformed(lines[i])
  {
    forall s: State, raw: string ensures Step(s, raw).Err? <==> IsMalformed(raw) {
      OnlyOpeningLinesFail(s, raw);
    }
    RunRefuses(Step, State([], None), lines, IsMalformed);
  }

  // ----- a printer -----

  function AsRecord(fields: seq<Field>): Record {
    if fields == [] then map[]
    else
      var f := fields[|fields| - 1];
      AsRecord(fields[..|fields| - 1])[f.key := f.value]
  }

  function Pair(f: Field): string {
    f.key + ":" + " \"" + f.value + "\""
  }

  function PrintLine(f: Field, first: bool): string {
    (if first then "- " else "  ") + Pair(f)
  }

  function PrintRecord(fields: seq<Field>): seq<string> {
    seq(|fields|, i requires 0 <= i < |fields| => PrintLine(fields[i], i == 0))
  }

  function PrintRecords(records: seq<seq<Field>>): seq<string> {
    FlatMap(PrintRecord, records)
  }

  /** A key that can stand before a colon. */
  predicate Plain(key: string) {
    Trimmed(key) && ':' !in key && '\n' !in key
  }

  /** A key that opens a line which means something else. */
  predicate Reserved(key: string) {
    "#" <= key || "- " <= key || key == "version" || key == "exceptions"
  }

  predicate PrintableRecord(fields: seq<Field>) {
    && fields != []
    && (forall i :: 0 <= i < |fields| ==> Plain(fields[i].key) && '\n' !in fields[i].value)
    && (forall i :: 1 <= i < |fields| ==> !Reserved(fields[i].key))
  }

  // ----- reading back one line -----

  lemma Unquotes(value: string)
    ensures var quoted := "\"" + value + "\"";
            Strip(" " + quoted) == quoted && QuotedBy(quoted, '"') && Inner(quoted) == value
  {
    var quoted := "\"" + value + "\"";
    assert (" " + quoted)[1..] == quoted;
    assert StripLeft(" " + quoted) == StripLeft(quoted) == quoted;
  }

  lemma PairSplits(f: Field)
    requires Plain(f.key)
    ensures SplitKv(Pair(f)) == Ok(f)
  {
    var after := " " + ("\"" + f.value + "\"");
    assert Pair(f) == f.key + [':'] + after;
    CutUnique(f.key, ':', after);
    Unquotes(f.value);
    StripTrimmed(f.key);
  }

  lemma PairTrimmed(f: Field)
    requires Plain(f.key)
    ensures Trimmed(Pair(f)) && Pair(f) != "" && ':' in Pair(f)
    ensures Strip("  " + Pair(f)) == Pair(f)
    ensures Strip("- " + Pair(f)) == "- " + Pair(f)
  {
    var line := Pair(f);
    assert line[|line| - 1] == '"' && line[|f.key|] == ':';
    StripTrimmed(line);
    assert ("  " + line)[1..] == " " + line && (" " + line)[1..] == line;
    assert StripLeft("  " + line) == StripLeft(" " + line) == StripLeft(line) == line;
    StripTrimmed("- " + line);
  }

  lemma FirstLine(f: Field)
    requires Plain(f.key)
    ensures RequestOf(Strip(PrintLine(f, true))) == OpenWith(Pair(f))
  {
    PairTrimmed(f);
    StripTrimmed(Pair(f));
    assert ("- " + Pair(f))[2..] == Pair(f);
  }

  lemma NextLine(f: Field)
    requires Plain(f.key) && !Reserved(f.key)
    ensures RequestOf(Strip(PrintLine(f, false))) == Set(Pair(f))
  {
    var line := Pair(f);
    PairTrimmed(f);
    WordBeforeColon("#", f);
    WordBeforeColon("- ", f);
    NameBeforeColon("version", f);
    NameBeforeColon("exceptions", f);
  }

  /** A word without a colon that begins the line begins the key. */
  lemma WordBeforeColon(word: string, f: Field)
    requires ':' !in word
    ensures word <= Pair(f) ==> word <= f.key
  {
    var line := Pair(f);
    assert line[..|f.key|] == f.key && line[|f.key|] == ':';
    if word <= line {
      assert forall i :: 0 <= i < |word| ==> word[i] == line[i];
      assert |word| <= |f.key|;
      assert line[..|word|] == f.key[..|word|];
    }
  }

  /** A name with its colon that begins the line is the key. */
  lemma NameBeforeColon(name: string, f: Field)
    requires ':' !in name && ':' !in f.key
    ensures name + ":" <= Pair(f) ==> f.key == name
  {
    var line := Pair(f);
    assert line[..|f.key|] == f.key && line[|f.key|] == ':';
    if name + ":" <= line {
      var head := name + ":";
      assert forall i :: 0 <= i < |head| ==> head[i] == line[i];
      assert head[|name|] == ':';
      assert |f.key| <= |name| && |name| <= |f.key|;
      assert line[..|name|] == name;
    }
  }

  // ----- reading back the whole list -----

  /** The stepper handles the lines of a printed record as the record's fields. */
  ghost predicate ReadsPrinted(step: Stepper) {
    && (forall s: State, f: Field :: Plain(f.key) ==>
          step(s, PrintLine(f, true)) == Ok(State(Closed(s), Some(map[f.key := f.value]))))
    && (forall s: State, f: Field :: s.current.Some? && Plain(f.key) && !Reserved(f.key) ==>
          step(s, PrintLine(f, false)) == Ok(s.(current := Some(s.current.value[f.key := f.value]))))
  }

  lemma ObeyField(s: State, line: string, f: Field)
    requires SplitKv(line) == Ok(f)
    ensures Obey(s, OpenWith(line)) == Ok(State(Closed(s), Some(map[f.key := f.value])))
    ensures s.current.Some? ==> Obey(s, Set(line)) == Ok(s.(current := Some(s.current.value[f.key := f.value])))
  {
  }

  lemma StepFirst(s: State, f: Field)
    requires Plain(f.key)
    ensures Step(s, PrintLine(f, true)) == Ok(State(Closed(s), Some(map[f.key := f.value])))
  {
    FirstLine(f);
    PairSplits(f);
    ObeyField(s, Pair(f), f);
  }

  lemma StepNext(s: State, f: Field)
    requires s.current.Some? && Plain(f.key) && !Reserved(f.key)
    ensures Step(s, PrintLine(f, false)) == Ok(s.(current := Some(s.current.value[f.key := f.value])))
  {
    NextLine(f);
    PairSplits(f);
    ObeyField(s, Pair(f), f);
  }

  lemma StepReadsPrinted()
    ensures ReadsPrinted(Step)
  {
    forall s: State, f: Field | Plain(f.key)
      ensures Step(s, PrintLine(f, true)) == Ok(State(Closed(s), Some(map[f.key := f.value])))
    {
      StepFirst(s, f);
    }
    forall s: State, f: Field | s.current.Some? && Plain(f.key) && !Reserved(f.key)
      ensures Step(s, PrintLine(f, false)) == Ok(s.(current := Some(s.current.value[f.key := f.value])))
    {
      StepNext(s, f);
    }
  }

  lemma {:induction false} RunAppend(step: Stepper, s: State, before: seq<string>, after: seq<string>)
    ensures Run(step, s, before + after) ==
            match Run(step, s, before) case Err(e) => Err(e) case Ok(t) => Run(step, t, after)
    decreases |before|
  {
    if before == [] {
      assert before + after == after;
    } else {
      assert (before + after)[1..] == before[1..] + after;
      match step(s, before[0])
      case Err(_) =>
      case Ok(t) => RunAppend(step, t, before[1..], after);
    }
  }

  lemma {:induction false} RecordReadsBack(step: Stepper, s: State, fields: seq<Field>)
    requires ReadsPrinted(step) && PrintableRecord(fields)
    ensures Run(step, s, PrintRecord(fields)) == Ok(State(Closed(s), Some(AsRecord(fields))))
    decreases |fields|
  {
    var n := |fields| - 1;
    var last := fields[n];
    var lines := PrintRecord(fields[..n]);
    assert PrintRecord(fields) == lines + [PrintLine(last, n == 0)];
    if n == 0 {
      assert PrintRecord(fields)[1..] == [];
      assert AsRecord(fields) == map[last.key := last.value];
    } else {
      RecordReadsBack(step, s, fields[..n]);
      RunAppend(step, s, lines, [PrintLine(last, false)]);
      OneLine(step, State(Closed(s), Some(AsRecord(fields[..n]))), PrintLine(last, false));
    }
  }

  lemma OneLine(step: Stepper, s: State, line: string)
    ensures Run(step, s, [line]) == step(s, line)
  {
    assert [line][1..] == [];
  }

  lemma {:induction false} AsRecordNonEmpty(fields: seq<Field>)
    requires fields != []
    ensures AsRecord(fields) != map[]
  {
    var f := fields[|fields| - 1];
    assert f.key in AsRecord(fields);
  }

  lemma RecordAdded(step: Stepper, s: State, fields: seq<Field>)
    requires ReadsPrinted(step) && PrintableRecord(fields)
    ensures var end := Run(step, s, PrintRecord(fields));
            end.Ok? && Closed(end.value) == Closed(s) + [AsRecord(fields)]
  {
    RecordReadsBack(step, s, fields);
    AsRecordNonEmpty(fields);
  }

  /** From any state, the lines close what is open and add the record. */
  ghost predicate Adds(step: Stepper, lines: seq<string>, r: Record) {
    forall s: State :: Run(step, s, lines).Ok? && Closed(Run(step, s, lines).value) == Closed(s) + [r]
  }

  lemma {:induction false} ListReadsBack<F>(step: Stepper, s: State, items: seq<F>, lines: F -> seq<string>, record: F -> Record)
    requires forall i :: 0 <= i < |items| ==> Adds(step, lines(items[i]), record(items[i]))
    ensures var end := Run(step, s, FlatMap(lines, items));
            end.Ok? && Closed(end.value) == Closed(s) + Map(record, items)
    decreases |items|
  {
    if items != [] {
      var n := |items| - 1;
      ListReadsBack(step, s, items[..n], lines, record);
      RunAppend(step, s, FlatMap(lines, items[..n]), lines(items[n]));
      MapOneMore(record, items, n);
      assert items[..n + 1] == items;
    }
  }

  /** The lines of a file that names its version and opens the list. */
  function PrintFile(records: seq<seq<Field>>): seq<string> {
    ["version: 1", "exceptions:"] + PrintRecords(records)
  }

  /** Parsing the printed list gives back its records, whatever quotes, colons and spaces the values hold. */
  lemma FileReadsBack(records: seq<seq<Field>>)
    requires forall i :: 0 <= i < |records| ==> PrintableRecord(records[i])
    ensures Records(PrintFile(records)) == Ok(Map(AsRecord, records))
  {
    var start := State([], None);
    var head := ["version: 1", "exceptions:"];
    StepReadsPrinted();
    HeadSkipped();
    assert PrintFile(records) == head + PrintRecords(records);
    RunAppend(Step, start, head, PrintRecords(records));
    forall i | 0 <= i < |records| ensures Adds(Step, PrintRecord(records[i]), AsRecord(records[i])) {
      forall s: State
        ensures var end := Run(Step, s, PrintRecord(records[i]));
                end.Ok? && Closed(end.value) == Closed(s) + [AsRecord(records[i])]
      {
        RecordAdded(Step, s, records[i]);
      }
    }
    ListReadsBack(Step, start, records, PrintRecord, AsRecord);
    assert Closed(start) + Map(AsRecord, records) == Map(AsRecord, records);
  }

  lemma HeadSkipped()
    ensures Run(Step, State([], None), ["version: 1", "exceptions:"]) == Ok(State([], None))
  {
    StripTrimmed("version: 1");
    StripTrimmed("exceptions:");
    OneLine(Step, State([], None), "exceptions:");
    assert ["version: 1", "exceptions:"][1..] == ["exceptions:"];
  }

  lemma LinesHaveNoBreak(records: seq<seq<Field>>)
    requires forall i :: 0 <= i < |records| ==> PrintableRecord(records[i])
    ensures forall i :: 0 <= i < |PrintFile(records)| ==> '\n' !in PrintFile(records)[i]
  {
    FlatMapMembers(PrintRecord, records);
    forall line | line in PrintRecords(records) ensures '\n' !in line {
      var fields: seq<Field> :| fields in records && line in PrintRecord(fields);
      var i :| 0 <= i < |PrintRecord(fields)| && PrintRecord(fields)[i] == line;
      assert '\n' !in fields[i].key && '\n' !in fields[i].value;
    }
  }

  /** Python's newline translation: a carriage return, alone or before a line feed, reads as a line feed. */
  function Translated(text: string): string
    decreases |text|
  {
    if text == "" then ""
    else if text[0] == '\r' then "\n" + Translated(if |text| > 1 && text[1] == '\n' then text[2..] else text[1..])
    else [text[0]] + Translated(text[1..])
  }

  /** The lines of a text file. */
  function FileLines(text: string): seq<string> {
    Split(Translated(text), '\n')
  }

  lemma {:induction false} NothingTranslated(text: string)
    requires '\r' !in text
    ensures Translated(text) == text
    decreases |text|
  {
    if text != "" {
      assert text[0] in text;
      NothingTranslated(text[1..]);
    }
  }

  /** No key and no value holds a carriage return, which is a line break too. */
  predicate ReturnFree(fields: seq<Field>) {
    forall i :: 0 <= i < |fields| ==> '\r' !in fields[i].key && '\r' !in fields[i].value
  }

  lemma LinesHaveNoReturn(records: seq<seq<Field>>)
    requires forall i :: 0 <= i < |records| ==> ReturnFree(records[i])
    ensures forall i :: 0 <= i < |PrintFile(records)| ==> '\r' !in PrintFile(records)[i]
  {
    FlatMapMembers(PrintRecord, records);
    forall line | line in PrintRecords(records) ensures '\r' !in line {
      var fields: seq<Field> :| fields in records && line in PrintRecord(fields);
      var i :| 0 <= i < |PrintRecord(fields)| && PrintRecord(fields)[i] == line;
      assert '\r' !in fields[i].key && '\r' !in fields[i].value;
    }
  }

  /** The same from the text of the file, as Python reads it. */
  lemma TextReadsBack(records: seq<seq<Field>>)
    requires forall i :: 0 <= i < |records| ==> PrintableRecord(records[i]) && ReturnFree(records[i])
    ensures Records(FileLines(Join(PrintFile(records), "\n"))) == Ok(Map(AsRecord, records))
  {
    LinesHaveNoReturn(records);
    JoinCharacters(PrintFile(records), '\n', '\r');
    NothingTranslated(Join(PrintFile(records), "\n"));
    LinesHaveNoBreak(records);
    SplitJoin(PrintFile(records), '\n');
    FileReadsBack(records);
  }

  // ----- values as they may be written -----

  predicate IsQuote(q: char) { q == '"' || q == '\'' }

  predicate IsQuotedText(value: string) {
    value != "" && IsQuote(value[0]) && value[|value| - 1] == value[0]
  }

  /**
   A key-value line is cut at its first colon and both parts lose surrounding space; a
   value in matching double or single quotes loses those, a lone quote is empty, and
   any other value stays as it is.
   */
  lemma ValuesRead(lead: string, key: string, between: string, before: string, value: string, trail: string)
    requires Blank(lead) && Blank(between) && Blank(before) && Blank(trail)
    requires Trimmed(key) && ':' !in key && Trimmed(value)
    ensures var line := lead + key + between + ":" + before + value + trail;
            && SplitKv(line).Ok? && SplitKv(line).value.key == key
            && (forall q, inner :: IsQuote(q) && value == [q] + inner + [q] ==> SplitKv(line).value.value == inner)
            && (|value| == 1 && IsQuote(value[0]) ==> SplitKv(line).value.value == "")
            && (!IsQuotedText(value) ==> SplitKv(line).value.value == value)
  {
    var first, rest := lead + key + between, before + value + trail;
    var line := lead + key + between + ":" + before + value + trail;
    assert line == first + [':'] + rest;
    assert ':' !in first;
    CutUnique(first, ':', rest);
    StripExact(lead, key, between);
    StripExact(before, value, trail);
  }

  /** Indentation and trailing space of a line do not count. */
  lemma IndentIgnored(s: State, lead: string, line: string, trail: string)
    requires Blank(lead) && Blank(trail) && Trimmed(line)
    ensures Step(s, lead + line + trail) == Step(s, line)
  {
    StripExact(lead, line, trail);
    StripTrimmed(line);
  }

  // ----- lines that say nothing -----

  /** A blank line, a comment, a line of the file's frame, or a line that neither opens a record nor has a colon. */
  predicate IsNoise(raw: string) {
    var line := Strip(raw);
    || line == "" || "#" <= line || "version:" <= line || "exceptions:" <= line
    || (!("- " <= line) && ':' !in line)
  }

  lemma OneStep(step: Stepper, s: State, line: string, after: seq<string>)
    requires step(s, line) == Ok(s)
    ensures Run(step, s, [line] + after) == Run(step, s, after)
  {
    assert ([line] + after)[1..] == after;
  }

  lemma NoiseSkipped(s: State, noise: string)
    requires IsNoise(noise)
    ensures Step(s, noise) == Ok(s)
  {
  }

  /** Wherever it stands, even inside a record, such a line changes neither the records nor the error. */
  lemma NoiseIgnored(before: seq<string>, noise: string, after: seq<string>)
    requires IsNoise(noise)
    ensures Records(before + [noise] + after) == Records(before + after)
  {
    var start := State([], None);
    assert before + [noise] + after == before + ([noise] + after);
    RunAppend(Step, start, before, [noise] + after);
    RunAppend(Step, start, before, after);
    match Run(Step, start, before)
    case Err(_) =>
    case Ok(t) =>
      NoiseSkipped(t, noise);
      OneStep(Step, t, noise, after);
  }

  /** Before the first record is opened, no line counts. */
  lemma {:induction false} PreambleIgnored(preamble: seq<string>, lines: seq<string>)
    requires forall i :: 0 <= i < |preamble| ==> !("- " <= Strip(preamble[i]))
    ensures Records(preamble + lines) == Records(lines)
  {
    if preamble == [] {
      assert preamble + lines == lines;
    } else {
      PreambleIgnored(preamble[1..], lines);
      assert preamble + lines == [preamble[0]] + (preamble[1..] + lines);
      assert Step(State([], None), preamble[0]) == Ok(State([], None));
      OneStep(Step, State([], None), preamble[0], preamble[1..] + lines);
    }
  }
}
