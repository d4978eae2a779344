/**
 Types and sizes of git objects: tools/secret_scan.py, query_object_info, which
 reads one line per requested id from `git cat-file --batch-check`.
 */
module ObjectInfo {
  import opened Wrappers
  import opened Sequences
  import opened Text
  import opened GitStream

  datatype Info = Info(kind: string, size: int)

  datatype InfoLine = InfoLine(echo: string, info: Info)

  type LineSyntax = string -> Result<InfoLine, ScanFailure>

  function ParseLine(line: string): Result<InfoLine, ScanFailure> {
    var parts := Words(line);
    if |parts| != 3 then Err(BadHeader(line))
    else
      match ParseInt(parts[2])
      case None => Err(BadSize(line))
      case Some(size) => Ok(InfoLine(parts[0], Info(parts[1], size)))
  }

  /** Each line answers its id, and also the id it names itself. */
  function ReadInfos(parse: LineSyntax, ids: seq<string>, lines: seq<string>, infos: map<string, Info>): Result<map<string, Info>, ScanFailure>
    requires |ids| == |lines|
  {
    if ids == [] then Ok(infos)
    else
      match parse(lines[0])
      case Err(e) => Err(e)
      case Ok(l) => ReadInfos(parse, ids[1..], lines[1..], infos[ids[0] := l.info][l.echo := l.info])
  }

  /** What `query_object_info` answers for ids without repetition. */
  function Infos(ids: seq<string>, git: string -> Result<string, ScanFailure>): Result<map<string, Info>, ScanFailure> {
    if ids == [] then Ok(map[])
    else
      match Ask(ids, git)
      case Err(e) => Err(e)
      case Ok(out) =>
        if !IsAscii(out) then Err(NotAscii)
        else if |Lines(out)| != |ids| then Err(HeaderCount)
        else ReadInfos(ParseLine, ids, Lines(out), map[])
  }

  method QueryObjectInfo(objectIds: seq<string>, git: string -> Result<string, ScanFailure>) returns (answer: Result<map<string, Info>, ScanFailure>)
    ensures answer == Infos(Distinct(objectIds), git)
  {
    var ids := Distinct(objectIds);
    if ids == [] {
      return Ok(map[]);
    }
    var asked := Ask(ids, git);
    if asked.Err? {
      return Err(asked.error);
    }
    if !IsAscii(asked.value) {
      return Err(NotAscii);
    }
    var lines := Lines(asked.value);
    if |lines| != |ids| {
      return Err(HeaderCount);
    }
    answer := ReadLines(ParseLine, ids, lines);
  }

  /** The loop of `query_object_info`. */
  method ReadLines(parse: LineSyntax, ids: seq<string>, lines: seq<string>) returns (answer: Result<map<string, Info>, ScanFailure>)
    requires |ids| == |lines|
    ensures answer == ReadInfos(parse, ids, lines, map[])
  {
    var infos: map<string, Info> := map[];
    for k := 0 to |ids|
      invariant ReadInfos(parse, ids[k..], lines[k..], infos) == ReadInfos(parse, ids, lines, map[])
    {
      assert ids[k..][0] == ids[k] && ids[k..][1..] == ids[k + 1..];
      assert lines[k..][0] == lines[k] && lines[k..][1..] == lines[k + 1..];
      var parsed := parse(lines[k]);
      if parsed.Err? {
        return Err(parsed.error);
      }
      infos := infos[ids[k] := parsed.value.info];
      infos := infos[parsed.value.echo := parsed.value.info];
    }
    return Ok(infos);
  }

  // ----- what the lines say -----

  /** A line is accepted exactly when it is three words: an id, a type and a number. */
  lemma LineExact(line: string, l: InfoLine)
    ensures ParseLine(line) == Ok(l) <==> exists w :: Words(line) == [l.echo, l.info.kind, w] && ParseInt(w) == Some(l.info.size)
  {
    if ParseLine(line).Ok? {
      var w := Words(line)[2];
      assert Words(line) == [Words(line)[0], Words(line)[1], w];
    }
  }

  /** The line answers this id: the one asked for at its place, or the one it names. */
  predicate AnswersId(l: Result<InfoLine, ScanFailure>, asked: string, id: string) {
    l.Ok? && (asked == id || l.value.echo == id)
  }

  /** The lines are read exactly when each of them is accepted; the first that is not gives the error. */
  lemma {:induction false} AcceptedLines(parse: LineSyntax, ids: seq<string>, lines: seq<string>, infos: map<string, Info>)
    requires |ids| == |lines|
    ensures ReadInfos(parse, ids, lines, infos).Ok? <==> forall k :: 0 <= k < |lines| ==> parse(lines[k]).Ok?
    ensures forall k :: 0 <= k < |lines| && parse(lines[k]).Err? && (forall j :: 0 <= j < k ==> parse(lines[j]).Ok?) ==>
              ReadInfos(parse, ids, lines, infos) == Err(parse(lines[k]).error)
  {
    if ids != [] && parse(lines[0]).Ok? {
      var l := parse(lines[0]).value;
      AcceptedLines(parse, ids[1..], lines[1..], infos[ids[0] := l.info][l.echo := l.info]);
      assert forall k :: 1 <= k < |lines| ==> lines[k] == lines[1..][k - 1];
    }
  }

  /** An id that no line answers keeps what it had. */
  lemma {:induction false} UnansweredKeeps(parse: LineSyntax, ids: seq<string>, lines: seq<string>, infos: map<string, Info>, id: string)
    requires |ids| == |lines| && ReadInfos(parse, ids, lines, infos).Ok?
    requires forall k :: 0 <= k < |ids| ==> !AnswersId(parse(lines[k]), ids[k], id)
    ensures var after := ReadInfos(parse, ids, lines, infos).value;
            (id in after <==> id in infos) && (id in infos ==> after[id] == infos[id])
  {
    if ids != [] {
      var l := parse(lines[0]).value;
      assert !AnswersId(parse(lines[0]), ids[0], id);
      assert forall k :: 0 <= k < |ids[1..]| ==> ids[1..][k] == ids[k + 1] && lines[1..][k] == lines[k + 1];
      UnansweredKeeps(parse, ids[1..], lines[1..], infos[ids[0] := l.info][l.echo := l.info], id);
    }
  }

  /** An id has the type and size of the last line that answers it. */
  lemma {:induction false} LastAnswerCounts(parse: LineSyntax, ids: seq<string>, lines: seq<string>, infos: map<string, Info>, id: string, k: nat)
    requires |ids| == |lines| && ReadInfos(parse, ids, lines, infos).Ok?
    requires k < |ids| && AnswersId(parse(lines[k]), ids[k], id)
    requires forall j :: k < j < |ids| ==> !AnswersId(parse(lines[j]), ids[j], id)
    ensures var after := ReadInfos(parse, ids, lines, infos).value;
            id in after && after[id] == parse(lines[k]).value.info
  {
    var l := parse(lines[0]).value;
    var next := infos[ids[0] := l.info][l.echo := l.info];
    assert forall j :: 0 <= j < |ids[1..]| ==> ids[1..][j] == ids[j + 1] && lines[1..][j] == lines[j + 1];
    if k == 0 {
      assert id in next && next[id] == l.info;
      UnansweredKeeps(parse, ids[1..], lines[1..], next, id);
    } else {
      LastAnswerCounts(parse, ids[1..], lines[1..], next, id, k - 1);
    }
  }

  // ----- the lines git prints -----

  datatype Object = Object(kind: string, content: string)

  /** The objects of a repository; the name of an object's type is one ASCII word. */
  type Store = s: map<string, Object> | forall id :: id in s ==> IsObjectId(s[id].kind) witness map[]

  function InfoOf(o: Object): Info {
    Info(o.kind, |o.content|)
  }

  function PrintedLine(id: string, store: Store): string {
    if id in store then id + " " + store[id].kind + " " + Print(|store[id].content|)
    else id + " " + "missing"
  }

  function PrintedLines(ids: seq<string>, store: Store): (lines: seq<string>)
    ensures |lines| == |ids|
  {
    seq(|ids|, i requires 0 <= i < |ids| => PrintedLine(ids[i], store))
  }

  function Lined(lines: seq<string>): string {
    if lines == [] then "" else lines[0] + "\n" + Lined(lines[1..])
  }

  lemma LinedParts(s: string, from: nat, lines: seq<string>)
    requires lines != [] && from <= |s| && s[from..] == Lined(lines)
    ensures var at := from + |lines[0]|;
            at < |s| && s[from..at] == lines[0] && s[at] == '\n' && s[at + 1..] == Lined(lines[1..])
  {
    var t, n := s[from..], |lines[0]|;
    assert t == lines[0] + "\n" + Lined(lines[1..]);
    assert t[..n] == lines[0] && t[n] == '\n' && t[n + 1..] == Lined(lines[1..]);
    assert s[from..from + n] == t[..n] && s[from + n + 1..] == t[n + 1..];
  }

  lemma {:induction false} LinedFrom(s: string, from: nat, lines: seq<string>)
    requires from <= |s| && s[from..] == Lined(lines)
    requires forall i :: 0 <= i < |lines| ==> BreakFree(lines[i])
    ensures LinesFrom(s, from) == lines
    decreases |lines|
  {
    if lines != [] {
      LinedParts(s, from, lines);
      LineFirst(s, from, lines[0]);
      LinedFrom(s, from + |lines[0]| + 1, lines[1..]);
      assert lines == [lines[0]] + lines[1..];
    }
  }

  lemma LinesLined(lines: seq<string>)
    requires forall i :: 0 <= i < |lines| ==> BreakFree(lines[i])
    ensures Lines(Lined(lines)) == lines
  {
    assert Lined(lines)[0..] == Lined(lines);
    LinedFrom(Lined(lines), 0, lines);
  }

  lemma {:induction false} LinedAscii(lines: seq<string>)
    requires forall i :: 0 <= i < |lines| ==> IsAscii(lines[i])
    ensures IsAscii(Lined(lines))
  {
    if lines != [] {
      LinedAscii(lines[1..]);
    }
  }

  lemma FoundLine(id: string, kind: string, size: nat)
    requires IsObjectId(id) && IsObjectId(kind)
    ensures ParseLine(id + " " + kind + " " + Print(size)) == Ok(InfoLine(id, Info(kind, size)))
  {
    PrintParses(size);
    ThreeWords(id, kind, Print(size));
  }

  lemma FoundLineClean(id: string, kind: string, size: nat)
    requires IsObjectId(id) && IsObjectId(kind)
    ensures var line := id + " " + kind + " " + Print(size); BreakFree(line) && IsAscii(line)
  {
    PrintParses(size);
    assert BreakFree(id) && BreakFree(kind) && BreakFree(Print(size));
  }

  lemma MissingLine(id: string)
    requires IsObjectId(id)
    ensures ParseLine(id + " " + "missing") == Err(BadHeader(id + " " + "missing"))
    ensures var line := id + " " + "missing"; BreakFree(line) && IsAscii(line)
  {
    TwoWords(id, "missing");
    assert BreakFree(id) && BreakFree("missing");
  }

  lemma PrintedLineParses(id: string, store: Store)
    requires IsObjectId(id)
    ensures BreakFree(PrintedLine(id, store)) && IsAscii(PrintedLine(id, store))
    ensures ParseLine(PrintedLine(id, store)) ==
            if id in store then Ok(InfoLine(id, InfoOf(store[id]))) else Err(BadHeader(PrintedLine(id, store)))
  {
    if id in store {
      FoundLine(id, store[id].kind, |store[id].content|);
      FoundLineClean(id, store[id].kind, |store[id].content|);
    } else {
      MissingLine(id);
    }
  }

  /** The parser answers with the object of the line's id, when there is one. */
  ghost predicate Answers(parse: LineSyntax, id: string, line: string, store: Store) {
    if id in store then parse(line) == Ok(InfoLine(id, InfoOf(store[id]))) else parse(line).Err?
  }

  lemma {:induction false} InfosRead(parse: LineSyntax, ids: seq<string>, lines: seq<string>, store: Store, infos: map<string, Info>)
    requires |ids| == |lines|
    requires forall i :: 0 <= i < |ids| ==> Answers(parse, ids[i], lines[i], store)
    ensures var answer := ReadInfos(parse, ids, lines, infos);
            && (answer.Ok? <==> forall i :: 0 <= i < |ids| ==> ids[i] in store)
            && (answer.Ok? ==>
                  && (forall id :: id in answer.value <==> id in ids || id in infos)
                  && (forall id :: id in answer.value ==> answer.value[id] == if id in ids then InfoOf(store[id]) else infos[id]))
    decreases |ids|
  {
    if ids != [] {
      assert Answers(parse, ids[0], lines[0], store);
      assert forall i :: 0 < i < |ids| ==> ids[i] == ids[1..][i - 1] && lines[i] == lines[1..][i - 1];
      assert forall id :: id in ids <==> id == ids[0] || id in ids[1..];
      if ids[0] in store {
        var info := InfoOf(store[ids[0]]);
        InfosRead(parse, ids[1..], lines[1..], store, infos[ids[0] := info][ids[0] := info]);
      }
    }
  }

  lemma InfosAnswered(parse: LineSyntax, ids: seq<string>, lines: seq<string>, store: Store)
    requires |ids| == |lines|
    requires forall i :: 0 <= i < |ids| ==> Answers(parse, ids[i], lines[i], store)
    ensures var answer := ReadInfos(parse, ids, lines, map[]);
            && (answer.Ok? <==> forall i :: 0 <= i < |ids| ==> ids[i] in store)
            && (answer.Ok? ==> answer == Ok(map id | id in ids && id in store :: InfoOf(store[id])))
  {
    InfosRead(parse, ids, lines, store, map[]);
    var answer := ReadInfos(parse, ids, lines, map[]);
    if answer.Ok? {
      assert answer.value == map id | id in ids && id in store :: InfoOf(store[id]);
    }
  }

  lemma PrintedAnswers(ids: seq<string>, store: Store)
    requires AllObjectIds(ids)
    ensures forall i :: 0 <= i < |ids| ==> Answers(ParseLine, ids[i], PrintedLines(ids, store)[i], store)
    ensures IsAscii(Lined(PrintedLines(ids, store)))
    ensures Lines(Lined(PrintedLines(ids, store))) == PrintedLines(ids, store)
  {
    var lines := PrintedLines(ids, store);
    forall i | 0 <= i < |ids|
      ensures BreakFree(lines[i]) && IsAscii(lines[i]) && Answers(ParseLine, ids[i], lines[i], store)
    {
      PrintedLineParses(ids[i], store);
    }
    LinesLined(lines);
    LinedAscii(lines);
  }

  /** Git's answer to a batch check for a store. */
  ghost predicate ChecksStore(git: string -> Result<string, ScanFailure>, store: Store) {
    forall ids: seq<string> :: AllObjectIds(ids) && ids != [] ==> git(Request(ids)) == Ok(Lined(PrintedLines(ids, store)))
  }

  /** A program that answers from a store: the ids of a request can be told apart. */
  function StoreCheck(store: Store): string -> Result<string, ScanFailure> {
    (request: string) =>
      if request == "" then Ok("")
      else Ok(Lined(PrintedLines(Split(request[..|request| - 1], '\n'), store)))
  }

  lemma StoreCheckAnswers(store: Store)
    ensures ChecksStore(StoreCheck(store), store)
  {
    forall ids: seq<string> | AllObjectIds(ids) && ids != []
      ensures StoreCheck(store)(Request(ids)) == Ok(Lined(PrintedLines(ids, store)))
    {
      SplitJoin(ids, '\n');
      assert Request(ids)[..|Request(ids)| - 1] == Join(ids, "\n");
    }
  }

  lemma {:induction false} RequestAscii(ids: seq<string>)
    requires AllObjectIds(ids)
    ensures IsAscii(Request(ids))
  {
    if |ids| > 1 {
      RequestAscii(ids[..|ids| - 1]);
    }
  }

  /**
   Asked about a store, the query fails when one object is missing; otherwise
   its answer is exactly the requested part of the store.
   */
  lemma InfosOfStore(ids: seq<string>, git: string -> Result<string, ScanFailure>, store: Store)
    requires AllObjectIds(ids) && ChecksStore(git, store)
    ensures var answer := Infos(ids, git);
            && (answer.Ok? <==> forall i :: 0 <= i < |ids| ==> ids[i] in store)
            && (answer.Ok? ==> answer == Ok(map id | id in ids && id in store :: InfoOf(store[id])))
  {
    if ids != [] {
      RequestAscii(ids);
      PrintedAnswers(ids, store);
      InfosAnswered(ParseLine, ids, PrintedLines(ids, store), store);
    }
  }
}
