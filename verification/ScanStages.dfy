/**
 What the scan does with each staged file, said of its mode, stage, path and object
 alone: for every index git can print.
 */
module ScanStages {
  import opened Wrappers
  import opened Sequences
  import opened Text
  import opened GitStream
  import opened IndexEntries
  import opened ObjectInfo
  import opened ScanIndex
  import opened ScanLaws

  function SourceName(stage: string): string {
    if stage == "0" then "index" else "index-stage-" + stage
  }

  /** A problem of an object, as opposed to one of the index entry. */
  predicate OfObject(p: Problem) {
    p.NotABlob? || p.TooLarge? || p.HasNul? || p.NotUtf8?
  }

  /** The index is printed from these stages, and the scan has an answer. */
  ghost predicate Answered(stages: seq<Staged>, encode: string -> string, tools: Tools, git: Git) {
    && (forall i :: 0 <= i < |stages| ==> Printable(stages[i], encode, tools.decodePath))
    && git.listing == Ok(PrintIndex(stages, encode)) && Look(tools, git).Ok?
  }

  /** The entries seen are those of the stages. */
  ghost predicate AreEntries(entries: seq<Entry>, stages: seq<Staged>) {
    |entries| == |stages| && forall i :: 0 <= i < |stages| ==> IsEntry(entries[i], stages[i])
  }

  predicate IsEntry(e: Entry, st: Staged) {
    e.mode == st.mode && e.id == st.id && Unstage(e) == Cut(st.stage, st.path)
  }

  lemma StagedEntries(stages: seq<Staged>, encode: string -> string, tools: Tools, git: Git)
    requires Answered(stages, encode, tools, git)
    ensures AreEntries(Look(tools, git).value.entries, stages)
    ensures Entries(Split(git.listing.value, '\0'), RecordSyntax(tools.decodePath)) == Ok(Look(tools, git).value.entries)
  {
    IndexReadsBack(stages, encode, tools.decodePath);
  }

  lemma InFlat<S, T>(f: S -> seq<T>, xs: seq<S>, x: S, y: T)
    requires x in xs && y in f(x)
    ensures y in FlatMap(f, xs)
  {
    FlatMapMembers(f, xs);
  }

  lemma FromFlat<S, T>(f: S -> seq<T>, xs: seq<S>, y: T) returns (x: S)
    requires y in FlatMap(f, xs)
    ensures x in xs && y in f(x)
  {
    FlatMapMembers(f, xs);
    x :| x in xs && y in f(x);
  }

  function CandidateFor(st: Staged): Candidate {
    Candidate(st.id, st.path, SourceName(st.stage))
  }

  // ----- one stage -----

  lemma FormOf(e: Entry, st: Staged, tools: Tools)
    requires IsEntry(e, st) && tools.isTextPath(st.path)
    ensures st.mode == "120000" ==> FormErrors(tools)(e) == [Report(SourceName(st.stage), st.path, SymbolicLink)]
    ensures st.mode !in {"100644", "100755", "120000", "160000"} ==>
              FormErrors(tools)(e) == [Report(SourceName(st.stage), st.path, UnsupportedMode(st.mode))]
    ensures st.mode in {"100644", "100755", "160000"} ==> FormErrors(tools)(e) == []
  {
  }

  lemma CandidateOf(e: Entry, st: Staged, tools: Tools)
    requires IsEntry(e, st)
    ensures Candidates(tools)(e) == if tools.isTextPath(st.path) && st.mode in {"100644", "100755"} then [CandidateFor(st)] else []
  {
  }

  lemma NotText(e: Entry, st: Staged, tools: Tools)
    requires IsEntry(e, st) && !tools.isTextPath(st.path)
    ensures FormErrors(tools)(e) == []
  {
  }

  lemma IsCandidate(entries: seq<Entry>, stages: seq<Staged>, k: nat, tools: Tools)
    requires AreEntries(entries, stages) && k < |stages|
    requires tools.isTextPath(stages[k].path) && stages[k].mode in {"100644", "100755"}
    ensures CandidateFor(stages[k]) in FlatMap(Candidates(tools), entries)
  {
    assert IsEntry(entries[k], stages[k]);
    CandidateOf(entries[k], stages[k], tools);
    InFlat(Candidates(tools), entries, entries[k], CandidateFor(stages[k]));
  }

  lemma IsFormError(s: Seen, stages: seq<Staged>, k: nat, r: Report, tools: Tools)
    requires AreEntries(s.entries, stages) && k < |stages| && r in FormErrors(tools)(s.entries[k])
    ensures r in AllErrors(s, tools)
  {
    InFlat(FormErrors(tools), s.entries, s.entries[k], r);
  }

  lemma ObjectErrorOf(c: Candidate, infos: map<string, Info>, p: Problem)
    requires ObjectProblem(InfoFor(c.id, infos)) == Some(p)
    ensures OfObject(p) && Report(c.source, c.path, p) in ObjectErrors(infos)(c)
  {
  }

  lemma ContentErrorOf(c: Candidate, blobs: map<string, string>, tools: Tools)
    requires c.id in blobs
    ensures match DecodeText(blobs[c.id], tools.decode)
            case Err(p) => OfObject(p) && Report(c.source, c.path, p) in ContentErrors(blobs, tools)(c)
            case Ok(text) => (c, text) in Scanned(blobs, tools)(c) && Findings(blobs, tools)(c) == tools.scan(text, c.path, c.source)
  {
  }

  /** A candidate has an object error in the answer, or its text was scanned. */
  ghost predicate Decided(c: Candidate, s: Seen, tools: Tools) {
    || (exists p :: OfObject(p) && Report(c.source, c.path, p) in AllErrors(s, tools))
    || (exists text :: (c, text) in ScannedTexts(s, tools))
  }

  lemma CandidateDecided(c: Candidate, candidates: seq<Candidate>, s: Seen, tools: Tools)
    requires candidates == FlatMap(Candidates(tools), s.entries) && c in candidates && Holds(s.infos, s.blobs, c.id)
    ensures Decided(c, s, tools)
  {
    var problem := ObjectProblem(InfoFor(c.id, s.infos));
    if problem.Some? {
      ObjectErrorOf(c, s.infos, problem.value);
      InFlat(ObjectErrors(s.infos), candidates, c, Report(c.source, c.path, problem.value));
    } else {
      ContentErrorOf(c, s.blobs, tools);
      match DecodeText(s.blobs[c.id], tools.decode)
      case Err(p) => InFlat(ContentErrors(s.blobs, tools), candidates, c, Report(c.source, c.path, p));
      case Ok(text) => InFlat(Scanned(s.blobs, tools), candidates, c, (c, text));
    }
  }

  /**
   For any answers of git about objects: a symbolic link and an unsupported mode are
   reported, and a regular file is reported for its object or its text is scanned.
   */
  lemma StageDecided(stages: seq<Staged>, k: nat, encode: string -> string, tools: Tools, git: Git)
    requires Answered(stages, encode, tools, git)
    requires k < |stages| && tools.isTextPath(stages[k].path)
    ensures var s, mode, path, source := Look(tools, git).value, stages[k].mode, stages[k].path, SourceName(stages[k].stage);
            && (mode == "120000" ==> Report(source, path, SymbolicLink) in AllErrors(s, tools))
            && (mode !in {"100644", "100755", "120000", "160000"} ==> Report(source, path, UnsupportedMode(mode)) in AllErrors(s, tools))
            && (mode in {"100644", "100755"} ==> Decided(Candidate(stages[k].id, path, source), s, tools))
  {
    var s := Look(tools, git).value;
    StagedEntries(stages, encode, tools, git);
    CandidatesHeld(tools, git);
    SeenStageDecided(stages, k, s, tools);
  }

  lemma SeenStageDecided(stages: seq<Staged>, k: nat, s: Seen, tools: Tools)
    requires AreEntries(s.entries, stages) && k < |stages| && tools.isTextPath(stages[k].path)
    requires forall c | c in FlatMap(Candidates(tools), s.entries) :: Holds(s.infos, s.blobs, c.id)
    ensures var mode, path, source := stages[k].mode, stages[k].path, SourceName(stages[k].stage);
            && (mode == "120000" ==> Report(source, path, SymbolicLink) in AllErrors(s, tools))
            && (mode !in {"100644", "100755", "120000", "160000"} ==> Report(source, path, UnsupportedMode(mode)) in AllErrors(s, tools))
            && (mode in {"100644", "100755"} ==> Decided(CandidateFor(stages[k]), s, tools))
  {
    var st := stages[k];
    assert IsEntry(s.entries[k], st);
    FormOf(s.entries[k], st, tools);
    if st.mode in {"100644", "100755"} {
      IsCandidate(s.entries, stages, k, tools);
      CandidateDecided(CandidateFor(st), FlatMap(Candidates(tools), s.entries), s, tools);
    } else if st.mode == "120000" {
      IsFormError(s, stages, k, Report(SourceName(st.stage), st.path, SymbolicLink), tools);
    } else if st.mode != "160000" {
      IsFormError(s, stages, k, Report(SourceName(st.stage), st.path, UnsupportedMode(st.mode)), tools);
    }
  }

  // ----- every report and every scan comes from a stage that calls for it -----

  /** The stage calls for this report. */
  predicate CallsFor(st: Staged, r: Report, tools: Tools) {
    && tools.isTextPath(st.path) && r.source == SourceName(st.stage) && r.path == st.path
    && (r.problem.SymbolicLink? ==> st.mode == "120000")
    && (r.problem.UnsupportedMode? ==> r.problem.mode == st.mode && st.mode !in {"100644", "100755", "120000", "160000"})
    && (OfObject(r.problem) ==> st.mode in {"100644", "100755"})
  }

  ghost predicate IsCalledFor(stages: seq<Staged>, r: Report, tools: Tools) {
    exists k :: 0 <= k < |stages| && CallsFor(stages[k], r, tools)
  }

  predicate IsRegularText(st: Staged, c: Candidate, tools: Tools) {
    tools.isTextPath(st.path) && st.mode in {"100644", "100755"} && c == CandidateFor(st)
  }

  ghost predicate FromRegular(stages: seq<Staged>, c: Candidate, tools: Tools) {
    exists k :: 0 <= k < |stages| && IsRegularText(stages[k], c, tools)
  }

  lemma CandidateFromRegular(stages: seq<Staged>, entries: seq<Entry>, c: Candidate, tools: Tools)
    requires AreEntries(entries, stages) && c in FlatMap(Candidates(tools), entries)
    ensures FromRegular(stages, c, tools)
  {
    var e := FromFlat(Candidates(tools), entries, c);
    var k :| 0 <= k < |stages| && entries[k] == e;
    assert IsEntry(entries[k], stages[k]);
    CandidateOf(e, stages[k], tools);
    assert IsRegularText(stages[k], c, tools);
  }

  lemma FormErrorCalledFor(stages: seq<Staged>, entries: seq<Entry>, r: Report, tools: Tools)
    requires AreEntries(entries, stages) && r in FlatMap(FormErrors(tools), entries)
    ensures IsCalledFor(stages, r, tools)
  {
    var e := FromFlat(FormErrors(tools), entries, r);
    var k :| 0 <= k < |stages| && entries[k] == e;
    assert IsEntry(entries[k], stages[k]);
    FormErrorOf(e, stages[k], r, tools);
  }

  lemma FormErrorOf(e: Entry, st: Staged, r: Report, tools: Tools)
    requires IsEntry(e, st) && r in FormErrors(tools)(e)
    ensures CallsFor(st, r, tools)
  {
    if tools.isTextPath(st.path) {
      FormOf(e, st, tools);
    } else {
      NotText(e, st, tools);
    }
  }

  lemma ErrorOfCandidate(c: Candidate, s: Seen, r: Report, tools: Tools)
    requires r in ObjectErrors(s.infos)(c) || r in ContentErrors(s.blobs, tools)(c)
    ensures OfObject(r.problem) && r.source == c.source && r.path == c.path
  {
  }

  lemma ObjectErrorCalledFor(stages: seq<Staged>, s: Seen, c: Candidate, r: Report, tools: Tools)
    requires AreEntries(s.entries, stages) && c in FlatMap(Candidates(tools), s.entries)
    requires r in ObjectErrors(s.infos)(c) || r in ContentErrors(s.blobs, tools)(c)
    ensures IsCalledFor(stages, r, tools)
  {
    ErrorOfCandidate(c, s, r, tools);
    CandidateFromRegular(stages, s.entries, c, tools);
    var k :| 0 <= k < |stages| && IsRegularText(stages[k], c, tools);
    assert CallsFor(stages[k], r, tools);
  }

  lemma ErrorCalledFor(stages: seq<Staged>, s: Seen, r: Report, tools: Tools)
    requires AreEntries(s.entries, stages) && r in AllErrors(s, tools)
    ensures IsCalledFor(stages, r, tools)
  {
    var candidates := FlatMap(Candidates(tools), s.entries);
    if r in FlatMap(FormErrors(tools), s.entries) {
      FormErrorCalledFor(stages, s.entries, r, tools);
    } else if r in FlatMap(ObjectErrors(s.infos), candidates) {
      var c := FromFlat(ObjectErrors(s.infos), candidates, r);
      ObjectErrorCalledFor(stages, s, c, r, tools);
    } else {
      var c := FromFlat(ContentErrors(s.blobs, tools), candidates, r);
      ObjectErrorCalledFor(stages, s, c, r, tools);
    }
  }

  lemma ScanCalledFor(stages: seq<Staged>, s: Seen, x: (Candidate, string), tools: Tools)
    requires AreEntries(s.entries, stages) && x in ScannedTexts(s, tools)
    ensures FromRegular(stages, x.0, tools)
  {
    var candidates := FlatMap(Candidates(tools), s.entries);
    var c := FromFlat(Scanned(s.blobs, tools), candidates, x);
    assert x.0 == c;
    CandidateFromRegular(stages, s.entries, c, tools);
  }

  /** No report and no scan but for stages that call for one: a submodule link yields neither. */
  lemma ReportsAreCalledFor(stages: seq<Staged>, encode: string -> string, tools: Tools, git: Git)
    requires Answered(stages, encode, tools, git)
    ensures var s := Look(tools, git).value;
            && (forall r | r in AllErrors(s, tools) :: IsCalledFor(stages, r, tools))
            && (forall x | x in ScannedTexts(s, tools) :: FromRegular(stages, x.0, tools))
  {
    var s := Look(tools, git).value;
    StagedEntries(stages, encode, tools, git);
    forall r | r in AllErrors(s, tools) ensures IsCalledFor(stages, r, tools) {
      ErrorCalledFor(stages, s, r, tools);
    }
    forall x | x in ScannedTexts(s, tools) ensures FromRegular(stages, x.0, tools) {
      ScanCalledFor(stages, s, x, tools);
    }
  }

  // ----- with git answering from an object store -----

  /** What the object of a regular file leads to. */
  ghost predicate StoredVerdict(o: Object, c: Candidate, s: Seen, tools: Tools) {
    && (o.kind != "blob" ==> Report(c.source, c.path, NotABlob) in AllErrors(s, tools))
    && (o.kind == "blob" && |o.content| > 2097152 ==> Report(c.source, c.path, TooLarge) in AllErrors(s, tools))
    && (o.kind == "blob" && |o.content| <= 2097152 && '\0' in o.content ==> Report(c.source, c.path, HasNul) in AllErrors(s, tools))
    && (o.kind == "blob" && |o.content| <= 2097152 && '\0' !in o.content ==>
          match tools.decode(o.content)
          case Err(reason) => Report(c.source, c.path, NotUtf8(reason)) in AllErrors(s, tools)
          case Ok(text) => forall f | f in tools.scan(text, c.path, c.source) :: f in AllFindings(s, tools))
  }

  lemma StoredStageDecided(stages: seq<Staged>, k: nat, encode: string -> string, tools: Tools, git: Git, store: Store)
    requires Answered(stages, encode, tools, git) && ChecksStore(git.check, store) && ReadsStore(git.batch, store)
    requires k < |stages| && tools.isTextPath(stages[k].path) && stages[k].mode in {"100644", "100755"}
    ensures stages[k].id in store
    ensures StoredVerdict(store[stages[k].id], Candidate(stages[k].id, stages[k].path, SourceName(stages[k].stage)), Look(tools, git).value, tools)
  {
    var s := Look(tools, git).value;
    StagedEntries(stages, encode, tools, git);
    Learned(tools, git, store, s.entries);
    IsCandidate(s.entries, stages, k, tools);
    StoredCandidate(CandidateFor(stages[k]), FlatMap(Candidates(tools), s.entries), s, store, tools);
  }

  /** The scan has an answer exactly when the store has the object of every regular text file. */
  lemma AnsweredExactly(stages: seq<Staged>, encode: string -> string, tools: Tools, git: Git, store: Store)
    requires forall i :: 0 <= i < |stages| ==> Printable(stages[i], encode, tools.decodePath)
    requires git.listing == Ok(PrintIndex(stages, encode)) && ChecksStore(git.check, store) && ReadsStore(git.batch, store)
    ensures Look(tools, git).Ok? <==>
            forall k :: 0 <= k < |stages| && tools.isTextPath(stages[k].path) && stages[k].mode in {"100644", "100755"} ==> stages[k].id in store
  {
    IndexReadsBack(stages, encode, tools.decodePath);
    var entries: seq<Entry> := Map(EntryOf, stages);
    Learned(tools, git, store, entries);
    forall i | 0 <= i < |stages| ensures IsEntry(entries[i], stages[i]) {
      assert entries[i] == EntryOf(stages[i]);
    }
    forall k | 0 <= k < |stages| && tools.isTextPath(stages[k].path) && stages[k].mode in {"100644", "100755"}
      ensures CandidateFor(stages[k]) in FlatMap(Candidates(tools), entries)
    {
      IsCandidate(entries, stages, k, tools);
    }
    forall c | c in FlatMap(Candidates(tools), entries) ensures FromRegular(stages, c, tools) {
      CandidateFromRegular(stages, entries, c, tools);
    }
  }

  lemma StoredObjectError(o: Object, c: Candidate, infos: map<string, Info>)
    requires InfoFor(c.id, infos) == InfoOf(o)
    ensures o.kind != "blob" ==> Report(c.source, c.path, NotABlob) in ObjectErrors(infos)(c)
    ensures o.kind == "blob" && |o.content| > 2097152 ==> Report(c.source, c.path, TooLarge) in ObjectErrors(infos)(c)
    ensures ObjectProblem(InfoOf(o)) == None <==> o.kind == "blob" && |o.content| <= 2097152
  {
  }

  lemma StoredDecode(o: Object, decode: string -> Result<string, string>)
    requires |o.content| <= 2097152
    ensures '\0' in o.content ==> DecodeText(o.content, decode) == Err(HasNul)
    ensures '\0' !in o.content ==>
              DecodeText(o.content, decode) == match decode(o.content) case Ok(text) => Ok(text) case Err(reason) => Err(NotUtf8(reason))
  {
  }

  lemma StoredCandidate(c: Candidate, candidates: seq<Candidate>, s: Seen, store: Store, tools: Tools)
    requires candidates == FlatMap(Candidates(tools), s.entries) && c in candidates && Knows(c.id, s.infos, s.blobs, store)
    ensures StoredVerdict(store[c.id], c, s, tools)
  {
    var o := store[c.id];
    StoredObjectError(o, c, s.infos);
    if o.kind != "blob" {
      InFlat(ObjectErrors(s.infos), candidates, c, Report(c.source, c.path, NotABlob));
    } else if |o.content| > 2097152 {
      InFlat(ObjectErrors(s.infos), candidates, c, Report(c.source, c.path, TooLarge));
    } else {
      StoredDecode(o, tools.decode);
      ContentErrorOf(c, s.blobs, tools);
      match DecodeText(o.content, tools.decode)
      case Err(p) =>
        InFlat(ContentErrors(s.blobs, tools), candidates, c, Report(c.source, c.path, p));
      case Ok(text) =>
        forall f | f in tools.scan(text, c.path, c.source) ensures f in AllFindings(s, tools) {
          InFlat(Findings(s.blobs, tools), candidates, c, f);
        }
    }
  }

  // ----- how many reports and scans there are -----

  function Speaking(tools: Tools): Staged -> seq<Staged> {
    (st: Staged) => if tools.isTextPath(st.path) && st.mode != "160000" then [st] else []
  }

  lemma SpeakingOne(e: Entry, st: Staged, tools: Tools)
    requires IsEntry(e, st)
    ensures |Speaking(tools)(st)| + |Gitlinks(tools)(e)| == |TextEntries(tools)(e)|
  {
  }

  lemma {:induction false} Summed<S, T, U, V>(xs: seq<S>, ys: seq<T>, f: S -> seq<U>, g: T -> seq<V>, h: T -> seq<V>)
    requires |xs| == |ys| && forall i :: 0 <= i < |xs| ==> |f(xs[i])| + |g(ys[i])| == |h(ys[i])|
    ensures |FlatMap(f, xs)| + |FlatMap(g, ys)| == |FlatMap(h, ys)|
  {
    if xs != [] {
      var n := |xs| - 1;
      Summed(xs[..n], ys[..n], f, g, h);
      assert |f(xs[n])| + |g(ys[n])| == |h(ys[n])|;
    }
  }

  /** There is one report or one scan per text path that is no submodule link. */
  lemma StagesBalance(stages: seq<Staged>, encode: string -> string, tools: Tools, git: Git, store: Store)
    requires Answered(stages, encode, tools, git) && ChecksStore(git.check, store) && ReadsStore(git.batch, store)
    ensures var s := Look(tools, git).value;
            |FlatMap(Speaking(tools), stages)| == |AllErrors(s, tools)| + |ScannedTexts(s, tools)|
  {
    var s := Look(tools, git).value;
    StagedEntries(stages, encode, tools, git);
    forall i | 0 <= i < |stages| ensures |Speaking(tools)(stages[i])| + |Gitlinks(tools)(s.entries[i])| == |TextEntries(tools)(s.entries[i])| {
      assert IsEntry(s.entries[i], stages[i]);
      SpeakingOne(s.entries[i], stages[i], tools);
    }
    Summed(stages, s.entries, Speaking(tools), Gitlinks(tools), TextEntries(tools));
    ScanIsVerdicts(tools, git, store, s.entries);
  }
}
