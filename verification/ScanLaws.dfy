/**
 What the scan of the index promises: it loses no entry whatever git answers, and
 with a git that answers from an object store it is one independent verdict per
 entry.
 */
module ScanLaws {
  import opened Wrappers
  import opened Sequences
  import opened Text
  import opened GitStream
  import opened IndexEntries
  import opened ObjectInfo
  import opened ScanIndex

  // ----- nothing is lost, whatever git answers -----

  function TextEntries(tools: Tools): Entry -> seq<Entry> {
    (e: Entry) => if tools.isTextPath(Unstage(e).after) then [e] else []
  }

  function Gitlinks(tools: Tools): Entry -> seq<Entry> {
    (e: Entry) => if FateOf(e, tools).Gitlink? then [e] else []
  }

  function ScannedTexts(s: Seen, tools: Tools): seq<(Candidate, string)> {
    FlatMap(Scanned(s.blobs, tools), FlatMap(Candidates(tools), s.entries))
  }

  /** The blobs hold what is readable. */
  ghost predicate Holds(infos: map<string, Info>, blobs: map<string, string>, id: string) {
    ObjectProblem(InfoFor(id, infos)) == None ==> id in blobs
  }

  /** The blobs hold nothing else. */
  ghost predicate HoldsOnly(infos: map<string, Info>, blobs: map<string, string>, id: string) {
    id in blobs ==> ObjectProblem(InfoFor(id, infos)) == None
  }

  lemma {:induction false} Tally(s: Seen, tools: Tools)
    requires forall c | c in FlatMap(Candidates(tools), s.entries) :: Holds(s.infos, s.blobs, c.id)
    ensures var texts := |FlatMap(TextEntries(tools), s.entries)|;
            var links := |FlatMap(Gitlinks(tools), s.entries)|;
            var told := links + |AllErrors(s, tools)| + |ScannedTexts(s, tools)|;
            && texts <= told
            && ((forall c | c in FlatMap(Candidates(tools), s.entries) :: HoldsOnly(s.infos, s.blobs, c.id)) ==> texts == told)
    decreases |s.entries|
  {
    if s.entries != [] {
      var n := |s.entries| - 1;
      var before := s.(entries := s.entries[..n]);
      var cs, more := FlatMap(Candidates(tools), before.entries), Candidates(tools)(s.entries[n]);
      Tally(before, tools);
      FlatMapConcat(ObjectErrors(s.infos), cs, more);
      FlatMapConcat(ContentErrors(s.blobs, tools), cs, more);
      FlatMapConcat(Scanned(s.blobs, tools), cs, more);
      TallyOne(s, tools, s.entries[n]);
    }
  }

  /** The balance for one entry. */
  lemma TallyOne(s: Seen, tools: Tools, e: Entry)
    requires forall c | c in Candidates(tools)(e) :: Holds(s.infos, s.blobs, c.id)
    ensures var cs := Candidates(tools)(e);
            var texts := |TextEntries(tools)(e)|;
            var told := |Gitlinks(tools)(e)| + |FormErrors(tools)(e)| + |FlatMap(ObjectErrors(s.infos), cs)|
                      + |FlatMap(ContentErrors(s.blobs, tools), cs)| + |FlatMap(Scanned(s.blobs, tools), cs)|;
            && texts <= told
            && ((forall c | c in cs :: HoldsOnly(s.infos, s.blobs, c.id)) ==> texts == told)
  {
    var cs := Candidates(tools)(e);
    if FateOf(e, tools).Eligible? {
      var c := FateOf(e, tools).candidate;
      assert cs == [c] && c in cs;
      Single(ObjectErrors(s.infos), c);
      Single(ContentErrors(s.blobs, tools), c);
      Single(Scanned(s.blobs, tools), c);
    } else {
      assert cs == [];
    }
  }

  lemma Single<S, T>(f: S -> seq<T>, x: S)
    ensures FlatMap(f, [x]) == f(x)
  {
    assert FlatMap(f, [x][..0]) == [];
  }

  lemma {:induction false} ChunksKeep(read: Reader, ids: seq<string>, cursor: int, end: nat, blobs: map<string, string>)
    requires ReadChunks(read, ids, cursor, end, blobs).Ok?
    ensures forall id :: id in ids || id in blobs ==> id in ReadChunks(read, ids, cursor, end, blobs).value
    decreases |ids|
  {
    if ids != [] {
      var c := read(ids[0], cursor).value;
      ChunksKeep(read, ids[1..], c.next, end, blobs[ids[0] := c.content][c.head.echo := c.content]);
      assert forall id :: id in ids <==> id == ids[0] || id in ids[1..];
    }
  }

  /** The entry is no text path, or a submodule link, or has an error of its own in the answer, or its text was scanned. */
  ghost predicate AccountedFor(e: Entry, s: Seen, tools: Tools) {
    match FateOf(e, tools)
    case NotText => !tools.isTextPath(Unstage(e).after)
    case Gitlink => true
    case Refused(r) => r in AllErrors(s, tools)
    case Eligible(c) =>
      || (exists p :: Report(c.source, c.path, p) in AllErrors(s, tools))
      || (exists text :: (c, text) in ScannedTexts(s, tools))
  }

  lemma EntryAccountedFor(e: Entry, s: Seen, tools: Tools)
    requires e in s.entries && forall c | c in FlatMap(Candidates(tools), s.entries) :: Holds(s.infos, s.blobs, c.id)
    ensures AccountedFor(e, s, tools)
  {
    var candidates := FlatMap(Candidates(tools), s.entries);
    match FateOf(e, tools)
    case Refused(r) =>
      FlatMapMembers(FormErrors(tools), s.entries);
      assert r in FormErrors(tools)(e);
    case Eligible(c) =>
      FlatMapMembers(Candidates(tools), s.entries);
      assert c in Candidates(tools)(e);
      CandidateAccountedFor(c, candidates, s, tools);
    case _ =>
  }

  lemma CandidateAccountedFor(c: Candidate, candidates: seq<Candidate>, s: Seen, tools: Tools)
    requires candidates == FlatMap(Candidates(tools), s.entries) && c in candidates && Holds(s.infos, s.blobs, c.id)
    ensures (exists p :: Report(c.source, c.path, p) in AllErrors(s, tools))
         || (exists text :: (c, text) in ScannedTexts(s, tools))
  {
    var problem := ObjectProblem(InfoFor(c.id, s.infos));
    if problem.Some? {
      FlatMapMembers(ObjectErrors(s.infos), candidates);
      assert Report(c.source, c.path, problem.value) in ObjectErrors(s.infos)(c);
      assert Report(c.source, c.path, problem.value) in AllErrors(s, tools);
    } else {
      match DecodeText(s.blobs[c.id], tools.decode)
      case Err(p) =>
        FlatMapMembers(ContentErrors(s.blobs, tools), candidates);
        assert Report(c.source, c.path, p) in ContentErrors(s.blobs, tools)(c);
        assert Report(c.source, c.path, p) in AllErrors(s, tools);
      case Ok(text) =>
        FlatMapMembers(Scanned(s.blobs, tools), candidates);
        assert (c, text) in Scanned(s.blobs, tools)(c);
        assert (c, text) in ScannedTexts(s, tools);
    }
  }

  /**
   For any output of git at all: when the scan gives an answer, every text path
   of the index is a submodule link, or has an error, or has been scanned.
   */
  lemma NothingLost(tools: Tools, git: Git)
    requires Look(tools, git).Ok?
    ensures var s := Look(tools, git).value;
            |FlatMap(TextEntries(tools), s.entries)|
            <= |FlatMap(Gitlinks(tools), s.entries)| + |AllErrors(s, tools)| + |ScannedTexts(s, tools)|
    ensures var s := Look(tools, git).value; forall e | e in s.entries :: AccountedFor(e, s, tools)
  {
    var s := Look(tools, git).value;
    CandidatesHeld(tools, git);
    forall e | e in s.entries ensures AccountedFor(e, s, tools) {
      EntryAccountedFor(e, s, tools);
    }
    Tally(s, tools);
  }

  lemma CandidatesHeld(tools: Tools, git: Git)
    requires Look(tools, git).Ok?
    ensures var s := Look(tools, git).value; forall c | c in FlatMap(Candidates(tools), s.entries) :: Holds(s.infos, s.blobs, c.id)
  {
    var s := Look(tools, git).value;
    var candidates := FlatMap(Candidates(tools), s.entries);
    var readable := FlatMap(ReadableIds(s.infos), candidates);
    DistinctHasSameElements(readable);
    FlatMapMembers(ReadableIds(s.infos), candidates);
    forall c | c in candidates ensures Holds(s.infos, s.blobs, c.id) {
      if ObjectProblem(InfoFor(c.id, s.infos)) == None {
        assert c.id in ReadableIds(s.infos)(c);
        assert c.id in Distinct(readable);
        BlobsCover(Distinct(readable), git.batch);
      }
    }
  }

  lemma BlobsCover(ids: seq<string>, git: string -> Result<string, ScanFailure>)
    requires Blobs(ids, git).Ok?
    ensures forall id :: id in ids ==> id in Blobs(ids, git).value
  {
    if ids != [] {
      var out := Ask(ids, git).value;
      ChunksKeep(StreamReader(ParseHeader, out), ids, 0, |out|, map[]);
    }
  }

  // ----- git answering from an object store -----

  function ContentIn(store: Store): string -> string {
    (id: string) => if id in store then store[id].content else ""
  }

  ghost predicate AreBlobs(ids: seq<string>, store: Store) {
    forall i :: 0 <= i < |ids| ==> ids[i] in store && store[ids[i]].kind == "blob"
  }

  /** Git's answer to a batch read of blobs. */
  ghost predicate ReadsStore(git: string -> Result<string, ScanFailure>, store: Store) {
    forall ids: seq<string> :: AllObjectIds(ids) && ids != [] && AreBlobs(ids, store)
      ==> git(Request(ids)) == Ok(Stream(PrintedAll(ids, ContentIn(store))))
  }

  /** A program that answers from a store. */
  function StoreBatch(store: Store): string -> Result<string, ScanFailure> {
    (request: string) =>
      if request == "" then Ok("")
      else Ok(Stream(PrintedAll(Split(request[..|request| - 1], '\n'), ContentIn(store))))
  }

  lemma StoreBatchAnswers(store: Store)
    ensures ReadsStore(StoreBatch(store), store)
  {
    forall ids: seq<string> | AllObjectIds(ids) && ids != [] && AreBlobs(ids, store)
      ensures StoreBatch(store)(Request(ids)) == Ok(Stream(PrintedAll(ids, ContentIn(store))))
    {
      SplitJoin(ids, '\n');
      assert Request(ids)[..|Request(ids)| - 1] == Join(ids, "\n");
    }
  }

  lemma BlobsOfStore(ids: seq<string>, git: string -> Result<string, ScanFailure>, store: Store)
    requires AllObjectIds(ids) && AreBlobs(ids, store) && ReadsStore(git, store)
    ensures Blobs(ids, git) == Ok(map id | id in ids :: ContentIn(store)(id))
  {
    if ids != [] {
      RequestAscii(ids);
      PrintedStreamReadsBack(ids, ContentIn(store), "");
    } else {
      var none: map<string, string> := map[];
      assert none == map id | id in ids :: ContentIn(store)(id);
    }
  }

  /** The verdict on one entry, from the store alone. */
  datatype Verdict =
    | Ignored
    | Link
    | BadEntry(report: Report)
    | BadObject(report: Report)
    | BadContent(report: Report)
    | Clean(findings: seq<string>)
    | Absent(id: string)

  function VerdictOn(e: Entry, store: Store, tools: Tools): Verdict {
    match FateOf(e, tools)
    case NotText => Ignored
    case Gitlink => Link
    case Refused(r) => BadEntry(r)
    case Eligible(c) =>
      if c.id !in store then Absent(c.id)
      else if store[c.id].kind != "blob" then BadObject(Report(c.source, c.path, NotABlob))
      else if |store[c.id].content| > MAX_FILE_SIZE then BadObject(Report(c.source, c.path, TooLarge))
      else if '\0' in store[c.id].content then BadContent(Report(c.source, c.path, HasNul))
      else
        match tools.decode(store[c.id].content)
        case Err(reason) => BadContent(Report(c.source, c.path, NotUtf8(reason)))
        case Ok(text) => Clean(tools.scan(text, c.path, c.source))
  }

  function BadEntries(store: Store, tools: Tools): Entry -> seq<Report> {
    (e: Entry) => match VerdictOn(e, store, tools) case BadEntry(r) => [r] case _ => []
  }

  function BadObjects(store: Store, tools: Tools): Entry -> seq<Report> {
    (e: Entry) => match VerdictOn(e, store, tools) case BadObject(r) => [r] case _ => []
  }

  function BadContents(store: Store, tools: Tools): Entry -> seq<Report> {
    (e: Entry) => match VerdictOn(e, store, tools) case BadContent(r) => [r] case _ => []
  }

  function CleanFindings(store: Store, tools: Tools): Entry -> seq<string> {
    (e: Entry) => match VerdictOn(e, store, tools) case Clean(fs) => fs case _ => []
  }

  /** What the scan knows about an id is what the store holds. */
  ghost predicate Knows(id: string, infos: map<string, Info>, blobs: map<string, string>, store: Store) {
    && id in store && InfoFor(id, infos) == InfoOf(store[id])
    && (id in blobs <==> ObjectProblem(InfoOf(store[id])) == None)
    && (id in blobs ==> blobs[id] == store[id].content)
  }

  /** On candidates known from the store, the loops give the verdicts. */
  lemma LoopsGiveVerdicts(e: Entry, s: Seen, store: Store, tools: Tools)
    requires forall c | c in Candidates(tools)(e) :: Knows(c.id, s.infos, s.blobs, store)
    ensures BadEntries(store, tools)(e) == FormErrors(tools)(e)
    ensures BadObjects(store, tools)(e) == FlatMap(ObjectErrors(s.infos), Candidates(tools)(e))
    ensures BadContents(store, tools)(e) == FlatMap(ContentErrors(s.blobs, tools), Candidates(tools)(e))
    ensures CleanFindings(store, tools)(e) == FlatMap(Findings(s.blobs, tools), Candidates(tools)(e))
  {
    if FateOf(e, tools).Eligible? {
      var c := FateOf(e, tools).candidate;
      assert Candidates(tools)(e) == [c] && c in Candidates(tools)(e);
      ObjectVerdict(e, c, s, store, tools);
      ContentVerdict(e, c, s, store, tools);
      Single(ObjectErrors(s.infos), c);
      Single(ContentErrors(s.blobs, tools), c);
      Single(Findings(s.blobs, tools), c);
    }
  }

  lemma ObjectVerdict(e: Entry, c: Candidate, s: Seen, store: Store, tools: Tools)
    requires FateOf(e, tools) == Eligible(c) && Knows(c.id, s.infos, s.blobs, store)
    ensures BadEntries(store, tools)(e) == [] == FormErrors(tools)(e)
    ensures BadObjects(store, tools)(e) == ObjectErrors(s.infos)(c)
  {
  }

  lemma ContentVerdict(e: Entry, c: Candidate, s: Seen, store: Store, tools: Tools)
    requires FateOf(e, tools) == Eligible(c) && Knows(c.id, s.infos, s.blobs, store)
    ensures BadContents(store, tools)(e) == ContentErrors(s.blobs, tools)(c)
    ensures CleanFindings(store, tools)(e) == Findings(s.blobs, tools)(c)
  {
  }

  lemma KnownScan(s: Seen, store: Store, tools: Tools)
    requires forall c | c in FlatMap(Candidates(tools), s.entries) :: Knows(c.id, s.infos, s.blobs, store)
    ensures AllErrors(s, tools) == FlatMap(BadEntries(store, tools), s.entries) + FlatMap(BadObjects(store, tools), s.entries)
                                 + FlatMap(BadContents(store, tools), s.entries)
    ensures AllFindings(s, tools) == FlatMap(CleanFindings(store, tools), s.entries)
  {
    var candidates := Candidates(tools);
    FlatMapMembers(candidates, s.entries);
    forall e | e in s.entries
      ensures BadEntries(store, tools)(e) == FormErrors(tools)(e)
      ensures BadObjects(store, tools)(e) == FlatMap(ObjectErrors(s.infos), candidates(e))
      ensures BadContents(store, tools)(e) == FlatMap(ContentErrors(s.blobs, tools), candidates(e))
      ensures CleanFindings(store, tools)(e) == FlatMap(Findings(s.blobs, tools), candidates(e))
    {
      LoopsGiveVerdicts(e, s, store, tools);
    }
    FlatMapSame(BadEntries(store, tools), FormErrors(tools), s.entries);
    FlatMapFlatMap(ObjectErrors(s.infos), candidates, BadObjects(store, tools), s.entries);
    FlatMapFlatMap(ContentErrors(s.blobs, tools), candidates, BadContents(store, tools), s.entries);
    FlatMapFlatMap(Findings(s.blobs, tools), candidates, CleanFindings(store, tools), s.entries);
  }

  lemma CandidateIds(entries: seq<Entry>, tools: Tools)
    requires forall i :: 0 <= i < |entries| ==> IsObjectId(entries[i].id)
    ensures forall c | c in FlatMap(Candidates(tools), entries) :: IsObjectId(c.id)
  {
    FlatMapMembers(Candidates(tools), entries);
  }

  lemma MapMembers(candidates: seq<Candidate>)
    ensures forall id :: id in Map(IdOf, candidates) <==> exists c :: c in candidates && c.id == id
  {
    var ids := Map(IdOf, candidates);
    forall c | c in candidates ensures c.id in ids {
      var i :| 0 <= i < |candidates| && candidates[i] == c;
      assert Map(IdOf, candidates)[i] == IdOf(candidates[i]);
    }
    forall id | id in ids ensures exists c :: c in candidates && c.id == id {
      var i :| 0 <= i < |ids| && ids[i] == id;
      assert Map(IdOf, candidates)[i] == IdOf(candidates[i]);
      assert candidates[i] in candidates;
    }
  }

  ghost predicate NoneAbsent(entries: seq<Entry>, store: Store, tools: Tools) {
    forall e | e in entries :: !VerdictOn(e, store, tools).Absent?
  }

  lemma AbsentOne(e: Entry, store: Store, tools: Tools)
    ensures VerdictOn(e, store, tools).Absent? <==> exists c :: c in Candidates(tools)(e) && c.id !in store
  {
    if FateOf(e, tools).Eligible? {
      var c := FateOf(e, tools).candidate;
      assert Candidates(tools)(e) == [c] && c in Candidates(tools)(e);
    }
  }

  lemma CandidatesPresent(entries: seq<Entry>, store: Store, tools: Tools, candidates: Entry -> seq<Candidate>)
    requires forall e | e in entries :: VerdictOn(e, store, tools).Absent? <==> exists c :: c in candidates(e) && c.id !in store
    ensures NoneAbsent(entries, store, tools) <==> forall c | c in FlatMap(candidates, entries) :: c.id in store
  {
    FlatMapMembers(candidates, entries);
  }

  /** The second question, about candidates whose infos come from the store. */
  lemma LearnedBlobs(candidates: seq<Candidate>, infos: map<string, Info>, batch: string -> Result<string, ScanFailure>, store: Store)
    requires ReadsStore(batch, store)
    requires forall c | c in candidates :: IsObjectId(c.id) && c.id in store && InfoFor(c.id, infos) == InfoOf(store[c.id])
    ensures var blobs := Blobs(Distinct(FlatMap(ReadableIds(infos), candidates)), batch);
            blobs.Ok? && forall c | c in candidates :: Knows(c.id, infos, blobs.value, store)
  {
    ReadableBlobs(candidates, infos, store);
    BlobsOfStore(Distinct(FlatMap(ReadableIds(infos), candidates)), batch, store);
  }

  /** The first question. */
  lemma LearnedInfos(candidates: seq<Candidate>, check: string -> Result<string, ScanFailure>, store: Store)
    requires ChecksStore(check, store)
    requires forall c | c in candidates :: IsObjectId(c.id)
    ensures var infos := Infos(Distinct(Map(IdOf, candidates)), check);
            && (infos.Ok? <==> forall c | c in candidates :: c.id in store)
            && (infos.Ok? ==> forall c | c in candidates :: c.id in store && InfoFor(c.id, infos.value) == InfoOf(store[c.id]))
  {
    var ids := Distinct(Map(IdOf, candidates));
    AskedIds(candidates);
    InfosOfStore(ids, check, store);
    assert (forall i :: 0 <= i < |ids| ==> ids[i] in store) <==> forall c | c in candidates :: c.id in store;
  }

  /** What is asked for, known from the store. */
  lemma Learned(tools: Tools, git: Git, store: Store, entries: seq<Entry>)
    requires ChecksStore(git.check, store) && ReadsStore(git.batch, store)
    requires git.listing.Ok?
    requires Entries(Split(git.listing.value, '\0'), RecordSyntax(tools.decodePath)) == Ok(entries)
    ensures Look(tools, git).Ok? <==> forall c | c in FlatMap(Candidates(tools), entries) :: c.id in store
    ensures Look(tools, git).Ok? ==>
              var s := Look(tools, git).value;
              && s.entries == entries
              && forall c | c in FlatMap(Candidates(tools), entries) :: Knows(c.id, s.infos, s.blobs, store)
  {
    var candidates := FlatMap(Candidates(tools), entries);
    ParsedIds(Split(git.listing.value, '\0'), tools.decodePath);
    CandidateIds(entries, tools);
    LearnedInfos(candidates, git.check, store);
    var infos := Infos(Distinct(Map(IdOf, candidates)), git.check);
    if infos.Ok? {
      LearnedBlobs(candidates, infos.value, git.batch, store);
    }
  }

  lemma AskedIds(candidates: seq<Candidate>)
    requires forall c | c in candidates :: IsObjectId(c.id)
    ensures var ids := Distinct(Map(IdOf, candidates));
            && AllObjectIds(ids)
            && (forall c | c in candidates :: c.id in ids)
            && (forall i :: 0 <= i < |ids| ==> exists c :: c in candidates && c.id == ids[i])
  {
    var ids := Distinct(Map(IdOf, candidates));
    MapMembers(candidates);
    DistinctHasSameElements(Map(IdOf, candidates));
    forall i | 0 <= i < |ids| ensures exists c :: c in candidates && c.id == ids[i] {
      assert ids[i] in Map(IdOf, candidates);
    }
  }

  /**
   With git answering from a store, the scan has an answer exactly when no
   scanned path names a missing object; and then, though objects are fetched once
   per distinct id and in two rounds, errors and findings are those of the
   separate verdicts, in the order of the entries (errors grouped by round), and
   every text path is exactly one of link, error and scanned text.
   */
  lemma ScanIsVerdicts(tools: Tools, git: Git, store: Store, entries: seq<Entry>)
    requires ChecksStore(git.check, store) && ReadsStore(git.batch, store)
    requires git.listing.Ok?
    requires Entries(Split(git.listing.value, '\0'), RecordSyntax(tools.decodePath)) == Ok(entries)
    ensures Look(tools, git).Ok? <==> NoneAbsent(entries, store, tools)
    ensures Look(tools, git).Ok? ==>
              var s := Look(tools, git).value;
              && s.entries == entries
              && AllErrors(s, tools) == FlatMap(BadEntries(store, tools), entries) + FlatMap(BadObjects(store, tools), entries)
                                      + FlatMap(BadContents(store, tools), entries)
              && AllFindings(s, tools) == FlatMap(CleanFindings(store, tools), entries)
              && |FlatMap(TextEntries(tools), entries)|
                 == |FlatMap(Gitlinks(tools), entries)| + |AllErrors(s, tools)| + |ScannedTexts(s, tools)|
  {
    Learned(tools, git, store, entries);
    forall e | e in entries
      ensures VerdictOn(e, store, tools).Absent? <==> exists c :: c in Candidates(tools)(e) && c.id !in store
    {
      AbsentOne(e, store, tools);
    }
    CandidatesPresent(entries, store, tools, Candidates(tools));
    if Look(tools, git).Ok? {
      var s := Look(tools, git).value;
      KnownScan(s, store, tools);
      Tally(s, tools);
    }
  }

  lemma ReadableBlobs(candidates: seq<Candidate>, infos: map<string, Info>, store: Store)
    requires forall c | c in candidates :: IsObjectId(c.id) && c.id in store && InfoFor(c.id, infos) == InfoOf(store[c.id])
    ensures var readable := Distinct(FlatMap(ReadableIds(infos), candidates));
            && AllObjectIds(readable) && AreBlobs(readable, store)
            && forall c | c in candidates :: c.id in readable <==> ObjectProblem(InfoOf(store[c.id])) == None
  {
    var all := FlatMap(ReadableIds(infos), candidates);
    var readable := Distinct(all);
    FlatMapMembers(ReadableIds(infos), candidates);
    DistinctHasSameElements(all);
    forall i | 0 <= i < |readable|
      ensures IsObjectId(readable[i]) && readable[i] in store && store[readable[i]].kind == "blob"
    {
      assert readable[i] in all;
      var c :| c in candidates && readable[i] in ReadableIds(infos)(c);
    }
    forall c | c in candidates ensures c.id in readable <==> ObjectProblem(InfoOf(store[c.id])) == None {
      if ObjectProblem(InfoOf(store[c.id])) == None {
        assert c.id in ReadableIds(infos)(c);
      }
      if c.id in readable {
        var d :| d in candidates && c.id in ReadableIds(infos)(d);
      }
    }
  }

  // ----- one missing object -----

  function StoreGit(listing: string, store: Store): Git {
    Git(Ok(listing), StoreCheck(store), StoreBatch(store))
  }

  lemma AbsentFailsScan(tools: Tools, git: Git, store: Store, entries: seq<Entry>, e: Entry)
    requires ChecksStore(git.check, store) && ReadsStore(git.batch, store) && git.listing.Ok?
    requires Entries(Split(git.listing.value, '\0'), RecordSyntax(tools.decodePath)) == Ok(entries)
    requires e in entries && VerdictOn(e, store, tools).Absent?
    ensures Look(tools, git).Err?
  {
    ScanIsVerdicts(tools, git, store, entries);
  }

  lemma MissingVerdict(s: Staged, store: Store, tools: Tools)
    requires Unstage(EntryOf(s)) == Cut(s.stage, s.path)
    requires s.mode == "100644" && tools.isTextPath(s.path) && s.id !in store
    ensures VerdictOn(EntryOf(s), store, tools) == Absent(s.id)
  {
  }

  /** For any index with a text path of a regular file whose object is missing, the scan has no answer for any path. */
  lemma MissingObjectFailsScan(stages: seq<Staged>, k: nat, encode: string -> string, tools: Tools, store: Store)
    requires forall i :: 0 <= i < |stages| ==> Printable(stages[i], encode, tools.decodePath)
    requires k < |stages| && stages[k].mode == "100644" && tools.isTextPath(stages[k].path) && stages[k].id !in store
    ensures Look(tools, StoreGit(PrintIndex(stages, encode), store)).Err?
  {
    var entries: seq<Entry> := Map(EntryOf, stages);
    StoreCheckAnswers(store);
    StoreBatchAnswers(store);
    IndexReadsBack(stages, encode, tools.decodePath);
    MissingVerdict(stages[k], store, tools);
    assert entries[k] == EntryOf(stages[k]);
    AbsentFailsScan(tools, StoreGit(PrintIndex(stages, encode), store), store, entries, entries[k]);
  }

  /** Two files, of which the store has the first. */
  function TwoFiles(): seq<Staged> {
    [Staged("100644", "aa", "0", "x.go"), Staged("100644", "bb", "0", "y.go")]
  }

  function FirstFile(): Store { map["aa" := Object("blob", "text")] }

  function PlainTools(): Tools {
    Tools((p: string) => Some(p), (p: string) => true, (d: string) => Ok(d), (t: string, p: string, s: string) => [t])
  }

  lemma TwoFilesPrintable(i: nat)
    requires i < 2
    ensures Printable(TwoFiles()[i], (p: string) => p, PlainTools().decodePath)
  {
    var name := if i == 0 then "x.go" else "y.go";
    assert AreComponents([name]) && Join([name], "/") == name;
    assert IsNormal(name);
  }

  /** The first file could be scanned, but the whole scan fails. */
  lemma MissingObjectWitness()
    ensures Look(PlainTools(), StoreGit(PrintIndex(TwoFiles(), (p: string) => p), FirstFile())).Err?
  {
    TwoFilesPrintable(0);
    TwoFilesPrintable(1);
    MissingObjectFailsScan(TwoFiles(), 1, (p: string) => p, PlainTools(), FirstFile());
  }
}
