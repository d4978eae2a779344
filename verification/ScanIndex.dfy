/**
 Scanning what is staged: tools/secret_scan.py, scan_index and decode_text.
 The outputs of git, the choice of text paths, UTF-8 decoding and the scan of one
 text are parameters.
 */
module ScanIndex {
  import opened Wrappers
  import opened Sequences
  import opened Text
  import opened GitStream
  import opened IndexEntries
  import opened ObjectInfo

  const MAX_FILE_SIZE := 2 * 1024 * 1024

  datatype Problem =
    | SymbolicLink
    | UnsupportedMode(mode: string)
    | NotABlob
    | TooLarge
    | HasNul
    | NotUtf8(reason: string)

  datatype Report = Report(source: string, path: string, problem: Problem)

  datatype Candidate = Candidate(id: string, path: string, source: string)

  datatype Tools = Tools(
    decodePath: string -> Option<string>,
    isTextPath: string -> bool,
    decode: string -> Result<string, string>,
    scan: (string, string, string) -> seq<string>)

  datatype Git = Git(
    listing: Result<string, ScanFailure>,
    check: string -> Result<string, ScanFailure>,
    batch: string -> Result<string, ScanFailure>)

  // ----- one entry -----

  function SourceOf(stage: string): string {
    if stage == "0" then "index" else "index-stage-" + stage
  }

  /** What becomes of an entry before any object is looked at. */
  datatype Fate = NotText | Gitlink | Refused(report: Report) | Eligible(candidate: Candidate)

  function FateOf(e: Entry, tools: Tools): Fate {
    var Cut(stage, path) := Unstage(e);
    var source := SourceOf(stage);
    if !tools.isTextPath(path) then NotText
    else if e.mode == "120000" then Refused(Report(source, path, SymbolicLink))
    else if e.mode == "160000" then Gitlink
    else if e.mode != "100644" && e.mode != "100755" then Refused(Report(source, path, UnsupportedMode(e.mode)))
    else Eligible(Candidate(e.id, path, source))
  }

  /** `decode_text` */
  function DecodeText(data: string, decode: string -> Result<string, string>): Result<string, Problem> {
    if |data| > MAX_FILE_SIZE then Err(TooLarge)
    else if '\0' in data then Err(HasNul)
    else
      match decode(data)
      case Ok(text) => Ok(text)
      case Err(reason) => Err(NotUtf8(reason))
  }

  // ----- the three loops, as lists made entry by entry -----

  function FormErrors(tools: Tools): Entry -> seq<Report> {
    (e: Entry) => match FateOf(e, tools) case Refused(r) => [r] case _ => []
  }

  function Candidates(tools: Tools): Entry -> seq<Candidate> {
    (e: Entry) => match FateOf(e, tools) case Eligible(c) => [c] case _ => []
  }

  function InfoFor(id: string, infos: map<string, Info>): Info {
    if id in infos then infos[id] else Info("missing", -1)
  }

  function ObjectProblem(info: Info): Option<Problem> {
    if info.kind != "blob" then Some(NotABlob)
    else if info.size > MAX_FILE_SIZE then Some(TooLarge)
    else None
  }

  function ObjectErrors(infos: map<string, Info>): Candidate -> seq<Report> {
    (c: Candidate) =>
      match ObjectProblem(InfoFor(c.id, infos))
      case Some(p) => [Report(c.source, c.path, p)]
      case None => []
  }

  function ReadableIds(infos: map<string, Info>): Candidate -> seq<string> {
    (c: Candidate) => if ObjectProblem(InfoFor(c.id, infos)) == None then [c.id] else []
  }

  function ContentErrors(blobs: map<string, string>, tools: Tools): Candidate -> seq<Report> {
    (c: Candidate) =>
      if c.id !in blobs then []
      else
        match DecodeText(blobs[c.id], tools.decode)
        case Ok(_) => []
        case Err(p) => [Report(c.source, c.path, p)]
  }

  /** The candidates whose text is scanned, with that text. */
  function Scanned(blobs: map<string, string>, tools: Tools): Candidate -> seq<(Candidate, string)> {
    (c: Candidate) =>
      if c.id !in blobs then []
      else
        match DecodeText(blobs[c.id], tools.decode)
        case Ok(text) => [(c, text)]
        case Err(_) => []
  }

  function Findings(blobs: map<string, string>, tools: Tools): Candidate -> seq<string> {
    (c: Candidate) =>
      if c.id !in blobs then []
      else
        match DecodeText(blobs[c.id], tools.decode)
        case Ok(text) => tools.scan(text, c.path, c.source)
        case Err(_) => []
  }

  function IdOf(c: Candidate): string { c.id }

  // ----- the whole scan -----

  /** What the scan learns from git. */
  datatype Seen = Seen(entries: seq<Entry>, infos: map<string, Info>, blobs: map<string, string>)

  function Look(tools: Tools, git: Git): Result<Seen, ScanFailure> {
    match git.listing
    case Err(e) => Err(e)
    case Ok(raw) =>
      match Entries(Split(raw, '\0'), RecordSyntax(tools.decodePath))
      case Err(e) => Err(e)
      case Ok(entries) =>
        var candidates := FlatMap(Candidates(tools), entries);
        match Infos(Distinct(Map(IdOf, candidates)), git.check)
        case Err(e) => Err(e)
        case Ok(infos) =>
          match Blobs(Distinct(FlatMap(ReadableIds(infos), candidates)), git.batch)
          case Err(e) => Err(e)
          case Ok(blobs) => Ok(Seen(entries, infos, blobs))
  }

  function AllErrors(s: Seen, tools: Tools): seq<Report> {
    var candidates := FlatMap(Candidates(tools), s.entries);
    FlatMap(FormErrors(tools), s.entries) + FlatMap(ObjectErrors(s.infos), candidates)
    + FlatMap(ContentErrors(s.blobs, tools), candidates)
  }

  function AllFindings(s: Seen, tools: Tools): seq<string> {
    FlatMap(Findings(s.blobs, tools), FlatMap(Candidates(tools), s.entries))
  }

  datatype Outcome = Outcome(findings: seq<string>, errors: seq<Report>)

  method ScanIndex(tools: Tools, git: Git) returns (answer: Result<Outcome, ScanFailure>)
    ensures answer == match Look(tools, git)
                      case Err(e) => Err(e)
                      case Ok(s) => Ok(Outcome(AllFindings(s, tools), AllErrors(s, tools)))
  {
    if git.listing.Err? {
      return Err(git.listing.error);
    }
    var parsed := ParseIndexEntries(git.listing.value, tools.decodePath);
    if parsed.Err? {
      return Err(parsed.error);
    }
    var entries := parsed.value;
    var errors, candidates := SortEntries(entries, tools);

    var infos := QueryObjectInfo(Map(IdOf, candidates), git.check);
    if infos.Err? {
      return Err(infos.error);
    }
    var objectErrors, readable := SortCandidates(candidates, infos.value);

    var blobs := ReadBlobs(readable, git.batch);
    if blobs.Err? {
      return Err(blobs.error);
    }
    var findings, contentErrors := ScanCandidates(candidates, blobs.value, tools);
    return Ok(Outcome(findings, errors + objectErrors + contentErrors));
  }

  method SortEntries(entries: seq<Entry>, tools: Tools) returns (errors: seq<Report>, candidates: seq<Candidate>)
    ensures errors == FlatMap(FormErrors(tools), entries)
    ensures candidates == FlatMap(Candidates(tools), entries)
  {
    errors, candidates := [], [];
    for k := 0 to |entries|
      invariant errors == FlatMap(FormErrors(tools), entries[..k])
      invariant candidates == FlatMap(Candidates(tools), entries[..k])
    {
      assert entries[..k + 1][..k] == entries[..k];
      var e: Entry := entries[k];
      var Cut(stage, path) := Unstage(e);
      if !tools.isTextPath(path) {
        continue;
      }
      var source := SourceOf(stage);
      if e.mode == "120000" {
        errors := errors + [Report(source, path, SymbolicLink)];
        continue;
      }
      if e.mode == "160000" {
        continue;
      }
      if e.mode != "100644" && e.mode != "100755" {
        errors := errors + [Report(source, path, UnsupportedMode(e.mode))];
        continue;
      }
      candidates := candidates + [Candidate(e.id, path, source)];
    }
    assert entries[..|entries|] == entries;
  }

  method SortCandidates(candidates: seq<Candidate>, infos: map<string, Info>) returns (errors: seq<Report>, readable: seq<string>)
    ensures errors == FlatMap(ObjectErrors(infos), candidates)
    ensures readable == FlatMap(ReadableIds(infos), candidates)
  {
    errors, readable := [], [];
    for k := 0 to |candidates|
      invariant errors == FlatMap(ObjectErrors(infos), candidates[..k])
      invariant readable == FlatMap(ReadableIds(infos), candidates[..k])
    {
      assert candidates[..k + 1][..k] == candidates[..k];
      var c := candidates[k];
      var info := InfoFor(c.id, infos);
      if info.kind != "blob" {
        errors := errors + [Report(c.source, c.path, NotABlob)];
      } else if info.size > MAX_FILE_SIZE {
        errors := errors + [Report(c.source, c.path, TooLarge)];
      } else {
        readable := readable + [c.id];
      }
    }
    assert candidates[..|candidates|] == candidates;
  }

  method ScanCandidates(candidates: seq<Candidate>, blobs: map<string, string>, tools: Tools) returns (findings: seq<string>, errors: seq<Report>)
    ensures findings == FlatMap(Findings(blobs, tools), candidates)
    ensures errors == FlatMap(ContentErrors(blobs, tools), candidates)
  {
    findings, errors := [], [];
    for k := 0 to |candidates|
      invariant findings == FlatMap(Findings(blobs, tools), candidates[..k])
      invariant errors == FlatMap(ContentErrors(blobs, tools), candidates[..k])
    {
      assert candidates[..k + 1][..k] == candidates[..k];
      var c := candidates[k];
      if c.id !in blobs {
        continue;
      }
      var decoded := DecodeText(blobs[c.id], tools.decode);
      if decoded.Err? {
        errors := errors + [Report(c.source, c.path, decoded.error)];
        continue;
      }
      findings := findings + tools.scan(decoded.value, c.path, c.source);
    }
    assert candidates[..|candidates|] == candidates;
  }
}
