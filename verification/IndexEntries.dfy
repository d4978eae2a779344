/**
 Repository paths and the records of `git ls-files -z --stage`:
 tools/secret_scan.py, normalize_repository_path and parse_index_entries.
 UTF-8 decoding is a parameter.
 */
module IndexEntries {
  import opened Wrappers
  import opened Sequences
  import opened Text
  import opened GitStream

  // ----- paths -----

  function SlashOf(c: char): char {
    if c == '\\' then '/' else c
  }

  /** `p.replace("\\", "/")` */
  function Slashed(p: string): string {
    Map(SlashOf, p)
  }

  predicate Kept(part: string) {
    part != "" && part != "."
  }

  /** The parts of a relative `PurePosixPath`. */
  function Parts(p: string): seq<string> {
    Filter(Split(p, '/'), Kept)
  }

  function NormalizePath(p: string): Result<string, ScanFailure> {
    var q := Slashed(p);
    if (q != "" && q[0] == '/') || Parts(q) == [] || ".." in Parts(q) then Err(UnsafePath(p))
    else Ok(Join(Parts(q), "/"))
  }

  /** A component that names an entry of its directory. */
  predicate IsComponent(part: string) {
    part != "" && part != "." && part != ".." && '/' !in part && '\\' !in part
  }

  predicate AreComponents(parts: seq<string>) {
    parts != [] && forall i :: 0 <= i < |parts| ==> IsComponent(parts[i])
  }

  /** A relative path written in one way only. */
  ghost predicate IsNormal(p: string) {
    exists parts: seq<string> :: AreComponents(parts) && p == Join(parts, "/")
  }

  lemma {:induction false} JoinStartsInside(parts: seq<string>)
    requires AreComponents(parts)
    ensures var p := Join(parts, "/"); p != "" && p[0] != '/'
  {
    if |parts| > 1 {
      JoinStartsInside(parts[..|parts| - 1]);
    } else {
      assert parts[0][0] in parts[0];
    }
  }

  lemma {:induction false} KeepAll(parts: seq<string>)
    requires forall i :: 0 <= i < |parts| ==> Kept(parts[i])
    ensures Filter(parts, Kept) == parts
  {
    if parts != [] {
      KeepAll(parts[..|parts| - 1]);
    }
  }

  lemma SlashedSame(p: string)
    ensures '\\' !in Slashed(p)
    ensures '\\' !in p ==> Slashed(p) == p
  {
    assert forall i :: 0 <= i < |p| ==> Slashed(p)[i] == SlashOf(p[i]) != '\\';
    if '\\' !in p {
      assert forall i :: 0 <= i < |p| ==> p[i] in p && Slashed(p)[i] == p[i];
    }
  }

  lemma ComponentsNormalize(parts: seq<string>)
    requires AreComponents(parts)
    ensures NormalizePath(Join(parts, "/")) == Ok(Join(parts, "/"))
  {
    var p := Join(parts, "/");
    JoinCharacters(parts, '/', '\\');
    SlashedSame(p);
    SplitJoin(parts, '/');
    KeepAll(parts);
    JoinStartsInside(parts);
  }

  lemma PartsAreComponents(p: string)
    requires NormalizePath(p).Ok?
    ensures AreComponents(Parts(Slashed(p)))
  {
    var q := Slashed(p);
    var parts := Parts(q);
    SlashedSame(p);
    SplitParts(q, '/');
    FilterMembers(Split(q, '/'), Kept);
    forall i | 0 <= i < |parts| ensures IsComponent(parts[i]) {
      var part := parts[i];
      assert part in Split(q, '/');
      var k :| 0 <= k < |Split(q, '/')| && Split(q, '/')[k] == part;
      assert '\\' in part ==> '\\' in q;
    }
  }

  /**
   Normalisation yields exactly the normal paths: its results are normal, and
   the normal paths are the ones it leaves alone.
   */
  lemma NormalizeNormal(p: string)
    ensures NormalizePath(p).Ok? ==> IsNormal(NormalizePath(p).value)
    ensures NormalizePath(p) == Ok(p) <==> IsNormal(p)
    ensures NormalizePath(p).Ok? ==> NormalizePath(NormalizePath(p).value) == NormalizePath(p)
  {
    if NormalizePath(p).Ok? {
      PartsAreComponents(p);
      ComponentsNormalize(Parts(Slashed(p)));
    }
    if IsNormal(p) {
      var parts: seq<string> :| AreComponents(parts) && p == Join(parts, "/");
      ComponentsNormalize(parts);
    }
  }

  /** A path is refused exactly when it is absolute, climbs, or names nothing. */
  lemma NormalizeRefuses(p: string)
    ensures NormalizePath(p).Err? <==>
            var pieces := Split(Slashed(p), '/');
            || (pieces[0] == "" && |pieces| > 1)
            || ".." in pieces
            || (forall i :: 0 <= i < |pieces| ==> pieces[i] == "" || pieces[i] == ".")
  {
    var q := Slashed(p);
    var pieces := Split(q, '/');
    FilterMembers(pieces, Kept);
    FirstPiece(q, '/');
    if Parts(q) == [] {
      forall i | 0 <= i < |pieces| ensures !Kept(pieces[i]) {
        assert pieces[i] in pieces;
      }
    } else {
      assert Parts(q)[0] in pieces && Kept(Parts(q)[0]);
    }
  }

  lemma {:induction false} FirstPiece(s: string, sep: char)
    ensures var pieces := Split(s, sep);
            (s != "" && s[0] == sep) <==> (pieces[0] == "" && |pieces| > 1)
  {
    if s != "" {
      var n := |s| - 1;
      FirstPiece(s[..n], sep);
      if n == 0 {
        assert s[..0] == "";
      }
    }
  }

  function KeptPart(part: string): seq<string> {
    if part == "" || part == "." then [] else [part]
  }

  lemma {:induction false} KeptIsFlat(parts: seq<string>)
    ensures Filter(parts, Kept) == FlatMap(KeptPart, parts)
  {
    if parts != [] {
      KeptIsFlat(parts[..|parts| - 1]);
    }
  }

  /** No component holds a separator or climbs, and the path does not start at the root. */
  predicate Relative(parts: seq<string>) {
    parts != [] && parts[0] != "" && forall i :: 0 <= i < |parts| ==> '/' !in parts[i] && '\\' !in parts[i] && parts[i] != ".."
  }

  lemma KeptNormalize(p: string, parts: seq<string>)
    requires Relative(parts) && Slashed(p) == Join(parts, "/") && FlatMap(KeptPart, parts) != []
    ensures NormalizePath(p) == Ok(Join(FlatMap(KeptPart, parts), "/"))
  {
    var q := Slashed(p);
    SplitJoin(parts, '/');
    KeptIsFlat(parts);
    assert Parts(q) == FlatMap(KeptPart, parts);
    FilterMembers(parts, Kept);
    FirstPiece(q, '/');
  }

  /**
   Normalising keeps the named components in order, whatever empty and "." components
   stand between them; backslashes separate components as slashes do.
   */
  lemma NormalizeKeeps(parts: seq<string>)
    requires Relative(parts) && FlatMap(KeptPart, parts) != []
    ensures NormalizePath(Join(parts, "/")) == Ok(Join(FlatMap(KeptPart, parts), "/"))
    ensures NormalizePath(Join(parts, "\\")) == Ok(Join(FlatMap(KeptPart, parts), "/"))
  {
    JoinCharacters(parts, '/', '\\');
    SlashedSame(Join(parts, "/"));
    KeptNormalize(Join(parts, "/"), parts);
    SlashedJoin(parts);
    KeptNormalize(Join(parts, "\\"), parts);
  }

  lemma {:induction false} SlashedJoin(parts: seq<string>)
    requires forall i :: 0 <= i < |parts| ==> '\\' !in parts[i]
    ensures Slashed(Join(parts, "\\")) == Join(parts, "/")
  {
    if |parts| == 1 {
      SlashedSame(parts[0]);
    } else if |parts| > 1 {
      var n := |parts| - 1;
      var before := Join(parts[..n], "\\");
      SlashedJoin(parts[..n]);
      SlashedSame(parts[n]);
      SlashedConcat(before, "\\");
      SlashedConcat(before + "\\", parts[n]);
      SlashedBackslash();
    }
  }

  lemma SlashedBackslash()
    ensures Slashed("\\") == "/"
  {
    assert Slashed("\\")[0] == SlashOf('\\') == '/';
    assert |Slashed("\\")| == 1;
  }

  lemma SlashedConcat(p: string, q: string)
    ensures Slashed(p + q) == Slashed(p) + Slashed(q)
  {
  }

  // ----- index records -----

  datatype IndexEntry = Entry(mode: string, id: string, staged: string)

  /** The last part of an entry is its stage, a colon and its path. */
  type Entry = e: IndexEntry | ':' in e.staged witness Entry("", "", ":")

  function EntryAt(mode: string, id: string, stage: string, path: string): (e: Entry) {
    var staged := stage + [':'] + path;
    assert staged[|stage|] == ':';
    Entry(mode, id, staged)
  }

  function ParseRecord(record: string, decode: string -> Option<string>): Result<Entry, ScanFailure> {
    match CutAt(record, '\t')
    case None => Err(BadIndexEntry(record))
    case Some(Cut(metadata, encoded)) =>
      var words := Words(metadata);
      if !IsAscii(metadata) || |words| != 3 || decode(encoded) == None then Err(BadIndexEntry(record))
      else
        match NormalizePath(decode(encoded).value)
        case Err(e) => Err(e)
        case Ok(path) => Ok(EntryAt(words[0], words[1], words[2], path))
  }

  type RecordParser = string -> Result<Entry, ScanFailure>

  function RecordSyntax(decode: string -> Option<string>): RecordParser {
    (record: string) => ParseRecord(record, decode)
  }

  /** The entries of the records that are not empty, or the first failure. */
  function Entries(records: seq<string>, parse: RecordParser): Result<seq<Entry>, ScanFailure> {
    if records == [] then Ok([])
    else
      var n := |records| - 1;
      match Entries(records[..n], parse)
      case Err(e) => Err(e)
      case Ok(before) =>
        if records[n] == "" then Ok(before)
        else
          match parse(records[n])
          case Err(e) => Err(e)
          case Ok(entry) => Ok(before + [entry])
  }

  lemma {:induction false} FailureLasts(records: seq<string>, k: nat, parse: RecordParser)
    requires k <= |records|
    requires Entries(records[..k], parse).Err?
    ensures Entries(records, parse) == Entries(records[..k], parse)
  {
    if k == |records| {
      assert records[..k] == records;
    } else {
      var n := |records| - 1;
      assert records[..n][..k] == records[..k];
      FailureLasts(records[..n], k, parse);
    }
  }

  function EntryFrom(parse: RecordParser): string -> seq<Entry> {
    (record: string) => if record != "" && parse(record).Ok? then [parse(record).value] else []
  }

  predicate IsBad(record: string, parse: RecordParser) {
    record != "" && parse(record).Err?
  }

  /** One bad record fails the whole listing, with its own error if it is the first; otherwise the entries are those of the records, in order. */
  lemma {:induction false} EntriesExact(records: seq<string>, parse: RecordParser)
    ensures Entries(records, parse).Err? <==> exists i :: 0 <= i < |records| && IsBad(records[i], parse)
    ensures forall i :: 0 <= i < |records| && IsBad(records[i], parse) && (forall j :: 0 <= j < i ==> !IsBad(records[j], parse))
              ==> Entries(records, parse) == Err(parse(records[i]).error)
    ensures Entries(records, parse).Ok? ==> Entries(records, parse).value == FlatMap(EntryFrom(parse), records)
  {
    if records != [] {
      var n := |records| - 1;
      var before := records[..n];
      EntriesExact(before, parse);
      assert forall i :: 0 <= i < n ==> before[i] == records[i];
      if i :| 0 <= i < n && IsBad(before[i], parse) {
        assert IsBad(records[i], parse);
      }
    }
  }

  method ParseIndexEntries(raw: string, decode: string -> Option<string>) returns (answer: Result<seq<Entry>, ScanFailure>)
    ensures answer == Entries(Split(raw, '\0'), RecordSyntax(decode))
  {
    answer := ParseRecords(Split(raw, '\0'), RecordSyntax(decode));
  }

  /** The loop of `parse_index_entries`. */
  method ParseRecords(records: seq<string>, parse: RecordParser) returns (answer: Result<seq<Entry>, ScanFailure>)
    ensures answer == Entries(records, parse)
  {
    var entries: seq<Entry> := [];
    for k := 0 to |records|
      invariant Entries(records[..k], parse) == Ok(entries)
    {
      assert records[..k + 1][..k] == records[..k];
      if records[k] == "" {
        continue;
      }
      var parsed := parse(records[k]);
      if parsed.Err? {
        FailureLasts(records, k + 1, parse);
        return Err(parsed.error);
      }
      entries := entries + [parsed.value];
    }
    assert records[..|records|] == records;
    return Ok(entries);
  }

  // ----- what git prints -----

  datatype Staged = Staged(mode: string, id: string, stage: string, path: string)

  predicate IsField(s: string) {
    IsObjectId(s) && '\0' !in s && ':' !in s
  }

  /** A stage of the index; `encode` is the inverse of the decoder on its path. */
  ghost predicate Printable(s: Staged, encode: string -> string, decode: string -> Option<string>) {
    && IsField(s.mode) && IsField(s.id) && IsField(s.stage) && IsNormal(s.path)
    && decode(encode(s.path)) == Some(s.path)
    && '\0' !in encode(s.path)
  }

  function Record(s: Staged, encode: string -> string): string {
    s.mode + " " + s.id + " " + s.stage + "\t" + encode(s.path)
  }

  /** Every record is followed by a NUL byte. */
  function Terminated(records: seq<string>): string {
    if records == [] then "" else Terminated(records[..|records| - 1]) + records[|records| - 1] + "\0"
  }

  function PrintIndex(stages: seq<Staged>, encode: string -> string): string {
    Terminated(Records(stages, encode))
  }

  function Records(stages: seq<Staged>, encode: string -> string): (records: seq<string>)
    ensures |records| == |stages|
  {
    seq(|stages|, i requires 0 <= i < |stages| => Record(stages[i], encode))
  }

  function EntryOf(s: Staged): Entry {
    EntryAt(s.mode, s.id, s.stage, s.path)
  }

  /** `stage, path = staged.split(":", 1)` */
  function Unstage(e: Entry): Cut {
    CutAt(e.staged, ':').value
  }

  lemma MetadataWords(mode: string, id: string, stage: string)
    requires IsField(mode) && IsField(id) && IsField(stage)
    ensures Words(mode + " " + id + " " + stage) == [mode, id, stage]
  {
    ThreeWords(mode, id, stage);
  }

  lemma MetadataClean(mode: string, id: string, stage: string)
    requires IsField(mode) && IsField(id) && IsField(stage)
    ensures var m := mode + " " + id + " " + stage; IsAscii(m) && '\t' !in m && '\0' !in m
  {
    assert '\t' !in mode && '\t' !in id && '\t' !in stage;
  }

  lemma RecordParses(s: Staged, encode: string -> string, decode: string -> Option<string>)
    requires Printable(s, encode, decode)
    ensures ParseRecord(Record(s, encode), decode) == Ok(EntryOf(s))
    ensures Record(s, encode) != "" && '\0' !in Record(s, encode)
  {
    var metadata := s.mode + " " + s.id + " " + s.stage;
    MetadataWords(s.mode, s.id, s.stage);
    MetadataClean(s.mode, s.id, s.stage);
    assert Record(s, encode) == metadata + ['\t'] + encode(s.path);
    CutUnique(metadata, '\t', encode(s.path));
    NormalizeNormal(s.path);
  }

  /** Parsing the printed index gives back its stages, and splitting each staged
   path at its first colon recovers stage and path, colons in paths included. */
  lemma IndexReadsBack(stages: seq<Staged>, encode: string -> string, decode: string -> Option<string>)
    requires forall i :: 0 <= i < |stages| ==> Printable(stages[i], encode, decode)
    ensures Split(PrintIndex(stages, encode), '\0') == Records(stages, encode) + [""]
    ensures Entries(Split(PrintIndex(stages, encode), '\0'), RecordSyntax(decode)) == Ok(Map(EntryOf, stages))
    ensures forall i :: 0 <= i < |stages| ==>
              Unstage(EntryOf(stages[i])) == Cut(stages[i].stage, stages[i].path)
  {
    forall i | 0 <= i < |stages|
      ensures Unstage(EntryOf(stages[i])) == Cut(stages[i].stage, stages[i].path)
    {
      CutUnique(stages[i].stage, ':', stages[i].path);
    }
    var records, entries := Records(stages, encode), Map(EntryOf, stages);
    forall i | 0 <= i < |stages|
      ensures '\0' !in records[i] && records[i] != "" && ParseRecord(records[i], decode) == Ok(entries[i])
    {
      RecordParses(stages[i], encode, decode);
    }
    SplitTerminated(records);
    EntriesParsed(records, entries, RecordSyntax(decode));
  }

  lemma {:induction false} SplitTerminated(records: seq<string>)
    requires forall i :: 0 <= i < |records| ==> '\0' !in records[i]
    ensures Split(Terminated(records), '\0') == records + [""]
  {
    if records != [] {
      var n := |records| - 1;
      SplitTerminated(records[..n]);
      SplitOneMore(Terminated(records[..n]), records[n], '\0', records[..n]);
      assert records + [""] == records[..n] + [records[n], ""];
    }
  }

  /** One more terminated piece after text that ends in a separator. */
  lemma SplitOneMore(s: string, piece: string, sep: char, before: seq<string>)
    requires sep !in piece
    requires Split(s, sep) == before + [""]
    ensures Split(s + piece + [sep], sep) == before + [piece, ""]
  {
    assert "" + piece == piece;
    SplitGrow(s, piece, sep, before, "");
    SplitAppend(s + piece, sep, "");
    assert s + piece + [sep] + "" == s + piece + [sep];
    assert before + [piece] + [""] == before + [piece, ""];
  }

  lemma {:induction false} SplitGrow(s: string, piece: string, sep: char, before: seq<string>, last: string)
    requires sep !in piece
    requires Split(s, sep) == before + [last]
    ensures Split(s + piece, sep) == before + [last + piece]
    decreases |piece|
  {
    if piece == "" {
      assert s + piece == s && last + piece == last;
    } else {
      var c := [piece[0]];
      assert (s + c)[..|s|] == s;
      assert (before + [last])[..|before|] == before;
      assert Split(s + c, sep) == before + [last + c];
      SplitGrow(s + c, piece[1..], sep, before, last + c);
      assert piece == c + piece[1..];
      assert s + c + piece[1..] == s + piece && last + c + piece[1..] == last + piece;
    }
  }

  lemma {:induction false} EntriesParsed(records: seq<string>, entries: seq<Entry>, parse: RecordParser)
    requires |records| == |entries|
    requires forall i :: 0 <= i < |records| ==> records[i] != "" && parse(records[i]) == Ok(entries[i])
    ensures Entries(records, parse) == Ok(entries)
    ensures Entries(records + [""], parse) == Ok(entries)
  {
    assert (records + [""])[..|records|] == records;
    if records != [] {
      var n := |records| - 1;
      EntriesParsed(records[..n], entries[..n], parse);
      assert entries == entries[..n] + [entries[n]];
    }
  }

  lemma {:induction false} WordsInside(s: string)
    requires IsAscii(s)
    ensures forall i :: 0 <= i < |Words(s)| ==> IsAscii(Words(s)[i])
  {
    if s != "" {
      WordsInside(s[..|s| - 1]);
    }
  }

  /** Whatever bytes git lists, the object ids of the parsed entries are ASCII words. */
  lemma {:induction false} ParsedIds(records: seq<string>, decode: string -> Option<string>)
    requires Entries(records, RecordSyntax(decode)).Ok?
    ensures forall i :: 0 <= i < |Entries(records, RecordSyntax(decode)).value| ==> IsObjectId(Entries(records, RecordSyntax(decode)).value[i].id)
  {
    if records != [] {
      var n := |records| - 1;
      ParsedIds(records[..n], decode);
      if records[n] != "" {
        var metadata := CutAt(records[n], '\t').value.before;
        WordsInside(metadata);
        WordsAreSpaceFree(metadata);
      }
    }
  }
}
