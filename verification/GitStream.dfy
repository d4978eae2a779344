/**
 Reading the length-prefixed answer of `git cat-file --batch`:
 tools/secret_scan.py, read_blobs.  Offsets follow Python: a negative one counts
 from the end, and slices are clamped.
 */
module GitStream {
  import opened Wrappers
  import opened Sequences
  import opened Text

  datatype ScanFailure =
    | GitFailed(detail: string)
    | NotAscii
    | MissingHeader
    | BadHeader(header: string)
    | BadSize(header: string)
    | Truncated(id: string)
    | TrailingData
    | HeaderCount
    | BadIndexEntry(record: string)
    | UnsafePath(path: string)

  // ----- Python offsets -----

  function Clamp(i: int, n: nat): (k: nat)
    ensures k <= n
    ensures 0 <= i <= n ==> k == i
    ensures i > n ==> k == n
    ensures -1 * n <= i < 0 ==> k == n + i
    ensures i < -1 * n ==> k == 0
  {
    if i + n < 0 then 0 else if i < 0 then i + n else if i > n then n else i
  }

  /** `s[i:j]` */
  function Slice(s: string, i: int, j: int): (t: string)
    ensures 0 <= i <= j <= |s| ==> t == s[i..j]
  {
    var a, b := Clamp(i, |s|), Clamp(j, |s|);
    if a <= b then s[a..b] else ""
  }

  // ----- the reader as a function of the stream -----

  datatype Head = Head(echo: string, size: int)

  /** A header line is three ASCII words: an id, `blob` and a decimal size. */
  function ParseHeader(header: string): Result<Head, ScanFailure> {
    var parts := Words(header);
    if !IsAscii(header) then Err(NotAscii)
    else if |parts| != 3 || parts[1] != "blob" then Err(BadHeader(header))
    else
      match ParseInt(parts[2])
      case None => Err(BadSize(header))
      case Some(size) => Ok(Head(parts[0], size))
  }

  /** The stream is read in the same way whatever the header lines look like. */
  type HeaderSyntax = string -> Result<Head, ScanFailure>

  /** One parsed header with the bytes it announces. */
  datatype Chunk = Chunk(head: Head, content: string, next: int)

  function ReadBody(id: string, out: string, head: Head, start: nat): Result<Chunk, ScanFailure> {
    var end := start + head.size;
    if end >= |out| || Slice(out, end, end + 1) != "\n" then Err(Truncated(id))
    else Ok(Chunk(head, Slice(out, start, end), end + 1))
  }

  function ReadChunk(parse: HeaderSyntax, id: string, out: string, cursor: int): Result<Chunk, ScanFailure> {
    var headerEnd := Find(out, '\n', Clamp(cursor, |out|));
    if headerEnd < 0 then Err(MissingHeader)
    else
      match parse(Slice(out, cursor, headerEnd))
      case Err(e) => Err(e)
      case Ok(head) => ReadBody(id, out, head, headerEnd + 1)
  }

  /** A reader of the chunk for an id at an offset. */
  type Reader = (string, int) -> Result<Chunk, ScanFailure>

  function StreamReader(parse: HeaderSyntax, out: string): Reader {
    (id: string, cursor: int) => ReadChunk(parse, id, out, cursor)
  }

  /** Reads one chunk per id from `cursor` to `end`, adding to `blobs`. */
  function ReadChunks(read: Reader, ids: seq<string>, cursor: int, end: nat, blobs: map<string, string>): Result<map<string, string>, ScanFailure> {
    if ids == [] then
      if cursor == end then Ok(blobs) else Err(TrailingData)
    else
      match read(ids[0], cursor)
      case Err(e) => Err(e)
      case Ok(c) => ReadChunks(read, ids[1..], c.next, end, blobs[ids[0] := c.content][c.head.echo := c.content])
  }

  /** The answer made of the stream `out`. */
  function ReadOut(parse: HeaderSyntax, ids: seq<string>, out: string): Result<map<string, string>, ScanFailure> {
    ReadChunks(StreamReader(parse, out), ids, 0, |out|, map[])
  }

  predicate IsObjectId(id: string) {
    id != "" && SpaceFree(id) && IsAscii(id)
  }

  function Request(ids: seq<string>): string {
    Join(ids, "\n") + "\n"
  }

  /** `run_git` with the encoded list of ids on its input. */
  function Ask(ids: seq<string>, git: string -> Result<string, ScanFailure>): Result<string, ScanFailure> {
    if IsAscii(Request(ids)) then git(Request(ids)) else Err(NotAscii)
  }

  /** What `read_blobs` answers for ids without repetition. */
  function Blobs(ids: seq<string>, git: string -> Result<string, ScanFailure>): Result<map<string, string>, ScanFailure> {
    if ids == [] then Ok(map[])
    else
      match Ask(ids, git)
      case Err(e) => Err(e)
      case Ok(out) => ReadOut(ParseHeader, ids, out)
  }

  method ReadBlobs(objectIds: seq<string>, git: string -> Result<string, ScanFailure>) returns (answer: Result<map<string, string>, ScanFailure>)
    ensures answer == Blobs(Distinct(objectIds), git)
  {
    var ids := Distinct(objectIds);
    if ids == [] {
      return Ok(map[]);
    }
    var asked := Ask(ids, git);
    if asked.Err? {
      return Err(asked.error);
    }
    answer := ReadStream(ParseHeader, ids, asked.value);
  }

  /** The loop of `read_blobs`. */
  method ReadStream(parse: HeaderSyntax, ids: seq<string>, out: string) returns (answer: Result<map<string, string>, ScanFailure>)
    ensures answer == ReadOut(parse, ids, out)
  {
    ghost var read := StreamReader(parse, out);
    var blobs: map<string, string> := map[];
    var cursor: int := 0;
    for k := 0 to |ids|
      invariant ReadChunks(read, ids[k..], cursor, |out|, blobs) == ReadOut(parse, ids, out)
    {
      assert ids[k..][0] == ids[k] && ids[k..][1..] == ids[k + 1..];
      var headerEnd := Find(out, '\n', Clamp(cursor, |out|));
      if headerEnd < 0 {
        return Err(MissingHeader);
      }
      var parsed := parse(Slice(out, cursor, headerEnd));
      if parsed.Err? {
        return Err(parsed.error);
      }
      var head := parsed.value;
      var start := headerEnd + 1;
      var end := start + head.size;
      if end >= |out| || Slice(out, end, end + 1) != "\n" {
        return Err(Truncated(ids[k]));
      }
      blobs := blobs[ids[k] := Slice(out, start, end)];
      blobs := blobs[head.echo := Slice(out, start, end)];
      cursor := end + 1;
    }
    if cursor != |out| {
      return Err(TrailingData);
    }
    return Ok(blobs);
  }

  // ----- framing, independent of the reader -----

  datatype Frame = Frame(header: string, echo: string, content: string) {
    /** The header line names `echo` and announces a blob as long as the content. */
    predicate Valid(parse: HeaderSyntax) {
      '\n' !in header && parse(header) == Ok(Head(echo, |content|))
    }

    function Bytes(): string {
      header + "\n" + content + "\n"
    }
  }

  predicate AllValid(parse: HeaderSyntax, frames: seq<Frame>) {
    forall i :: 0 <= i < |frames| ==> frames[i].Valid(parse)
  }

  function Stream(frames: seq<Frame>): string {
    if frames == [] then "" else frames[0].Bytes() + Stream(frames[1..])
  }

  function Recorded(ids: seq<string>, frames: seq<Frame>, blobs: map<string, string>): map<string, string>
    requires |ids| == |frames|
  {
    if ids == [] then blobs
    else Recorded(ids[1..], frames[1..], blobs[ids[0] := frames[0].content][frames[0].echo := frames[0].content])
  }

  /** `out` is one valid frame per id and nothing more. */
  ghost predicate WellFramed(parse: HeaderSyntax, ids: seq<string>, out: string) {
    exists frames: seq<Frame> :: |frames| == |ids| && AllValid(parse, frames) && Stream(frames) == out
  }

  /** No header met while reading announces a negative size. */
  predicate SizesNonNegative(read: Reader, ids: seq<string>, cursor: int) {
    ids == []
    || match read(ids[0], cursor)
       case Err(_) => true
       case Ok(c) => c.head.size >= 0 && SizesNonNegative(read, ids[1..], c.next)
  }

  /** Where the header line ends decides how the chunk is read. */
  lemma HeaderFound(parse: HeaderSyntax, id: string, out: string, cursor: nat, at: nat, header: string, head: Head)
    requires '\n' !in header && parse(header) == Ok(head)
    requires at == cursor + |header| < |out| && out[cursor..at] == header && out[at] == '\n'
    ensures ReadChunk(parse, id, out, cursor) == ReadBody(id, out, head, at + 1)
  {
    FirstNewline(out, cursor, at, header);
  }

  lemma FirstNewline(out: string, cursor: nat, at: nat, header: string)
    requires '\n' !in header && at == cursor + |header| < |out| && out[cursor..at] == header && out[at] == '\n'
    ensures Find(out, '\n', cursor) == at
  {
    assert forall k :: cursor <= k < at ==> out[k] == header[k - cursor];
  }

  /** `f` stands at `cursor`. */
  predicate At(f: Frame, out: string, cursor: nat) {
    cursor + |f.Bytes()| <= |out| && out[cursor..cursor + |f.Bytes()|] == f.Bytes()
  }

  /** Where the three parts of a frame are. */
  lemma FrameParts(f: Frame, out: string, cursor: nat)
    requires At(f, out, cursor)
    ensures var at := cursor + |f.header|;
            var end := at + 1 + |f.content|;
            && end + 1 == cursor + |f.Bytes()|
            && out[cursor..at] == f.header && out[at] == '\n'
            && out[at + 1..end] == f.content && out[end] == '\n'
  {
    var b, h := f.Bytes(), |f.header|;
    var end := h + 1 + |f.content|;
    assert b[..h] == f.header && b[h] == '\n' && b[h + 1..end] == f.content && b[end] == '\n';
    assert forall k :: 0 <= k < |b| ==> out[cursor + k] == b[k];
  }

  lemma BodyRead(id: string, out: string, head: Head, start: nat, end: nat)
    requires head.size >= 0 && end == start + head.size < |out| && out[end] == '\n'
    ensures ReadBody(id, out, head, start) == Ok(Chunk(head, out[start..end], end + 1))
  {
    assert out[end..end + 1] == "\n";
  }

  lemma ChunkRead(parse: HeaderSyntax, id: string, out: string, cursor: nat, at: nat, end: nat, header: string, head: Head)
    requires '\n' !in header && parse(header) == Ok(head) && head.size >= 0
    requires at == cursor + |header| && end == at + 1 + head.size < |out|
    requires out[cursor..at] == header && out[at] == '\n' && out[end] == '\n'
    ensures ReadChunk(parse, id, out, cursor) == Ok(Chunk(head, out[at + 1..end], end + 1))
  {
    BodyRead(id, out, head, at + 1, end);
    HeaderFound(parse, id, out, cursor, at, header, head);
  }

  lemma FrameRead(parse: HeaderSyntax, id: string, out: string, cursor: nat, f: Frame)
    requires f.Valid(parse) && At(f, out, cursor)
    ensures ReadChunk(parse, id, out, cursor) == Ok(Chunk(Head(f.echo, |f.content|), f.content, cursor + |f.Bytes()|))
  {
    FrameParts(f, out, cursor);
    var at := cursor + |f.header|;
    ChunkRead(parse, id, out, cursor, at, at + 1 + |f.content|, f.header, Head(f.echo, |f.content|));
  }

  lemma ChunkIsFrame(parse: HeaderSyntax, id: string, out: string, cursor: nat) returns (f: Frame)
    requires cursor <= |out|
    requires ReadChunk(parse, id, out, cursor).Ok?
    requires ReadChunk(parse, id, out, cursor).value.head.size >= 0
    ensures f.Valid(parse)
    ensures cursor + |f.Bytes()| <= |out| && out[cursor..cursor + |f.Bytes()|] == f.Bytes()
  {
    var c := ReadChunk(parse, id, out, cursor).value;
    var at := Find(out, '\n', cursor);
    f := Frame(out[cursor..at], c.head.echo, c.content);
    var end := at + 1 + c.head.size;
    assert Slice(out, end, end + 1) == out[end..end + 1];
    assert out[end] == out[end..end + 1][0] == '\n';
    assert out[cursor..end + 1] == f.Bytes();
  }

  // ----- one chunk and one frame -----

  function ChunkOf(f: Frame, cursor: nat): Chunk {
    Chunk(Head(f.echo, |f.content|), f.content, cursor + |f.Bytes()|)
  }

  ghost predicate FrameAt(parse: HeaderSyntax, f: Frame, out: string, cursor: nat) {
    f.Valid(parse) && At(f, out, cursor)
  }

  /** A frame that stands at an offset is read there. */
  ghost predicate ReadsFrames(read: Reader, parse: HeaderSyntax, out: string) {
    forall id: string, cursor: nat, f: Frame :: FrameAt(parse, f, out, cursor) ==> read(id, cursor) == Ok(ChunkOf(f, cursor))
  }

  /** What is read with a size that is not negative is a frame. */
  ghost predicate ReadsOnlyFrames(read: Reader, parse: HeaderSyntax, out: string) {
    forall id: string, cursor: nat :: cursor <= |out| && read(id, cursor).Ok? && read(id, cursor).value.head.size >= 0
      ==> exists f: Frame :: FrameAt(parse, f, out, cursor) && read(id, cursor) == Ok(ChunkOf(f, cursor))
  }

  /** The rest of a stream is too short for the frame it begins. */
  ghost predicate CutsFrame(parse: HeaderSyntax, f: Frame, out: string, cursor: nat) {
    f.Valid(parse) && cursor <= |out| && out[cursor..] < f.Bytes()
  }

  ghost predicate RefusesCutFrames(read: Reader, parse: HeaderSyntax, out: string) {
    forall id: string, cursor: nat, f: Frame :: CutsFrame(parse, f, out, cursor) ==> read(id, cursor).Err?
  }

  lemma StreamReaderReads(parse: HeaderSyntax, out: string)
    ensures ReadsFrames(StreamReader(parse, out), parse, out)
    ensures ReadsOnlyFrames(StreamReader(parse, out), parse, out)
    ensures RefusesCutFrames(StreamReader(parse, out), parse, out)
  {
    var read := StreamReader(parse, out);
    forall id: string, cursor: nat, f: Frame | FrameAt(parse, f, out, cursor) ensures read(id, cursor) == Ok(ChunkOf(f, cursor)) {
      FrameRead(parse, id, out, cursor, f);
    }
    forall id: string, cursor: nat | cursor <= |out| && read(id, cursor).Ok? && read(id, cursor).value.head.size >= 0
      ensures exists f: Frame :: FrameAt(parse, f, out, cursor) && read(id, cursor) == Ok(ChunkOf(f, cursor))
    {
      var f := ChunkIsFrame(parse, id, out, cursor);
      FrameRead(parse, id, out, cursor, f);
      assert FrameAt(parse, f, out, cursor);
    }
    forall id: string, cursor: nat, f: Frame | CutsFrame(parse, f, out, cursor) ensures read(id, cursor).Err? {
      CutFrameRejected(parse, id, out, cursor, f);
    }
  }

  lemma CutFrameRejected(parse: HeaderSyntax, id: string, out: string, cursor: nat, f: Frame)
    requires CutsFrame(parse, f, out, cursor)
    ensures ReadChunk(parse, id, out, cursor).Err?
  {
    var h := |f.header|;
    assert forall k :: cursor <= k < |out| ==> out[k] == out[cursor..][k - cursor] == f.Bytes()[k - cursor];
    assert forall k :: 0 <= k < h ==> f.Bytes()[k] == f.header[k];
    assert f.Bytes()[h] == '\n';
    if cursor + h < |out| {
      assert out[cursor..cursor + h] == f.header;
      HeaderFound(parse, id, out, cursor, cursor + h, f.header, Head(f.echo, |f.content|));
    } else {
      assert forall k :: cursor <= k < |out| ==> out[k] == f.header[k - cursor];
    }
  }

  // ----- whole streams -----

  lemma StreamHead(frames: seq<Frame>, out: string, cursor: nat)
    requires frames != []
    requires cursor <= |out| && out[cursor..] == Stream(frames)
    ensures At(frames[0], out, cursor)
    ensures out[cursor + |frames[0].Bytes()|..] == Stream(frames[1..])
  {
    var b, rest := frames[0].Bytes(), Stream(frames[1..]);
    assert out[cursor..][..|b|] == b && out[cursor..][|b|..] == rest;
  }

  /** A stream of valid frames is accepted, whatever the contents are. */
  lemma {:induction false} FramesAccepted(read: Reader, parse: HeaderSyntax, ids: seq<string>, frames: seq<Frame>, out: string, cursor: nat, blobs: map<string, string>)
    requires ReadsFrames(read, parse, out)
    requires |ids| == |frames| && AllValid(parse, frames)
    requires cursor <= |out| && out[cursor..] == Stream(frames)
    ensures ReadChunks(read, ids, cursor, |out|, blobs) == Ok(Recorded(ids, frames, blobs))
    ensures SizesNonNegative(read, ids, cursor)
    decreases |ids|
  {
    if ids != [] {
      var f := frames[0];
      StreamHead(frames, out, cursor);
      assert FrameAt(parse, f, out, cursor);
      assert read(ids[0], cursor) == Ok(ChunkOf(f, cursor));
      FramesAccepted(read, parse, ids[1..], frames[1..], out, cursor + |f.Bytes()|, blobs[ids[0] := f.content][f.echo := f.content]);
    }
  }

  lemma AcceptedFrame(read: Reader, parse: HeaderSyntax, id: string, out: string, cursor: nat) returns (f: Frame)
    requires ReadsOnlyFrames(read, parse, out)
    requires cursor <= |out| && read(id, cursor).Ok? && read(id, cursor).value.head.size >= 0
    ensures f.Valid(parse) && read(id, cursor) == Ok(ChunkOf(f, cursor))
    ensures cursor + |f.Bytes()| <= |out|
    ensures out[cursor..] == f.Bytes() + out[cursor + |f.Bytes()|..]
  {
    f :| FrameAt(parse, f, out, cursor) && read(id, cursor) == Ok(ChunkOf(f, cursor));
    var next := cursor + |f.Bytes()|;
    assert out[cursor..] == out[cursor..next] + out[next..];
  }

  lemma {:induction false} AcceptedFrames(read: Reader, parse: HeaderSyntax, ids: seq<string>, out: string, cursor: nat, blobs: map<string, string>) returns (frames: seq<Frame>)
    requires ReadsOnlyFrames(read, parse, out)
    requires cursor <= |out|
    requires ReadChunks(read, ids, cursor, |out|, blobs).Ok?
    requires SizesNonNegative(read, ids, cursor)
    ensures |frames| == |ids| && AllValid(parse, frames)
    ensures Stream(frames) == out[cursor..]
    decreases |ids|
  {
    if ids == [] {
      frames := [];
    } else {
      var f := AcceptedFrame(read, parse, ids[0], out, cursor);
      var next := cursor + |f.Bytes()|;
      var rest := AcceptedFrames(read, parse, ids[1..], out, next, blobs[ids[0] := f.content][f.echo := f.content]);
      frames := [f] + rest;
      assert frames[1..] == rest;
    }
  }

  /**
   The reader accepts every well-framed stream.  The converse needs one thing
   more than acceptance: that no header announced a negative size.
   */
  lemma AcceptedIffFramed(parse: HeaderSyntax, ids: seq<string>, out: string)
    ensures WellFramed(parse, ids, out)
       <==> ReadOut(parse, ids, out).Ok? && SizesNonNegative(StreamReader(parse, out), ids, 0)
  {
    var read := StreamReader(parse, out);
    StreamReaderReads(parse, out);
    assert out[0..] == out;
    if WellFramed(parse, ids, out) {
      var frames: seq<Frame> :| |frames| == |ids| && AllValid(parse, frames) && Stream(frames) == out;
      FramesAccepted(read, parse, ids, frames, out, 0, map[]);
    }
    if ReadOut(parse, ids, out).Ok? && SizesNonNegative(read, ids, 0) {
      var frames := AcceptedFrames(read, parse, ids, out, 0, map[]);
    }
  }

  /** When `frames` is a valid stream, neither a cut of it nor an extension is accepted. */
  lemma {:induction false} CutOrExtensionRejected(read: Reader, parse: HeaderSyntax, ids: seq<string>, frames: seq<Frame>, out: string, cursor: nat, blobs: map<string, string>)
    requires ReadsFrames(read, parse, out) && RefusesCutFrames(read, parse, out)
    requires |ids| == |frames| && AllValid(parse, frames)
    requires cursor <= |out|
    requires out[cursor..] < Stream(frames) || Stream(frames) < out[cursor..]
    ensures ReadChunks(read, ids, cursor, |out|, blobs).Err?
    decreases |ids|
  {
    if ids != [] {
      var f, rest, tail := frames[0], Stream(frames[1..]), out[cursor..];
      var n := |f.Bytes()|;
      assert Stream(frames)[..n] == f.Bytes() && Stream(frames)[n..] == rest;
      if |tail| < n {
        assert tail == f.Bytes()[..|tail|];
        assert CutsFrame(parse, f, out, cursor);
        assert read(ids[0], cursor).Err?;
      } else {
        assert tail[..n] == f.Bytes();
        assert out[cursor..cursor + n] == tail[..n];
        assert tail[n..] == out[cursor + n..];
        assert tail[n..] < rest || rest < tail[n..];
        assert FrameAt(parse, f, out, cursor);
        assert read(ids[0], cursor) == Ok(ChunkOf(f, cursor));
        CutOrExtensionRejected(read, parse, ids[1..], frames[1..], out, cursor + n, blobs[ids[0] := f.content][f.echo := f.content]);
      }
    }
  }

  /**
   For a stream of valid frames: its answer is the record of its frames, and no
   strict beginning and no proper extension of it has an answer.
   */
  lemma FramedReadsBack(parse: HeaderSyntax, ids: seq<string>, frames: seq<Frame>, out: string)
    requires |ids| == |frames| && AllValid(parse, frames)
    ensures ReadOut(parse, ids, Stream(frames)) == Ok(Recorded(ids, frames, map[]))
    ensures out < Stream(frames) || Stream(frames) < out ==> ReadOut(parse, ids, out).Err?
  {
    var stream := Stream(frames);
    assert stream[0..] == stream && out[0..] == out;
    StreamReaderReads(parse, stream);
    FramesAccepted(StreamReader(parse, stream), parse, ids, frames, stream, 0, map[]);
    if out < stream || stream < out {
      StreamReaderReads(parse, out);
      CutOrExtensionRejected(StreamReader(parse, out), parse, ids, frames, out, 0, map[]);
    }
  }

  // ----- negative sizes -----

  lemma MinusOneParses(id: string)
    requires IsObjectId(id)
    ensures '\n' !in id + " blob -1"
    ensures ParseHeader(id + " blob -1") == Ok(Head(id, -1))
  {
    var header := id + " blob -1";
    ThreeWords(id, "blob", "-1");
    assert header == id + " " + "blob" + " " + "-1";
    assert Digits("1") == Some(1);
    assert "-1"[1..] == "1";
  }

  lemma MinusOneRead(parse: HeaderSyntax, id: string, header: string)
    requires '\n' !in header && parse(header) == Ok(Head(id, -1))
    ensures ReadOut(parse, [id], header + "\n") == Ok(map[id := ""])
    ensures !SizesNonNegative(StreamReader(parse, header + "\n"), [id], 0)
  {
    var out := header + "\n";
    assert out[0..|header|] == header && out[|header|..|out|] == "\n";
    HeaderFound(parse, id, out, 0, |header|, header, Head(id, -1));
    assert ReadChunk(parse, id, out, 0) == Ok(Chunk(Head(id, -1), "", |out|));
    var none: map<string, string> := map[];
    assert none[id := ""][id := ""] == map[id := ""];
    assert [id][1..] == [];
    assert ReadChunks(StreamReader(parse, out), [], |out|, |out|, map[id := ""]) == Ok(map[id := ""]);
  }

  /** An answer that is accepted, as an empty blob, though it is no sequence of frames. */
  lemma NegativeSizeAccepted(id: string)
    requires IsObjectId(id)
    ensures var out := id + " blob -1" + "\n";
            && ReadOut(ParseHeader, [id], out) == Ok(map[id := ""])
            && !WellFramed(ParseHeader, [id], out)
  {
    MinusOneParses(id);
    MinusOneRead(ParseHeader, id, id + " blob -1");
    AcceptedIffFramed(ParseHeader, [id], id + " blob -1" + "\n");
  }

  // ----- other types of objects -----

  /** A header is accepted exactly when it is three ASCII words: an id, `blob`, and a number. */
  lemma HeaderExact(header: string, head: Head)
    ensures ParseHeader(header) == Ok(head) <==>
            IsAscii(header) && exists w :: Words(header) == [head.echo, "blob", w] && ParseInt(w) == Some(head.size)
  {
    if ParseHeader(header).Ok? {
      var w := Words(header)[2];
      assert Words(header) == [Words(header)[0], "blob", w];
    }
  }

  lemma OtherTypeParses(id: string, kind: string, size: nat)
    requires IsObjectId(id) && IsObjectId(kind) && kind != "blob"
    ensures '\n' !in id + " " + kind + " " + Print(size)
    ensures ParseHeader(id + " " + kind + " " + Print(size)).Err?
  {
    PrintParses(size);
    ThreeWords(id, kind, Print(size));
    assert '\n' !in Print(size) && '\n' !in id && '\n' !in kind;
  }

  lemma BadHeaderRefused(parse: HeaderSyntax, ids: seq<string>, header: string, rest: string)
    requires ids != [] && '\n' !in header && parse(header).Err?
    ensures ReadOut(parse, ids, header + "\n" + rest).Err?
  {
    var out, n := header + "\n" + rest, |header|;
    assert out[n] == '\n' && out[0..n] == header;
    assert forall k :: 0 <= k < n ==> out[k] == header[k];
    assert Find(out, '\n', 0) == n;
    assert ReadChunk(parse, ids[0], out, 0).Err?;
    assert StreamReader(parse, out)(ids[0], 0).Err?;
  }

  /** An answer about a tree, a commit or a tag is refused, whatever follows. */
  lemma OtherTypeRefused(ids: seq<string>, id: string, kind: string, size: nat, rest: string)
    requires ids != [] && IsObjectId(id) && IsObjectId(kind) && kind != "blob"
    ensures ReadOut(ParseHeader, ids, id + " " + kind + " " + Print(size) + "\n" + rest).Err?
  {
    OtherTypeParses(id, kind, size);
    BadHeaderRefused(ParseHeader, ids, id + " " + kind + " " + Print(size), rest);
  }

  // ----- the stream git prints -----

  predicate AllObjectIds(ids: seq<string>) {
    forall i :: 0 <= i < |ids| ==> IsObjectId(ids[i])
  }

  function Printed(id: string, content: string): (f: Frame) {
    Frame(id + " " + "blob" + " " + Print(|content|), id, content)
  }

  function PrintedAll(ids: seq<string>, content: string -> string): (frames: seq<Frame>)
    ensures |frames| == |ids|
  {
    seq(|ids|, i requires 0 <= i < |ids| => Printed(ids[i], content(ids[i])))
  }

  lemma PrintedHeader(id: string, size: nat)
    requires IsObjectId(id)
    ensures ParseHeader(id + " " + "blob" + " " + Print(size)) == Ok(Head(id, size))
  {
    PrintParses(size);
    ThreeWords(id, "blob", Print(size));
  }

  lemma NoNewline(id: string, size: nat)
    requires IsObjectId(id)
    ensures '\n' !in id + " " + "blob" + " " + Print(size)
  {
    PrintParses(size);
    assert '\n' !in Print(size) && '\n' !in id;
  }

  lemma PrintedValid(id: string, content: string)
    requires IsObjectId(id)
    ensures Printed(id, content).Valid(ParseHeader)
  {
    PrintedHeader(id, |content|);
    NoNewline(id, |content|);
  }

  lemma {:induction false} PrintedRecorded(ids: seq<string>, content: string -> string, blobs: map<string, string>)
    requires AllObjectIds(ids)
    ensures AllValid(ParseHeader, PrintedAll(ids, content))
    ensures var answer := Recorded(ids, PrintedAll(ids, content), blobs);
            && (forall id :: id in answer <==> id in ids || id in blobs)
            && (forall id :: id in answer ==> answer[id] == if id in ids then content(id) else blobs[id])
  {
    forall i | 0 <= i < |ids| ensures PrintedAll(ids, content)[i].Valid(ParseHeader) {
      PrintedValid(ids[i], content(ids[i]));
    }
    if ids != [] {
      var c := content(ids[0]);
      assert PrintedAll(ids, content)[1..] == PrintedAll(ids[1..], content);
      PrintedRecorded(ids[1..], content, blobs[ids[0] := c][ids[0] := c]);
      assert forall id :: id in ids <==> id == ids[0] || id in ids[1..];
    }
  }

  /**
   Reading undoes printing: the answer maps exactly the requested ids to their
   contents, whatever bytes the contents hold; and every strict beginning and
   every proper extension of the printed stream is refused.
   */
  lemma PrintedStreamReadsBack(ids: seq<string>, content: string -> string, out: string)
    requires AllObjectIds(ids)
    ensures var printed := Stream(PrintedAll(ids, content));
            && ReadOut(ParseHeader, ids, printed) == Ok(map id | id in ids :: content(id))
            && (out < printed || printed < out ==> ReadOut(ParseHeader, ids, out).Err?)
  {
    var frames := PrintedAll(ids, content);
    PrintedRecorded(ids, content, map[]);
    FramedReadsBack(ParseHeader, ids, frames, out);
    assert Recorded(ids, frames, map[]) == map id | id in ids :: content(id);
  }
}
