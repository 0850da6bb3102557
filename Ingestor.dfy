/**
 * `Ingestor.ingest` (src/ingest/ingestor.py): every file is parsed to text, cut into topic
 * segments, each segment chunked, and each chunk stamped with its segment's topic in its
 * metadata. When segmentation gives nothing usable the file's name becomes the topic, and a
 * media file with a generic name goes to the "Uncategorized Media" bucket.
 *
 * The parser (`parse_file`), the chunker (`process_file_content`) and the file-size lookup are
 * not part of this model; they are the parameters `parse`, `chunker` and `size`.
 */
module Ingestor {
  import opened Wrappers
  import opened Text
  import TopicExtractor

  type Segment = TopicExtractor.Segment

  /** A chunk as the chunker returns it: its text and, maybe, a metadata dictionary. */
  datatype Chunk = Chunk(text: string, metadata: Option<map<string, string>>)

  /** One `log_ingestion` call: the file's base name and size. */
  datatype LogEntry = LogEntry(name: string, size: nat)

  // ---------------------------------------------------------------------------------------------
  // Path handling (`os.path.basename`, `os.path.splitext`)
  // ---------------------------------------------------------------------------------------------

  /** The index of the last occurrence of `c` in `s`. */
  function LastIndex(s: string, c: char): (r: Option<nat>)
    ensures r.Some? ==> r.value < |s| && s[r.value] == c && c !in s[r.value + 1..]
    ensures r.None? ==> c !in s
  {
    if s == [] then None
    else if s[|s| - 1] == c then Some(|s| - 1)
    else
      var r := LastIndex(s[..|s| - 1], c);
      assert s == s[..|s| - 1] + [s[|s| - 1]];
      if r.Some? then assert s[r.value + 1..] == s[..|s| - 1][r.value + 1..] + [s[|s| - 1]]; r
      else r
  }

  /** `os.path.basename`: what follows the last '/'. */
  function Basename(path: string): (name: string)
    ensures '/' !in name
    ensures exists i | 0 <= i <= |path| :: path[i..] == name
  {
    match LastIndex(path, '/')
    case None => assert path[0..] == path; path
    case Some(i) => path[i + 1..]
  }

  /**
   * `os.path.splitext(path)[1]`: the base name from its last dot on, when some character before
   * that dot is not a dot (so ".bashrc" has no extension).
   */
  function Extension(path: string): (ext: string)
    ensures var name := Basename(path);
      && |ext| <= |name| && name[|name| - |ext|..] == ext
      && (ext != [] ==> ext[0] == '.' && '.' !in ext[1..] && LeadingDots(name) < |name| - |ext|)
      && (ext == [] <==> '.' !in name[LeadingDots(name)..])
  {
    SplitExtension(Basename(path))
  }

  /** The extension `splitext` finds in a base name. */
  function SplitExtension(name: string): (ext: string)
    ensures |ext| <= |name| && name[|name| - |ext|..] == ext
    ensures ext != [] ==> ext[0] == '.' && '.' !in ext[1..] && LeadingDots(name) < |name| - |ext|
    ensures ext == [] <==> '.' !in name[LeadingDots(name)..]
  {
    var last := LastIndex(name, '.');
    if last.Some? && LeadingDots(name) < last.value then
      LastDotIsExtension(name, last.value);
      name[last.value..]
    else
      NoDotPastLeadingDots(name);
      []
  }

  /** The base name from its last dot on, when that dot follows the leading dots. */
  lemma LastDotIsExtension(name: string, i: nat)
    requires i < |name| && name[i] == '.' && '.' !in name[i + 1..] && LeadingDots(name) < i
    ensures var ext := name[i..];
      && name[|name| - |ext|..] == ext && ext[0] == '.' && '.' !in ext[1..]
      && '.' in name[LeadingDots(name)..]
  {
    assert name[i..][1..] == name[i + 1..];
    assert name[LeadingDots(name)..][i - LeadingDots(name)] == '.';
  }

  /** When the last dot is among the leading dots, no dot follows them. */
  lemma NoDotPastLeadingDots(name: string)
    requires LastIndex(name, '.').Some? ==> LastIndex(name, '.').value <= LeadingDots(name)
    ensures '.' !in name[LeadingDots(name)..]
  {
    var last := LastIndex(name, '.');
    if last.Some? {
      var n := LeadingDots(name);
      assert last.value < n;
      assert name[n..] == name[last.value + 1..][n - last.value - 1..];
    }
  }

  /** The number of dots `s` starts with. */
  function LeadingDots(s: string): (n: nat)
    ensures n <= |s|
    ensures forall j | 0 <= j < n :: s[j] == '.'
    ensures n < |s| ==> s[n] != '.'
  {
    if s == [] || s[0] != '.' then 0 else 1 + LeadingDots(s[1..])
  }

  const MediaExtensions: seq<string> := [".png", ".jpg", ".jpeg", ".mp4", ".avi"]

  const GenericNames: seq<string> := ["screenshot", "whatsapp", "untitled", "image", "video", "capture"]

  predicate IsMedia(path: string) {
    Lower(Extension(path)) in MediaExtensions
  }

  /** The lower-cased base name contains one of the generic words. */
  predicate HasGenericName(path: string) {
    exists w | w in GenericNames :: Contains(Lower(Basename(path)), w)
  }

  /** The topic a media file falls back to. */
  function MediaTopic(path: string): string {
    if HasGenericName(path) then "Uncategorized Media" else Basename(path)
  }

  // ---------------------------------------------------------------------------------------------
  // The topic fallback chain and chunk stamping
  // ---------------------------------------------------------------------------------------------

  /** Segmentation gave nothing a media file can use: no segment, or a lone "General" one. */
  predicate Unusable(segs: seq<Segment>) {
    segs == [] || (|segs| == 1 && segs[0].topic == "General")
  }

  /**
   * The segments a file is chunked by: those the extractor found, or a single segment holding the
   * whole text under a file-name topic.
   */
  function FileSegments(path: string, text: string, segs: seq<Segment>): (r: seq<Segment>)
    ensures r != []
    ensures r == segs || r == [TopicExtractor.Segment(if IsMedia(path) then MediaTopic(path) else Basename(path), text)]
    ensures IsMedia(path) && Unusable(segs) ==> r == [TopicExtractor.Segment(MediaTopic(path), text)]
    ensures !IsMedia(path) && segs == [] ==> r == [TopicExtractor.Segment(Basename(path), text)]
    ensures (segs != [] && !IsMedia(path)) || (IsMedia(path) && !Unusable(segs)) ==> r == segs
  {
    if IsMedia(path) then
      if Unusable(segs) then [TopicExtractor.Segment(MediaTopic(path), text)] else segs
    else if segs == [] then [TopicExtractor.Segment(Basename(path), text)]
    else segs
  }

  /** A chunk with its metadata created if absent and its "topic" entry set. */
  function Stamp(c: Chunk, topic: string): (r: Chunk)
    ensures r.text == c.text
    ensures r.metadata.Some? && "topic" in r.metadata.value && r.metadata.value["topic"] == topic
    ensures r.metadata.value.Keys == c.metadata.GetOr(map[]).Keys + {"topic"}
    ensures forall k :: k in c.metadata.GetOr(map[]) && k != "topic" ==>
              r.metadata.value[k] == c.metadata.GetOr(map[])[k]
  {
    c.(metadata := Some(c.metadata.GetOr(map[])["topic" := topic]))
  }

  function StampAll(cs: seq<Chunk>, topic: string): (r: seq<Chunk>)
    ensures |r| == |cs|
    ensures forall i :: 0 <= i < |cs| ==> r[i] == Stamp(cs[i], topic)
  {
    seq(|cs|, i requires 0 <= i < |cs| => Stamp(cs[i], topic))
  }

  /** The chunks of a file's segments, each stamped with its segment's topic, in segment order. */
  function SegmentChunks(path: string, segs: seq<Segment>, chunker: (string, string) -> seq<Chunk>): seq<Chunk> {
    if segs == [] then []
    else
      var s := segs[|segs| - 1];
      SegmentChunks(path, segs[..|segs| - 1], chunker) + StampAll(chunker(path, s.content), s.topic)
  }

  /** The topic extractor's `extract_segments`, as a function of the text alone. */
  function SegmenterOf(entry: string -> Option<string>): string -> seq<Segment> {
    text => TopicExtractor.Segments(text, entry)
  }

  /** What one file contributes. */
  function FileChunks(path: string, parse: string -> string, chunker: (string, string) -> seq<Chunk>,
                      segment: string -> seq<Segment>): seq<Chunk>
  {
    var text := parse(path);
    if text == [] then []
    else SegmentChunks(path, FileSegments(path, text, segment(text)), chunker)
  }

  /** `FileChunks` for fixed parser, chunker and segmenter, as a function of the path. */
  function FileOf(parse: string -> string, chunker: (string, string) -> seq<Chunk>,
                  segment: string -> seq<Segment>): string -> seq<Chunk>
  {
    p => FileChunks(p, parse, chunker, segment)
  }

  /** The contributions `file(p)` of the paths, concatenated in order. */
  function Contributions(paths: seq<string>, file: string -> seq<Chunk>): seq<Chunk> {
    if paths == [] then []
    else Contributions(paths[..|paths| - 1], file) + file(paths[|paths| - 1])
  }

  /** What `ingest` returns: the files' contributions, in file order. */
  function IngestSpec(paths: seq<string>, parse: string -> string, chunker: (string, string) -> seq<Chunk>,
                      segment: string -> seq<Segment>): seq<Chunk>
  {
    Contributions(paths, FileOf(parse, chunker, segment))
  }

  /** The log: one entry per non-empty file whose size could be read. */
  function LogSpec(paths: seq<string>, parse: string -> string, size: string -> Option<nat>): seq<LogEntry> {
    if paths == [] then []
    else
      LogSpec(paths[..|paths| - 1], parse, size) + FileLog(paths[|paths| - 1], parse, size)
  }

  /** ingestor.py:53-56: create each chunk's metadata if absent and set its topic. */
  method StampChunks(produced: seq<Chunk>, topic: string) returns (stamped: seq<Chunk>)
    ensures stamped == StampAll(produced, topic)
  {
    stamped := [];
    var c := 0;
    while c < |produced|
      invariant 0 <= c <= |produced|
      invariant stamped == StampAll(produced[..c], topic)
    {
      var chunk := produced[c];
      var meta := if chunk.metadata.None? then map[] else chunk.metadata.value;
      stamped := stamped + [chunk.(metadata := Some(meta["topic" := topic]))];
      c := c + 1;
    }
    assert produced[..c] == produced;
  }

  /** ingestor.py:45-58: chunk every segment and collect the stamped chunks in order. */
  method ChunkSegments(path: string, segments: seq<Segment>, chunker: (string, string) -> seq<Chunk>)
    returns (chunks: seq<Chunk>)
    ensures chunks == SegmentChunks(path, segments, chunker)
  {
    chunks := [];
    var s := 0;
    while s < |segments|
      invariant 0 <= s <= |segments|
      invariant chunks == SegmentChunks(path, segments[..s], chunker)
    {
      assert segments[..s + 1][..s] == segments[..s];
      var stamped := StampChunks(chunker(path, segments[s].content), segments[s].topic);
      chunks := chunks + stamped;
      s := s + 1;
    }
    assert segments[..s] == segments;
  }

  /** ingestor.py:21-58 for one file with non-empty text: segment, fall back, chunk and stamp. */
  method IngestText(path: string, text: string, chunker: (string, string) -> seq<Chunk>,
                    entry: string -> Option<string>) returns (chunks: seq<Chunk>)
    ensures chunks == SegmentChunks(path, FileSegments(path, text, SegmenterOf(entry)(text)), chunker)
  {
    var segments := TopicExtractor.ExtractSegments(text, entry);
    segments := FileSegments(path, text, segments);
    chunks := ChunkSegments(path, segments, chunker);
  }

  /** The log entries of one file: one when its text is non-empty and its size could be read. */
  function FileLog(path: string, parse: string -> string, size: string -> Option<nat>): seq<LogEntry> {
    if parse(path) != [] && size(path).Some? then [LogEntry(Basename(path), size(path).value)] else []
  }

  /** ingestor.py:15-65: one iteration of the file loop. */
  method IngestFile(path: string, parse: string -> string, chunker: (string, string) -> seq<Chunk>,
                    entry: string -> Option<string>, size: string -> Option<nat>)
    returns (fileChunks: seq<Chunk>, entries: seq<LogEntry>)
    ensures fileChunks == FileChunks(path, parse, chunker, SegmenterOf(entry))
    ensures entries == FileLog(path, parse, size)
  {
    fileChunks := [];
    entries := [];
    var text := parse(path);
    if text != [] {
      fileChunks := IngestText(path, text, chunker, entry);
      match size(path) {
        case Some(n) => entries := [LogEntry(Basename(path), n)];
        case None =>
      }
    }
  }

  lemma ContributionsSnoc(paths: seq<string>, f: nat, file: string -> seq<Chunk>)
    requires f < |paths|
    ensures Contributions(paths[..f + 1], file) == Contributions(paths[..f], file) + file(paths[f])
  {
    assert paths[..f + 1][..f] == paths[..f];
  }

  lemma LogSnoc(paths: seq<string>, f: nat, parse: string -> string, size: string -> Option<nat>)
    requires f < |paths|
    ensures LogSpec(paths[..f + 1], parse, size) == LogSpec(paths[..f], parse, size) + FileLog(paths[f], parse, size)
  {
    assert paths[..f + 1][..f] == paths[..f];
  }

  /**
   * `Ingestor.ingest`. A failed size lookup (`size(p) == None`) is the swallowed exception: it
   * only drops the log entry, and the chunks do not depend on `size` at all.
   */
  method Ingest(paths: seq<string>, parse: string -> string, chunker: (string, string) -> seq<Chunk>,
                entry: string -> Option<string>, size: string -> Option<nat>)
    returns (chunks: seq<Chunk>, log: seq<LogEntry>)
    ensures chunks == IngestSpec(paths, parse, chunker, SegmenterOf(entry))
    ensures log == LogSpec(paths, parse, size)
  {
    chunks := [];
    log := [];
    var f := 0;
    while f < |paths|
      invariant 0 <= f <= |paths|
      invariant chunks == IngestSpec(paths[..f], parse, chunker, SegmenterOf(entry))
      invariant log == LogSpec(paths[..f], parse, size)
    {
      ContributionsSnoc(paths, f, FileOf(parse, chunker, SegmenterOf(entry)));
      LogSnoc(paths, f, parse, size);
      var fileChunks, entries := IngestFile(paths[f], parse, chunker, entry, size);
      chunks := chunks + fileChunks;
      log := log + entries;
      f := f + 1;
    }
    assert paths[..f] == paths;
  }

  // ---------------------------------------------------------------------------------------------
  // Properties
  // ---------------------------------------------------------------------------------------------

  /** The contributions of two path lists, one after the other. */
  lemma {:induction false} ContributionsAppend(a: seq<string>, b: seq<string>, file: string -> seq<Chunk>)
    ensures Contributions(a + b, file) == Contributions(a, file) + Contributions(b, file)
  {
    if b == [] {
      assert a + b == a;
    } else {
      var b' := b[..|b| - 1];
      assert (a + b)[..|a + b| - 1] == a + b';
      ContributionsAppend(a, b', file);
    }
  }

  /** Ingesting two lists of files gives the chunks of the first followed by those of the second. */
  lemma IngestAppend(a: seq<string>, b: seq<string>, parse: string -> string,
                     chunker: (string, string) -> seq<Chunk>, segment: string -> seq<Segment>)
    ensures IngestSpec(a + b, parse, chunker, segment)
            == IngestSpec(a, parse, chunker, segment) + IngestSpec(b, parse, chunker, segment)
  {
    ContributionsAppend(a, b, FileOf(parse, chunker, segment));
  }

  /** A file whose text is empty contributes no chunks, wherever it stands in the list. */
  lemma EmptyFileIgnored(a: seq<string>, p: string, b: seq<string>, parse: string -> string,
                         chunker: (string, string) -> seq<Chunk>, segment: string -> seq<Segment>)
    requires parse(p) == []
    ensures IngestSpec(a + [p] + b, parse, chunker, segment) == IngestSpec(a + b, parse, chunker, segment)
  {
    var file := FileOf(parse, chunker, segment);
    assert [p][..0] == [];
    assert Contributions([p], file) == [] + file(p);
    assert file(p) == [];
    ContributionsAppend(a, [p], file);
    ContributionsAppend(a + [p], b, file);
    ContributionsAppend(a, b, file);
  }

  /** The chunk at `i` of a segment list's chunks comes from segment `k`, stamped with its topic. */
  ghost predicate StampedFrom(cs: seq<Chunk>, i: int, path: string, segs: seq<Segment>,
                              chunker: (string, string) -> seq<Chunk>)
    requires 0 <= i < |cs|
  {
    exists k, j :: 0 <= k < |segs| && 0 <= j < |chunker(path, segs[k].content)|
      && cs[i] == Stamp(chunker(path, segs[k].content)[j], segs[k].topic)
  }

  /**
   * Every chunk of a file is one the chunker produced for one of its segments, with that
   * segment's topic as its "topic" metadata and everything else unchanged.
   */
  lemma {:induction false} ChunksCarryTheirTopic(path: string, segs: seq<Segment>,
                                                 chunker: (string, string) -> seq<Chunk>)
    ensures forall i :: 0 <= i < |SegmentChunks(path, segs, chunker)| ==>
              StampedFrom(SegmentChunks(path, segs, chunker), i, path, segs, chunker)
  {
    if segs != [] {
      var init := segs[..|segs| - 1];
      ChunksCarryTheirTopic(path, init, chunker);
      var cs := SegmentChunks(path, segs, chunker);
      var prev := SegmentChunks(path, init, chunker);
      var k := |segs| - 1;
      var own := StampAll(chunker(path, segs[k].content), segs[k].topic);
      assert cs == prev + own;
      forall i | 0 <= i < |cs| ensures StampedFrom(cs, i, path, segs, chunker) {
        if i < |prev| {
          assert StampedFrom(prev, i, path, init, chunker);
          var k', j :| 0 <= k' < |init| && 0 <= j < |chunker(path, init[k'].content)|
            && prev[i] == Stamp(chunker(path, init[k'].content)[j], init[k'].topic);
          assert init[k'] == segs[k'];
          assert cs[i] == prev[i];
        } else {
          assert cs[i] == own[i - |prev|];
          assert cs[i] == Stamp(chunker(path, segs[k].content)[i - |prev|], segs[k].topic);
        }
      }
    }
  }

  /**
   * A media file with no usable segments whose lower-cased base name holds one of the generic
   * words is filed under "Uncategorized Media"; any other such file under its base name.
   */
  lemma GenericMediaIsUncategorized(path: string, text: string, segs: seq<Segment>, w: string)
    requires IsMedia(path) && Unusable(segs)
    ensures w in GenericNames && Contains(Lower(Basename(path)), w) ==>
      FileSegments(path, text, segs) == [TopicExtractor.Segment("Uncategorized Media", text)]
    ensures (forall v | v in GenericNames :: !Contains(Lower(Basename(path)), v)) ==>
      FileSegments(path, text, segs) == [TopicExtractor.Segment(Basename(path), text)]
  {
  }
}
