/**
 * Topic segmentation of extracted document text (`TopicExtractor` in
 * src/ingest/topic_extractor.py). A document is cut into `Segment`s, each a topic label and the
 * text under it:
 *   1. a single scan looks for a table-of-contents block and harvests up to 31 headers from it;
 *   2. the lines are split into segments, on those headers when there are any, otherwise on a
 *      generic header heuristic (`IsHeader`);
 *   3. an unsplit document (at most one segment) gives no segments at all;
 *   4. a merge pass folds segments whose content is shorter than a threshold (0 with TOC
 *      headers, 300 otherwise) into their neighbours.
 * The TOC-entry regular expression and the clean-up of what it captures
 * (topic_extractor.py:91-99) are not modelled character by character: they are the parameter
 * `entry`, which maps a stripped in-TOC line to the header it yields, or to `None`.
 */
module TopicExtractor {
  import opened Wrappers
  import opened Text

  datatype Segment = Segment(topic: string, content: string)

  // ---------------------------------------------------------------------------------------------
  // The generic header heuristic, `_is_header`, with each regular expression written out.
  // ---------------------------------------------------------------------------------------------

  /**
   * `re.match(r'^Kw\s+\d+.*$', line, re.IGNORECASE)` for a lower-case keyword `kw`: the keyword in
   * any case, at least one whitespace character, then a digit.
   */
  predicate KeywordNumber(line: string, kw: string) {
    && |kw| < |line|
    && Lower(line[..|kw|]) == kw
    && var rest := line[|kw|..];
       var k := LeadingSpaces(rest);
       1 <= k < |rest| && IsDigit(rest[k])
  }

  /**
   * `re.match(r'^\d+\.\s+[A-Z][a-zA-Z\s]+$', line, re.IGNORECASE)`: digits, a dot, whitespace, a
   * letter, then at least one more letter or whitespace character up to the end.
   */
  predicate NumberedTitle(line: string) {
    var d := LeadingDigits(line);
    && 1 <= d < |line| && line[d] == '.'
    && var rest := line[d + 1..];
       var k := LeadingSpaces(rest);
       && 1 <= k && k + 1 < |rest| && IsLetter(rest[k])
       && forall i :: k + 1 <= i < |rest| ==> IsLetter(rest[i]) || IsSpace(rest[i])
  }

  const NamedHeaders: seq<string> :=
    ["introduction", "preliminaries", "appendix", "index", "glossary", "bibliography", "references"]

  /** Some entry of `header_patterns` (topic_extractor.py:7-18) matches, ignoring case. */
  predicate MatchesHeaderPattern(line: string) {
    || KeywordNumber(line, "chapter")
    || NumberedTitle(line)
    || Lower(line) in NamedHeaders
    || Lower(line) == "table of contents"
    || Lower(line) == "contents"
    || KeywordNumber(line, "module")
    || KeywordNumber(line, "unit")
    || KeywordNumber(line, "section")
    || KeywordNumber(line, "topic")
  }

  /**
   * `re.match(r'^\d+\s+[A-Za-z]+', line) and '.' not in line[:5]`: a number, whitespace and a word
   * with no dot among the first five characters, as in a street address.
   */
  predicate AddressLike(line: string) {
    var d := LeadingDigits(line);
    var rest := line[d..];
    var k := LeadingSpaces(rest);
    && 1 <= d && 1 <= k < |rest| && IsLetter(rest[k])
    && '.' !in line[..if |line| < 5 then |line| else 5]
  }

  /**
   * `_is_header`, which its callers only apply to non-empty stripped lines: a header passes every
   * exclusion (length, trailing punctuation, bar, address, page label) and matches some pattern.
   */
  predicate IsHeader(line: string)
    requires line != []
    ensures IsHeader(line) ==>
      && |line| <= 80 && line[|line| - 1] !in {',', ';', ':'} && '|' !in line
      && !AddressLike(line) && !(Contains(line, "Page") && |line| < 15)
      && MatchesHeaderPattern(line)
  {
    if |line| > 80 then false
    else if line[|line| - 1] in {',', ';', ':'} then false
    else if '|' in line then false
    else if AddressLike(line) then false
    else if Contains(line, "Page") && |line| < 15 then false
    else MatchesHeaderPattern(line)
  }

  // ---------------------------------------------------------------------------------------------
  // `_extract_toc_headers`
  // ---------------------------------------------------------------------------------------------

  /** `re.match(r'^(Table of Contents|Contents|Index)$', line, re.IGNORECASE)`. */
  predicate IsTocMarker(line: string) {
    var l := Lower(line);
    l == "table of contents" || l == "contents" || l == "index"
  }

  /** A line that starts with a digit is no TOC marker. */
  lemma DigitLineIsNoMarker(line: string)
    requires line != [] && IsDigit(line[0])
    ensures !IsTocMarker(line)
  {
    assert Lower(line)[0] == line[0];
  }

  /** The scan's variables: the headers so far, the `in_toc` flag, and whether it broke off. */
  datatype TocState = TocState(headers: seq<string>, inToc: bool, stopped: bool)

  /**
   * One iteration of the scan, on a stripped line: it adds at most one header, breaks off only
   * past 30 headers, and outside a TOC block only a marker line changes anything.
   */
  function TocStep(st: TocState, line: string, entry: string -> Option<string>): (r: TocState)
    ensures st.headers <= r.headers && |r.headers| <= |st.headers| + 1
    ensures st.stopped ==> r == st
    ensures r.stopped ==> st.stopped || |r.headers| > 30
    ensures !st.inToc && !IsTocMarker(line) ==> r == st
  {
    if st.stopped || line == [] then st
    else if IsTocMarker(line) then st.(inToc := true)
    else if !st.inToc then st
    else if |line| > 300 then st.(inToc := false)
    else
      var hs := if entry(line).Some? then st.headers + [entry(line).value] else st.headers;
      TocState(hs, true, |hs| > 30)
  }

  /** The scan's state after the given stripped lines. */
  function TocScan(lines: seq<string>, entry: string -> Option<string>): TocState {
    if lines == [] then TocState([], false, false)
    else TocStep(TocScan(lines[..|lines| - 1], entry), lines[|lines| - 1], entry)
  }

  /** Every line of a text, stripped. */
  function StripAll(lines: seq<string>): seq<string> {
    seq(|lines|, j requires 0 <= j < |lines| => Strip(lines[j]))
  }
  function StrippedLines(text: string): seq<string> {
    StripAll(Split(text, '\n'))
  }

  function TocHeaders(text: string, entry: string -> Option<string>): seq<string> {
    TocScan(StrippedLines(text), entry).headers
  }

  /** Once the scan has broken off, later lines change nothing. */
  lemma {:induction false} TocStaysStopped(lines: seq<string>, i: nat, entry: string -> Option<string>)
    requires i <= |lines| && TocScan(lines[..i], entry).stopped
    ensures TocScan(lines, entry) == TocScan(lines[..i], entry)
    decreases |lines| - i
  {
    if i < |lines| {
      assert lines[..i + 1][..i] == lines[..i];
      TocStaysStopped(lines, i + 1, entry);
    } else {
      assert lines[..i] == lines;
    }
  }

  /** The body of the scan loop (topic_extractor.py:69-105) on a stripped line. */
  method TocIteration(headers: seq<string>, inToc: bool, line: string, entry: string -> Option<string>)
    returns (headers': seq<string>, inToc': bool, stop: bool)
    ensures TocState(headers', inToc', stop) == TocStep(TocState(headers, inToc, false), line, entry)
  {
    headers', inToc', stop := headers, inToc, false;
    if line == [] {
    } else if IsTocMarker(line) {
      inToc' := true;
    } else if inToc {
      if |line| > 300 {
        inToc' := false;
      } else {
        var found := entry(line);
        if found.Some? {
          headers' := headers + [found.value];
        }
        stop := |headers'| > 30;
      }
    }
  }

  lemma TocScanSnoc(lines: seq<string>, i: nat, entry: string -> Option<string>)
    requires i < |lines|
    ensures TocScan(lines[..i + 1], entry) == TocStep(TocScan(lines[..i], entry), lines[i], entry)
  {
    assert lines[..i + 1][..i] == lines[..i];
  }

  /** `_extract_toc_headers`. */
  method ExtractTocHeaders(text: string, entry: string -> Option<string>) returns (headers: seq<string>)
    ensures headers == TocHeaders(text, entry)
  {
    var lines := StrippedLines(text);
    headers := [];
    var inToc := false;
    var i := 0;
    while i < |lines|
      invariant 0 <= i <= |lines|
      invariant TocScan(lines[..i], entry) == TocState(headers, inToc, false)
    {
      TocScanSnoc(lines, i, entry);
      var stop;
      headers, inToc, stop := TocIteration(headers, inToc, lines[i], entry);
      if stop {
        TocStaysStopped(lines, i + 1, entry);
        return;
      }
      i := i + 1;
    }
    assert lines[..i] == lines;
  }

  /** Some line before index `j` is a TOC marker. */
  predicate MarkerBefore(lines: seq<string>, j: int) {
    exists k | 0 <= k < j && k < |lines| :: IsTocMarker(lines[k])
  }

  /** Stripped line `j` yields header `h`: a non-marker line of at most 300 characters after a marker. */
  predicate EntryAt(lines: seq<string>, j: int, h: string, entry: string -> Option<string>) {
    && 0 <= j < |lines|
    && lines[j] != [] && |lines[j]| <= 300 && !IsTocMarker(lines[j])
    && entry(lines[j]) == Some(h)
    && MarkerBefore(lines, j)
  }

  /** Some stripped line yields header `h` in the way `EntryAt` describes. */
  ghost predicate Sourced(lines: seq<string>, h: string, entry: string -> Option<string>) {
    exists j :: EntryAt(lines, j, h, entry)
  }

  /**
   * The TOC scan collects at most 31 headers, and every one of them is what `entry` makes of a
   * line (of at most 300 characters) that comes after a "Table of Contents", "Contents" or
   * "Index" line.
   */
  lemma {:induction false} TocHeadersFromEntries(lines: seq<string>, entry: string -> Option<string>)
    ensures |TocScan(lines, entry).headers| <= 31
    ensures !TocScan(lines, entry).stopped ==> |TocScan(lines, entry).headers| <= 30
    ensures TocScan(lines, entry).inToc ==> MarkerBefore(lines, |lines|)
    ensures forall n :: 0 <= n < |TocScan(lines, entry).headers| ==>
              Sourced(lines, TocScan(lines, entry).headers[n], entry)
  {
    if lines != [] {
      var init := lines[..|lines| - 1];
      TocHeadersFromEntries(init, entry);
      var prev := TocScan(init, entry);
      var j := |lines| - 1;
      var line := lines[j];
      if prev.inToc {
        var k :| 0 <= k < |init| && IsTocMarker(init[k]);
        assert lines[k] == init[k];
        assert MarkerBefore(lines, j);
      }
      if IsTocMarker(line) && !prev.stopped {
        assert MarkerBefore(lines, |lines|);
      }
      var hs := TocScan(lines, entry).headers;
      forall n | 0 <= n < |hs| ensures Sourced(lines, hs[n], entry) {
        if n < |prev.headers| {
          assert hs[n] == prev.headers[n];
          var j' :| EntryAt(init, j', prev.headers[n], entry);
          var k :| 0 <= k < j' && k < |init| && IsTocMarker(init[k]);
          assert lines[k] == init[k];
          assert lines[j'] == init[j'];
          assert EntryAt(lines, j', hs[n], entry);
        } else {
          assert EntryAt(lines, j, hs[n], entry);
        }
      }
    }
  }

  /** The number of TOC headers never exceeds 31. */
  lemma TocHeadersBounded(text: string, entry: string -> Option<string>)
    ensures |TocHeaders(text, entry)| <= 31
  {
    TocHeadersFromEntries(StrippedLines(text), entry);
  }

  /** Without a marker line there are no TOC headers. */
  lemma {:induction false} NoMarkerNoToc(lines: seq<string>, entry: string -> Option<string>)
    requires forall j :: 0 <= j < |lines| ==> !IsTocMarker(lines[j])
    ensures TocScan(lines, entry) == TocState([], false, false)
  {
    if lines != [] {
      NoMarkerNoToc(lines[..|lines| - 1], entry);
    }
  }

  /** A line longer than 300 characters inside an open TOC block closes it and keeps the headers. */
  lemma LongLineClosesTocBlock(lines: seq<string>, i: nat, entry: string -> Option<string>)
    requires i < |lines| && |lines[i]| > 300
    requires TocScan(lines[..i], entry).inToc && !TocScan(lines[..i], entry).stopped
    ensures TocScan(lines[..i + 1], entry) == TocState(TocScan(lines[..i], entry).headers, false, false)
  {
    TocScanSnoc(lines, i, entry);
    assert |Lower(lines[i])| > 300;
  }

  /** A marker line reopens the TOC block as long as the scan has not broken off. */
  lemma MarkerReopensTocBlock(lines: seq<string>, i: nat, entry: string -> Option<string>)
    requires i < |lines| && IsTocMarker(lines[i]) && !TocScan(lines[..i], entry).stopped
    ensures TocScan(lines[..i + 1], entry) == TocScan(lines[..i], entry).(inToc := true)
  {
    TocScanSnoc(lines, i, entry);
    assert Lower(lines[i]) != [];
  }

  /** Outside a TOC block, every line up to the next marker line leaves the scan as it was. */
  lemma {:induction false} ClosedTocBlockIgnoresLines(lines: seq<string>, i: nat, j: nat, entry: string -> Option<string>)
    requires i <= j <= |lines| && !TocScan(lines[..i], entry).inToc
    requires forall k | i <= k < j :: !IsTocMarker(lines[k])
    ensures TocScan(lines[..j], entry) == TocScan(lines[..i], entry)
    decreases j - i
  {
    if i < j {
      TocScanSnoc(lines, i, entry);
      ClosedTocBlockIgnoresLines(lines, i + 1, j, entry);
    }
  }

  /**
   * A line longer than 300 characters ends the TOC block but not the scan: a later entry is
   * ignored until the next marker line, after which entries are collected again.
   */
  lemma LongLineEndsTocBlock(long: string, entry: string -> Option<string>)
    requires |long| > 300
    requires entry("1. Cells") == Some("1. Cells")
    requires entry("3. Energy") == Some("3. Energy")
    ensures TocScan(["Contents", "1. Cells", long, "2. Atoms", "Index", "3. Energy"], entry).headers
            == ["1. Cells", "3. Energy"]
  {
    var lines := ["Contents", "1. Cells", long, "2. Atoms", "Index", "3. Energy"];
    assert |Lower(long)| > 300;
    assert !IsTocMarker(long);
    assert Lower("Contents") == "contents";
    assert Lower("Index") == "index";
    DigitLineIsNoMarker("1. Cells");
    DigitLineIsNoMarker("2. Atoms");
    DigitLineIsNoMarker("3. Energy");
    assert lines[..1] == ["Contents"];
    assert lines[..2] == lines[..1] + ["1. Cells"];
    assert lines[..3] == lines[..2] + [long];
    assert lines[..4] == lines[..3] + ["2. Atoms"];
    assert lines[..5] == lines[..4] + ["Index"];
    assert lines[..6] == lines;
    assert TocScan(lines[..1], entry) == TocState([], true, false);
    assert TocScan(lines[..2], entry) == TocState(["1. Cells"], true, false);
    assert TocScan(lines[..3], entry) == TocState(["1. Cells"], false, false);
    assert TocScan(lines[..4], entry) == TocState(["1. Cells"], false, false);
    assert TocScan(lines[..5], entry) == TocState(["1. Cells"], true, false);
  }

  // ---------------------------------------------------------------------------------------------
  // `_split_by_specific_headers` and `_split_by_headers`: one loop, two ways to recognise a header.
  // ---------------------------------------------------------------------------------------------

  /** Which lines may start a segment: the TOC headers found, or the generic heuristic. */
  datatype HeaderRule = Generic | Known(headers: seq<string>)

  /**
   * `re.match(r'^(h1|h2|...).*$', line, re.IGNORECASE)` with every header escaped: some header is
   * a prefix of the line, ignoring case (an empty alternation matches every line).
   */
  predicate StartsWithHeader(line: string, headers: seq<string>) {
    || headers == []
    || exists h | h in headers :: |h| <= |line| && Lower(line[..|h|]) == Lower(h)
  }

  /** `re.search(r'\.{3,}\s*\d+$', line)`: three or more dots, optional whitespace, a page number. */
  predicate DotLeaderPage(line: string) {
    var d := TrailingDigits(line);
    var head := line[..|line| - d];
    var body := head[..|head| - TrailingSpaces(head)];
    1 <= d && |body| >= 3 && body[|body| - 3..] == "..."
  }

  /** The lines `_split_by_specific_headers` keeps as content because they look like TOC entries. */
  predicate LooksLikeTocEntry(line: string) {
    DotLeaderPage(line) || Contains(line, "....")
  }

  /** A run of `k` digits at the end of `s`, not preceded by a digit, is what `TrailingDigits` counts. */
  lemma TrailingDigitsRun(s: string, k: nat)
    requires k <= |s|
    requires forall i :: |s| - k <= i < |s| ==> IsDigit(s[i])
    requires k < |s| ==> !IsDigit(s[|s| - 1 - k])
    ensures TrailingDigits(s) == k
  {
  }

  /** A run of `k` whitespace characters at the end of `s`, not preceded by one, is what `TrailingSpaces` counts. */
  lemma TrailingSpacesRun(s: string, k: nat)
    requires k <= |s|
    requires forall i :: |s| - k <= i < |s| ==> IsSpace(s[i])
    requires k < |s| ==> !IsSpace(s[|s| - 1 - k])
    ensures TrailingSpaces(s) == k
  {
  }

  /** Three dots, optional whitespace and a non-empty run of digits end a dot-leader line. */
  lemma DotLeaderOf(body: string, ws: string, page: string)
    requires |body| >= 3 && body[|body| - 3..] == "..."
    requires page != [] && forall i :: 0 <= i < |page| ==> IsDigit(page[i])
    requires forall i :: 0 <= i < |ws| ==> IsSpace(ws[i])
    ensures DotLeaderPage(body + ws + page)
  {
    var head := body + ws;
    var line := head + page;
    assert line[|line| - 1 - |page|] == head[|head| - 1];
    TrailingDigitsRun(line, |page|);
    assert line[..|line| - |page|] == head;
    assert |ws| < |head| && head[|head| - 1 - |ws|] == body[|body| - 1];
    TrailingSpacesRun(head, |ws|);
    assert head[..|head| - |ws|] == body;
  }

  /**
   * A line that ends in a dot leader, optional whitespace and a page number, such as "Cells...12"
   * or "2. Atoms ... 104", never starts a segment under the TOC headers, even when it begins with
   * one: it stays content.
   */
  lemma DotLeaderLineIsContent(hs: seq<string>, title: string, ws: string, page: string)
    requires page != [] && forall i :: 0 <= i < |page| ==> IsDigit(page[i])
    requires forall i :: 0 <= i < |ws| ==> IsSpace(ws[i])
    ensures !IsBoundary(Known(hs), title + "..." + ws + page)
  {
    var body := title + "...";
    assert body[|body| - 3..] == "...";
    DotLeaderOf(body, ws, page);
  }

  /** A non-empty stripped line that starts a new segment under the given rule. */
  predicate IsBoundary(rule: HeaderRule, line: string) {
    && line != []
    && match rule
       case Generic => IsHeader(line)
       case Known(hs) => !LooksLikeTocEntry(line) && StartsWithHeader(line, hs) && |line| <= 100
  }

  /** A topic with the (stripped) lines accumulated under it. */
  datatype Block = Block(topic: string, lines: seq<string>)

  /** The splitter's variables: emitted blocks, `current_topic` and `current_content`. */
  datatype SplitState = SplitState(done: seq<Block>, topic: string, pending: seq<string>)

  /** `IsBoundary` for a fixed rule, as the parameter of the splitter's scan. */
  function BoundaryOf(rule: HeaderRule): string -> bool {
    line => IsBoundary(rule, line)
  }

  /**
   * One iteration of the splitter, on a stripped line: a boundary line closes the pending block
   * and becomes the topic; any other line is appended to the pending block. Either way no line
   * already emitted changes and the content lines grow by exactly the non-boundary line.
   */
  function SplitStep(st: SplitState, line: string, boundary: string -> bool): (r: SplitState)
    ensures Flatten(r.done) + r.pending == Flatten(st.done) + st.pending + (if boundary(line) then [] else [line])
    ensures st.done <= r.done
    ensures (r.pending == []) == boundary(line)
    ensures boundary(line) ==> r.topic == line
  {
    if boundary(line) then
      FlattenSnoc(st.done, Block(st.topic, st.pending));
      SplitState(Close(st), line, [])
    else st.(pending := st.pending + [line])
  }

  /** The splitter's state after the given stripped lines. */
  function SplitScan(lines: seq<string>, boundary: string -> bool): SplitState {
    if lines == [] then SplitState([], "Introduction", [])
    else SplitStep(SplitScan(lines[..|lines| - 1], boundary), lines[|lines| - 1], boundary)
  }

  /** The blocks after the last line: the pending one is emitted if it has lines. */
  function Close(st: SplitState): seq<Block> {
    if st.pending != [] then st.done + [Block(st.topic, st.pending)] else st.done
  }

  function ToSegment(b: Block): Segment {
    Segment(b.topic, Join(b.lines, "\n"))
  }

  function ToSegments(bs: seq<Block>): seq<Segment> {
    if bs == [] then [] else ToSegments(bs[..|bs| - 1]) + [ToSegment(bs[|bs| - 1])]
  }

  function Blocks(text: string, rule: HeaderRule): seq<Block> {
    Close(SplitScan(StrippedLines(text), BoundaryOf(rule)))
  }

  function RawSegments(text: string, rule: HeaderRule): seq<Segment> {
    ToSegments(Blocks(text, rule))
  }

  lemma SplitScanSnoc(lines: seq<string>, i: nat, boundary: string -> bool)
    requires i < |lines|
    ensures SplitScan(lines[..i + 1], boundary) == SplitStep(SplitScan(lines[..i], boundary), lines[i], boundary)
  {
    assert lines[..i + 1][..i] == lines[..i];
  }

  lemma ToSegmentsSnoc(bs: seq<Block>, b: Block)
    ensures ToSegments(bs + [b]) == ToSegments(bs) + [ToSegment(b)]
  {
    assert (bs + [b])[..|bs|] == bs;
  }

  /** Both splitters: walk the lines, starting a new segment at every boundary line. */
  method SplitIntoSegments(text: string, rule: HeaderRule) returns (segments: seq<Segment>)
    ensures segments == RawSegments(text, rule)
  {
    var raw := Split(text, '\n');
    ghost var lines := StripAll(raw);
    assert |lines| == |raw|;
    segments := [];
    var topic := "Introduction";
    var pending: seq<string> := [];
    ghost var done: seq<Block> := [];
    var isBoundary := BoundaryOf(rule);
    var i := 0;
    while i < |raw|
      invariant 0 <= i <= |lines|
      invariant SplitScan(lines[..i], isBoundary) == SplitState(done, topic, pending)
      invariant segments == ToSegments(done)
    {
      SplitScanSnoc(lines, i, isBoundary);
      var line := Strip(raw[i]);
      assert line == lines[i];
      if isBoundary(line) {
        if pending != [] {
          ToSegmentsSnoc(done, Block(topic, pending));
          segments := segments + [Segment(topic, Join(pending, "\n"))];
          done := done + [Block(topic, pending)];
        }
        topic := line;
        pending := [];
      } else {
        pending := pending + [line];
      }
      i := i + 1;
    }
    if pending != [] {
      ToSegmentsSnoc(done, Block(topic, pending));
      segments := segments + [Segment(topic, Join(pending, "\n"))];
      done := done + [Block(topic, pending)];
    }
    assert lines[..i] == lines;
  }

  /** The stripped lines that are not boundaries, in order: what the segments' contents hold. */
  function ContentLines(lines: seq<string>, boundary: string -> bool): seq<string> {
    if lines == [] then []
    else
      var line := lines[|lines| - 1];
      ContentLines(lines[..|lines| - 1], boundary) + (if boundary(line) then [] else [line])
  }

  function Flatten(bs: seq<Block>): seq<string> {
    if bs == [] then [] else Flatten(bs[..|bs| - 1]) + bs[|bs| - 1].lines
  }

  lemma {:induction false} FlattenSnoc(bs: seq<Block>, b: Block)
    ensures Flatten(bs + [b]) == Flatten(bs) + b.lines
  {
    assert (bs + [b])[..|bs|] == bs;
  }

  /** The topic of block `k`: "Introduction" for a leading block, a boundary line otherwise. */
  predicate TopicOk(bs: seq<Block>, k: int, lines: seq<string>, boundary: string -> bool)
    requires 0 <= k < |bs|
  {
    || (k == 0 && bs[k].topic == "Introduction")
    || (boundary(bs[k].topic) && bs[k].topic in lines)
  }

  /** None of the lines is a boundary line. */
  predicate NoBoundary(ls: seq<string>, boundary: string -> bool) {
    forall j :: 0 <= j < |ls| ==> !boundary(ls[j])
  }

  /** Every block has lines, none of them a header line, and a topic as `TopicOk` says. */
  predicate BlocksOk(bs: seq<Block>, lines: seq<string>, boundary: string -> bool) {
    forall k :: 0 <= k < |bs| ==>
      bs[k].lines != [] && NoBoundary(bs[k].lines, boundary) && TopicOk(bs, k, lines, boundary)
  }

  /** What the splitter's loop keeps true, stated on its state after a prefix of the lines. */
  predicate SplitInvariant(st: SplitState, lines: seq<string>, boundary: string -> bool) {
    && Flatten(st.done) + st.pending == ContentLines(lines, boundary)
    && BlocksOk(st.done, lines, boundary)
    && NoBoundary(st.pending, boundary)
    && ((st.topic == "Introduction" && st.done == [])
        || (boundary(st.topic) && st.topic in lines))
  }

  lemma {:induction false} SplitScanInvariant(lines: seq<string>, boundary: string -> bool)
    ensures SplitInvariant(SplitScan(lines, boundary), lines, boundary)
  {
    if lines != [] {
      var init := lines[..|lines| - 1];
      SplitScanInvariant(init, boundary);
      assert lines == init + [lines[|lines| - 1]];
      SplitStepKeeps(SplitScan(init, boundary), init, lines[|lines| - 1], boundary);
    }
  }

  /** One step of the splitter keeps its invariant. */
  lemma SplitStepKeeps(prev: SplitState, init: seq<string>, line: string, boundary: string -> bool)
    requires SplitInvariant(prev, init, boundary)
    ensures SplitInvariant(SplitStep(prev, line, boundary), init + [line], boundary)
  {
    var lines := init + [line];
    var st := SplitStep(prev, line, boundary);
    assert lines[..|lines| - 1] == init;
    assert ContentLines(lines, boundary) == ContentLines(init, boundary) + (if boundary(line) then [] else [line]);
    if boundary(line) {
      if prev.pending != [] {
        FlattenSnoc(prev.done, Block(prev.topic, prev.pending));
      }
      assert st.done == Close(prev);
    } else {
      assert st.done == prev.done;
    }
    forall k | 0 <= k < |st.done|
      ensures st.done[k].lines != [] && NoBoundary(st.done[k].lines, boundary)
      ensures TopicOk(st.done, k, lines, boundary)
    {
      if k < |prev.done| {
        assert st.done[k] == prev.done[k];
        assert TopicOk(prev.done, k, init, boundary);
      }
    }
  }

  /** The topics of the blocks, in order. */
  function Topics(bs: seq<Block>): (ts: seq<string>)
    ensures |ts| == |bs| && forall k :: 0 <= k < |bs| ==> ts[k] == bs[k].topic
  {
    seq(|bs|, k requires 0 <= k < |bs| => bs[k].topic)
  }

  /**
   * The topics of the segments the lines open, found line by line: a non-boundary line opens a
   * segment when it is the first line (its topic is then "Introduction") or when the line before
   * it is a boundary line (its topic is then that line).
   */
  function OpenedTopics(lines: seq<string>, boundary: string -> bool): seq<string> {
    if lines == [] then []
    else
      var n := |lines| - 1;
      OpenedTopics(lines[..n], boundary)
        + if !boundary(lines[n]) && (n == 0 || boundary(lines[n - 1]))
          then [if n == 0 then "Introduction" else lines[n - 1]] else []
  }

  /**
   * The splitter's topic bookkeeping after a prefix of the lines: a block is pending exactly when
   * the last line is content, the topic is "Introduction" before any line and the last line when
   * that is a boundary, and closing the state gives blocks whose topics are `OpenedTopics`.
   */
  predicate TopicsInvariant(st: SplitState, lines: seq<string>, boundary: string -> bool) {
    && (st.pending != [] <==> lines != [] && !boundary(lines[|lines| - 1]))
    && (lines == [] ==> st.topic == "Introduction")
    && (lines != [] && boundary(lines[|lines| - 1]) ==> st.topic == lines[|lines| - 1])
    && Topics(Close(st)) == OpenedTopics(lines, boundary)
  }

  lemma {:induction false} SplitScanTopics(lines: seq<string>, boundary: string -> bool)
    ensures TopicsInvariant(SplitScan(lines, boundary), lines, boundary)
  {
    if lines != [] {
      var n := |lines| - 1;
      var init := lines[..n];
      SplitScanTopics(init, boundary);
      var prev := SplitScan(init, boundary);
      var st := SplitScan(lines, boundary);
      if !boundary(lines[n]) {
        assert Close(st) == prev.done + [Block(prev.topic, prev.pending + [lines[n]])];
        assert Topics(Close(st)) == Topics(prev.done) + [prev.topic];
        if prev.pending != [] {
          assert Topics(Close(prev)) == Topics(prev.done) + [prev.topic];
        } else if n > 0 {
          assert init[n - 1] == lines[n - 1];
        }
      }
    }
  }

  /** The topics of the segments are the ones the lines open. */
  lemma BlocksTopics(text: string, rule: HeaderRule)
    ensures Topics(Blocks(text, rule)) == OpenedTopics(StrippedLines(text), BoundaryOf(rule))
  {
    SplitScanTopics(StrippedLines(text), BoundaryOf(rule));
  }

  /**
   * What the splitters produce: every segment has at least one line and no header line among
   * them; the segments' lines, taken in order, are exactly the text's stripped non-header lines,
   * so no header line is content and no content is lost; and the segments' topics, in order, are
   * "Introduction" when the text's first line is content, then every header line (a stripped
   * line that starts a segment under the rule) that is directly followed by a content line.
   */
  lemma BlocksFaithful(text: string, rule: HeaderRule)
    ensures Flatten(Blocks(text, rule)) == ContentLines(StrippedLines(text), BoundaryOf(rule))
    ensures BlocksOk(Blocks(text, rule), StrippedLines(text), BoundaryOf(rule))
    ensures Topics(Blocks(text, rule)) == OpenedTopics(StrippedLines(text), BoundaryOf(rule))
  {
    var lines := StrippedLines(text);
    var boundary := BoundaryOf(rule);
    var st := SplitScan(lines, boundary);
    SplitScanInvariant(lines, boundary);
    BlocksTopics(text, rule);
    if st.pending != [] {
      FlattenSnoc(st.done, Block(st.topic, st.pending));
      var bs := Blocks(text, rule);
      forall k | 0 <= k < |bs|
        ensures bs[k].lines != [] && NoBoundary(bs[k].lines, boundary) && TopicOk(bs, k, lines, boundary)
      {
        if k < |st.done| {
          assert bs[k] == st.done[k];
          assert TopicOk(st.done, k, lines, boundary);
        }
      }
    }
  }

  /** A line without a capital P does not contain "Page". */
  lemma NoCapitalPNoPage(line: string)
    requires 'P' !in line
    ensures !Contains(line, "Page")
  {
    forall i | 0 <= i <= |line| - 4 ensures !OccursAt(line, "Page", i) {
      assert line[i] in line;
      assert line[i..i + 4][0] == line[i];
    }
  }

  /** A line that does not start with a digit is not address-like. */
  lemma NoLeadingDigitNoAddress(line: string)
    requires line != [] && !IsDigit(line[0])
    ensures !AddressLike(line)
  {
  }

  /** "Chapter", a space and a digit start a chapter header. */
  lemma ChapterKeyword(d: char, rest: string)
    requires IsDigit(d)
    ensures KeywordNumber("Chapter " + [d] + rest, "chapter")
  {
    var line := "Chapter " + [d] + rest;
    assert line[..7] == "Chapter";
    assert Lower("Chapter") == "chapter";
    assert line[7..] == " " + ([d] + rest);
    assert LeadingSpaces([d] + rest) == 0;
  }

  /**
   * "Chapter N..." is a header (the first pattern, as in "Chapter 1: Photosynthesis") unless the
   * line is too long, ends in a comma, semicolon or colon, holds a '|', or is a line shorter than
   * 15 characters that holds "Page".
   */
  lemma ChapterLineIsHeader(d: char, rest: string)
    requires IsDigit(d) && |rest| <= 71
    requires rest == [] || rest[|rest| - 1] !in {',', ';', ':'}
    requires '|' !in rest
    requires !(Contains("Chapter " + [d] + rest, "Page") && |"Chapter " + [d] + rest| < 15)
    ensures IsHeader("Chapter " + [d] + rest)
  {
    var line := "Chapter " + [d] + rest;
    ChapterKeyword(d, rest);
    assert line[0] == 'C';
    assert forall i :: 0 <= i < |line| ==> line[i] == if i < 8 then "Chapter "[i] else if i == 8 then d else rest[i - 9];
    assert '|' !in line;
  }

  /**
   * A named header matches in any case: any line that lower-cases to "introduction" (say
   * "INTRODUCTION") is a header.
   */
  lemma IntroductionInAnyCase(line: string)
    requires Lower(line) == "introduction"
    ensures IsHeader(line)
  {
    var low := Lower(line);
    forall i | 0 <= i < |line| ensures line[i] != '|' && line[i] != 'P' {
      assert low[i] == LowerChar(line[i]);
      assert low[i] in "introduction";
    }
    assert '|' !in line && 'P' !in line;
    NoCapitalPNoPage(line);
    assert LowerChar(line[|line| - 1]) == 'n';
    assert LowerChar(line[0]) == 'i';
    assert !IsDigit(line[0]);
  }

  /** A number, ". " and a word of letters make a numbered title, as in "1. Introduction". */
  lemma NumberedTitleOf(d: char, c: char, w: string)
    requires IsDigit(d) && IsLetter(c) && w != []
    requires forall i :: 0 <= i < |w| ==> IsLetter(w[i])
    ensures NumberedTitle([d] + ". " + [c] + w)
  {
    var line := [d] + ". " + [c] + w;
    assert line[0] == d && line[1..][0] == '.';
    assert LeadingDigits(line) == 1;
    var rest := line[2..];
    assert rest == " " + ([c] + w);
    assert rest[1..] == [c] + w && rest[1] == c;
    assert LeadingSpaces(rest) == 1;
    assert forall i :: 2 <= i < |rest| ==> rest[i] == w[i - 2];
  }

  /** A line shorter than 15 characters that holds "Page" anywhere is a page label, not a header. */
  lemma PageLabelIsNoHeader(line: string)
    requires Contains(line, "Page") && |line| < 15
    ensures line != [] && !IsHeader(line)
  {
    var i :| 0 <= i <= |line| - 4 && OccursAt(line, "Page", i);
  }

  /**
   * Anywhere in the text, a header line directly followed by another header line opens no segment
   * of its own: after what came before, only the second header's segment is added.
   */
  lemma HeaderAfterHeader(pre: seq<string>, first: string, second: string, body: string, boundary: string -> bool)
    requires boundary(first) && boundary(second) && !boundary(body)
    ensures Close(SplitScan(pre + [first, second, body], boundary))
            == Close(SplitScan(pre, boundary)) + [Block(second, [body])]
  {
    var p1 := pre + [first];
    var p2 := p1 + [second];
    var lines := p2 + [body];
    assert lines == pre + [first, second, body];
    assert p1[..|p1| - 1] == pre && p2[..|p2| - 1] == p1 && lines[..|lines| - 1] == p2;
    var before := Close(SplitScan(pre, boundary));
    assert SplitScan(p1, boundary) == SplitState(before, first, []);
    assert SplitScan(p2, boundary) == SplitState(before, second, []);
    assert SplitScan(lines, boundary) == SplitState(before, second, [body]);
  }

  // ---------------------------------------------------------------------------------------------
  // The merge pass of `extract_segments`.
  // ---------------------------------------------------------------------------------------------

  /** topic_extractor.py:50: a short segment appended to the last kept one. */
  function FoldInto(last: Segment, short: Segment): Segment {
    last.(content := last.content + "\n" + short.topic + "\n" + short.content)
  }

  /** topic_extractor.py:53: a short leading segment prepended to the next one. */
  function FoldForward(short: Segment, next: Segment): Segment {
    next.(content := short.topic + "\n" + short.content + "\n" + next.content)
  }

  /** The merge loop's variables: `merged_segments` and `current_seg`. */
  datatype MergeState = MergeState(merged: seq<Segment>, current: Segment)

  /**
   * One iteration of the merge loop: a short current segment is folded into the last kept one
   * (or into the next one when nothing is kept yet), a long one is kept. Kept segments other than
   * the last are left alone, the one newly kept reaches the threshold, and the loop holds one
   * segment fewer exactly when it folded.
   */
  function MergeStep(st: MergeState, next: Segment, threshold: nat): (r: MergeState)
    ensures |Held(r)| == |Held(st)| + (if |st.current.content| < threshold then 0 else 1)
    ensures forall k | 0 <= k < |st.merged| - 1 :: r.merged[k] == st.merged[k]
    ensures forall k | |st.merged| <= k < |r.merged| :: |r.merged[k].content| >= threshold
  {
    if |st.current.content| < threshold then
      if st.merged != [] then
        var m := |st.merged|;
        MergeState(st.merged[..m - 1] + [FoldInto(st.merged[m - 1], st.current)], next)
      else MergeState([], FoldForward(st.current, next))
    else MergeState(st.merged + [st.current], next)
  }

  function MergeScan(raw: seq<Segment>, threshold: nat): MergeState
    requires |raw| >= 1
  {
    if |raw| == 1 then MergeState([], raw[0])
    else MergeStep(MergeScan(raw[..|raw| - 1], threshold), raw[|raw| - 1], threshold)
  }

  function Merge(raw: seq<Segment>, threshold: nat): seq<Segment>
    requires |raw| >= 1
  {
    var st := MergeScan(raw, threshold);
    st.merged + [st.current]
  }

  /**
   * The merge pass keeps between 1 and |raw| segments, and every kept segment except the last has
   * content at least `threshold` long.
   */
  lemma {:induction false} MergeShape(raw: seq<Segment>, threshold: nat)
    requires |raw| >= 1
    ensures var st := MergeScan(raw, threshold);
      && |st.merged| < |raw|
      && forall k :: 0 <= k < |st.merged| ==> |st.merged[k].content| >= threshold
  {
    if |raw| > 1 {
      MergeShape(raw[..|raw| - 1], threshold);
    }
  }

  /** With threshold 0 (TOC headers were found) nothing is merged. */
  lemma {:induction false} MergeWithoutThreshold(raw: seq<Segment>)
    requires |raw| >= 1
    ensures Merge(raw, 0) == raw
    ensures MergeScan(raw, 0) == MergeState(raw[..|raw| - 1], raw[|raw| - 1])
  {
    if |raw| > 1 {
      var init := raw[..|raw| - 1];
      MergeWithoutThreshold(init);
      assert init[..|init| - 1] + [init[|init| - 1]] == init;
    }
  }

  /** Some segment's content contains `x`. */
  predicate Covered(x: string, segs: seq<Segment>) {
    exists k | 0 <= k < |segs| :: Contains(segs[k].content, x)
  }

  /** Some segment has topic `t`. */
  predicate HasTopic(segs: seq<Segment>, t: string) {
    exists k | 0 <= k < |segs| :: segs[k].topic == t
  }

  /** Segment `s` survives in `segs`: its content inside some content, its topic a topic or inside some content. */
  predicate Retained(s: Segment, segs: seq<Segment>) {
    Covered(s.content, segs) && (HasTopic(segs, s.topic) || Covered(s.topic, segs))
  }

  lemma ContainsTransitive(a: string, b: string, c: string)
    requires Contains(a, b) && Contains(b, c)
    ensures Contains(a, c)
  {
    var i :| 0 <= i <= |a| - |b| && OccursAt(a, b, i);
    var j :| 0 <= j <= |b| - |c| && OccursAt(b, c, j);
    forall k | 0 <= k < |c| ensures a[i + j + k] == c[k] {
      assert a[i..i + |b|][j + k] == a[i + j + k];
      assert b[j..j + |c|][k] == b[j + k];
    }
    assert a[i + j..i + j + |c|] == c;
    assert OccursAt(a, c, i + j);
  }

  /** Whatever `before` retains, `after` retains too. */
  lemma RetainedCarries(s: Segment, before: seq<Segment>, after: seq<Segment>)
    requires Retained(s, before)
    requires forall k :: 0 <= k < |before| ==> Retained(before[k], after)
    ensures Retained(s, after)
  {
    var k :| 0 <= k < |before| && Contains(before[k].content, s.content);
    var k' :| 0 <= k' < |after| && Contains(after[k'].content, before[k].content);
    ContainsTransitive(after[k'].content, before[k].content, s.content);
    if HasTopic(before, s.topic) {
      var t :| 0 <= t < |before| && before[t].topic == s.topic;
      assert Retained(before[t], after);
    } else {
      var t :| 0 <= t < |before| && Contains(before[t].content, s.topic);
      var t' :| 0 <= t' < |after| && Contains(after[t'].content, before[t].content);
      ContainsTransitive(after[t'].content, before[t].content, s.topic);
    }
  }

  lemma RetainedAsMember(segs: seq<Segment>, k: int)
    requires 0 <= k < |segs|
    ensures Retained(segs[k], segs)
  {
    ContainsSelf(segs[k].content);
  }

  /** The segment list the merge loop holds: `merged_segments` and then `current_seg`. */
  function Held(st: MergeState): seq<Segment> {
    st.merged + [st.current]
  }

  /** An occurrence in `a` is an occurrence in `a + b`. */
  lemma ContainsLeft(a: string, b: string, t: string)
    requires Contains(a, t)
    ensures Contains(a + b, t)
  {
    var i :| 0 <= i <= |a| - |t| && OccursAt(a, t, i);
    assert (a + b)[i..i + |t|] == a[i..i + |t|];
    assert OccursAt(a + b, t, i);
  }

  /** An occurrence in `b` is an occurrence in `a + b`. */
  lemma ContainsRight(a: string, b: string, t: string)
    requires Contains(b, t)
    ensures Contains(a + b, t)
  {
    var i :| 0 <= i <= |b| - |t| && OccursAt(b, t, i);
    assert (a + b)[|a| + i..|a| + i + |t|] == b[i..i + |t|];
    assert OccursAt(a + b, t, |a| + i);
  }

  /** The folded content holds the last kept content, the short topic and the short content. */
  lemma FoldIntoContains(last: Segment, cur: Segment)
    ensures var c := FoldInto(last, cur).content;
      Contains(c, last.content) && Contains(c, cur.topic) && Contains(c, cur.content)
  {
    var l, t, x := last.content, cur.topic, cur.content;
    ContainsSelf(l);
    ContainsLeft(l, "\n", l);
    ContainsLeft(l + "\n", t, l);
    ContainsLeft(l + "\n" + t, "\n", l);
    ContainsLeft(l + "\n" + t + "\n", x, l);
    ContainsSelf(t);
    ContainsRight(l + "\n", t, t);
    ContainsLeft(l + "\n" + t, "\n", t);
    ContainsLeft(l + "\n" + t + "\n", x, t);
    ContainsSelf(x);
    ContainsRight(l + "\n" + t + "\n", x, x);
  }

  /** The content folded forward holds the short topic and content and the next content. */
  lemma FoldForwardContains(cur: Segment, next: Segment)
    ensures var c := FoldForward(cur, next).content;
      Contains(c, cur.topic) && Contains(c, cur.content) && Contains(c, next.content)
  {
    var t, x, n := cur.topic, cur.content, next.content;
    ContainsSelf(t);
    ContainsLeft(t, "\n", t);
    ContainsLeft(t + "\n", x, t);
    ContainsLeft(t + "\n" + x, "\n", t);
    ContainsLeft(t + "\n" + x + "\n", n, t);
    ContainsSelf(x);
    ContainsRight(t + "\n", x, x);
    ContainsLeft(t + "\n" + x, "\n", x);
    ContainsLeft(t + "\n" + x + "\n", n, x);
    ContainsSelf(n);
    ContainsRight(t + "\n" + x + "\n", n, n);
  }

  /** Folding the current segment into the last kept one retains everything held. */
  lemma FoldIntoRetains(st: MergeState, next: Segment)
    requires st.merged != []
    ensures var m := |st.merged|;
      var after := st.merged[..m - 1] + [FoldInto(st.merged[m - 1], st.current), next];
      && (forall k :: 0 <= k < |Held(st)| ==> Retained(Held(st)[k], after))
      && Retained(next, after)
  {
    var before := Held(st);
    var m := |st.merged|;
    var last := st.merged[m - 1];
    var cur := st.current;
    var f := FoldInto(last, cur);
    var after := st.merged[..m - 1] + [f, next];
    FoldIntoContains(last, cur);
    assert after[m - 1] == f;
    forall k | 0 <= k < |before| ensures Retained(before[k], after) {
      if k < m - 1 {
        assert after[k] == before[k];
        RetainedAsMember(after, k);
      } else if k == m - 1 {
        assert before[k] == last;
        assert Covered(last.content, after) && HasTopic(after, last.topic);
      } else {
        assert before[k] == cur;
        assert Covered(cur.content, after) && Covered(cur.topic, after);
      }
    }
    RetainedAsMember(after, m);
  }

  /** Folding a leading short segment forward retains it and the next one. */
  lemma FoldForwardRetains(cur: Segment, next: Segment)
    ensures var after := [FoldForward(cur, next)];
      Retained(cur, after) && Retained(next, after)
  {
    var after := [FoldForward(cur, next)];
    FoldForwardContains(cur, next);
    assert after[0] == FoldForward(cur, next);
    assert Covered(cur.content, after) && Covered(cur.topic, after);
    assert Covered(next.content, after) && HasTopic(after, next.topic);
  }

  /** Keeping the current segment retains everything held. */
  lemma KeepRetains(before: seq<Segment>, next: Segment)
    ensures forall k :: 0 <= k < |before| ==> Retained(before[k], before + [next])
    ensures Retained(next, before + [next])
  {
    var after := before + [next];
    forall k | 0 <= k < |before| ensures Retained(before[k], after) {
      assert after[k] == before[k];
      RetainedAsMember(after, k);
    }
    RetainedAsMember(after, |before|);
  }

  /** One merge step retains every segment held before it, and the new one. */
  lemma MergeStepRetains(st: MergeState, next: Segment, threshold: nat)
    ensures var after := Held(MergeStep(st, next, threshold));
      && (forall k :: 0 <= k < |Held(st)| ==> Retained(Held(st)[k], after))
      && Retained(next, after)
  {
    var cur := st.current;
    if |cur.content| < threshold && st.merged != [] {
      var m := |st.merged|;
      assert Held(MergeStep(st, next, threshold))
          == st.merged[..m - 1] + [FoldInto(st.merged[m - 1], cur), next];
      FoldIntoRetains(st, next);
    } else if |cur.content| < threshold {
      assert Held(st) == [cur];
      assert Held(MergeStep(st, next, threshold)) == [FoldForward(cur, next)];
      FoldForwardRetains(cur, next);
    } else {
      assert Held(MergeStep(st, next, threshold)) == Held(st) + [next];
      KeepRetains(Held(st), next);
    }
  }

  /**
   * Merging loses nothing: every raw segment's content occurs inside some merged segment's
   * content, and its topic is still a topic or occurs inside some merged content.
   */
  lemma {:induction false} MergeRetainsAll(raw: seq<Segment>, threshold: nat)
    requires |raw| >= 1
    ensures forall j :: 0 <= j < |raw| ==> Retained(raw[j], Merge(raw, threshold))
  {
    if |raw| == 1 {
      RetainedAsMember(raw, 0);
      assert Merge(raw, threshold) == raw;
    } else {
      var init := raw[..|raw| - 1];
      MergeRetainsAll(init, threshold);
      var st := MergeScan(init, threshold);
      MergeStepRetains(st, raw[|raw| - 1], threshold);
      forall j | 0 <= j < |raw| ensures Retained(raw[j], Merge(raw, threshold)) {
        if j < |raw| - 1 {
          assert raw[j] == init[j];
          RetainedCarries(raw[j], Held(st), Merge(raw, threshold));
        }
      }
    }
  }

  /** A segment list printed back as text: each topic line followed by its content. */
  function Render(segs: seq<Segment>): string {
    if segs == [] then []
    else if |segs| == 1 then segs[0].topic + "\n" + segs[0].content
    else Render(segs[..|segs| - 1]) + "\n" + segs[|segs| - 1].topic + "\n" + segs[|segs| - 1].content
  }

  lemma RenderSnoc(segs: seq<Segment>, s: Segment)
    requires segs != []
    ensures Render(segs + [s]) == Render(segs) + "\n" + s.topic + "\n" + s.content
  {
    assert (segs + [s])[..|segs|] == segs;
  }

  /** Folding a segment into the one before it renders exactly as the two did. */
  lemma RenderFoldInto(pre: seq<Segment>, last: Segment, cur: Segment)
    ensures Render(pre + [FoldInto(last, cur)]) == Render(pre + [last, cur])
  {
    var f := FoldInto(last, cur);
    var tail := "\n" + cur.topic + "\n" + cur.content;
    var two := pre + [last, cur];
    assert two[..|two| - 1] == pre + [last];
    assert Render(two) == Render(pre + [last]) + tail;
    RenderAppendedContent(pre, last, f, tail);
  }

  /** Rendering with the last content extended by `tail` renders `tail` after the rest. */
  lemma RenderAppendedContent(pre: seq<Segment>, last: Segment, f: Segment, tail: string)
    requires f.topic == last.topic && f.content == last.content + tail
    ensures Render(pre + [f]) == Render(pre + [last]) + tail
  {
    if pre == [] {
      assert [] + [f] == [f] && [] + [last] == [last];
    } else {
      RenderSnoc(pre, f);
      RenderSnoc(pre, last);
    }
  }

  /** Folding a leading segment forward moves the next topic line to the front. */
  lemma RenderFoldForward(cur: Segment, next: Segment)
    ensures multiset(Render([FoldForward(cur, next)])) == multiset(Render([cur, next]))
  {
    assert [cur, next][..1] == [cur];
    var a := cur.topic + "\n" + cur.content;
    var b := next.topic;
    var c := next.content;
    assert Render([cur, next]) == a + "\n" + b + "\n" + c;
    assert Render([FoldForward(cur, next)]) == b + "\n" + a + "\n" + c;
  }

  /** One merge step keeps the characters of what the loop holds plus the next segment. */
  lemma MergeStepKeepsCharacters(st: MergeState, next: Segment, threshold: nat)
    ensures multiset(Render(Held(MergeStep(st, next, threshold))))
            == multiset(Render(Held(st) + [next]))
  {
    var cur := st.current;
    if |cur.content| < threshold && st.merged != [] {
      var m := |st.merged|;
      var last := st.merged[m - 1];
      var pre := st.merged[..m - 1];
      assert Held(st) == pre + [last, cur];
      assert Held(MergeStep(st, next, threshold)) == (pre + [FoldInto(last, cur)]) + [next];
      assert Held(st) + [next] == (pre + [last, cur]) + [next];
      RenderFoldInto(pre, last, cur);
      RenderSnoc(pre + [FoldInto(last, cur)], next);
      RenderSnoc(pre + [last, cur], next);
    } else if |cur.content| < threshold {
      assert Held(st) + [next] == [cur, next];
      RenderFoldForward(cur, next);
    } else {
      assert Held(MergeStep(st, next, threshold)) == Held(st) + [next];
    }
  }

  /**
   * Merging neither adds nor drops a character of the rendered document: folding only moves
   * topic lines into contents.
   */
  lemma {:induction false} MergeKeepsCharacters(raw: seq<Segment>, threshold: nat)
    requires |raw| >= 1
    ensures multiset(Render(Merge(raw, threshold))) == multiset(Render(raw))
  {
    if |raw| > 1 {
      var init := raw[..|raw| - 1];
      var next := raw[|raw| - 1];
      MergeKeepsCharacters(init, threshold);
      assert raw == init + [next];
      var st := MergeScan(init, threshold);
      assert Merge(init, threshold) == Held(st);
      RenderSnoc(init, next);
      RenderSnoc(Held(st), next);
      MergeStepKeepsCharacters(st, next, threshold);
    }
  }

  /** The document of the source's own example, after splitting, merges into one segment. */
  lemma MergeCellsAndAtoms()
    ensures Merge([Segment("Chapter 1: Cells", "Cells are the basic unit."),
                   Segment("Chapter 2: Atoms", "Atoms make up matter.")], 300)
            == [Segment("Chapter 2: Atoms",
                        "Chapter 1: Cells" + "\n" + "Cells are the basic unit." + "\n" + "Atoms make up matter.")]
  {
    var raw := [Segment("Chapter 1: Cells", "Cells are the basic unit."),
                Segment("Chapter 2: Atoms", "Atoms make up matter.")];
    assert raw[..1] == [raw[0]];
    assert MergeScan(raw[..1], 300) == MergeState([], raw[0]);
    assert |raw[0].content| < 300;
  }

  // ---------------------------------------------------------------------------------------------
  // `extract_segments`
  // ---------------------------------------------------------------------------------------------

  function RuleFor(toc: seq<string>): HeaderRule {
    if toc != [] then Known(toc) else Generic
  }

  function Threshold(toc: seq<string>): nat {
    if toc != [] then 0 else 300
  }

  /**
   * The segments of a document. An unsplit document gives none; with TOC headers the raw
   * segments come back unchanged; otherwise there are between 1 and |raw| segments, all but the
   * last with content of at least 300 characters.
   */
  function Segments(text: string, entry: string -> Option<string>): (r: seq<Segment>)
    ensures var toc := TocHeaders(text, entry);
      var raw := RawSegments(text, RuleFor(toc));
      && (|raw| <= 1 ==> r == [])
      && (toc != [] ==> r == if |raw| <= 1 then [] else raw)
      && (|raw| > 1 ==> 1 <= |r| <= |raw|)
      && forall k :: 0 <= k < |r| - 1 ==> |r[k].content| >= Threshold(toc)
  {
    var toc := TocHeaders(text, entry);
    var raw := RawSegments(text, RuleFor(toc));
    if |raw| <= 1 then []
    else
      MergeShape(raw, Threshold(toc));
      if toc != [] then MergeWithoutThreshold(raw); Merge(raw, Threshold(toc))
      else Merge(raw, Threshold(toc))
  }

  /** The merge loop of `extract_segments`. */
  method MergeShortSegments(raw: seq<Segment>, threshold: nat) returns (segments: seq<Segment>)
    requires |raw| >= 1
    ensures segments == Merge(raw, threshold)
  {
    var merged: seq<Segment> := [];
    var current := raw[0];
    var i := 1;
    while i < |raw|
      invariant 1 <= i <= |raw|
      invariant MergeScan(raw[..i], threshold) == MergeState(merged, current)
    {
      assert raw[..i + 1][..i] == raw[..i];
      var next := raw[i];
      if |current.content| < threshold {
        if merged != [] {
          var last := merged[|merged| - 1];
          merged := merged[..|merged| - 1] + [last.(content := last.content + "\n" + current.topic + "\n" + current.content)];
          current := next;
        } else {
          current := next.(content := current.topic + "\n" + current.content + "\n" + next.content);
        }
      } else {
        merged := merged + [current];
        current := next;
      }
      i := i + 1;
    }
    assert raw[..i] == raw;
    segments := merged + [current];
  }

  /** `extract_segments`: TOC scan, split, and the merge loop. */
  method ExtractSegments(text: string, entry: string -> Option<string>) returns (segments: seq<Segment>)
    ensures segments == Segments(text, entry)
  {
    var toc := ExtractTocHeaders(text, entry);
    var raw := SplitIntoSegments(text, RuleFor(toc));
    if |raw| <= 1 {
      return [];
    }
    segments := MergeShortSegments(raw, Threshold(toc));
  }
}
