/**
 * `Summarizer.summarize` (src/utils/summarizer.py): the text is cut into consecutive slices of
 * 1024 characters, each slice is summarised by the model, a slice whose call fails is skipped,
 * and the summaries are joined with single spaces.
 *
 * The model handle `self.pipe` is an argument: `None` when loading failed, otherwise a fallible
 * call from a slice to its summary (`None` for a call that raised).
 */
module Summarizer {
  import opened Wrappers
  import opened Text
  import opened Seqs

  const MaxChunkSize := 1024
  const NotLoaded := "Summarization model not loaded."

  /** `[text[i:i+1024] for i in range(0, len(text), 1024)]`. */
  function Chunks(text: string): (cs: seq<string>)
    ensures Join(cs, []) == text
    ensures text == [] <==> cs == []
    ensures forall k | 0 <= k < |cs| :: 0 < |cs[k]| <= MaxChunkSize
    ensures forall k | 0 <= k < |cs| - 1 :: |cs[k]| == MaxChunkSize
    decreases |text|
  {
    if text == [] then []
    else if |text| <= MaxChunkSize then [text]
    else
      var rest := Chunks(text[MaxChunkSize..]);
      assert ([text[..MaxChunkSize]] + rest)[1..] == rest;
      assert text[..MaxChunkSize] + [] + Join(rest, []) == text;
      [text[..MaxChunkSize]] + rest
  }

  /** The slices are the ones Python's comprehension makes: the k-th starts at 1024 k. */
  lemma {:induction false} ChunkAt(text: string, k: nat)
    requires k < |Chunks(text)|
    ensures k * MaxChunkSize < |text|
    ensures Chunks(text)[k] == text[k * MaxChunkSize..Min(k * MaxChunkSize + MaxChunkSize, |text|)]
    decreases |text|
  {
    if k > 0 {
      var tail := text[MaxChunkSize..];
      ChunksCons(text);
      ChunkAt(tail, k - 1);
      var o := (k - 1) * MaxChunkSize;
      var e := Min(o + MaxChunkSize, |tail|);
      assert o + MaxChunkSize == k * MaxChunkSize;
      SliceOfSuffix(text, MaxChunkSize, o, e);
    }
  }

  /** More than one slice: the first 1024 characters, then the slices of the rest. */
  lemma ChunksCons(text: string)
    requires |Chunks(text)| > 1
    ensures |text| > MaxChunkSize
    ensures Chunks(text) == [text[..MaxChunkSize]] + Chunks(text[MaxChunkSize..])
  {
  }

  lemma SliceOfSuffix(s: string, m: nat, a: nat, b: nat)
    requires m <= |s| && a <= b <= |s| - m
    ensures s[m..][a..b] == s[m + a..m + b]
  {
  }

  /** There are `ceil(|text| / 1024)` slices, as many as `range(0, len(text), 1024)` has values. */
  lemma {:induction false} ChunkCount(text: string)
    ensures |Chunks(text)| == (|text| + MaxChunkSize - 1) / MaxChunkSize
    decreases |text|
  {
    if |text| > MaxChunkSize {
      ChunkCount(text[MaxChunkSize..]);
    }
  }

  /** The summaries of the slices whose call succeeded, in slice order. */
  function Summaries(chunks: seq<string>, summarize: string -> Option<string>): seq<string> {
    if chunks == [] then []
    else
      var last := chunks[|chunks| - 1];
      Summaries(chunks[..|chunks| - 1], summarize)
        + if summarize(last).Some? then [summarize(last).value] else []
  }

  function Values(xs: seq<string>, summarize: string -> Option<string>): (r: seq<string>)
    requires forall i | 0 <= i < |xs| :: summarize(xs[i]).Some?
    ensures |r| == |xs| && forall i | 0 <= i < |xs| :: r[i] == summarize(xs[i]).value
  {
    seq(|xs|, i requires 0 <= i < |xs| => summarize(xs[i]).value)
  }

  /** Skipping failures is filtering: the summaries are those of the slices that succeeded. */
  lemma {:induction false} SummariesSkipFailures(chunks: seq<string>, summarize: string -> Option<string>)
    ensures var ok := Filter(chunks, (c: string) => summarize(c).Some?);
      Summaries(chunks, summarize) == Values(ok, summarize)
  {
    if chunks != [] {
      var init := chunks[..|chunks| - 1];
      SummariesSkipFailures(init, summarize);
    }
  }

  /** A model that never fails gives one summary per slice. */
  lemma {:induction false} SummariesOfReliableModel(chunks: seq<string>, summarize: string -> Option<string>)
    requires forall c | c in chunks :: summarize(c).Some?
    ensures |Summaries(chunks, summarize)| == |chunks|
  {
    if chunks != [] {
      SummariesOfReliableModel(chunks[..|chunks| - 1], summarize);
    }
  }

  /** The summary of `summarize(text)`. */
  function Summary(text: string, pipe: Option<string -> Option<string>>): string {
    if pipe.Some? then Join(Summaries(Chunks(text), pipe.value), " ") else NotLoaded
  }

  /** `summarize`: append the summary of each slice that succeeds, then join them with spaces. */
  method Summarize(text: string, pipe: Option<string -> Option<string>>) returns (summary: string)
    ensures summary == Summary(text, pipe)
    ensures pipe.None? ==> summary == NotLoaded
    ensures pipe.Some? && text == [] ==> summary == []
  {
    if pipe.None? {
      return NotLoaded;
    }
    var chunks := Chunks(text);
    var summaries: seq<string> := [];
    var i := 0;
    while i < |chunks|
      invariant 0 <= i <= |chunks|
      invariant summaries == Summaries(chunks[..i], pipe.value)
    {
      var output := pipe.value(chunks[i]);
      assert chunks[..i + 1][..i] == chunks[..i];
      if output.Some? {
        summaries := summaries + [output.value];
      }
      i := i + 1;
    }
    assert chunks[..|chunks|] == chunks;
    summary := Join(summaries, " ");
  }
}
