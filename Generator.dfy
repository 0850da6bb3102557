/**
 * The context assembly of `Generator.generate_answer` (src/rag/generator.py): the retrieved
 * chunks' texts joined into one context, the truncation applied before prompting a loaded model,
 * the prompt template, and the output when no model could be loaded.
 *
 * The model handle `self.pipe` is an argument `llm`: `None` when loading failed, otherwise the
 * blocking text-to-text call as a function from prompt to generated text.
 */
module Generator {
  import opened Wrappers
  import opened Text
  import Ingestor

  const Separator := "\n\n"
  const MaxContext := 1000
  const TruncationMarker := "...(truncated)"
  const PromptHead := "Answer the following question based on the context below:\n\nContext:\n"
  const PromptQuestion := "\n\nQuestion: "
  const PromptTail := "\n\nAnswer:"
  const NotLoaded := "**LLM not loaded.**\n\nContext:\n"

  function Texts(chunks: seq<Ingestor.Chunk>): (r: seq<string>)
    ensures |r| == |chunks| && forall i | 0 <= i < |chunks| :: r[i] == chunks[i].text
  {
    seq(|chunks|, i requires 0 <= i < |chunks| => chunks[i].text)
  }

  /** `"\n\n".join(c['text'] for c in context_chunks)`. */
  function Context(chunks: seq<Ingestor.Chunk>): (c: string)
    ensures forall i | 0 <= i < |chunks| :: Contains(c, chunks[i].text)
    ensures chunks == [] ==> c == []
    ensures |chunks| == 1 ==> c == chunks[0].text
  {
    var texts := Texts(chunks);
    forall i | 0 <= i < |chunks|
      ensures Contains(Join(texts, Separator), chunks[i].text)
    {
      JoinContainsParts(texts, Separator, i);
    }
    Join(texts, Separator)
  }

  /** A context over 1000 characters is cut to its first 1000 and marked; a shorter one is kept. */
  function Truncate(c: string): (r: string)
    ensures |c| <= MaxContext ==> r == c
    ensures |c| > MaxContext ==> |r| == MaxContext + |TruncationMarker|
    ensures |c| > MaxContext ==> r[..MaxContext] == c[..MaxContext] && r[MaxContext..] == TruncationMarker
    ensures |r| <= MaxContext + |TruncationMarker|
  {
    if |c| > MaxContext then c[..MaxContext] + TruncationMarker else c
  }

  /** Truncating twice is truncating once: a truncated context keeps its length of 1014. */
  lemma TruncateIdempotent(c: string)
    ensures Truncate(Truncate(c)) == Truncate(c)
  {
    var r := Truncate(c);
    if |c| > MaxContext {
      assert r[..MaxContext] + TruncationMarker == r;
    }
  }

  /** The prompt sent to a loaded model, with the context and the query at fixed positions. */
  function Prompt(context: string, query: string): (p: string)
    ensures |p| == |PromptHead| + |context| + |PromptQuestion| + |query| + |PromptTail|
    ensures p[..|PromptHead|] == PromptHead
    ensures p[|PromptHead|..|PromptHead| + |context|] == context
    ensures p[|PromptHead| + |context|..|PromptHead| + |context| + |PromptQuestion|] == PromptQuestion
    ensures p[|p| - |PromptTail| - |query|..|p| - |PromptTail|] == query
    ensures p[|p| - |PromptTail|..] == PromptTail
  {
    PromptHead + context + PromptQuestion + query + PromptTail
  }

  /** Two prompts with equally long contexts are equal only for the same context and query. */
  lemma PromptInjective(c1: string, q1: string, c2: string, q2: string)
    requires |c1| == |c2| && Prompt(c1, q1) == Prompt(c2, q2)
    ensures c1 == c2 && q1 == q2
  {
    var p := Prompt(c1, q1);
    assert c1 == p[|PromptHead|..|PromptHead| + |c1|] == c2;
    assert |q1| == |q2|;
    assert q1 == p[|p| - |PromptTail| - |q1|..|p| - |PromptTail|] == q2;
  }

  /** The non-streaming answer of `generate_answer`. */
  function GenerateAnswer(query: string, chunks: seq<Ingestor.Chunk>, llm: Option<string -> string>): string {
    var context := Context(chunks);
    if llm.Some? then llm.value(Prompt(Truncate(context), query))
    else NotLoaded + context
  }

  /** The streaming answer without a model: the two fragments the mock streamer yields. */
  function MockStream(chunks: seq<Ingestor.Chunk>): seq<string> {
    [NotLoaded, Context(chunks)]
  }

  /** With a model, the model sees a prompt holding the query and at most 1014 context characters. */
  lemma LoadedModelSeesBoundedPrompt(query: string, chunks: seq<Ingestor.Chunk>, llm: string -> string)
    ensures exists context | context == Truncate(Context(chunks)) ::
      && GenerateAnswer(query, chunks, Some(llm)) == llm(Prompt(context, query))
      && |context| <= MaxContext + |TruncationMarker|
      && (|Context(chunks)| <= MaxContext ==> context == Context(chunks))
  {
  }

  /** Without a model, the answer is the marker followed by the whole, untruncated context. */
  lemma NotLoadedShowsWholeContext(query: string, chunks: seq<Ingestor.Chunk>, i: nat)
    requires i < |chunks|
    ensures NotLoaded <= GenerateAnswer(query, chunks, None)
    ensures GenerateAnswer(query, chunks, None)[|NotLoaded|..] == Context(chunks)
    ensures Contains(GenerateAnswer(query, chunks, None), chunks[i].text)
  {
    var answer := GenerateAnswer(query, chunks, None);
    ContainsWithin(NotLoaded, Context(chunks), [], chunks[i].text);
    assert NotLoaded + Context(chunks) + [] == answer;
  }

  /** Streaming without a model yields exactly two fragments that spell the blocking answer. */
  lemma MockStreamMatchesBlocking(query: string, chunks: seq<Ingestor.Chunk>)
    ensures |MockStream(chunks)| == 2
    ensures MockStream(chunks)[0] + MockStream(chunks)[1] == GenerateAnswer(query, chunks, None)
  {
  }
}
