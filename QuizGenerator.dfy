/**
 * `QuizGenerator` (src/utils/quiz_generator.py): cloze multiple-choice questions cut from
 * document chunks, and "explain this" short-answer prompts.
 *
 * The sentence splitter (a look-behind regular expression) is the parameter `sentences`. Every
 * `random.sample`, `random.choice` and `random.shuffle` is a nondeterministic choice: a sample of
 * `k` is any sequence of `k` elements drawn from distinct positions (a sub-multiset), a choice is
 * any element, a shuffle is any permutation.
 */
module QuizGenerator {
  import opened Wrappers
  import opened Text
  import opened Seqs

  /** A document chunk: its text and, maybe, its source name. */
  datatype Doc = Doc(text: string, source: Option<string>)

  datatype Question = Question(question: string, options: seq<string>, answer: string, source: string)

  datatype ShortAnswer = ShortAnswer(question: string, answer: string)

  const Blank: string := "______"

  /** The distractors used when the documents hold fewer than three usable words. */
  const Placeholders: seq<string> := ["Option A", "Option B", "Option C"]

  // ---------------------------------------------------------------------------------------------
  // The filters of `generate_mcq`
  // ---------------------------------------------------------------------------------------------

  predicate IsLong(d: Doc) { |d.text| > 50 }

  /** A sentence a question may be cut from. */
  predicate IsSuitable(s: string) { 30 < |s| < 300 }

  /** A word that may become the answer or a distractor. */
  predicate IsCandidate(w: string) { |w| > 5 && IsAlpha(w) }

  /** The documents questions are drawn from: the long ones, or all of them when none is long. */
  function Eligible(docs: seq<Doc>): (r: seq<Doc>)
    ensures (exists i | 0 <= i < |docs| :: IsLong(docs[i])) ==>
              (forall i | 0 <= i < |r| :: IsLong(r[i])) && (forall i | 0 <= i < |docs| && IsLong(docs[i]) :: docs[i] in r)
    ensures (forall i | 0 <= i < |docs| :: !IsLong(docs[i])) ==> r == docs
    ensures multiset(r) <= multiset(docs)
  {
    var long := Filter(docs, IsLong);
    if long == [] then docs else long
  }

  function Texts(docs: seq<Doc>): (r: seq<string>)
    ensures |r| == |docs| && forall i | 0 <= i < |docs| :: r[i] == docs[i].text
  {
    seq(|docs|, i requires 0 <= i < |docs| => docs[i].text)
  }

  /** The words distractors are sampled from: every candidate word of all texts but the answer. */
  function Pool(docs: seq<Doc>, answer: string): (r: seq<string>)
    ensures forall i | 0 <= i < |r| :: IsCandidate(r[i]) && r[i] != answer
  {
    Filter(Words(Join(Texts(docs), " ")), w => IsCandidate(w) && w != answer)
  }

  /** The pool holds every candidate word of the texts other than the answer. */
  lemma PoolIsComplete(docs: seq<Doc>, answer: string, w: string)
    requires w in Words(Join(Texts(docs), " ")) && IsCandidate(w) && w != answer
    ensures w in Pool(docs, answer)
  {
    var words := Words(Join(Texts(docs), " "));
    var i :| 0 <= i < |words| && words[i] == w;
    var keep := (x: string) => IsCandidate(x) && x != answer;
    assert keep(words[i]);
  }

  // ---------------------------------------------------------------------------------------------
  // What a question promises
  // ---------------------------------------------------------------------------------------------

  /**
   * Four options holding the answer exactly once; the answer an alphabetic word of more than five
   * letters that no longer occurs in the question.
   */
  predicate WellFormed(q: Question) {
    && |q.options| == 4
    && q.answer in q.options
    && multiset(q.options)[q.answer] == 1
    && IsCandidate(q.answer)
    && !Contains(q.question, q.answer)
  }

  /** The three options besides the answer: a sample of the pool, or the placeholders. */
  predicate DistractorsFrom(q: Question, docs: seq<Doc>) {
    var pool := Pool(docs, q.answer);
    if |pool| >= 3 then multiset(q.options) - multiset{q.answer} <= multiset(pool)
    else multiset(q.options) == multiset(Placeholders + [q.answer])
  }

  /**
   * `q` was cut from a suitable sentence `s` of document `d`: the answer is a word of `s`, the
   * question is `s` with the answer blanked out, and the source is `d`'s ("Unknown" if none).
   */
  predicate CutFrom(q: Question, d: Doc, s: string, docs: seq<Doc>) {
    && q.source == d.source.GetOr("Unknown")
    && IsSuitable(s)
    && q.answer in Words(s)
    && q.question == Replace(s, q.answer, Blank)
    && DistractorsFrom(q, docs)
  }

  ghost predicate Drawn(q: Question, docs: seq<Doc>, sentences: string -> seq<string>) {
    exists d, s :: d in Eligible(docs) && s in sentences(d.text) && CutFrom(q, d, s, docs)
  }

  /** A well-formed question drawn from the eligible documents. */
  ghost predicate Sound(q: Question, docs: seq<Doc>, sentences: string -> seq<string>) {
    WellFormed(q) && Drawn(q, docs, sentences)
  }

  /** Every suitable sentence of `d` has a candidate word, and there is such a sentence. */
  ghost predicate Usable(d: Doc, sentences: string -> seq<string>) {
    && (exists s :: s in sentences(d.text) && IsSuitable(s))
    && forall s :: s in sentences(d.text) && IsSuitable(s) ==> exists w :: w in Words(s) && IsCandidate(w)
  }

  // ---------------------------------------------------------------------------------------------
  // generate_mcq
  // ---------------------------------------------------------------------------------------------

  /** The placeholders are not alphabetic, so none of them is ever an answer. */
  lemma PlaceholdersAreNoCandidates(answer: string)
    requires IsCandidate(answer)
    ensures answer !in Placeholders
    ensures multiset(Placeholders)[answer] == 0
  {
    assert !IsLetter(Placeholders[0][6]) && !IsLetter(Placeholders[1][6]) && !IsLetter(Placeholders[2][6]);
  }

  /** The blank shares no character with an alphabetic answer, so blanking removes every occurrence. */
  lemma BlankedAnswerIsGone(s: string, answer: string)
    requires IsCandidate(answer)
    ensures !Contains(Replace(s, answer, Blank), answer)
  {
    assert Disjoint(answer, Blank);
    ReplaceRemovesAll(s, answer, Blank);
  }

  /** src/utils/quiz_generator.py:47-49: three distractors, none of them the answer. */
  method ChooseDistractors(docs: seq<Doc>, answer: string) returns (distractors: seq<string>)
    requires IsCandidate(answer)
    ensures |distractors| == 3 && multiset(distractors)[answer] == 0
    ensures var pool := Pool(docs, answer);
            if |pool| >= 3 then multiset(distractors) <= multiset(pool) else distractors == Placeholders
  {
    var allWords := Pool(docs, answer);
    if |allWords| >= 3 {
      PrefixIsSample(allWords, 3);
      distractors :| |distractors| == 3 && multiset(distractors) <= multiset(allWords);
      assert answer !in allWords;
    } else {
      distractors := Placeholders;
      PlaceholdersAreNoCandidates(answer);
    }
  }

  /**
   * src/utils/quiz_generator.py:51-52: the distractors and the answer in any order (`random.shuffle`
   * reorders the list in place).
   */
  method ArrangeOptions(distractors: seq<string>, answer: string) returns (options: seq<string>)
    requires |distractors| == 3 && multiset(distractors)[answer] == 0
    ensures multiset(options) == multiset(distractors) + multiset{answer}
    ensures |options| == 4 && answer in options && multiset(options)[answer] == 1
  {
    assert multiset(distractors + [answer]) == multiset(distractors) + multiset{answer};
    options :| multiset(options) == multiset(distractors + [answer]);
    assert |options| == |multiset(options)| == 4;
    assert answer in multiset(options);
  }

  /** src/utils/quiz_generator.py:44-59: one question from a chosen sentence and answer. */
  method MakeQuestion(docs: seq<Doc>, doc: Doc, sentence: string, answer: string) returns (q: Question)
    requires IsSuitable(sentence) && answer in Words(sentence) && IsCandidate(answer)
    ensures WellFormed(q) && CutFrom(q, doc, sentence, docs)
  {
    var question := Replace(sentence, answer, Blank);
    BlankedAnswerIsGone(sentence, answer);
    var distractors := ChooseDistractors(docs, answer);
    var options := ArrangeOptions(distractors, answer);
    q := Question(question, options, answer, doc.source.GetOr("Unknown"));
  }

  /** src/utils/quiz_generator.py:29-35: a random suitable sentence of the text, if there is one. */
  method ChooseSentence(d: Doc, sentences: string -> seq<string>) returns (s: Option<string>)
    ensures s.Some? ==> s.value in sentences(d.text) && IsSuitable(s.value)
    ensures s.None? ==> forall x | x in sentences(d.text) :: !IsSuitable(x)
  {
    var all := sentences(d.text);
    var suitable := Filter(all, IsSuitable);
    if suitable == [] {
      forall x | x in all
        ensures !IsSuitable(x)
      {
        var i :| 0 <= i < |all| && all[i] == x;
      }
      return None;
    }
    var n :| 0 <= n < |suitable|;
    s := Some(suitable[n]);
  }

  /** src/utils/quiz_generator.py:36-43: a random candidate word of the sentence, if there is one. */
  method ChooseAnswer(sentence: string) returns (a: Option<string>)
    ensures a.Some? ==> a.value in Words(sentence) && IsCandidate(a.value)
    ensures a.None? ==> forall w | w in Words(sentence) :: !IsCandidate(w)
  {
    var words := Words(sentence);
    var candidates := Filter(words, IsCandidate);
    if candidates == [] {
      forall w | w in words
        ensures !IsCandidate(w)
      {
        var i :| 0 <= i < |words| && words[i] == w;
      }
      return None;
    }
    var m :| 0 <= m < |candidates|;
    a := Some(candidates[m]);
  }

  /** A question cut from a sentence of an eligible document is drawn from the documents. */
  lemma CutIsDrawn(q: Question, docs: seq<Doc>, d: Doc, s: string, sentences: string -> seq<string>)
    requires d in Eligible(docs) && s in sentences(d.text) && CutFrom(q, d, s, docs)
    ensures Drawn(q, docs, sentences)
  {
  }

  /**
   * src/utils/quiz_generator.py:26-59: the question cut from one sampled document, if its chosen
   * sentence has a candidate word.
   */
  method QuestionFromDoc(docs: seq<Doc>, doc: Doc, sentences: string -> seq<string>) returns (q: Option<Question>)
    requires doc in Eligible(docs)
    ensures q.Some? ==> Sound(q.value, docs, sentences)
    ensures Usable(doc, sentences) ==> q.Some?
  {
    var sentence := ChooseSentence(doc, sentences);
    if sentence.None? {
      return None;
    }
    var answer := ChooseAnswer(sentence.value);
    if answer.None? {
      return None;
    }
    var question := MakeQuestion(docs, doc, sentence.value, answer.value);
    CutIsDrawn(question, docs, doc, sentence.value, sentences);
    q := Some(question);
  }

  /** src/utils/quiz_generator.py:22: `random.sample(valid_docs, min(num_questions, len(valid_docs)))`. */
  method SampleDocs(valid: seq<Doc>, num: nat) returns (selected: seq<Doc>)
    ensures |selected| == Min(num, |valid|)
    ensures multiset(selected) <= multiset(valid)
    ensures forall i | 0 <= i < |selected| :: selected[i] in valid
  {
    var k := Min(num, |valid|);
    PrefixIsSample(valid, k);
    selected :| |selected| == k && multiset(selected) <= multiset(valid);
    forall i | 0 <= i < |selected| ensures selected[i] in valid {
      assert selected[i] in multiset(valid);
    }
  }

  /**
   * `QuizGenerator.generate_mcq`: at most one question per sampled eligible document, exactly one
   * when every eligible document is usable whatever sentence is chosen.
   */
  method GenerateMcq(docs: seq<Doc>, num: nat, sentences: string -> seq<string>) returns (quiz: seq<Question>)
    ensures docs == [] ==> quiz == []
    ensures |quiz| <= Min(num, |Eligible(docs)|)
    ensures (forall d :: d in Eligible(docs) ==> Usable(d, sentences)) ==> |quiz| == Min(num, |Eligible(docs)|)
    ensures forall i | 0 <= i < |quiz| :: Sound(quiz[i], docs, sentences)
  {
    if docs == [] {
      return [];
    }
    var valid := Eligible(docs);
    var selected := SampleDocs(valid, num);
    ghost var allUsable := forall d :: d in valid ==> Usable(d, sentences);
    quiz := [];
    for i := 0 to |selected|
      invariant |quiz| <= i
      invariant allUsable ==> |quiz| == i
      invariant AllSound(quiz, docs, sentences)
    {
      var doc := selected[i];
      assert allUsable ==> Usable(doc, sentences);
      var q := QuestionFromDoc(docs, doc, sentences);
      if q.Some? {
        AllSoundSnoc(quiz, q.value, docs, sentences);
        quiz := quiz + [q.value];
      }
    }
  }

  /** Every question of `quiz` is sound. */
  ghost predicate AllSound(quiz: seq<Question>, docs: seq<Doc>, sentences: string -> seq<string>) {
    forall j | 0 <= j < |quiz| :: Sound(quiz[j], docs, sentences)
  }

  lemma AllSoundSnoc(quiz: seq<Question>, q: Question, docs: seq<Doc>, sentences: string -> seq<string>)
    requires AllSound(quiz, docs, sentences) && Sound(q, docs, sentences)
    ensures AllSound(quiz + [q], docs, sentences)
  {
    AllSnoc(quiz, q, (x: Question) => Sound(x, docs, sentences));
  }

  // ---------------------------------------------------------------------------------------------
  // generate_short_answer
  // ---------------------------------------------------------------------------------------------

  predicate IsLongSentence(s: string) { |s| > 60 }

  /** The question shown for a sentence: its first 30 characters in a fixed frame. */
  function ExplainPrompt(s: string): (r: string)
    requires |s| >= 30
    ensures |r| == 59
    ensures r[..24] == "Explain the context of: " && r[24..] == "'" + s[..30] + "...'"
  {
    "Explain the context of: '" + s[..30] + "...'"
  }

  function Ask(s: string): (r: ShortAnswer)
    requires IsLongSentence(s)
    ensures r.answer == s && r.question == ExplainPrompt(s)
  {
    ShortAnswer(ExplainPrompt(s), s)
  }

  /** The sentences the short-answer questions are about: every long one, or a sample of `num`. */
  method SelectLong(long: seq<string>, num: nat) returns (selected: seq<string>)
    requires forall i | 0 <= i < |long| :: IsLongSentence(long[i])
    ensures |long| < num ==> selected == long
    ensures |long| >= num ==> |selected| == num
    ensures multiset(selected) <= multiset(long)
    ensures forall i | 0 <= i < |selected| :: IsLongSentence(selected[i])
  {
    if |long| < num {
      selected := long;
    } else {
      PrefixIsSample(long, num);
      selected :| |selected| == num && multiset(selected) <= multiset(long);
      forall j | 0 <= j < |selected| ensures IsLongSentence(selected[j]) {
        assert selected[j] in multiset(long);
        var n :| 0 <= n < |long| && long[n] == selected[j];
      }
    }
  }

  function Answers(quiz: seq<ShortAnswer>): (r: seq<string>)
    ensures |r| == |quiz| && forall i | 0 <= i < |quiz| :: r[i] == quiz[i].answer
  {
    seq(|quiz|, i requires 0 <= i < |quiz| => quiz[i].answer)
  }

  /**
   * `QuizGenerator.generate_short_answer`: one question per selected sentence longer than 60
   * characters, its answer the whole sentence.
   */
  method GenerateShortAnswer(text: string, num: nat, sentences: string -> seq<string>)
    returns (quiz: seq<ShortAnswer>)
    ensures var long := Filter(sentences(text), IsLongSentence);
            && (|long| < num ==> Answers(quiz) == long)
            && (|long| >= num ==> |quiz| == num)
            && multiset(Answers(quiz)) <= multiset(long)
    ensures forall i | 0 <= i < |quiz| :: IsLongSentence(quiz[i].answer) && quiz[i] == Ask(quiz[i].answer)
  {
    var long := Filter(sentences(text), IsLongSentence);
    var selected := SelectLong(long, num);
    quiz := AskAll(selected);
  }

  /** src/utils/quiz_generator.py:76-82: one question per selected sentence, in order. */
  method AskAll(selected: seq<string>) returns (quiz: seq<ShortAnswer>)
    requires forall i | 0 <= i < |selected| :: IsLongSentence(selected[i])
    ensures Answers(quiz) == selected
    ensures forall i | 0 <= i < |quiz| :: IsLongSentence(quiz[i].answer) && quiz[i] == Ask(quiz[i].answer)
  {
    quiz := [];
    for i := 0 to |selected|
      invariant |quiz| == i
      invariant forall j | 0 <= j < i :: quiz[j] == Ask(selected[j])
    {
      quiz := quiz + [Ask(selected[i])];
    }
    assert Answers(quiz) == selected;
  }
}
