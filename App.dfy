/**
 * The session bookkeeping of the Streamlit application (app.py): the topic list offered for study
 * and quizzes, the chunks a topic selection covers, quiz submission, reset, the admin tab and the
 * certificate check.
 *
 * `st.session_state` is the class `Session`; the vector store is the list of its chunk records.
 * Rendering, widgets and reruns are not part of this model.
 */
module App {
  import opened Wrappers
  import opened Text
  import opened Seqs
  import Ingestor
  import Analytics
  import QuizGenerator

  const AllTopics := "All Topics"
  const DefaultTopic := "General"
  const PassMark: real := 70.0

  // ---------------------------------------------------------------------------------------------
  // Topic list and scope
  // ---------------------------------------------------------------------------------------------

  /** `m['metadata']['topic']` when the record has metadata with a topic. */
  function ChunkTopic(c: Ingestor.Chunk): Option<string> {
    if c.metadata.Some? && "topic" in c.metadata.value then Some(c.metadata.value["topic"]) else None
  }

  /** Some chunk carries topic `t`. */
  predicate HasTopic(chunks: seq<Ingestor.Chunk>, t: string) {
    exists i | 0 <= i < |chunks| :: ChunkTopic(chunks[i]) == Some(t)
  }

  /** Ascending in Python's string order, hence free of duplicates. */
  predicate StrictlySorted(xs: seq<string>) {
    forall i, j | 0 <= i < j < |xs| :: Less(xs[i], xs[j])
  }

  /** Adds `t` to a strictly sorted list unless it is already there. */
  function InsertTopic(t: string, xs: seq<string>): (r: seq<string>)
    requires StrictlySorted(xs)
    ensures StrictlySorted(r)
    ensures forall x :: x in r <==> x in xs || x == t
  {
    if xs == [] then [t]
    else if t == xs[0] then xs
    else if Less(t, xs[0]) then
      forall j | 0 <= j < |xs|
        ensures Less(t, xs[j])
      {
        if j > 0 {
          LessTransitive(t, xs[0], xs[j]);
        }
      }
      [t] + xs
    else
      LessTotal(t, xs[0]);
      var rest := InsertTopic(t, xs[1..]);
      forall j | 0 <= j < |rest|
        ensures Less(xs[0], rest[j])
      {
        if rest[j] != t {
          assert rest[j] in rest;
          var k :| 0 <= k < |xs[1..]| && xs[1..][k] == rest[j];
          assert xs[k + 1] == rest[j];
        }
      }
      [xs[0]] + rest
  }

  /** The distinct chunk topics, sorted: `sorted(set(...))` of the topics present. */
  function SortedTopics(chunks: seq<Ingestor.Chunk>): (r: seq<string>)
    ensures StrictlySorted(r)
    ensures forall t :: t in r <==> HasTopic(chunks, t)
  {
    if chunks == [] then []
    else
      var init := chunks[..|chunks| - 1];
      var last := chunks[|chunks| - 1];
      var prev := SortedTopics(init);
      var r := if ChunkTopic(last).Some? then InsertTopic(ChunkTopic(last).value, prev) else prev;
      forall t
        ensures t in r <==> HasTopic(chunks, t)
      {
        if HasTopic(init, t) {
          var i :| 0 <= i < |init| && ChunkTopic(init[i]) == Some(t);
          assert chunks[i] == init[i];
        }
        if HasTopic(chunks, t) {
          var i :| 0 <= i < |chunks| && ChunkTopic(chunks[i]) == Some(t);
          if i < |init| {
            assert init[i] == chunks[i];
          }
        }
      }
      r
  }

  /** The topics offered for study (app.py:251-253) and for quizzes (app.py:404-406). */
  function TopicList(chunks: seq<Ingestor.Chunk>): (r: seq<string>)
    ensures r != [] && StrictlySorted(r)
    ensures (exists t :: HasTopic(chunks, t)) ==> forall t :: t in r <==> HasTopic(chunks, t)
    ensures (forall t :: !HasTopic(chunks, t)) ==> r == [DefaultTopic]
  {
    var sorted := SortedTopics(chunks);
    if sorted == [] then [DefaultTopic]
    else
      assert HasTopic(chunks, sorted[0]);
      sorted
  }

  /** A strictly sorted list is determined by its elements: the topic list is `sorted(set(...))`. */
  lemma {:induction false} SortedListUnique(a: seq<string>, b: seq<string>)
    requires StrictlySorted(a) && StrictlySorted(b)
    requires forall x :: x in a <==> x in b
    ensures a == b
  {
    assert a != [] ==> a[0] in b;
    assert b != [] ==> b[0] in a;
    if a != [] && b != [] {
      var i :| 0 <= i < |a| && a[i] == b[0];
      var j :| 0 <= j < |b| && b[j] == a[0];
      if i != 0 {
        assert Less(a[0], a[i]);
        if j != 0 {
          assert Less(b[0], b[j]);
          LessTransitive(a[0], b[0], a[0]);
        } else {
          LessIrreflexive(a[0]);
        }
        LessIrreflexive(a[0]);
      }
      assert a[0] == b[0];
      forall x
        ensures x in a[1..] <==> x in b[1..]
      {
        if x in a[1..] {
          var k :| 1 <= k < |a| && a[k] == x;
          LessIrreflexive(a[0]);
        }
        if x in b[1..] {
          var k :| 1 <= k < |b| && b[k] == x;
          LessIrreflexive(b[0]);
        }
        assert x in a <==> x in b;
      }
      SortedListUnique(a[1..], b[1..]);
      assert a == [a[0]] + a[1..] && b == [b[0]] + b[1..];
    }
  }

  /** The chunks a selection covers: all of them for "All Topics", else those with that topic. */
  function Scope(chunks: seq<Ingestor.Chunk>, selected: string): (r: seq<Ingestor.Chunk>)
    ensures selected == AllTopics ==> r == chunks
    ensures selected != AllTopics ==> forall i | 0 <= i < |r| :: r[i] in chunks && ChunkTopic(r[i]) == Some(selected)
    ensures selected != AllTopics ==> forall i | 0 <= i < |chunks| && ChunkTopic(chunks[i]) == Some(selected) :: chunks[i] in r
    ensures multiset(r) <= multiset(chunks)
  {
    if selected == AllTopics then chunks
    else Filter(chunks, (c: Ingestor.Chunk) => ChunkTopic(c) == Some(selected))
  }

  // ---------------------------------------------------------------------------------------------
  // Quiz submission
  // ---------------------------------------------------------------------------------------------

  /** The chosen option of question `i` equals its answer (an unanswered question is wrong). */
  predicate Correct(quiz: seq<QuizGenerator.Question>, answers: map<nat, string>, i: nat)
    requires i < |quiz|
  {
    i in answers && answers[i] == quiz[i].answer
  }

  /** The number of correctly answered questions among the first `n`. */
  function ScoreUpTo(quiz: seq<QuizGenerator.Question>, answers: map<nat, string>, n: nat): (s: nat)
    requires n <= |quiz|
    ensures s <= n
  {
    if n == 0 then 0
    else ScoreUpTo(quiz, answers, n - 1) + if Correct(quiz, answers, n - 1) then 1 else 0
  }

  /** The detailed history record of each question, with the selected topic. */
  function Records(quiz: seq<QuizGenerator.Question>, answers: map<nat, string>, selected: string): (r: seq<Analytics.Attempt>)
    ensures |r| == |quiz|
    ensures forall i | 0 <= i < |quiz| ::
      r[i] == Analytics.Attempt(Some(quiz[i].source), Some(selected), Some(Correct(quiz, answers, i)))
  {
    seq(|quiz|, i requires 0 <= i < |quiz| =>
      Analytics.Attempt(Some(quiz[i].source), Some(selected), Some(Correct(quiz, answers, i))))
  }

  /**
   * The loop of the quiz form's submission (app.py:479-496): the score and the detailed record of
   * each question, appended in question order.
   */
  method Grade(quiz: seq<QuizGenerator.Question>, answers: map<nat, string>, selected: string)
    returns (score: nat, records: seq<Analytics.Attempt>)
    ensures score == ScoreUpTo(quiz, answers, |quiz|)
    ensures records == Records(quiz, answers, selected)
  {
    score := 0;
    records := [];
    var i := 0;
    while i < |quiz|
      invariant 0 <= i <= |quiz|
      invariant score == ScoreUpTo(quiz, answers, i)
      invariant records == Records(quiz, answers, selected)[..i]
    {
      var q := quiz[i];
      var choice := if i in answers then Some(answers[i]) else None;
      var isCorrect := false;
      if choice == Some(q.answer) {
        score := score + 1;
        isCorrect := true;
      }
      assert isCorrect == Correct(quiz, answers, i);
      RecordsSnoc(quiz, answers, selected, i);
      records := records + [Analytics.Attempt(Some(q.source), Some(selected), Some(isCorrect))];
      i := i + 1;
    }
    assert Records(quiz, answers, selected)[..|quiz|] == Records(quiz, answers, selected);
  }

  /** The records of the first `i + 1` questions: those of the first `i`, then question `i`'s. */
  lemma RecordsSnoc(quiz: seq<QuizGenerator.Question>, answers: map<nat, string>, selected: string, i: nat)
    requires i < |quiz|
    ensures Records(quiz, answers, selected)[..i + 1]
         == Records(quiz, answers, selected)[..i] + [Analytics.Attempt(Some(quiz[i].source), Some(selected), Some(Correct(quiz, answers, i)))]
  {
    var r := Records(quiz, answers, selected);
    assert r[..i + 1] == r[..i] + [r[i]];
  }

  /** `score / total * 100`. */
  function Percentage(score: nat, total: nat): (p: real)
    requires 0 < total && score <= total
    ensures 0.0 <= p <= 100.0
    ensures p == 100.0 <==> score == total
    ensures p == 0.0 <==> score == 0
  {
    Analytics.RatioBounds(score, total);
    BelowWhole(score, total);
    score as real / total as real * 100.0
  }

  lemma BelowWhole(score: nat, total: nat)
    requires 0 < total && score <= total
    ensures score < total ==> score as real / total as real < 1.0
  {
    if score < total {
      var q := score as real / total as real;
      assert q * total as real == score as real;
      if q >= 1.0 {
        Analytics.MulPositive(q - 1.0, total as real);
      }
    }
  }

  /** The number of right answers in a detailed history. */
  function RightCount(h: seq<Analytics.Attempt>): nat {
    if h == [] then 0
    else RightCount(h[..|h| - 1]) + if Analytics.IsRight(h[|h| - 1]) then 1 else 0
  }

  /** The score counts exactly the records marked correct. */
  lemma {:induction false} ScoreIsRightRecords(quiz: seq<QuizGenerator.Question>, answers: map<nat, string>, selected: string, n: nat)
    requires n <= |quiz|
    ensures ScoreUpTo(quiz, answers, n) == RightCount(Records(quiz, answers, selected)[..n])
  {
    if n > 0 {
      ScoreIsRightRecords(quiz, answers, selected, n - 1);
      assert Records(quiz, answers, selected)[..n][..n - 1] == Records(quiz, answers, selected)[..n - 1];
    }
  }

  datatype ChatMessage = ChatMessage(role: string, content: string)

  datatype QuizResults = QuizResults(score: nat, total: nat, percentage: real)

  /** The keys of `st.session_state` the modelled code reads and writes. */
  class Session {
    var authenticated: bool
    var user: Option<map<string, string>>
    var processedFiles: seq<string>
    var store: Option<seq<Ingestor.Chunk>>
    var quizHistory: seq<real>
    var quizHistoryDetailed: seq<Analytics.Attempt>
    var messages: seq<ChatMessage>
    var selectedTopic: string
    var lastResults: Option<QuizResults>
    var quizSubmitted: bool

    /** The data the reset button clears, in its cleared state. */
    predicate Cleared()
      reads this
    {
      && processedFiles == [] && store.None? && quizHistory == [] && quizHistoryDetailed == []
      && messages == [] && selectedTopic == AllTopics
    }

    /** All quiz history percentages lie in [0, 100]. */
    predicate Valid()
      reads this
    {
      forall i | 0 <= i < |quizHistory| :: 0.0 <= quizHistory[i] <= 100.0
    }

    /** The first run of the script: logged out, nothing uploaded, no quiz taken. */
    constructor ()
      ensures !authenticated && user.None? && Cleared() && Valid()
      ensures lastResults.None? && !quizSubmitted
    {
      authenticated := false;
      user := None;
      processedFiles := [];
      store := None;
      quizHistory := [];
      quizHistoryDetailed := [];
      messages := [];
      selectedTopic := AllTopics;
      lastResults := None;
      quizSubmitted := false;
    }

    /** The reset button: clears the uploaded data, the histories and the chat, keeps the login. */
    method Reset()
      modifies this
      ensures Cleared() && Valid()
      ensures authenticated == old(authenticated) && user == old(user)
      ensures lastResults == old(lastResults) && quizSubmitted == old(quizSubmitted)
    {
      processedFiles := [];
      store := None;
      quizHistory := [];
      quizHistoryDetailed := [];
      messages := [];
      selectedTopic := AllTopics;
    }

    /** The tab names: the admin tab only for the user named "admin". */
    function Tabs(): (tabs: seq<string>)
      reads this
      ensures 4 <= |tabs| <= 5 && tabs[..4] == ["Home", "Study", "Quiz", "Progress"]
      ensures "Admin" in tabs <==> user.Some? && "username" in user.value && user.value["username"] == "admin"
    {
      ["Home", "Study", "Quiz", "Progress"]
        + if user.Some? && "username" in user.value && user.value["username"] == "admin" then ["Admin"] else []
    }

    /**
     * Submitting the quiz form: one detailed record per question, one percentage in the quiz
     * history, and the results. The form exists only for a non-empty quiz.
     */
    method SubmitQuiz(quiz: seq<QuizGenerator.Question>, answers: map<nat, string>, selected: string)
      returns (score: nat)
      requires |quiz| > 0
      requires Valid()
      modifies this
      ensures score == ScoreUpTo(quiz, answers, |quiz|) && score <= |quiz|
      ensures quizHistoryDetailed == old(quizHistoryDetailed) + Records(quiz, answers, selected)
      ensures quizHistory == old(quizHistory) + [Percentage(score, |quiz|)]
      ensures lastResults == Some(QuizResults(score, |quiz|, Percentage(score, |quiz|))) && quizSubmitted
      ensures Valid()
      ensures authenticated == old(authenticated) && user == old(user) && processedFiles == old(processedFiles)
      ensures store == old(store) && messages == old(messages) && selectedTopic == old(selectedTopic)
    {
      var records;
      score, records := Grade(quiz, answers, selected);
      quizHistoryDetailed := quizHistoryDetailed + records;
      var percentage := Percentage(score, |quiz|);
      quizHistory := quizHistory + [percentage];
      lastResults := Some(QuizResults(score, |quiz|, percentage));
      quizSubmitted := true;
    }
  }

  // ---------------------------------------------------------------------------------------------
  // Certificate eligibility
  // ---------------------------------------------------------------------------------------------

  /** One entry of `failed_topics`. */
  datatype Shortfall =
    | NotAttempted(topic: string)
    | BelowPass(topic: string, percent: real)
    | NoDetailedData
    | NoQuizzes

  /** The records of topic `t` (pandas' `groupby('topic')` leaves out records without a topic). */
  function TopicAttempts(h: seq<Analytics.Attempt>, t: string): nat {
    if h == [] then 0
    else TopicAttempts(h[..|h| - 1], t) + if h[|h| - 1].topic == Some(t) then 1 else 0
  }

  /** The records of topic `t` marked correct. */
  function TopicRight(h: seq<Analytics.Attempt>, t: string): (n: nat)
    ensures n <= TopicAttempts(h, t)
  {
    if h == [] then 0
    else
      var last := h[|h| - 1];
      TopicRight(h[..|h| - 1], t) + if last.topic == Some(t) && Analytics.IsRight(last) then 1 else 0
  }

  /** `df.groupby('topic')['is_correct'].mean() * 100` for an attempted topic. */
  function TopicScore(h: seq<Analytics.Attempt>, t: string): real
    requires TopicAttempts(h, t) > 0
  {
    Percentage(TopicRight(h, t), TopicAttempts(h, t))
  }

  /** The data frame has a `topic` column. */
  predicate HasTopicColumn(h: seq<Analytics.Attempt>) {
    exists i | 0 <= i < |h| :: h[i].topic.Some?
  }

  /** The topic was attempted and scored at least 70%. */
  predicate Passes(h: seq<Analytics.Attempt>, t: string) {
    TopicAttempts(h, t) > 0 && TopicScore(h, t) >= PassMark
  }

  /** The entries the check adds for topic `t`: none when it passes. */
  function ShortfallOf(h: seq<Analytics.Attempt>, t: string): seq<Shortfall> {
    if TopicAttempts(h, t) == 0 then [NotAttempted(t)]
    else if TopicScore(h, t) < PassMark then [BelowPass(t, TopicScore(h, t))]
    else []
  }

  /** The entries for the topics, in order. */
  function Shortfalls(h: seq<Analytics.Attempt>, topics: seq<string>): seq<Shortfall> {
    if topics == [] then []
    else Shortfalls(h, topics[..|topics| - 1]) + ShortfallOf(h, topics[|topics| - 1])
  }

  /**
   * `all_passed` and `failed_topics` of the certificate panel. The available topics are the
   * chunk topics or `{"General"}`, visited in sorted order.
   */
  function Eligibility(h: seq<Analytics.Attempt>, chunks: seq<Ingestor.Chunk>): (r: (bool, seq<Shortfall>))
    ensures r.0 <==> r.1 == []
  {
    if h == [] then (false, [NoQuizzes])
    else if !HasTopicColumn(h) then (false, [NoDetailedData])
    else
      var failed := Shortfalls(h, TopicList(chunks));
      (failed == [], failed)
  }

  /** The certificate check loop over the available topics. */
  method CheckCertificate(h: seq<Analytics.Attempt>, chunks: seq<Ingestor.Chunk>)
    returns (allPassed: bool, failed: seq<Shortfall>)
    ensures (allPassed, failed) == Eligibility(h, chunks)
  {
    allPassed := false;
    failed := [];
    if h != [] {
      if HasTopicColumn(h) {
        var topics := TopicList(chunks);
        var i := 0;
        while i < |topics|
          invariant 0 <= i <= |topics|
          invariant failed == Shortfalls(h, topics[..i])
        {
          var t := topics[i];
          assert topics[..i + 1][..i] == topics[..i];
          assert Shortfalls(h, topics[..i + 1]) == Shortfalls(h, topics[..i]) + ShortfallOf(h, t);
          if TopicAttempts(h, t) == 0 {
            failed := failed + [NotAttempted(t)];
          } else if TopicScore(h, t) < PassMark {
            failed := failed + [BelowPass(t, TopicScore(h, t))];
          }
          i := i + 1;
        }
        assert topics[..|topics|] == topics;
        if failed == [] {
          allPassed := true;
        }
      } else {
        failed := failed + [NoDetailedData];
        assert failed == [NoDetailedData];
      }
    } else {
      failed := failed + [NoQuizzes];
      assert failed == [NoQuizzes];
    }
  }

  /** No entry is added exactly when every topic passes. */
  lemma {:induction false} ShortfallsEmptyIff(h: seq<Analytics.Attempt>, topics: seq<string>)
    ensures Shortfalls(h, topics) == [] <==> forall i | 0 <= i < |topics| :: Passes(h, topics[i])
  {
    if topics != [] {
      var init := topics[..|topics| - 1];
      ShortfallsEmptyIff(h, init);
      forall i | 0 <= i < |init|
        ensures init[i] == topics[i]
      {
      }
    }
  }

  /** Every entry names a topic of the list that fails the pass rule. */
  lemma {:induction false} ShortfallsNameFailures(h: seq<Analytics.Attempt>, topics: seq<string>, i: nat)
    requires i < |Shortfalls(h, topics)|
    ensures var s := Shortfalls(h, topics)[i];
      (s.NotAttempted? || s.BelowPass?) && s.topic in topics && !Passes(h, s.topic)
  {
    var init := topics[..|topics| - 1];
    var first := Shortfalls(h, init);
    if i < |first| {
      ShortfallsNameFailures(h, init, i);
      assert Shortfalls(h, topics)[i] == first[i];
      assert first[i].topic in init;
    }
  }

  /**
   * The certificate is granted iff there is a detailed history with topics and every available
   * topic was attempted with at least 70% (exactly 70% passes).
   */
  lemma CertificateIff(h: seq<Analytics.Attempt>, chunks: seq<Ingestor.Chunk>)
    ensures Eligibility(h, chunks).0 <==>
      h != [] && HasTopicColumn(h) && forall t | t in TopicList(chunks) :: Passes(h, t)
    ensures h == [] ==> Eligibility(h, chunks).1 == [NoQuizzes]
  {
    var topics := TopicList(chunks);
    ShortfallsEmptyIff(h, topics);
    assert (forall i | 0 <= i < |topics| :: Passes(h, topics[i])) <==> forall t | t in topics :: Passes(h, t);
  }

  // ---------------------------------------------------------------------------------------------
  // Learning metrics of the progress page
  // ---------------------------------------------------------------------------------------------

  function Sum(xs: seq<real>): real {
    if xs == [] then 0.0 else Sum(xs[..|xs| - 1]) + xs[|xs| - 1]
  }

  /** `np.mean`. */
  function Mean(xs: seq<real>): real
    requires xs != []
  {
    Sum(xs) / |xs| as real
  }

  /**
   * app.py:547 as written: the slope of the percentage history and its mean are passed to
   * `calculate_learning_metrics` with its default maximum score of 5.
   */
  function ProgressMetricsAsWritten(history: seq<real>, fitted: real): (Analytics.Speed, Analytics.Mastery)
    requires history != []
  {
    Analytics.LearningMetrics(Analytics.Forecast(history, fitted).1, Mean(history), Analytics.DefaultMaxScore)
  }

  /** Two quizzes at 10% and 20%, improving by 10 points: reported as mastered at a 15% average. */
  lemma MasteredAtFifteenPercent()
    ensures Mean([10.0, 20.0]) == 15.0
    ensures ProgressMetricsAsWritten([10.0, 20.0], 10.0).1 == Analytics.Mastered
  {
    assert [10.0, 20.0][..1] == [10.0];
    assert [10.0][..0] == [];
    assert Sum([10.0, 20.0]) == 30.0;
  }

  /** The scale of the quiz history: percentages. */
  const MaxPercentage := 100

  /** The learning metrics with mastery measured on the percentage scale of the history. */
  function ProgressMetrics(history: seq<real>, fitted: real): (Analytics.Speed, Analytics.Mastery)
    requires history != []
  {
    Analytics.LearningMetrics(Analytics.Forecast(history, fitted).1, Mean(history), MaxPercentage)
  }

  /** On the percentage scale, "Mastered" is reported only when every quiz scored 100%. */
  lemma MasteredOnlyAtFullMarks(history: seq<real>, fitted: real)
    requires history != []
    requires forall i | 0 <= i < |history| :: 0.0 <= history[i] <= 100.0
    requires ProgressMetrics(history, fitted).1 == Analytics.Mastered
    ensures forall i | 0 <= i < |history| :: history[i] == 100.0
  {
    var n := |history| as real;
    var m := Mean(history);
    assert m >= 100.0;
    assert m * n == Sum(history);
    Analytics.MulPositive(m - 100.0, n);
    assert Sum(history) >= 100.0 * n;
    forall i | 0 <= i < |history|
      ensures history[i] == 100.0
    {
      SumBelowFull(history, i);
    }
  }

  /** Scores of at most 100 sum to at most 100 each, and to less if one is below 100. */
  lemma {:induction false} SumBelowFull(xs: seq<real>, k: nat)
    requires forall i | 0 <= i < |xs| :: xs[i] <= 100.0
    requires k < |xs|
    ensures Sum(xs) <= 100.0 * |xs| as real
    ensures xs[k] < 100.0 ==> Sum(xs) < 100.0 * |xs| as real
  {
    var init := xs[..|xs| - 1];
    if |xs| == 1 {
      assert init == [];
    } else if k < |init| {
      SumBelowFull(init, k);
    } else {
      SumBelowFull(init, 0);
    }
  }
}
