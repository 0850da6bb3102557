/**
 * `StudyPathAgent.recommend_next_topic` (src/utils/rl_agent.py): a priority-ordered rule that
 * picks the next topic from the per-topic scores.
 *
 * The score dictionary is the sequence of its items in iteration order. `random.choice` is an
 * oracle argument `pick`: the choice from a list `xs` is `xs[pick % |xs|]`, so every element of
 * the list is a possible answer and no probability is modelled.
 */
module StudyPath {
  import opened Seqs
  import Analytics

  /** A topic and its score, as one item of `topic_performance`. */
  type Score = (string, real)

  const MasteryThreshold: real := 0.8
  const ReviewThreshold: real := 0.6

  /** Which of the fixed reason messages accompanies the topic. */
  datatype Reason =
    | StartHere                  // cold start with a known topic
    | UploadDocuments            // cold start without topics
    | Review(percent: int)       // a weak topic, with its truncated percentage
    | Explore                    // a topic not tested yet
    | KeepItUp                   // a mastered topic
    | KeepPracticing             // a topic between the thresholds
    | ContinueStudying           // the final fallback

  datatype Recommendation = Recommendation(topic: string, reason: Reason)

  /** `t in topic_performance`. */
  predicate Tested(perf: seq<Score>, t: string) {
    t in Analytics.Keys(perf)
  }

  /** The items scoring below the review threshold, in dictionary order. */
  function Weak(perf: seq<Score>): seq<Score> {
    Filter(perf, (p: Score) => p.1 < ReviewThreshold)
  }

  /** The topics scoring at least the mastery threshold, in dictionary order. */
  function Mastered(perf: seq<Score>): seq<string> {
    Analytics.Keys(Filter(perf, (p: Score) => p.1 >= MasteryThreshold))
  }

  /** The topics of `all` without a score, in the order of `all`. */
  function Untested(perf: seq<Score>, all: seq<string>): seq<string> {
    Filter(all, (t: string) => !Tested(perf, t))
  }

  /** Python's `min` by score: the position of the first item with the least score. */
  function Lowest(ws: seq<Score>): (i: nat)
    requires ws != []
    ensures i < |ws|
    ensures forall j | 0 <= j < |ws| :: ws[i].1 <= ws[j].1
    ensures forall j | 0 <= j < i :: ws[i].1 < ws[j].1
  {
    if |ws| == 1 then 0
    else
      var m := Lowest(ws[1..]) + 1;
      if ws[m].1 < ws[0].1 then m else 0
  }

  /** `random.choice(xs)` with the oracle `pick`. */
  function Choice(xs: seq<string>, pick: nat): (x: string)
    requires xs != []
    ensures x in xs
  {
    xs[pick % |xs|]
  }

  /** Every element of the list is the choice of some oracle value. */
  lemma ChoiceReachesAll(xs: seq<string>, k: nat)
    requires k < |xs|
    ensures Choice(xs, k) == xs[k]
  {
  }

  /**
   * `recommend_next_topic(topic_performance, all_topics)`. A cold-start message comes exactly
   * when there are no scores, and the last fallback ("General", keep studying) is never reached:
   * scores always leave a tested topic.
   */
  function Recommend(perf: seq<Score>, all: seq<string>, pick: nat): (r: Recommendation)
    ensures perf == [] <==> r.reason == StartHere || r.reason == UploadDocuments
    ensures r.reason != ContinueStudying
  {
    if perf == [] then
      if all != [] then Recommendation(all[0], StartHere)
      else Recommendation("General", UploadDocuments)
    else
      var weak := Weak(perf);
      if weak != [] then
        var target := weak[Lowest(weak)];
        Recommendation(target.0, Review(Analytics.Truncate(target.1 * 100.0)))
      else
        var untested := Untested(perf, all);
        if untested != [] then Recommendation(untested[0], Explore)
        else
          var mastered := Mastered(perf);
          if mastered != [] then Recommendation(Choice(mastered, pick), KeepItUp)
          else
            var tested := Analytics.Keys(perf);
            if tested != [] then Recommendation(Choice(tested, pick), KeepPracticing)
            else Recommendation("General", ContinueStudying)
  }

  /** With no scores: the first known topic, or "General" when there is none. */
  lemma ColdStart(all: seq<string>, pick: nat)
    ensures all != [] ==> Recommend([], all, pick) == Recommendation(all[0], StartHere)
    ensures all == [] ==> Recommend([], all, pick) == Recommendation("General", UploadDocuments)
  {
  }

  /** Some score is below 0.6: the recommendation is the first topic with the least score. */
  lemma ReviewsLowest(perf: seq<Score>, all: seq<string>, pick: nat, k: nat)
    requires k < |perf| && perf[k].1 < ReviewThreshold
    ensures var r := Recommend(perf, all, pick);
      exists i | 0 <= i < |perf| ::
        && perf[i].0 == r.topic
        && perf[i].1 < ReviewThreshold
        && r.reason == Review(Analytics.Truncate(perf[i].1 * 100.0))
        && forall j | 0 <= j < |perf| :: perf[i].1 <= perf[j].1
  {
    var weak := Weak(perf);
    assert perf[k] in weak;
    var target := weak[Lowest(weak)];
    assert Recommend(perf, all, pick) == Recommendation(target.0, Review(Analytics.Truncate(target.1 * 100.0)));
    var i := LowestWeakIsLowest(perf, k);
    assert perf[i] == target;
  }

  /** The least weak score is the least score overall, at some position of `perf`. */
  lemma LowestWeakIsLowest(perf: seq<Score>, k: nat) returns (i: nat)
    requires k < |perf| && perf[k].1 < ReviewThreshold
    ensures Weak(perf) != [] && i < |perf| && perf[i] == Weak(perf)[Lowest(Weak(perf))]
    ensures perf[i].1 < ReviewThreshold
    ensures forall j | 0 <= j < |perf| :: perf[i].1 <= perf[j].1
  {
    var weak := Weak(perf);
    assert perf[k] in weak;
    var target := weak[Lowest(weak)];
    assert target in perf;
    i :| 0 <= i < |perf| && perf[i] == target;
    forall j | 0 <= j < |perf|
      ensures perf[i].1 <= perf[j].1
    {
      if perf[j].1 < ReviewThreshold {
        assert perf[j] in weak;
      }
    }
  }

  /** No weak topic, but an untested one: the first untested topic of `all`. */
  lemma ExploresFirstUntested(perf: seq<Score>, all: seq<string>, pick: nat, k: nat)
    requires perf != []
    requires forall j | 0 <= j < |perf| :: perf[j].1 >= ReviewThreshold
    requires k < |all| && !Tested(perf, all[k])
    ensures var r := Recommend(perf, all, pick);
      exists i | 0 <= i < |all| ::
        && all[i] == r.topic
        && r.reason == Explore
        && !Tested(perf, all[i])
        && forall j | 0 <= j < i :: Tested(perf, all[j])
  {
    NoWeak(perf);
    var untested := Untested(perf, all);
    assert all[k] in untested;
    FilterFirst(all, (t: string) => !Tested(perf, t));
  }

  /** Every topic was tested, none is weak and some is mastered: a mastered topic. */
  lemma ExploitsMastered(perf: seq<Score>, all: seq<string>, pick: nat, k: nat)
    requires perf != []
    requires forall j | 0 <= j < |perf| :: perf[j].1 >= ReviewThreshold
    requires forall t | t in all :: Tested(perf, t)
    requires k < |perf| && perf[k].1 >= MasteryThreshold
    ensures var r := Recommend(perf, all, pick);
      && r.reason == KeepItUp
      && exists i | 0 <= i < |perf| :: perf[i].0 == r.topic && perf[i].1 >= MasteryThreshold
  {
    NoWeak(perf);
    NoUntested(perf, all);
    var ms := Filter(perf, (p: Score) => p.1 >= MasteryThreshold);
    assert perf[k] in ms;
    var r := Recommend(perf, all, pick);
    MasteredIsTested(perf, r.topic);
  }

  /** Every topic was tested and scores in [0.6, 0.8): one of the tested topics. */
  lemma KeepsPracticing(perf: seq<Score>, all: seq<string>, pick: nat)
    requires perf != []
    requires forall j | 0 <= j < |perf| :: ReviewThreshold <= perf[j].1 < MasteryThreshold
    requires forall t | t in all :: Tested(perf, t)
    ensures var r := Recommend(perf, all, pick);
      && r.reason == KeepPracticing
      && exists i | 0 <= i < |perf| :: perf[i].0 == r.topic
  {
    NoWeak(perf);
    NoUntested(perf, all);
    var r := Recommend(perf, all, pick);
    var keys := Analytics.Keys(perf);
    assert r.topic in keys;
    var n :| 0 <= n < |keys| && keys[n] == r.topic;
    assert perf[n].0 == r.topic;
  }

  /** With some score, the recommendation is always a tested or a known topic, never the fallback. */
  lemma KnownTopicOnceTested(perf: seq<Score>, all: seq<string>, pick: nat)
    requires perf != []
    ensures var r := Recommend(perf, all, pick);
      r.reason != ContinueStudying && (Tested(perf, r.topic) || r.topic in all)
  {
    var r := Recommend(perf, all, pick);
    var weak := Weak(perf);
    if weak != [] {
      ItemIsTested(perf, weak[Lowest(weak)]);
    } else if Untested(perf, all) == [] && Mastered(perf) != [] {
      MasteredIsTested(perf, r.topic);
    }
  }

  /** Only the last two branches consult the random choice. */
  lemma ChoiceOnlyWithoutWeakOrUntested(perf: seq<Score>, all: seq<string>, p: nat, q: nat)
    requires perf == [] || Weak(perf) != [] || Untested(perf, all) != []
    ensures Recommend(perf, all, p) == Recommend(perf, all, q)
  {
  }

  /** Every mastered topic is a possible recommendation once no topic is weak or untested. */
  lemma AnyMasteredCanBeChosen(perf: seq<Score>, all: seq<string>, k: nat)
    requires perf != [] && Weak(perf) == [] && Untested(perf, all) == []
    requires k < |Mastered(perf)|
    ensures Recommend(perf, all, k) == Recommendation(Mastered(perf)[k], KeepItUp)
  {
    ChoiceReachesAll(Mastered(perf), k);
  }

  lemma ItemIsTested(perf: seq<Score>, x: Score)
    requires x in perf
    ensures Tested(perf, x.0)
  {
    var i :| 0 <= i < |perf| && perf[i] == x;
    assert Analytics.Keys(perf)[i] == x.0;
  }

  /** A mastered topic has a score of at least 0.8. */
  lemma MasteredIsTested(perf: seq<Score>, t: string)
    requires t in Mastered(perf)
    ensures Tested(perf, t)
    ensures exists i | 0 <= i < |perf| :: perf[i].0 == t && perf[i].1 >= MasteryThreshold
  {
    var ms := Filter(perf, (p: Score) => p.1 >= MasteryThreshold);
    var n :| 0 <= n < |ms| && ms[n].0 == t;
    assert ms[n] in perf;
    ItemIsTested(perf, ms[n]);
  }

  lemma NoWeak(perf: seq<Score>)
    requires forall j | 0 <= j < |perf| :: perf[j].1 >= ReviewThreshold
    ensures Weak(perf) == []
  {
    FilterNone(perf, (p: Score) => p.1 < ReviewThreshold);
  }

  lemma NoUntested(perf: seq<Score>, all: seq<string>)
    requires forall t | t in all :: Tested(perf, t)
    ensures Untested(perf, all) == []
  {
    forall i | 0 <= i < |all|
      ensures Tested(perf, all[i])
    {
      assert all[i] in all;
    }
    FilterNone(all, (t: string) => !Tested(perf, t));
  }
}
