/**
 * `AnalyticsEngine` (src/utils/analytics.py): error rates per source document, accuracy per
 * topic, the learning-speed and time-to-mastery labels, and the trend label of the forecast.
 *
 * Rates are exact ratios (`real`); the two-decimal rounding and the least-squares fit are not part
 * of this model, so the forecast's slope is an input.
 */
module Analytics {
  import opened Wrappers

  /** One answered question of the detailed quiz history; absent keys are `None`. */
  datatype Attempt = Attempt(source: Option<string>, topic: Option<string>, isCorrect: Option<bool>)

  /** The counters kept per key: how many attempts, and how many of them were "hits". */
  datatype Tally = Tally(total: nat, hits: nat)

  /** The `topic_stats` dictionary: its keys in insertion order and its counters. */
  datatype Stats = Stats(order: seq<string>, tally: map<string, Tally>)

  /** A key and its rate, as one item of the returned dictionary. */
  type Rated = (string, real)

  function SourceOf(a: Attempt): string { a.source.GetOr("Unknown") }

  function TopicOf(a: Attempt): string { a.topic.GetOr("General") }

  /** `not q.get('is_correct', False)`: a missing flag counts as wrong. */
  predicate IsWrong(a: Attempt) { !a.isCorrect.GetOr(false) }

  predicate IsRight(a: Attempt) { a.isCorrect == Some(true) }

  // ---------------------------------------------------------------------------------------------
  // Counting
  // ---------------------------------------------------------------------------------------------

  /** One step of the counting loop: create the key's counters if absent, then count the attempt. */
  function Count(st: Stats, key: string, hit: bool): Stats {
    var t := if key in st.tally then st.tally[key] else Tally(0, 0);
    Stats(if key in st.tally then st.order else st.order + [key],
          st.tally[key := Tally(t.total + 1, t.hits + if hit then 1 else 0)])
  }

  /** The counters after counting every attempt, in order. */
  function Tallies(h: seq<Attempt>, key: Attempt -> string, hit: Attempt -> bool): Stats {
    if h == [] then Stats([], map[])
    else Count(Tallies(h[..|h| - 1], key, hit), key(h[|h| - 1]), hit(h[|h| - 1]))
  }

  /** How many attempts have key `k`: a reference definition independent of the dictionary. */
  function Occurrences(h: seq<Attempt>, key: Attempt -> string, k: string): nat {
    if h == [] then 0
    else Occurrences(h[..|h| - 1], key, k) + if key(h[|h| - 1]) == k then 1 else 0
  }

  /** How many attempts have key `k` and are hits. */
  function Hits(h: seq<Attempt>, key: Attempt -> string, hit: Attempt -> bool, k: string): nat {
    if h == [] then 0
    else Hits(h[..|h| - 1], key, hit, k) + if key(h[|h| - 1]) == k && hit(h[|h| - 1]) then 1 else 0
  }

  predicate Distinct(keys: seq<string>) {
    forall i, j | 0 <= i < j < |keys| :: keys[i] != keys[j]
  }

  /**
   * The dictionary holds exactly the keys that occur, each once in insertion order, with the
   * number of its attempts and of its hits.
   */
  lemma {:induction false} TalliesCount(h: seq<Attempt>, key: Attempt -> string, hit: Attempt -> bool)
    ensures var st := Tallies(h, key, hit);
            && Distinct(st.order)
            && (forall k :: k in st.tally <==> k in st.order)
            && (forall k :: k in st.tally <==> Occurrences(h, key, k) > 0)
            && (forall k | k in st.tally :: st.tally[k] == Tally(Occurrences(h, key, k), Hits(h, key, hit, k)))
  {
    if h != [] {
      var init := h[..|h| - 1];
      var a := h[|h| - 1];
      TalliesCount(init, key, hit);
      var prev := Tallies(init, key, hit);
      var st := Tallies(h, key, hit);
      assert st == Count(prev, key(a), hit(a));
      forall k
        ensures (k in st.tally <==> Occurrences(h, key, k) > 0)
        ensures k in st.tally ==> st.tally[k] == Tally(Occurrences(h, key, k), Hits(h, key, hit, k))
      {
        HitsPositive(init, key, hit, k);
        assert Occurrences(h, key, k) == Occurrences(init, key, k) + if key(a) == k then 1 else 0;
        assert Hits(h, key, hit, k) == Hits(init, key, hit, k) + if key(a) == k && hit(a) then 1 else 0;
      }
      if key(a) !in prev.tally {
        assert key(a) !in prev.order;
        assert st.order == prev.order + [key(a)];
      }
    }
  }

  /** `Hits` counts exactly the attempts with that key that are hits. */
  lemma {:induction false} HitsPositive(h: seq<Attempt>, key: Attempt -> string, hit: Attempt -> bool, k: string)
    ensures Hits(h, key, hit, k) > 0 <==> exists i | 0 <= i < |h| :: key(h[i]) == k && hit(h[i])
    ensures Hits(h, key, hit, k) <= Occurrences(h, key, k)
  {
    if h != [] {
      var init := h[..|h| - 1];
      HitsPositive(init, key, hit, k);
      if exists i | 0 <= i < |init| :: key(init[i]) == k && hit(init[i]) {
        var i :| 0 <= i < |init| && key(init[i]) == k && hit(init[i]);
        assert h[i] == init[i];
      }
      if exists i | 0 <= i < |h| :: key(h[i]) == k && hit(h[i]) {
        var i :| 0 <= i < |h| && key(h[i]) == k && hit(h[i]);
        if i < |init| {
          assert init[i] == h[i];
        }
      }
    }
  }

  // ---------------------------------------------------------------------------------------------
  // Rates
  // ---------------------------------------------------------------------------------------------

  function Ratio(t: Tally): real
    requires t.total > 0
  {
    t.hits as real / t.total as real
  }

  lemma RatioBounds(hits: nat, total: nat)
    requires 0 < total && hits <= total
    ensures 0.0 <= hits as real / total as real <= 1.0
    ensures hits > 0 ==> hits as real / total as real > 0.0
  {
    var q := hits as real / total as real;
    assert q * total as real == hits as real;
    if q > 1.0 {
      MulPositive(q - 1.0, total as real);
    }
    if q < 0.0 || (hits > 0 && q <= 0.0) {
      MulPositive(-q, total as real);
    }
  }

  /**
   * The rates of the keys in `keys`, in that order: every key with at least one attempt, or, when
   * `positiveOnly`, every key with at least one hit.
   */
  function Rates(keys: seq<string>, tally: map<string, Tally>, positiveOnly: bool): seq<Rated> {
    if keys == [] then []
    else
      var k := keys[|keys| - 1];
      Rates(keys[..|keys| - 1], tally, positiveOnly)
        + if k in tally && tally[k].total > 0 && (!positiveOnly || tally[k].hits > 0)
          then [(k, Ratio(tally[k]))] else []
  }

  function Keys(xs: seq<Rated>): (r: seq<string>)
    ensures |r| == |xs| && forall i | 0 <= i < |xs| :: r[i] == xs[i].0
  {
    seq(|xs|, i requires 0 <= i < |xs| => xs[i].0)
  }

  /** The key qualifies for a rate: it was counted, and (when `positiveOnly`) it has a hit. */
  predicate Qualifies(k: string, tally: map<string, Tally>, positiveOnly: bool) {
    k in tally && tally[k].total > 0 && (!positiveOnly || tally[k].hits > 0)
  }

  /** Every item of `r` is a qualifying key of `keys` with its ratio. */
  predicate RatedFrom(r: seq<Rated>, keys: seq<string>, tally: map<string, Tally>, positiveOnly: bool) {
    forall i | 0 <= i < |r| :: r[i].0 in keys && Qualifies(r[i].0, tally, positiveOnly) && r[i].1 == Ratio(tally[r[i].0])
  }

  /** Every qualifying key of `keys` is rated in `r`. */
  predicate Covers(r: seq<Rated>, keys: seq<string>, tally: map<string, Tally>, positiveOnly: bool) {
    forall k | k in keys && Qualifies(k, tally, positiveOnly) :: k in Keys(r)
  }

  /** Each rated key is a counted key with that key's ratio; each qualifying key is rated. */
  lemma {:induction false} RatesFacts(keys: seq<string>, tally: map<string, Tally>, positiveOnly: bool)
    ensures RatedFrom(Rates(keys, tally, positiveOnly), keys, tally, positiveOnly)
    ensures Covers(Rates(keys, tally, positiveOnly), keys, tally, positiveOnly)
  {
    if keys != [] {
      var init := keys[..|keys| - 1];
      RatesFacts(init, tally, positiveOnly);
      var k := keys[|keys| - 1];
      var r := Rates(keys, tally, positiveOnly);
      var prev := Rates(init, tally, positiveOnly);
      assert r[..|prev|] == prev;
      forall i | 0 <= i < |r|
        ensures r[i].0 in keys && Qualifies(r[i].0, tally, positiveOnly) && r[i].1 == Ratio(tally[r[i].0])
      {
        if i < |prev| {
          assert r[i] == prev[i] && prev[i].0 in init;
        }
      }
      forall k' | k' in keys && Qualifies(k', tally, positiveOnly) ensures k' in Keys(r) {
        if k' in init {
          var i :| 0 <= i < |prev| && Keys(prev)[i] == k';
          assert Keys(r)[i] == k';
        } else {
          assert k' == k;
          assert Keys(r)[|r| - 1] == k;
        }
      }
    }
  }

  /** The rates of distinct keys have distinct keys. */
  lemma {:induction false} RatesDistinct(keys: seq<string>, tally: map<string, Tally>, positiveOnly: bool)
    requires Distinct(keys)
    ensures Distinct(Keys(Rates(keys, tally, positiveOnly)))
  {
    if keys != [] {
      var init := keys[..|keys| - 1];
      RatesDistinct(init, tally, positiveOnly);
      RatesFacts(init, tally, positiveOnly);
      var prev := Rates(init, tally, positiveOnly);
      var r := Rates(keys, tally, positiveOnly);
      forall i, j | 0 <= i < j < |r| ensures Keys(r)[i] != Keys(r)[j] {
        if j < |prev| {
          assert Keys(r)[i] == Keys(prev)[i] && Keys(r)[j] == Keys(prev)[j];
        } else {
          assert Keys(r)[i] == prev[i].0 && prev[i].0 in init;
        }
      }
    }
  }

  // ---------------------------------------------------------------------------------------------
  // Sorting by rate, descending (Python's stable `sorted(..., reverse=True)`)
  // ---------------------------------------------------------------------------------------------

  predicate SortedDesc(xs: seq<Rated>) {
    forall i, j | 0 <= i < j < |xs| :: xs[i].1 >= xs[j].1
  }

  /** `x` placed before the first element whose rate is not above its own. */
  function Insert(x: Rated, xs: seq<Rated>): (r: seq<Rated>)
    ensures multiset(r) == multiset(xs) + multiset{x}
  {
    if xs == [] || xs[0].1 <= x.1 then [x] + xs
    else
      assert xs == [xs[0]] + xs[1..];
      [xs[0]] + Insert(x, xs[1..])
  }

  /** Python's `sorted(items, key=rate, reverse=True)`: an insertion sort that keeps ties in order. */
  function SortDesc(xs: seq<Rated>): (r: seq<Rated>)
    ensures multiset(r) == multiset(xs)
  {
    if xs == [] then []
    else
      assert xs == [xs[0]] + xs[1..];
      Insert(xs[0], SortDesc(xs[1..]))
  }

  /** Elements of two sequences with the same multiset are the same. */
  lemma SameElements(xs: seq<Rated>, ys: seq<Rated>, i: int)
    requires multiset(xs) == multiset(ys) && 0 <= i < |xs|
    ensures xs[i] in ys
  {
    assert xs[i] in multiset(ys);
  }

  lemma {:induction false} InsertSorted(x: Rated, xs: seq<Rated>)
    requires SortedDesc(xs)
    ensures SortedDesc(Insert(x, xs))
  {
    if !(xs == [] || xs[0].1 <= x.1) {
      var tail := Insert(x, xs[1..]);
      InsertSorted(x, xs[1..]);
      forall j | 0 <= j < |tail| ensures xs[0].1 >= tail[j].1 {
        SameElements(tail, xs[1..] + [x], j);
        if tail[j] != x {
          var m :| 0 <= m < |xs[1..]| && xs[1..][m] == tail[j];
          assert xs[m + 1] == tail[j];
        }
      }
    }
  }

  lemma {:induction false} SortSorted(xs: seq<Rated>)
    ensures SortedDesc(SortDesc(xs))
  {
    if xs != [] {
      SortSorted(xs[1..]);
      InsertSorted(xs[0], SortDesc(xs[1..]));
    }
  }

  /** Keys survive a reordering. */
  lemma PermutedKeys(xs: seq<Rated>, ys: seq<Rated>, k: string)
    requires multiset(xs) == multiset(ys)
    ensures k in Keys(xs) <==> k in Keys(ys)
  {
    if k in Keys(xs) {
      var i :| 0 <= i < |xs| && xs[i].0 == k;
      SameElements(xs, ys, i);
      var j :| 0 <= j < |ys| && ys[j] == xs[i];
      assert Keys(ys)[j] == k;
    }
    if k in Keys(ys) {
      var j :| 0 <= j < |ys| && ys[j].0 == k;
      SameElements(ys, xs, j);
      var i :| 0 <= i < |xs| && xs[i] == ys[j];
      assert Keys(xs)[i] == k;
    }
  }

  /** Putting a key in front of distinct keys not holding it keeps them distinct. */
  lemma ConsDistinct(x: Rated, xs: seq<Rated>)
    requires Distinct(Keys(xs)) && x.0 !in Keys(xs)
    ensures Distinct(Keys([x] + xs))
  {
    forall i, j | 0 <= i < j < |[x] + xs| ensures Keys([x] + xs)[i] != Keys([x] + xs)[j] {
      if i == 0 {
        assert Keys([x] + xs)[j] == Keys(xs)[j - 1];
      } else {
        assert Keys([x] + xs)[i] == Keys(xs)[i - 1] && Keys([x] + xs)[j] == Keys(xs)[j - 1];
      }
    }
  }

  lemma {:induction false} InsertDistinct(x: Rated, xs: seq<Rated>)
    requires Distinct(Keys(xs)) && x.0 !in Keys(xs)
    ensures Distinct(Keys(Insert(x, xs)))
  {
    if xs == [] || xs[0].1 <= x.1 {
      ConsDistinct(x, xs);
    } else {
      var tail := xs[1..];
      assert Distinct(Keys(tail)) by {
        forall i, j | 0 <= i < j < |tail| ensures Keys(tail)[i] != Keys(tail)[j] {
          assert Keys(xs)[i + 1] != Keys(xs)[j + 1];
        }
      }
      assert x.0 !in Keys(tail);
      InsertDistinct(x, tail);
      assert xs[0].0 !in Keys(Insert(x, tail)) by {
        PermutedKeys(Insert(x, tail), tail + [x], xs[0].0);
        assert Keys(xs)[0] == xs[0].0;
      }
      ConsDistinct(xs[0], Insert(x, tail));
    }
  }

  lemma {:induction false} SortDistinct(xs: seq<Rated>)
    requires Distinct(Keys(xs))
    ensures Distinct(Keys(SortDesc(xs)))
  {
    if xs != [] {
      var tail := xs[1..];
      assert Distinct(Keys(tail)) by {
        forall i, j | 0 <= i < j < |tail| ensures Keys(tail)[i] != Keys(tail)[j] {
          assert Keys(xs)[i + 1] != Keys(xs)[j + 1];
        }
      }
      SortDistinct(tail);
      assert xs[0].0 !in Keys(SortDesc(tail)) by {
        PermutedKeys(SortDesc(tail), tail, xs[0].0);
      }
      InsertDistinct(xs[0], SortDesc(tail));
    }
  }

  // ---------------------------------------------------------------------------------------------
  // analyze_weak_areas
  // ---------------------------------------------------------------------------------------------

  /** What `analyze_weak_areas` returns: the positive error rates, highest first. */
  function WeakAreas(h: seq<Attempt>): (weak: seq<Rated>)
    ensures SortedDesc(weak)
  {
    var st := Tallies(h, SourceOf, IsWrong);
    SortSorted(Rates(st.order, st.tally, true));
    SortDesc(Rates(st.order, st.tally, true))
  }

  /** One step of both counting loops (src/utils/analytics.py:59-64 and 90-95). */
  method CountInto(order: seq<string>, tally: map<string, Tally>, key: string, hit: bool)
    returns (order': seq<string>, tally': map<string, Tally>)
    ensures Stats(order', tally') == Count(Stats(order, tally), key, hit)
  {
    order', tally' := order, tally;
    if key !in tally' {
      tally' := tally'[key := Tally(0, 0)];
      order' := order' + [key];
    }
    var t := tally'[key];
    tally' := tally'[key := t.(total := t.total + 1)];
    if hit {
      tally' := tally'[key := tally'[key].(hits := tally'[key].hits + 1)];
    }
  }

  /** The loop over the counters in insertion order (src/utils/analytics.py:68-72 and 99-101). */
  method RatesOf(order: seq<string>, tally: map<string, Tally>, positiveOnly: bool) returns (rates: seq<Rated>)
    ensures rates == Rates(order, tally, positiveOnly)
  {
    rates := [];
    for j := 0 to |order|
      invariant rates == Rates(order[..j], tally, positiveOnly)
    {
      assert order[..j + 1][..j] == order[..j];
      var k := order[j];
      if k in tally && tally[k].total > 0 {
        var rate := tally[k].hits as real / tally[k].total as real;
        if !positiveOnly || rate > 0.0 {
          rates := rates + [(k, rate)];
        }
      }
    }
    assert order[..|order|] == order;
  }

  /** `AnalyticsEngine.analyze_weak_areas`. */
  method AnalyzeWeakAreas(h: seq<Attempt>) returns (weak: seq<Rated>)
    ensures weak == WeakAreas(h)
  {
    if h == [] {
      return [];
    }
    var order: seq<string> := [];
    var tally: map<string, Tally> := map[];
    for i := 0 to |h|
      invariant Stats(order, tally) == Tallies(h[..i], SourceOf, IsWrong)
    {
      assert h[..i + 1][..i] == h[..i];
      var source := h[i].source.GetOr("Unknown");
      var isCorrect := h[i].isCorrect.GetOr(false);
      order, tally := CountInto(order, tally, source, !isCorrect);
    }
    assert h[..|h|] == h;
    var rates := RatesOf(order, tally, true);
    weak := SortDesc(rates);
  }

  /** A source is listed iff one of its attempts is wrong; each source is listed once. */
  lemma WeakAreasMembers(h: seq<Attempt>, k: string)
    ensures k in Keys(WeakAreas(h)) <==> exists i | 0 <= i < |h| :: SourceOf(h[i]) == k && IsWrong(h[i])
    ensures Distinct(Keys(WeakAreas(h)))
  {
    var st := Tallies(h, SourceOf, IsWrong);
    var rates := Rates(st.order, st.tally, true);
    PermutedKeys(WeakAreas(h), rates, k);
    RatedIffHit(h, SourceOf, IsWrong, k);
    TalliesCount(h, SourceOf, IsWrong);
    RatesDistinct(st.order, st.tally, true);
    SortDistinct(rates);
  }

  /** A key has a positive rate iff one of its attempts is a hit. */
  lemma RatedIffHit(h: seq<Attempt>, key: Attempt -> string, hit: Attempt -> bool, k: string)
    ensures var st := Tallies(h, key, hit);
      k in Keys(Rates(st.order, st.tally, true)) <==> exists i | 0 <= i < |h| :: key(h[i]) == k && hit(h[i])
  {
    var st := Tallies(h, key, hit);
    var rates := Rates(st.order, st.tally, true);
    TalliesCount(h, key, hit);
    HitsPositive(h, key, hit, k);
    RatesFacts(st.order, st.tally, true);
    if k in Keys(rates) {
      var i :| 0 <= i < |rates| && rates[i].0 == k;
      assert Qualifies(k, st.tally, true);
    }
  }

  /** `p`'s rate is its key's share of hits among the attempts with that key. */
  predicate ShareOf(p: Rated, h: seq<Attempt>, key: Attempt -> string, hit: Attempt -> bool) {
    var n := Occurrences(h, key, p.0);
    n > 0 && p.1 == Hits(h, key, hit, p.0) as real / n as real && 0.0 <= p.1 <= 1.0
  }

  predicate AllShares(r: seq<Rated>, h: seq<Attempt>, key: Attempt -> string, hit: Attempt -> bool, positiveOnly: bool) {
    forall i | 0 <= i < |r| :: ShareOf(r[i], h, key, hit) && (positiveOnly ==> r[i].1 > 0.0)
  }

  /** Every rate computed from the counters is a share of hits, positive when only those are kept. */
  lemma RatesAreShares(h: seq<Attempt>, key: Attempt -> string, hit: Attempt -> bool, positiveOnly: bool)
    ensures AllShares(Rates(Tallies(h, key, hit).order, Tallies(h, key, hit).tally, positiveOnly), h, key, hit, positiveOnly)
  {
    var st := Tallies(h, key, hit);
    var r := Rates(st.order, st.tally, positiveOnly);
    TalliesCount(h, key, hit);
    RatesFacts(st.order, st.tally, positiveOnly);
    forall i | 0 <= i < |r| ensures ShareOf(r[i], h, key, hit) && (positiveOnly ==> r[i].1 > 0.0) {
      var k := r[i].0;
      HitsPositive(h, key, hit, k);
      var t := st.tally[k];
      assert t == Tally(Occurrences(h, key, k), Hits(h, key, hit, k));
      RatioBounds(t.hits, t.total);
    }
  }

  /** Each listed rate is the source's wrong answers over its attempts, in (0, 1]. */
  lemma WeakAreaRates(h: seq<Attempt>)
    ensures forall p | p in WeakAreas(h) :: ShareOf(p, h, SourceOf, IsWrong) && p.1 > 0.0
    ensures SortedDesc(WeakAreas(h))
  {
    var st := Tallies(h, SourceOf, IsWrong);
    var rates := Rates(st.order, st.tally, true);
    RatesAreShares(h, SourceOf, IsWrong, true);
    SortSorted(rates);
    forall p | p in WeakAreas(h) ensures ShareOf(p, h, SourceOf, IsWrong) && p.1 > 0.0 {
      assert p in multiset(rates);
      var i :| 0 <= i < |rates| && rates[i] == p;
    }
  }

  const DocAWrong := Attempt(Some("Doc A"), None, Some(false))
  const DocARight := Attempt(Some("Doc A"), None, Some(true))
  const DocBWrong := Attempt(Some("Doc B"), None, Some(false))
  const DocCRight := Attempt(Some("Doc C"), None, Some(true))

  /**
   * tests/test_analytics_logic.py:5-25: two of Doc A's three answers wrong, Doc B's only answer
   * wrong, Doc C's right; Doc B comes first with rate 1 and Doc A follows with 2/3.
   */
  lemma WeakAreasExample()
    ensures WeakAreas([DocAWrong, DocAWrong, DocARight, DocBWrong, DocCRight]) == [("Doc B", 1.0), ("Doc A", 2.0 / 3.0)]
  {
    var h := [DocAWrong, DocAWrong, DocARight, DocBWrong, DocCRight];
    var tally := map["Doc A" := Tally(3, 2), "Doc B" := Tally(1, 1), "Doc C" := Tally(1, 0)];
    ExampleTallies();
    ExampleRates(tally);
    ExampleSort();
  }

  /** Counting one more attempt is one `Count` step. */
  lemma TalliesSnoc(h: seq<Attempt>, a: Attempt, key: Attempt -> string, hit: Attempt -> bool)
    ensures Tallies(h + [a], key, hit) == Count(Tallies(h, key, hit), key(a), hit(a))
  {
    assert (h + [a])[..|h|] == h;
  }

  lemma ExampleNamesDiffer()
    ensures "Doc A" != "Doc B" && "Doc A" != "Doc C" && "Doc B" != "Doc C"
  {
    assert "Doc A"[4] == 'A' && "Doc B"[4] == 'B' && "Doc C"[4] == 'C';
  }

  lemma ExampleTallies()
    ensures Tallies([DocAWrong, DocAWrong, DocARight, DocBWrong, DocCRight], SourceOf, IsWrong)
         == Stats(["Doc A", "Doc B", "Doc C"], map["Doc A" := Tally(3, 2), "Doc B" := Tally(1, 1), "Doc C" := Tally(1, 0)])
  {
    ExampleNamesDiffer();
    var h3 := [DocAWrong, DocAWrong, DocARight];
    var h4 := h3 + [DocBWrong];
    ExampleTalliesDocA();
    TalliesSnoc(h3, DocBWrong, SourceOf, IsWrong);
    assert Tallies(h4, SourceOf, IsWrong) == Stats(["Doc A", "Doc B"], map["Doc A" := Tally(3, 2), "Doc B" := Tally(1, 1)]);
    TalliesSnoc(h4, DocCRight, SourceOf, IsWrong);
    assert h4 + [DocCRight] == [DocAWrong, DocAWrong, DocARight, DocBWrong, DocCRight];
  }

  lemma ExampleTalliesDocA()
    ensures Tallies([DocAWrong, DocAWrong, DocARight], SourceOf, IsWrong) == Stats(["Doc A"], map["Doc A" := Tally(3, 2)])
  {
    var h1 := [DocAWrong];
    var h2 := h1 + [DocAWrong];
    TalliesSnoc([], DocAWrong, SourceOf, IsWrong);
    assert [] + [DocAWrong] == h1;
    assert Tallies(h1, SourceOf, IsWrong) == Stats(["Doc A"], map["Doc A" := Tally(1, 1)]);
    TalliesSnoc(h1, DocAWrong, SourceOf, IsWrong);
    assert Tallies(h2, SourceOf, IsWrong) == Stats(["Doc A"], map["Doc A" := Tally(2, 2)]);
    TalliesSnoc(h2, DocARight, SourceOf, IsWrong);
    assert h2 + [DocARight] == [DocAWrong, DocAWrong, DocARight];
  }

  lemma ExampleRates(tally: map<string, Tally>)
    requires tally == map["Doc A" := Tally(3, 2), "Doc B" := Tally(1, 1), "Doc C" := Tally(1, 0)]
    ensures Rates(["Doc A", "Doc B", "Doc C"], tally, true) == [("Doc A", 2.0 / 3.0), ("Doc B", 1.0)]
  {
    ExampleNamesDiffer();
    var keys := ["Doc A", "Doc B", "Doc C"];
    assert keys[..2] == ["Doc A", "Doc B"] && keys[..2][..1] == ["Doc A"] && ["Doc A"][..0] == [];
    assert Rates(["Doc A"], tally, true) == [("Doc A", 2.0 / 3.0)];
    assert Rates(["Doc A", "Doc B"], tally, true) == [("Doc A", 2.0 / 3.0), ("Doc B", 1.0)];
  }

  lemma ExampleSort()
    ensures SortDesc([("Doc A", 2.0 / 3.0), ("Doc B", 1.0)]) == [("Doc B", 1.0), ("Doc A", 2.0 / 3.0)]
  {
    var a: Rated := ("Doc A", 2.0 / 3.0);
    var b: Rated := ("Doc B", 1.0);
    assert [a, b][1..] == [b] && [b][1..] == [];
    assert SortDesc([b]) == [b];
    assert Insert(a, []) == [a];
    assert Insert(a, [b]) == [b, a];
    assert SortDesc([a, b]) == Insert(a, [b]);
  }

  // ---------------------------------------------------------------------------------------------
  // analyze_chapter_performance
  // ---------------------------------------------------------------------------------------------

  /**
   * What `analyze_chapter_performance` returns: the accuracy per topic in first-seen order, or
   * `None` for the `KeyError` raised when an attempt has no `is_correct` entry.
   */
  function ChapterPerformance(h: seq<Attempt>): (performance: Option<seq<Rated>>)
    ensures performance.Some? <==> forall i | 0 <= i < |h| :: h[i].isCorrect.Some?
    ensures performance.Some? ==>
      forall t :: t in Keys(performance.value) <==> exists i | 0 <= i < |h| :: TopicOf(h[i]) == t
    ensures performance.Some? ==> Distinct(Keys(performance.value))
  {
    if exists i | 0 <= i < |h| :: h[i].isCorrect.None? then None
    else
      var st := Tallies(h, TopicOf, IsRight);
      TalliesCount(h, TopicOf, IsRight);
      RatesDistinct(st.order, st.tally, false);
      RatedTopicsAreSeen(h);
      Some(Rates(st.order, st.tally, false))
  }

  /** `AnalyticsEngine.analyze_chapter_performance`. */
  method AnalyzeChapterPerformance(h: seq<Attempt>) returns (performance: Option<seq<Rated>>)
    ensures performance == ChapterPerformance(h)
  {
    if h == [] {
      return Some([]);
    }
    var order: seq<string> := [];
    var tally: map<string, Tally> := map[];
    for i := 0 to |h|
      invariant forall j | 0 <= j < i :: h[j].isCorrect.Some?
      invariant Stats(order, tally) == Tallies(h[..i], TopicOf, IsRight)
    {
      assert h[..i + 1][..i] == h[..i];
      var topic := h[i].topic.GetOr("General");
      if h[i].isCorrect.None? {
        return None;
      }
      order, tally := CountInto(order, tally, topic, h[i].isCorrect.value);
    }
    assert h[..|h|] == h;
    var rates := RatesOf(order, tally, false);
    performance := Some(rates);
  }

  /**
   * With every flag present, every topic seen (default "General") gets exactly one accuracy, the
   * share of its attempts answered correctly, in [0, 1].
   */
  lemma ChapterAccuracy(h: seq<Attempt>, k: string)
    requires forall i | 0 <= i < |h| :: h[i].isCorrect.Some?
    ensures ChapterPerformance(h).Some?
    ensures k in Keys(ChapterPerformance(h).value) <==> exists i | 0 <= i < |h| :: TopicOf(h[i]) == k
    ensures Distinct(Keys(ChapterPerformance(h).value))
    ensures forall p | p in ChapterPerformance(h).value :: ShareOf(p, h, TopicOf, IsRight)
  {
    var st := Tallies(h, TopicOf, IsRight);
    TalliesCount(h, TopicOf, IsRight);
    RatesFacts(st.order, st.tally, false);
    RatesDistinct(st.order, st.tally, false);
    OccurrencesPositive(h, TopicOf, k);
    RatesAreShares(h, TopicOf, IsRight, false);
  }

  /** The accuracies name exactly the topics (default "General") that occur in the history. */
  lemma RatedTopicsAreSeen(h: seq<Attempt>)
    ensures var st := Tallies(h, TopicOf, IsRight);
      forall t :: t in Keys(Rates(st.order, st.tally, false)) <==> exists i | 0 <= i < |h| :: TopicOf(h[i]) == t
  {
    var st := Tallies(h, TopicOf, IsRight);
    TalliesCount(h, TopicOf, IsRight);
    RatesFacts(st.order, st.tally, false);
    forall t ensures t in Keys(Rates(st.order, st.tally, false)) <==> exists i | 0 <= i < |h| :: TopicOf(h[i]) == t {
      OccurrencesPositive(h, TopicOf, t);
    }
  }

  lemma {:induction false} OccurrencesPositive(h: seq<Attempt>, key: Attempt -> string, k: string)
    ensures Occurrences(h, key, k) > 0 <==> exists i | 0 <= i < |h| :: key(h[i]) == k
  {
    if h != [] {
      var init := h[..|h| - 1];
      OccurrencesPositive(init, key, k);
      if exists i | 0 <= i < |init| :: key(init[i]) == k {
        var i :| 0 <= i < |init| && key(init[i]) == k;
        assert h[i] == init[i];
      }
      if exists i | 0 <= i < |h| :: key(h[i]) == k {
        var i :| 0 <= i < |h| && key(h[i]) == k;
        if i < |init| {
          assert init[i] == h[i];
        }
      }
    }
  }

  // ---------------------------------------------------------------------------------------------
  // calculate_learning_metrics and the forecast's trend
  // ---------------------------------------------------------------------------------------------

  datatype Speed = Fast | Steady | Plateaued | Struggling

  datatype Mastery = Indefinite | Mastered | Attempts(n: int)

  function SpeedOf(slope: real): (s: Speed)
    ensures s == Fast <==> slope > 0.2
    ensures s == Steady <==> 0.05 < slope <= 0.2
    ensures s == Plateaued <==> -0.05 < slope <= 0.05
    ensures s == Struggling <==> slope <= -0.05
  {
    if slope > 0.2 then Fast
    else if slope > 0.05 then Steady
    else if slope > -0.05 then Plateaued
    else Struggling
  }

  /** Python's `int(x)`: truncation toward zero. */
  function Truncate(x: real): (n: int)
    ensures x >= 0.0 ==> n as real <= x < n as real + 1.0
    ensures x < 0.0 ==> n as real - 1.0 < x <= n as real
  {
    if x >= 0.0 then x.Floor else -((-x).Floor)
  }

  /** The attempts still needed to reach `maxScore` at the current rate of improvement. */
  function MasteryOf(slope: real, avg: real, maxScore: int): (m: Mastery)
    ensures m == Indefinite <==> slope <= 0.01
    ensures m == Mastered <==> slope > 0.01 && avg >= maxScore as real
    ensures m.Attempts? ==> m.n >= 0
    ensures m.Attempts? ==> m.n as real * slope <= maxScore as real - avg
    ensures m.Attempts? ==> maxScore as real - avg < (m.n + 1) as real * slope
  {
    if slope <= 0.01 then Indefinite
    else
      var remaining := maxScore as real - avg;
      if remaining <= 0.0 then Mastered
      else
        var n := Truncate(remaining / slope);
        DivisionBounds(remaining, slope, n);
        Attempts(n)
  }

  /** `n` is the whole number of `s`-steps in `r`. */
  lemma DivisionBounds(r: real, s: real, n: int)
    requires s > 0.0 && n as real <= r / s < n as real + 1.0
    ensures n as real * s <= r
    ensures r < (n + 1) as real * s
  {
    var q := r / s;
    var a := n as real;
    var b := (n + 1) as real;
    assert b == a + 1.0;
    assert q * s == r;
    MulPositive(q - a, s);
    assert (q - a) * s == q * s - a * s;
    assert b - q > 0.0;
    MulPositive(b - q, s);
    assert (b - q) * s > 0.0;
    assert (b - q) * s == b * s - q * s;
    assert b * s - q * s > 0.0;
    assert b * s > q * s;
    assert b * s > r;
  }

  lemma MulPositive(x: real, y: real)
    requires x >= 0.0 && y > 0.0
    ensures x * y >= 0.0 && (x > 0.0 ==> x * y > 0.0)
  {
  }

  /** `AnalyticsEngine.calculate_learning_metrics`. */
  function LearningMetrics(slope: real, avg: real, maxScore: int): (r: (Speed, Mastery))
    ensures r.0 == SpeedOf(slope) && r.1 == MasteryOf(slope, avg, maxScore)
  {
    (SpeedOf(slope), MasteryOf(slope, avg, maxScore))
  }

  const DefaultMaxScore: int := 5

  /** tests/test_analytics_logic.py:27-32: slope 0.3 at average 3.0 is Fast, six more attempts. */
  lemma FastLearnerExample()
    ensures LearningMetrics(0.3, 3.0, DefaultMaxScore) == (Fast, Attempts(6))
  {
    assert 2.0 / 0.3 == 6.0 + 2.0 / 3.0;
  }

  /** tests/test_analytics_logic.py:34-38: slope -0.1 is Struggling, mastery Indefinite. */
  lemma StrugglingLearnerExample()
    ensures LearningMetrics(-0.1, 3.0, DefaultMaxScore) == (Struggling, Indefinite)
  {
  }

  datatype Trend = InsufficientData | Improving | Declining | Stable

  /**
   * The trend and the slope `forecast_next_score` reports for `history`, given the least-squares
   * slope `fitted` of the scores against attempt numbers.
   */
  function Forecast(history: seq<real>, fitted: real): (r: (Trend, real))
    ensures |history| < 2 <==> r.0 == InsufficientData
    ensures |history| < 2 ==> r.1 == 0.0
    ensures |history| >= 2 ==> (&& r.1 == fitted
                                && (r.0 == Improving <==> fitted > 0.1)
                                && (r.0 == Declining <==> fitted < -0.1)
                                && (r.0 == Stable <==> -0.1 <= fitted <= 0.1))
  {
    if |history| < 2 then (InsufficientData, 0.0)
    else if fitted > 0.1 then (Improving, fitted)
    else if fitted < -0.1 then (Declining, fitted)
    else (Stable, fitted)
  }
}
