/** List helpers behind Python's list comprehensions with an `if` clause. */
module Seqs {

  /** `[x for x in xs if p(x)]`: the elements satisfying `p`, in their original order. */
  function Filter<T>(xs: seq<T>, p: T -> bool): (r: seq<T>)
    ensures |r| <= |xs|
    ensures forall i | 0 <= i < |r| :: r[i] in xs && p(r[i])
    ensures forall i | 0 <= i < |xs| && p(xs[i]) :: xs[i] in r
    ensures multiset(r) <= multiset(xs)
  {
    if xs == [] then []
    else
      var init := xs[..|xs| - 1];
      var last := xs[|xs| - 1];
      assert xs == init + [last];
      Filter(init, p) + (if p(last) then [last] else [])
  }

  /** A sequence of length `k` holds only elements taken from distinct positions of `xs`. */
  lemma PrefixIsSample<T>(xs: seq<T>, k: nat)
    requires k <= |xs|
    ensures |xs[..k]| == k && multiset(xs[..k]) <= multiset(xs)
  {
    assert xs == xs[..k] + xs[k..];
  }

  /** Appending an element satisfying `p` to elements satisfying `p`. */
  lemma AllSnoc<T>(xs: seq<T>, x: T, p: T -> bool)
    requires forall j | 0 <= j < |xs| :: p(xs[j])
    requires p(x)
    ensures forall j | 0 <= j < |xs + [x]| :: p((xs + [x])[j])
  {
  }

  function Min(a: int, b: int): (m: int)
    ensures m <= a && m <= b && (m == a || m == b)
  {
    if a <= b then a else b
  }

  /** Nothing passes the filter when no element satisfies the predicate. */
  lemma {:induction false} FilterNone<T>(xs: seq<T>, p: T -> bool)
    requires forall i | 0 <= i < |xs| :: !p(xs[i])
    ensures Filter(xs, p) == []
  {
    if xs != [] {
      var init := xs[..|xs| - 1];
      forall i | 0 <= i < |init|
        ensures !p(init[i])
      {
        assert init[i] == xs[i];
      }
      FilterNone(init, p);
    }
  }

  /** The filter of one more element: the filter so far, and the element if it passes. */
  lemma FilterSnoc<T>(xs: seq<T>, p: T -> bool)
    requires xs != []
    ensures Filter(xs, p) == Filter(xs[..|xs| - 1], p) + (if p(xs[|xs| - 1]) then [xs[|xs| - 1]] else [])
  {
  }

  /** The first element of a filter is the first element of the input satisfying the predicate. */
  lemma {:induction false} FilterFirst<T>(xs: seq<T>, p: T -> bool)
    requires Filter(xs, p) != []
    ensures exists i | 0 <= i < |xs| :: xs[i] == Filter(xs, p)[0] && p(xs[i]) && forall j | 0 <= j < i :: !p(xs[j])
  {
    var init := xs[..|xs| - 1];
    FilterSnoc(xs, p);
    if Filter(init, p) == [] {
      FirstIsLast(xs, p);
    } else {
      FilterFirst(init, p);
      var i :| 0 <= i < |init| && init[i] == Filter(init, p)[0] && p(init[i]) && forall j | 0 <= j < i :: !p(init[j]);
      assert xs[i] == init[i] && Filter(xs, p)[0] == Filter(init, p)[0];
      forall j | 0 <= j < i
        ensures !p(xs[j])
      {
        assert xs[j] == init[j];
      }
    }
  }

  /** Nothing before the last element passes: the filter starts with the last element. */
  lemma FirstIsLast<T>(xs: seq<T>, p: T -> bool)
    requires xs != [] && Filter(xs[..|xs| - 1], p) == [] && Filter(xs, p) != []
    ensures p(xs[|xs| - 1]) && Filter(xs, p)[0] == xs[|xs| - 1]
    ensures forall j | 0 <= j < |xs| - 1 :: !p(xs[j])
  {
    var init := xs[..|xs| - 1];
    FilterSnoc(xs, p);
    forall j | 0 <= j < |xs| - 1
      ensures !p(xs[j])
    {
      assert xs[j] == init[j];
    }
  }
}
