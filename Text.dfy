/**
 * The string operations of Python that the modelled code relies on, over `string` (a sequence of
 * Unicode scalar values, as Python's `str` is a sequence of code points):
 * `str.strip`, `str.lower`, `str.split(sep)`, `sep.join`, `str.split()`, `in` on strings and
 * `str.replace`. Character classes (`str.isalpha`, `\d`, upper and lower case) are the ASCII ones;
 * whitespace is the set of characters for which Python's `str.isspace` holds.
 */
module Text {

  predicate IsSpace(c: char) {
    || c == ' '
    || ('\t' <= c <= '\r')
    || ('\U{1C}' <= c <= '\U{1F}')
    || c == '\U{85}' || c == '\U{A0}' || c == '\U{1680}'
    || ('\U{2000}' <= c <= '\U{200A}')
    || c == '\U{2028}' || c == '\U{2029}' || c == '\U{202F}' || c == '\U{205F}' || c == '\U{3000}'
  }

  predicate IsDigit(c: char) { '0' <= c <= '9' }

  predicate IsUpper(c: char) { 'A' <= c <= 'Z' }

  predicate IsLower(c: char) { 'a' <= c <= 'z' }

  predicate IsLetter(c: char) { IsUpper(c) || IsLower(c) }

  /** Python's `str.isalpha`: non-empty and made of letters only. */
  predicate IsAlpha(s: string) {
    s != [] && forall i :: 0 <= i < |s| ==> IsLetter(s[i])
  }

  function LowerChar(c: char): (r: char)
    ensures !IsUpper(r)
    ensures IsUpper(c) ==> IsLower(r) && r as int == c as int + 32
    ensures !IsUpper(c) ==> r == c
  {
    if IsUpper(c) then (c as int + 32) as char else c
  }

  /** Python's `str.lower`. */
  function Lower(s: string): (r: string)
    ensures |r| == |s|
    ensures forall i :: 0 <= i < |s| ==> r[i] == LowerChar(s[i])
  {
    seq(|s|, i requires 0 <= i < |s| => LowerChar(s[i]))
  }

  /** The number of whitespace characters `s` starts with. */
  function LeadingSpaces(s: string): (k: nat)
    ensures k <= |s|
    ensures forall i :: 0 <= i < k ==> IsSpace(s[i])
    ensures k < |s| ==> !IsSpace(s[k])
  {
    if s == [] || !IsSpace(s[0]) then 0 else 1 + LeadingSpaces(s[1..])
  }

  /** The number of whitespace characters `s` ends with. */
  function TrailingSpaces(s: string): (k: nat)
    ensures k <= |s|
    ensures forall i :: |s| - k <= i < |s| ==> IsSpace(s[i])
    ensures k < |s| ==> !IsSpace(s[|s| - 1 - k])
  {
    if s == [] || !IsSpace(s[|s| - 1]) then 0 else 1 + TrailingSpaces(s[..|s| - 1])
  }

  /** The number of ASCII digits `s` starts with. */
  function LeadingDigits(s: string): (k: nat)
    ensures k <= |s|
    ensures forall i :: 0 <= i < k ==> IsDigit(s[i])
    ensures k < |s| ==> !IsDigit(s[k])
  {
    if s == [] || !IsDigit(s[0]) then 0 else 1 + LeadingDigits(s[1..])
  }

  /** The number of ASCII digits `s` ends with. */
  function TrailingDigits(s: string): (k: nat)
    ensures k <= |s|
    ensures forall i :: |s| - k <= i < |s| ==> IsDigit(s[i])
    ensures k < |s| ==> !IsDigit(s[|s| - 1 - k])
  {
    if s == [] || !IsDigit(s[|s| - 1]) then 0 else 1 + TrailingDigits(s[..|s| - 1])
  }

  /**
   * Python's `str.strip()`: the result is the slice of `s` left after removing whitespace at
   * both ends, so it neither starts nor ends with whitespace.
   */
  function Strip(s: string): (r: string)
    ensures exists i :: StrippedAt(s, r, i)
    ensures r != [] ==> !IsSpace(r[0]) && !IsSpace(r[|r| - 1])
  {
    var lead := LeadingSpaces(s);
    var rest := s[lead..];
    var trail := TrailingSpaces(rest);
    var r := rest[..|rest| - trail];
    assert s[lead..lead + |r|] == r;
    assert forall j :: lead + |r| <= j < |s| ==> s[j] == rest[j - lead];
    assert StrippedAt(s, r, lead);
    r
  }

  /** `r` is the slice of `s` at `i`, and everything around it is whitespace. */
  predicate StrippedAt(s: string, r: string, i: int) {
    && 0 <= i <= |s| - |r| && s[i..i + |r|] == r
    && (forall j :: 0 <= j < i ==> IsSpace(s[j]))
    && (forall j :: i + |r| <= j < |s| ==> IsSpace(s[j]))
  }

  /** Python's `sep.join(parts)`. */
  function Join(parts: seq<string>, sep: string): string {
    if |parts| == 0 then []
    else if |parts| == 1 then parts[0]
    else parts[0] + sep + Join(parts[1..], sep)
  }

  /** Joining one more part at the end adds the separator and that part. */
  lemma {:induction false} JoinSnoc(parts: seq<string>, x: string, sep: string)
    ensures Join(parts + [x], sep) == if parts == [] then x else Join(parts, sep) + sep + x
  {
    if |parts| > 1 {
      assert (parts + [x])[1..] == parts[1..] + [x];
      JoinSnoc(parts[1..], x, sep);
    } else if |parts| == 1 {
      assert (parts + [x])[1..] == [x];
    }
  }

  /** Every part occurs in the joined string. */
  lemma {:induction false} JoinContainsParts(parts: seq<string>, sep: string, i: nat)
    requires i < |parts|
    ensures Contains(Join(parts, sep), parts[i])
  {
    if |parts| == 1 {
      ContainsSelf(parts[0]);
    } else if i == 0 {
      ContainsSelf(parts[0]);
      ContainsWithin([], parts[0], sep + Join(parts[1..], sep), parts[0]);
      assert [] + parts[0] + (sep + Join(parts[1..], sep)) == Join(parts, sep);
    } else {
      JoinContainsParts(parts[1..], sep, i - 1);
      ContainsWithin(parts[0] + sep, Join(parts[1..], sep), [], parts[i]);
      assert (parts[0] + sep) + Join(parts[1..], sep) + [] == Join(parts, sep);
    }
  }

  /**
   * Python's `s.split(sep)` for a one-character separator: the pieces between the separators,
   * empty pieces included, so that joining them back with the separator gives `s` again.
   */
  function Split(s: string, sep: char): (parts: seq<string>)
    ensures |parts| >= 1
    ensures forall k :: 0 <= k < |parts| ==> sep !in parts[k]
    ensures Join(parts, [sep]) == s
  {
    if s == [] then [[]]
    else
      var rest := Split(s[1..], sep);
      if s[0] == sep then
        assert ([[]] + rest)[1..] == rest;
        [[]] + rest
      else
        var first := [s[0]] + rest[0];
        assert sep !in first;
        assert ([first] + rest[1..])[1..] == rest[1..];
        [first] + rest[1..]
  }

  /** The length of the run of non-whitespace characters `s` starts with. */
  function WordLength(s: string): (k: nat)
    ensures k <= |s|
    ensures forall i :: 0 <= i < k ==> !IsSpace(s[i])
    ensures k < |s| ==> IsSpace(s[k])
  {
    if s == [] || IsSpace(s[0]) then 0 else 1 + WordLength(s[1..])
  }

  /** Python's `s.split()`: the maximal runs of non-whitespace characters, in order. */
  function Words(s: string): (ws: seq<string>)
    ensures forall k :: 0 <= k < |ws| ==> ws[k] != [] && forall i :: 0 <= i < |ws[k]| ==> !IsSpace(ws[k][i])
    decreases |s|
  {
    var lead := LeadingSpaces(s);
    var t := s[lead..];
    if t == [] then []
    else
      assert t[0] == s[lead];
      var k := WordLength(t);
      assert k > 0;
      [t[..k]] + Words(t[k..])
  }

  /** Python's `t in s` for strings: `t` occurs as a contiguous slice of `s`. */
  predicate Contains(s: string, t: string) {
    exists i | 0 <= i <= |s| - |t| :: OccursAt(s, t, i)
  }

  /** `t` occurs in `s` starting at index `i`. */
  predicate OccursAt(s: string, t: string, i: int) {
    0 <= i <= |s| - |t| && s[i..i + |t|] == t
  }

  lemma ContainsSelf(s: string)
    ensures Contains(s, s)
  {
    assert OccursAt(s, s, 0);
  }

  /** An occurrence stays an occurrence when text is added on either side. */
  lemma ContainsWithin(a: string, s: string, b: string, t: string)
    requires Contains(s, t)
    ensures Contains(a + s + b, t)
  {
    var i :| 0 <= i <= |s| - |t| && OccursAt(s, t, i);
    assert (a + s + b)[|a| + i..|a| + i + |t|] == s[i..i + |t|];
    assert OccursAt(a + s + b, t, |a| + i);
  }

  /**
   * Python's `s.replace(pat, rep)`: every occurrence of `pat`, found from left to right without
   * overlapping, replaced by `rep` (an empty `pat` inserts `rep` around every character).
   */
  function Replace(s: string, pat: string, rep: string): string
    decreases |s|
  {
    if pat == [] then
      if s == [] then rep else rep + [s[0]] + Replace(s[1..], pat, rep)
    else if pat <= s then rep + Replace(s[|pat|..], pat, rep)
    else if s == [] then []
    else [s[0]] + Replace(s[1..], pat, rep)
  }

  /** `rep` shares no character with `pat`. */
  predicate Disjoint(pat: string, rep: string) {
    forall i :: 0 <= i < |rep| ==> rep[i] !in pat
  }

  /**
   * A prefix of `Replace(s, pat, rep)` that contains no character of a non-empty `rep` was copied
   * unchanged from `s`.
   */
  lemma {:induction false} ReplaceCopiesPrefix(s: string, pat: string, rep: string, k: nat)
    requires pat != [] && rep != []
    requires k <= |Replace(s, pat, rep)|
    requires forall j :: 0 <= j < k ==> Replace(s, pat, rep)[j] !in rep
    ensures k <= |s| && Replace(s, pat, rep)[..k] == s[..k]
    decreases |s|
  {
    var r := Replace(s, pat, rep);
    if k == 0 {
    } else if pat <= s {
      ReplaceStartsWithRep(s, pat, rep);
      assert false;
    } else {
      assert s != [];
      var tail := Replace(s[1..], pat, rep);
      assert r == [s[0]] + tail;
      forall j | 0 <= j < k - 1 ensures tail[j] !in rep {
        assert tail[j] == r[j + 1];
      }
      ReplaceCopiesPrefix(s[1..], pat, rep, k - 1);
      assert r[..k] == [s[0]] + tail[..k - 1];
    }
  }

  lemma ReplaceStartsWithRep(s: string, pat: string, rep: string)
    requires pat != [] && pat <= s && rep != []
    ensures |Replace(s, pat, rep)| > 0 && Replace(s, pat, rep)[0] == rep[0]
  {
  }

  /** A non-empty `t` cannot start at a character that does not occur in it. */
  lemma FirstCharBlocks(s: string, t: string, i: int)
    requires t != [] && 0 <= i < |s| && s[i] !in t
    ensures !OccursAt(s, t, i)
  {
    assert t[0] in t;
    if i + |t| <= |s| {
      assert s[i..i + |t|][0] == s[i];
    }
  }

  /** `t` (non-empty) cannot occur where it would have to cover a character of `rep`. */
  lemma {:induction false} NoOccurrenceThrough(rep: string, rest: string, t: string)
    requires t != [] && Disjoint(t, rep)
    requires !Contains(rest, t)
    ensures !Contains(rep + rest, t)
    decreases |rep|
  {
    if rep != [] {
      NoOccurrenceThrough(rep[1..], rest, t);
      assert (rep + rest)[1..] == rep[1..] + rest;
      assert rep[0] !in t;
      assert (rep + rest)[0] == rep[0];
      FirstCharBlocks(rep + rest, t, 0);
      forall i | 0 < i <= |rep + rest| - |t| ensures !OccursAt(rep + rest, t, i) {
        if OccursAt(rep + rest, t, i) {
          assert (rep[1..] + rest)[i - 1..i - 1 + |t|] == t;
          assert OccursAt(rep[1..] + rest, t, i - 1);
        }
      }
    } else {
      assert rep + rest == rest;
    }
  }

  /**
   * Replacing every occurrence of a non-empty `pat` by a non-empty `rep` that shares no character
   * with it leaves no occurrence of `pat` behind.
   */
  lemma {:induction false} ReplaceRemovesAll(s: string, pat: string, rep: string)
    requires pat != [] && rep != [] && Disjoint(pat, rep)
    ensures !Contains(Replace(s, pat, rep), pat)
    decreases |s|
  {
    if pat <= s {
      ReplaceRemovesAll(s[|pat|..], pat, rep);
      NoOccurrenceThrough(rep, Replace(s[|pat|..], pat, rep), pat);
    } else if s != [] {
      var tail := Replace(s[1..], pat, rep);
      ReplaceRemovesAll(s[1..], pat, rep);
      var r := [s[0]] + tail;
      HeadOccurrenceIsPrefix(s, pat, rep);
      forall i | 0 < i <= |r| - |pat| ensures !OccursAt(r, pat, i) {
        if OccursAt(r, pat, i) {
          assert tail[i - 1..i - 1 + |pat|] == pat;
          assert OccursAt(tail, pat, i - 1);
        }
      }
    }
  }

  /** The replacement of `s` starts with `pat` only where `s` itself does. */
  lemma HeadOccurrenceIsPrefix(s: string, pat: string, rep: string)
    requires pat != [] && rep != [] && Disjoint(pat, rep) && s != []
    ensures OccursAt([s[0]] + Replace(s[1..], pat, rep), pat, 0) ==> pat <= s
  {
    var tail := Replace(s[1..], pat, rep);
    var r := [s[0]] + tail;
    if OccursAt(r, pat, 0) {
      forall j | 0 <= j < |pat| - 1 ensures tail[j] !in rep {
        assert tail[j] == pat[j + 1];
      }
      ReplaceCopiesPrefix(s[1..], pat, rep, |pat| - 1);
      assert s[..|pat|] == pat;
    }
  }

  /** `s.replace(c, '')` deletes every `c` and keeps only characters of `s`. */
  lemma {:induction false} ReplaceDeletes(s: string, c: char)
    ensures var r := Replace(s, [c], []);
      |r| <= |s| && forall i | 0 <= i < |r| :: r[i] != c && r[i] in s
    decreases |s|
  {
    if s != [] {
      ReplaceDeletes(s[1..], c);
      var tail := Replace(s[1..], [c], []);
      forall i | 0 <= i < |tail|
        ensures tail[i] in s
      {
        assert tail[i] in s[1..];
      }
    }
  }

  /** Python's `a < b` on strings: lexicographic comparison by code point. */
  predicate Less(a: string, b: string) {
    if a == [] then b != []
    else if b == [] then false
    else if a[0] != b[0] then a[0] < b[0]
    else Less(a[1..], b[1..])
  }

  lemma {:induction false} LessIrreflexive(a: string)
    ensures !Less(a, a)
  {
    if a != [] {
      LessIrreflexive(a[1..]);
    }
  }

  lemma {:induction false} LessTransitive(a: string, b: string, c: string)
    requires Less(a, b) && Less(b, c)
    ensures Less(a, c)
  {
    if a != [] && a[0] == b[0] && b[0] == c[0] {
      LessTransitive(a[1..], b[1..], c[1..]);
    }
  }

  /** Any two different strings are ordered one way or the other. */
  lemma {:induction false} LessTotal(a: string, b: string)
    requires a != b
    ensures Less(a, b) || Less(b, a)
  {
    if a != [] && b != [] && a[0] == b[0] {
      assert a == [a[0]] + a[1..] && b == [b[0]] + b[1..];
      LessTotal(a[1..], b[1..]);
    }
  }

  lemma {:induction false} LessAsymmetric(a: string, b: string)
    requires Less(a, b)
    ensures !Less(b, a)
  {
    if a != [] && b != [] && a[0] == b[0] {
      LessAsymmetric(a[1..], b[1..]);
    }
  }
}
