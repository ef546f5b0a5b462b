/**
 * The two string operations the build relies on: Python's `str.replace`
 * (which rewrites every occurrence, not only a leading one) and the
 * code-point order Python uses to compare two strings.
 */
module Strings {

  /** `pat` starts at position `i` of `s`. */
  predicate OccursAt(pat: string, s: string, i: nat)
  {
    i + |pat| <= |s| && s[i..i + |pat|] == pat
  }

  /** `pat` occurs somewhere in `s`. */
  predicate Occurs(pat: string, s: string)
  {
    exists i: nat | i <= |s| :: OccursAt(pat, s, i)
  }

  /** `rep` before every character of `s` and once more at the end: Python's `s.replace("", rep)`. */
  function Interleave(s: string, rep: string): (r: string)
    ensures |r| == |s| + (|s| + 1) * |rep|
  {
    if s == [] then rep else rep + [s[0]] + Interleave(s[1..], rep)
  }

  /**
   * Python's `s.replace(pat, rep)`: scanning left to right, every
   * non-overlapping occurrence of `pat` is replaced by `rep`.
   */
  function ReplaceAll(s: string, pat: string, rep: string): (r: string)
    ensures pat != [] && rep == pat ==> r == s
    decreases |s|
  {
    if pat == [] then Interleave(s, rep)
    else if |pat| <= |s| && s[..|pat|] == pat then
      assert s == s[..|pat|] + s[|pat|..];
      rep + ReplaceAll(s[|pat|..], pat, rep)
    else if s == [] then []
    else [s[0]] + ReplaceAll(s[1..], pat, rep)
  }

  /** Replacement of a leading `pat` only; any other occurrence is left alone. */
  function ReplacePrefix(s: string, pat: string, rep: string): string
  {
    if pat <= s then rep + s[|pat|..] else s
  }

  /** A string in which `pat` does not occur is returned unchanged by `ReplaceAll`. */
  lemma {:induction false} ReplaceAllNoOccurrence(s: string, pat: string, rep: string)
    requires pat != []
    requires !Occurs(pat, s)
    ensures ReplaceAll(s, pat, rep) == s
    decreases |s|
  {
    if s != [] {
      assert !OccursAt(pat, s, 0);
      forall i: nat | i <= |s[1..]| ensures !OccursAt(pat, s[1..], i) {
        assert !OccursAt(pat, s, i + 1);
      }
      ReplaceAllNoOccurrence(s[1..], pat, rep);
    }
  }

  /** A leading `pat` is replaced, and the scan resumes right after it. */
  lemma ReplaceAllLeading(pat: string, rest: string, rep: string)
    requires pat != []
    ensures ReplaceAll(pat + rest, pat, rep) == rep + ReplaceAll(rest, pat, rep)
  {
    assert (pat + rest)[..|pat|] == pat;
    assert (pat + rest)[|pat|..] == rest;
  }

  /** A character that cannot start `pat` is copied, and the scan moves on. */
  lemma ReplaceAllSkip(c: char, rest: string, pat: string, rep: string)
    requires pat != [] && c != pat[0]
    ensures ReplaceAll([c] + rest, pat, rep) == [c] + ReplaceAll(rest, pat, rep)
  {
    assert ([c] + rest)[1..] == rest;
  }

  /** A string shorter than `pat` holds no occurrence of it. */
  lemma ReplaceAllShort(s: string, pat: string, rep: string)
    requires pat != [] && |s| < |pat|
    ensures ReplaceAll(s, pat, rep) == s
  {
    ReplaceAllNoOccurrence(s, pat, rep);
  }

  /** Characters none of which can start `pat` are copied, and the scan moves past them. */
  lemma {:induction false} ReplaceAllSkipAll(pre: string, rest: string, pat: string, rep: string)
    requires pat != [] && pat[0] !in pre
    ensures ReplaceAll(pre + rest, pat, rep) == pre + ReplaceAll(rest, pat, rep)
  {
    if pre != [] {
      var c, more := pre[0], pre[1..];
      assert pre == [c] + more && c != pat[0] && pat[0] !in more;
      assert pre + rest == [c] + (more + rest);
      ReplaceAllSkip(c, more + rest, pat, rep);
      ReplaceAllSkipAll(more, rest, pat, rep);
    } else {
      assert pre + rest == rest;
    }
  }

  /**
   * `pat`, then text that cannot start `pat`, then `pat` again and a tail
   * in which it does not occur: both occurrences are replaced.
   */
  lemma ReplaceAllTwice(pat: string, pre: string, tail: string, rep: string)
    requires pat != [] && pat[0] !in pre && !Occurs(pat, tail)
    ensures ReplaceAll(pat + pre + pat + tail, pat, rep) == rep + pre + rep + tail
  {
    var last := pat + tail;
    ReplaceAllLeadingSkip(pat, pre, last, rep);
    ReplaceAllLast(pat, tail, rep);
    assert pat + pre + pat + tail == pat + pre + last;
    assert rep + pre + (rep + tail) == rep + pre + rep + tail;
  }

  /** A leading `pat` and text that cannot start `pat`: the first is replaced, the second copied. */
  lemma ReplaceAllLeadingSkip(pat: string, pre: string, rest: string, rep: string)
    requires pat != [] && pat[0] !in pre
    ensures ReplaceAll(pat + pre + rest, pat, rep) == rep + pre + ReplaceAll(rest, pat, rep)
  {
    assert pat + pre + rest == pat + (pre + rest);
    ReplaceAllLeading(pat, pre + rest, rep);
    ReplaceAllSkipAll(pre, rest, pat, rep);
  }

  /** `pat` and a tail in which it does not occur: only `pat` is replaced. */
  lemma ReplaceAllLast(pat: string, tail: string, rep: string)
    requires pat != [] && !Occurs(pat, tail)
    ensures ReplaceAll(pat + tail, pat, rep) == rep + tail
  {
    ReplaceAllLeading(pat, tail, rep);
    ReplaceAllNoOccurrence(tail, pat, rep);
  }

  /** A leading `pat` followed by text none of whose characters can start it: only the first is replaced. */
  lemma ReplaceAllOnce(pat: string, rest: string, rep: string)
    requires pat != [] && pat[0] !in rest
    ensures ReplaceAll(pat + rest, pat, rep) == rep + rest
  {
    ReplaceAllLeading(pat, rest, rep);
    ReplaceAllSkipAll(rest, [], pat, rep);
    assert rest + [] == rest;
  }

  /** A pattern that ends in `c` does not occur in a string without `c`. */
  lemma NoOccurrenceWithout(pat: string, s: string, c: char)
    requires pat != [] && pat[|pat| - 1] == c && c !in s
    ensures !Occurs(pat, s)
  {
    forall i: nat | i <= |s| ensures !OccursAt(pat, s, i) {
      if i + |pat| <= |s| {
        assert s[i..i + |pat|][|pat| - 1] == s[i + |pat| - 1];
      }
    }
  }

  /** When `pat` leads `s` and never recurs after it, both replacements agree. */
  lemma ReplaceAllIsReplacePrefix(s: string, pat: string, rep: string)
    requires pat != [] && pat <= s
    requires !Occurs(pat, s[|pat|..])
    ensures ReplaceAll(s, pat, rep) == ReplacePrefix(s, pat, rep)
  {
    assert s == pat + s[|pat|..];
    ReplaceAllLeading(pat, s[|pat|..], rep);
    ReplaceAllNoOccurrence(s[|pat|..], pat, rep);
  }

  /** Python's `a <= b` on strings: lexicographic by code point, a proper prefix first. */
  predicate LexLe(a: string, b: string)
  {
    a == [] || (b != [] && (a[0] < b[0] || (a[0] == b[0] && LexLe(a[1..], b[1..]))))
  }

  lemma {:induction false} LexLeTotal(a: string, b: string)
    ensures LexLe(a, b) || LexLe(b, a)
  {
    if a != [] && b != [] && a[0] == b[0] {
      LexLeTotal(a[1..], b[1..]);
    }
  }

  lemma {:induction false} LexLeAntisymmetric(a: string, b: string)
    requires LexLe(a, b) && LexLe(b, a)
    ensures a == b
  {
    if a != [] && b != [] {
      LexLeAntisymmetric(a[1..], b[1..]);
      assert a == [a[0]] + a[1..] && b == [b[0]] + b[1..];
    }
  }

  lemma {:induction false} LexLeTransitive(a: string, b: string, c: string)
    requires LexLe(a, b) && LexLe(b, c)
    ensures LexLe(a, c)
  {
    if a != [] && b != [] && c != [] && a[0] == b[0] && b[0] == c[0] {
      LexLeTransitive(a[1..], b[1..], c[1..]);
    }
  }
}
