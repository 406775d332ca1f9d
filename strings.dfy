/** The `java.lang.String` operations the proxy relies on, over `seq<char>`. */
module Strings {

  /** `s.startsWith(p)` */
  predicate StartsWith(s: string, p: string) {
    |p| <= |s| && s[..|p|] == p
  }

  /** `s.contains(p)`: `p` occurs in `s` at some position. */
  predicate Contains(s: string, p: string) {
    exists i :: 0 <= i <= |s| && StartsWith(s[i..], p)
  }

  /** ASCII lower-casing of one character. */
  function LowerChar(c: char): char {
    if 'A' <= c <= 'Z' then (c as int - 'A' as int + 'a' as int) as char else c
  }

  /** `s.toLowerCase()`, restricted to ASCII letters. */
  function Lower(s: string): (r: string)
    ensures |r| == |s|
    ensures forall i :: 0 <= i < |s| ==> r[i] == LowerChar(s[i])
  {
    if s == [] then [] else [LowerChar(s[0])] + Lower(s[1..])
  }

  /** `a.equalsIgnoreCase(b)`, restricted to ASCII letters. */
  predicate EqualsIgnoreCase(a: string, b: string) {
    Lower(a) == Lower(b)
  }

  /**
   * `s.replace(pat, rep)`: every non-overlapping occurrence of `pat`,
   * scanning from the left, is replaced by `rep`.
   */
  function ReplaceAll(s: string, pat: string, rep: string): (r: string)
    requires |pat| > 0
    ensures |rep| == |pat| ==> |r| == |s|
    ensures |rep| <= |pat| ==> |r| <= |s|
    ensures rep == pat ==> r == s
    ensures StartsWith(s, pat) ==> StartsWith(r, rep)
    ensures s != [] && !StartsWith(s, pat) ==> r != [] && r[0] == s[0]
    decreases |s|
  {
    if |s| < |pat| then s
    else if s[..|pat|] == pat then
      assert s == pat + s[|pat|..];
      rep + ReplaceAll(s[|pat|..], pat, rep)
    else [s[0]] + ReplaceAll(s[1..], pat, rep)
  }

  /** A string without any occurrence of `pat` is left as it is. */
  lemma {:induction false} ReplaceAllAbsent(s: string, pat: string, rep: string)
    requires |pat| > 0
    requires !Contains(s, pat)
    ensures ReplaceAll(s, pat, rep) == s
    decreases |s|
  {
    if |s| >= |pat| {
      assert s[0..] == s;
      assert s[..|pat|] != pat;
      forall i | 0 <= i <= |s[1..]|
        ensures !StartsWith(s[1..][i..], pat)
      {
        assert s[1..][i..] == s[i + 1..];
      }
      ReplaceAllAbsent(s[1..], pat, rep);
    }
  }

  /** A leading occurrence of `pat` is replaced and the scan continues after it. */
  lemma ReplaceAllLead(pat: string, rest: string, rep: string)
    requires |pat| > 0
    ensures ReplaceAll(pat + rest, pat, rep) == rep + ReplaceAll(rest, pat, rep)
  {
    assert (pat + rest)[..|pat|] == pat;
    assert (pat + rest)[|pat|..] == rest;
  }

  /**
   * Prepending characters none of which can start `p` creates no
   * occurrence of `p`.
   */
  lemma NoOccurrenceAdded(lead: string, rest: string, p: string)
    requires |p| > 0
    requires forall k :: 0 <= k < |lead| ==> lead[k] != p[0]
    requires !Contains(rest, p)
    ensures !Contains(lead + rest, p)
  {
    var s := lead + rest;
    forall i | 0 <= i <= |s|
      ensures !StartsWith(s[i..], p)
    {
      if i < |lead| {
        assert s[i..][0] == lead[i];
      } else {
        assert s[i..] == rest[i - |lead|..];
      }
    }
  }

  /** A string not starting with `p` and without `p` in its tail has no `p` at all. */
  lemma NotContainsCons(c: char, t: string, p: string)
    requires !Contains(t, p) && !StartsWith([c] + t, p)
    ensures !Contains([c] + t, p)
  {
    var s := [c] + t;
    forall i | 0 <= i <= |s| ensures !StartsWith(s[i..], p) {
      if i > 0 {
        assert s[i..] == t[i - 1..];
      }
    }
  }
}
