/** The string operations the scraper applies: Python's `str.replace` with a
    single-character or an empty replacement, and the whitespace strip that
    `float()` applies to ASCII text. */
module Text {

  /** The ASCII whitespace characters, which `float()` strips from both ends of
      its argument. */
  predicate IsSpace(c: char) {
    c == ' ' || c == '\t' || c == '\n' || c == '\r' || c == '\U{0B}' || c == '\U{0C}'
  }

  predicate IsDigit(c: char) {
    '0' <= c <= '9'
  }

  /** `s.replace(from, to)` for one-character `from` and `to`. */
  function ReplaceChar(s: string, from: char, to: char): (r: string)
    ensures |r| == |s|
    ensures forall i :: 0 <= i < |s| ==> r[i] == if s[i] == from then to else s[i]
  {
    if s == [] then [] else [if s[0] == from then to else s[0]] + ReplaceChar(s[1..], from, to)
  }

  /** `pat` occurs in `s` starting at index `i`. */
  predicate OccursAt(pat: string, s: string, i: nat) {
    i + |pat| <= |s| && s[i..i + |pat|] == pat
  }

  predicate Occurs(pat: string, s: string) {
    exists i: nat | i <= |s| :: OccursAt(pat, s, i)
  }

  /** `s.replace(pat, "")`: scanning from the left, every non-overlapping
      occurrence of `pat` is dropped. */
  function RemoveAll(s: string, pat: string): (r: string)
    requires |pat| > 0
    ensures multiset(r) <= multiset(s)
    ensures forall c :: c !in pat ==> multiset(r)[c] == multiset(s)[c]
    ensures |pat| == 1 ==> forall i :: 0 <= i < |r| ==> r[i] != pat[0]
    decreases |s|
  {
    if |s| < |pat| then
      (if |pat| == 1 then assert s == []; s else s)
    else if s[..|pat|] == pat then
      assert s == pat + s[|pat|..];
      assert multiset(s) == multiset(pat) + multiset(s[|pat|..]);
      RemoveAll(s[|pat|..], pat)
    else
      assert s == [s[0]] + s[1..];
      assert multiset(s) == multiset([s[0]]) + multiset(s[1..]);
      [s[0]] + RemoveAll(s[1..], pat)
  }

  /** `idx` picks the characters of `r` out of `s`, in increasing positions. */
  predicate KeepsIndices(idx: seq<nat>, r: string, s: string) {
    && |idx| == |r|
    && (forall k :: 0 <= k < |idx| ==> idx[k] < |s| && r[k] == s[idx[k]])
    && (forall j, k :: 0 <= j < k < |idx| ==> idx[j] < idx[k])
  }

  /** `r` is `s` with some characters deleted and the others kept in order. */
  ghost predicate IsSubsequence(r: string, s: string) {
    exists idx :: KeepsIndices(idx, r, s)
  }

  function Shifted(idx: seq<nat>, m: nat): (shifted: seq<nat>)
    ensures |shifted| == |idx|
    ensures forall k :: 0 <= k < |idx| ==> shifted[k] == idx[k] + m
  {
    seq(|idx|, k requires 0 <= k < |idx| => idx[k] + m)
  }

  /** Every string is a subsequence of itself. */
  lemma SubsequenceReflexive(s: string)
    ensures IsSubsequence(s, s)
  {
    var idx := seq(|s|, k requires 0 <= k < |s| => k as nat);
    assert KeepsIndices(idx, s, s);
  }

  /** Deleting from a subsequence gives a subsequence. */
  lemma SubsequenceTransitive(r: string, t: string, s: string)
    requires IsSubsequence(r, t) && IsSubsequence(t, s)
    ensures IsSubsequence(r, s)
  {
    var i1 :| KeepsIndices(i1, r, t);
    var i2 :| KeepsIndices(i2, t, s);
    var idx := seq(|i1|, k requires 0 <= k < |i1| => i2[i1[k]]);
    assert KeepsIndices(idx, r, s);
  }

  /** A subsequence of a suffix is a subsequence of the whole. */
  lemma SubsequenceOfSuffix(r: string, s: string, m: nat)
    requires m <= |s| && IsSubsequence(r, s[m..])
    ensures IsSubsequence(r, s)
  {
    var idx :| KeepsIndices(idx, r, s[m..]);
    assert KeepsIndices(Shifted(idx, m), r, s);
  }

  /** Keeping a first character that both strings share preserves being a subsequence. */
  lemma SubsequenceCons(c: char, r: string, t: string)
    requires IsSubsequence(r, t)
    ensures IsSubsequence([c] + r, [c] + t)
  {
    var idx :| KeepsIndices(idx, r, t);
    assert KeepsIndices([0] + Shifted(idx, 1), [c] + r, [c] + t);
  }

  /** Removing every occurrence of `pat` keeps the other characters in order. */
  lemma {:induction false} RemoveAllSubsequence(s: string, pat: string)
    requires |pat| > 0
    ensures IsSubsequence(RemoveAll(s, pat), s)
    decreases |s|
  {
    if |s| < |pat| {
      assert RemoveAll(s, pat) == s;
      SubsequenceReflexive(s);
    } else if s[..|pat|] == pat {
      var rest := RemoveAll(s[|pat|..], pat);
      assert RemoveAll(s, pat) == rest;
      RemoveAllSubsequence(s[|pat|..], pat);
      SubsequenceOfSuffix(rest, s, |pat|);
    } else {
      var rest := RemoveAll(s[1..], pat);
      assert RemoveAll(s, pat) == [s[0]] + rest;
      RemoveAllSubsequence(s[1..], pat);
      SubsequenceCons(s[0], rest, s[1..]);
      assert [s[0]] + s[1..] == s;
    }
  }

  /** A string that holds no character starting `pat` is left as it is. */
  lemma {:induction false} RemoveAllAbsent(s: string, pat: string)
    requires |pat| > 0
    requires forall i :: 0 <= i < |s| ==> s[i] != pat[0]
    ensures RemoveAll(s, pat) == s
    decreases |s|
  {
    if |s| >= |pat| {
      assert s[..|pat|][0] != pat[0];
      RemoveAllAbsent(s[1..], pat);
    }
  }

  lemma ConcatAssoc(x: string, y: string, z: string)
    ensures (x + y) + z == x + (y + z)
  {
  }

  /** `s` does not hold `c`. */
  predicate Avoids(s: string, c: char) {
    forall i :: 0 <= i < |s| ==> s[i] != c
  }

  lemma AvoidsConcat(x: string, y: string, c: char)
    requires Avoids(x, c) && Avoids(y, c)
    ensures Avoids(x + y, c)
  {
    assert forall i :: |x| <= i < |x + y| ==> (x + y)[i] == y[i - |x|];
  }

  /** Text holding the one-character pattern `[c]` exactly once loses just that
      character: "1,234" without ',' is "1234". */
  lemma {:induction false} RemoveSingleOccurrence(x: string, c: char, y: string)
    requires Avoids(x, c) && Avoids(y, c)
    ensures RemoveAll(x + ([c] + y), [c]) == x + y
    decreases |x|
  {
    if x == [] {
      assert x + ([c] + y) == [c] + y;
      RemoveAllLeading([c], y);
      RemoveAllAbsent(y, [c]);
    } else {
      var s := x + ([c] + y);
      assert s[..1] != [c] by { assert s[..1][0] == x[0]; }
      assert s[1..] == x[1..] + ([c] + y);
      RemoveSingleOccurrence(x[1..], c, y);
      assert RemoveAll(s, [c]) == [s[0]] + RemoveAll(s[1..], [c]);
      assert [x[0]] + (x[1..] + y) == x + y;
    }
  }

  /** A leading occurrence of `pat` is dropped and the scan resumes after it. */
  lemma RemoveAllLeading(pat: string, s: string)
    requires |pat| > 0
    ensures RemoveAll(pat + s, pat) == RemoveAll(s, pat)
  {
    assert (pat + s)[..|pat|] == pat;
    assert (pat + s)[|pat|..] == s;
  }

  /** The leading whitespace `float()` ignores: the longest prefix of ASCII
      whitespace is removed. */
  function TrimStart(s: string): (r: string)
    ensures |r| <= |s| && r == s[|s| - |r|..]
    ensures forall i :: 0 <= i < |s| - |r| ==> IsSpace(s[i])
    ensures r == [] || !IsSpace(r[0])
  {
    if s != [] && IsSpace(s[0]) then TrimStart(s[1..]) else s
  }

  /** The trailing whitespace `float()` ignores: the longest suffix of ASCII
      whitespace is removed. */
  function TrimEnd(s: string): (r: string)
    ensures |r| <= |s| && r == s[..|r|]
    ensures forall i :: |r| <= i < |s| ==> IsSpace(s[i])
    ensures r == [] || !IsSpace(r[|r| - 1])
  {
    if s != [] && IsSpace(s[|s| - 1]) then TrimEnd(s[..|s| - 1]) else s
  }

  /** The whitespace `float()` ignores at both ends: leading, then trailing.
      What is left neither starts nor ends with whitespace. */
  function Trim(s: string): (t: string)
    ensures |t| <= |s|
    ensures t == [] || (!IsSpace(t[0]) && !IsSpace(t[|t| - 1]))
    ensures exists k: nat :: && OccursAt(t, s, k)
                             && (forall i :: 0 <= i < k ==> IsSpace(s[i]))
                             && (forall i :: k + |t| <= i < |s| ==> IsSpace(s[i]))
  {
    var start := TrimStart(s);
    var t := TrimEnd(start);
    assert t == [] || t[0] == start[0];
    var k: nat := |s| - |start|;
    TrimWindow(s, k, start, t);
    t
  }

  /** A window `t` at offset `k` of `s`, with only whitespace before it in `s`
      and after it in the suffix it was cut from, has only whitespace around
      it in `s`. */
  lemma TrimWindow(s: string, k: nat, start: string, t: string)
    requires k <= |s| && start == s[k..] && |t| <= |start| && t == start[..|t|]
    requires forall i :: |t| <= i < |start| ==> IsSpace(start[i])
    ensures OccursAt(t, s, k)
    ensures forall i :: k + |t| <= i < |s| ==> IsSpace(s[i])
  {
    assert s[k..k + |t|] == t;
    forall i | k + |t| <= i < |s| ensures IsSpace(s[i]) {
      assert s[i] == start[i - k];
    }
  }

  /** A string without whitespace at either end is left as it is. */
  lemma TrimUntrimmed(s: string)
    requires s == [] || (!IsSpace(s[0]) && !IsSpace(s[|s| - 1]))
    ensures Trim(s) == s
  {
  }
}
