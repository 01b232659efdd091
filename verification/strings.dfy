/** The three string operations of Rust's standard library the pipeline relies
    on: prefix and suffix tests (`starts_with`, `ends_with`), replace-every-
    occurrence (`str::replace`) and whitespace trimming (`str::trim`).
    Strings are sequences of Unicode scalar values, as Rust's `char` is. */
module Strings {

  predicate StartsWith(s: string, prefix: string) {
    |prefix| <= |s| && s[..|prefix|] == prefix
  }

  predicate EndsWith(s: string, suffix: string) {
    |suffix| <= |s| && s[|s| - |suffix|..] == suffix
  }

  /** `pat` appears somewhere in `s` as a contiguous piece. */
  predicate Occurs(s: string, pat: string) {
    exists i :: 0 <= i <= |s| - |pat| && StartsWith(s[i..], pat)
  }

  /** `str::replace` with an empty pattern: the empty string matches at every
      character boundary, the start and the end included. */
  function InsertAtBoundaries(s: string, rep: string): string {
    if s == [] then rep else rep + [s[0]] + InsertAtBoundaries(s[1..], rep)
  }

  /** `str::replace`: scans left to right, replaces the leftmost match of
      `pat`, resumes after it, so matches never overlap. */
  function ReplaceAll(s: string, pat: string, rep: string): (r: string)
    ensures pat != [] && |rep| >= |pat| ==> |r| >= |s|
    ensures pat != [] && rep == [] ==> |r| <= |s|
    decreases |s|
  {
    if pat == [] then InsertAtBoundaries(s, rep)
    else if StartsWith(s, pat) then rep + ReplaceAll(s[|pat|..], pat, rep)
    else if s == [] then []
    else [s[0]] + ReplaceAll(s[1..], pat, rep)
  }

  /** A matching prefix is replaced, and the scan resumes right after it. */
  lemma ReplaceAllLeadingMatch(pat: string, t: string, rep: string)
    requires pat != []
    ensures ReplaceAll(pat + t, pat, rep) == rep + ReplaceAll(t, pat, rep)
  {
    assert (pat + t)[..|pat|] == pat;
    assert (pat + t)[|pat|..] == t;
  }

  /** Where no match starts, the first character is copied and the scan
      moves on by one. */
  lemma ReplaceAllStep(s: string, pat: string, rep: string)
    requires pat != [] && s != [] && !StartsWith(s, pat)
    ensures ReplaceAll(s, pat, rep) == [s[0]] + ReplaceAll(s[1..], pat, rep)
  {
  }

  /** A suffix of `y` is a suffix of `x + y`. */
  lemma EndsWithAppend(x: string, y: string, suffix: string)
    requires EndsWith(y, suffix)
    ensures EndsWith(x + y, suffix)
  {
    assert (x + y)[|x + y| - |suffix|..] == y[|y| - |suffix|..];
  }

  /** A suffix without its first character is still a suffix. */
  lemma EndsWithTail(s: string, suffix: string)
    requires suffix != [] && EndsWith(s, suffix)
    ensures EndsWith(s, suffix[1..])
  {
    assert s[|s| - |suffix[1..]|..] == s[|s| - |suffix|..][1..];
  }

  lemma Assoc<T>(x: seq<T>, y: seq<T>, z: seq<T>)
    ensures x + (y + z) == (x + y) + z
  {
  }

  /** No match of `pat` in `a + b` starts inside `a`. */
  predicate NoMatchStartsIn(a: string, b: string, pat: string) {
    forall i :: 0 <= i < |a| ==> !StartsWith((a + b)[i..], pat)
  }

  lemma NoMatchStartsInTail(a: string, b: string, pat: string)
    requires a != [] && NoMatchStartsIn(a, b, pat)
    ensures !StartsWith(a + b, pat) && NoMatchStartsIn(a[1..], b, pat)
    ensures (a + b)[0] == a[0] && (a + b)[1..] == a[1..] + b && a == [a[0]] + a[1..]
  {
    assert (a + b)[0..] == a + b;
    assert a[1..] + b == (a + b)[1..];
    forall i | 0 <= i < |a[1..]|
      ensures !StartsWith((a[1..] + b)[i..], pat)
    {
      assert (a[1..] + b)[i..] == (a + b)[i + 1..];
    }
  }

  /** Characters where no match starts are copied as they are. */
  lemma {:induction false} ReplaceAllCopiesUnmatched(a: string, b: string, pat: string, rep: string)
    requires pat != [] && NoMatchStartsIn(a, b, pat)
    ensures ReplaceAll(a + b, pat, rep) == a + ReplaceAll(b, pat, rep)
    decreases |a|
  {
    if a == [] {
      assert a + b == b;
    } else {
      NoMatchStartsInTail(a, b, pat);
      ReplaceAllStep(a + b, pat, rep);
      ReplaceAllCopiesUnmatched(a[1..], b, pat, rep);
      calc {
        ReplaceAll(a + b, pat, rep);
        [a[0]] + ReplaceAll(a[1..] + b, pat, rep);
        [a[0]] + (a[1..] + ReplaceAll(b, pat, rep));
        { Assoc([a[0]], a[1..], ReplaceAll(b, pat, rep)); }
        ([a[0]] + a[1..]) + ReplaceAll(b, pat, rep);
      }
    }
  }

  /** A string with no occurrence of the pattern passes through unchanged. */
  lemma {:induction false} ReplaceAllAbsent(s: string, pat: string, rep: string)
    requires pat != []
    ensures !Occurs(s, pat) ==> ReplaceAll(s, pat, rep) == s
    decreases |s|
  {
    if s != [] && !Occurs(s, pat) {
      assert s[0..] == s;
      assert !StartsWith(s, pat);
      forall i | 0 <= i <= |s[1..]| - |pat|
        ensures !StartsWith(s[1..][i..], pat)
      {
        assert s[1..][i..] == s[i + 1..];
      }
      ReplaceAllAbsent(s[1..], pat, rep);
    }
  }

  /** Rust's `char::is_whitespace`: the Unicode White_Space property. */
  predicate IsWhitespace(c: char) {
    || ('\t' <= c <= '\r')
    || c == ' '
    || c == '\U{85}'
    || c == '\U{A0}'
    || c == '\U{1680}'
    || ('\U{2000}' <= c <= '\U{200A}')
    || c == '\U{2028}'
    || c == '\U{2029}'
    || c == '\U{202F}'
    || c == '\U{205F}'
    || c == '\U{3000}'
  }

  /** The White_Space table at work: ASCII and Unicode spaces count,
      zero-width characters and the byte-order mark do not. */
  lemma WhitespaceTable()
    ensures IsWhitespace(' ') && IsWhitespace('\t') && IsWhitespace('\n') && IsWhitespace('\r')
    ensures IsWhitespace('\U{A0}') && IsWhitespace('\U{2003}') && IsWhitespace('\U{3000}')
    ensures !IsWhitespace('a') && !IsWhitespace('0') && !IsWhitespace('/')
    ensures !IsWhitespace('\U{200B}') && !IsWhitespace('\U{FEFF}') && !IsWhitespace('\U{180E}')
  {
  }

  /** Rust's `str::trim_start`. */
  function TrimStart(s: string): string
    decreases |s|
  {
    if s != [] && IsWhitespace(s[0]) then TrimStart(s[1..]) else s
  }

  /** Rust's `str::trim_end`. */
  function TrimEnd(s: string): string
    decreases |s|
  {
    if s != [] && IsWhitespace(s[|s| - 1]) then TrimEnd(s[..|s| - 1]) else s
  }

  /** Rust's `str::trim`. */
  function Trim(s: string): string {
    TrimEnd(TrimStart(s))
  }

  /** Leading trimming keeps a suffix, cuts off only whitespace, and leaves no
      whitespace in front. */
  lemma {:induction false} TrimStartSpec(s: string)
    ensures |TrimStart(s)| <= |s| && TrimStart(s) == s[|s| - |TrimStart(s)|..]
    ensures forall k :: 0 <= k < |s| - |TrimStart(s)| ==> IsWhitespace(s[k])
    ensures TrimStart(s) != [] ==> !IsWhitespace(TrimStart(s)[0])
    decreases |s|
  {
    if s != [] && IsWhitespace(s[0]) {
      TrimStartSpec(s[1..]);
      assert forall k :: 1 <= k < |s| ==> s[k] == s[1..][k - 1];
    }
  }

  /** Trailing trimming keeps a prefix, cuts off only whitespace, and leaves no
      whitespace at the end. */
  lemma {:induction false} TrimEndSpec(s: string)
    ensures |TrimEnd(s)| <= |s| && TrimEnd(s) == s[..|TrimEnd(s)|]
    ensures forall k :: |TrimEnd(s)| <= k < |s| ==> IsWhitespace(s[k])
    ensures TrimEnd(s) != [] ==> !IsWhitespace(TrimEnd(s)[|TrimEnd(s)| - 1])
    decreases |s|
  {
    if s != [] && IsWhitespace(s[|s| - 1]) {
      TrimEndSpec(s[..|s| - 1]);
    }
  }

  /** `r` is the slice of `s` starting at `i`, and everything of `s` before
      and after that slice is whitespace. */
  predicate SliceAmidWhitespace(s: string, i: nat, r: string) {
    && i + |r| <= |s|
    && r == s[i..i + |r|]
    && (forall k :: 0 <= k < i ==> IsWhitespace(s[k]))
    && (forall k :: i + |r| <= k < |s| ==> IsWhitespace(s[k]))
  }

  /** Trimming yields the slice of `s` that neither starts nor ends with
      whitespace, everything around it being whitespace. */
  lemma TrimSpec(s: string)
    ensures exists i: nat :: SliceAmidWhitespace(s, i, Trim(s))
    ensures Trim(s) != [] ==> !IsWhitespace(Trim(s)[0]) && !IsWhitespace(Trim(s)[|Trim(s)| - 1])
  {
    var front := TrimStart(s);
    var r := TrimEnd(front);
    TrimStartSpec(s);
    TrimEndSpec(front);
    var i := |s| - |front|;
    assert front == s[i..] && r == front[..|r|];
    assert r == s[i..i + |r|];
    assert forall k :: i + |r| <= k < |s| ==> IsWhitespace(s[k]) by {
      forall k | i + |r| <= k < |s|
        ensures IsWhitespace(s[k])
      {
        assert s[k] == front[k - i];
      }
    }
    assert r != [] ==> r[0] == front[0];
    assert r == Trim(s);
    assert SliceAmidWhitespace(s, i, Trim(s));
  }

  /** Trimming is all-or-nothing on whitespace: a string is empty after
      trimming exactly when every character of it is whitespace. */
  lemma TrimEmptyIffAllWhitespace(s: string)
    ensures Trim(s) == [] <==> forall k :: 0 <= k < |s| ==> IsWhitespace(s[k])
  {
    var r := Trim(s);
    TrimSpec(s);
    var i: nat :| SliceAmidWhitespace(s, i, r);
    if r != [] {
      assert s[i] == r[0];
    }
  }

  /** A string already free of edge whitespace is its own trim, so trimming is
      idempotent. */
  lemma TrimFixedPoint(s: string)
    requires s != [] ==> !IsWhitespace(s[0]) && !IsWhitespace(s[|s| - 1])
    ensures Trim(s) == s
  {
    assert TrimStart(s) == s;
  }

  lemma TrimIdempotent(s: string)
    ensures Trim(Trim(s)) == Trim(s)
  {
    TrimSpec(s);
    TrimFixedPoint(Trim(s));
  }
}
