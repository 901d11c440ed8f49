/** The few operations on Python `str` values that the backend relies on: whitespace,
    `strip()`, prefix slicing `s[:n]`, `startswith`, the substring test `in` and
    `replace`. Characters are Unicode scalar values, as Python's code points are. */
module PyText {

  /** `c.isspace()`: the characters Python's `str.strip()` removes and the regular
      expression class `\s` matches in a `str` pattern. */
  predicate IsSpace(c: char) {
    || c == ' '
    || ('\t' <= c <= '\r')
    || ('\U{1c}' <= c <= '\U{1f}')
    || c == '\U{85}' || c == '\U{a0}' || c == '\U{1680}'
    || ('\U{2000}' <= c <= '\U{200a}')
    || c == '\U{2028}' || c == '\U{2029}' || c == '\U{202f}' || c == '\U{205f}' || c == '\U{3000}'
  }

  predicate AllSpace(s: string) {
    forall k :: 0 <= k < |s| ==> IsSpace(s[k])
  }

  /** `s.lstrip()` */
  function LStrip(s: string): (r: string)
    ensures |r| <= |s| && r == s[|s| - |r|..]
    ensures AllSpace(s[..|s| - |r|])
    ensures r == [] || !IsSpace(r[0])
  {
    if s != [] && IsSpace(s[0]) then LStrip(s[1..]) else s
  }

  /** `s.rstrip()` */
  function RStrip(s: string): (r: string)
    ensures |r| <= |s| && r == s[..|r|]
    ensures AllSpace(s[|r|..])
    ensures r == [] || !IsSpace(r[|r| - 1])
  {
    if s != [] && IsSpace(s[|s| - 1]) then RStrip(s[..|s| - 1]) else s
  }

  /** The number of whitespace characters that lead `s`. */
  function LeadingSpace(s: string): nat
  {
    |s| - |LStrip(s)|
  }

  /** `s.strip()`: `s` is whitespace, then the result, then whitespace, and the result
      neither starts nor ends with whitespace. */
  function Strip(s: string): (r: string)
    ensures LeadingSpace(s) + |r| <= |s|
    ensures r == s[LeadingSpace(s)..LeadingSpace(s) + |r|]
    ensures AllSpace(s[..LeadingSpace(s)]) && AllSpace(s[LeadingSpace(s) + |r|..])
    ensures r == [] || (!IsSpace(r[0]) && !IsSpace(r[|r| - 1]))
  {
    var t := LStrip(s);
    var r := RStrip(t);
    assert s[LeadingSpace(s) + |r|..] == t[|r|..];
    r
  }

  lemma {:induction false} LStripSpaces(a: string, t: string)
    requires AllSpace(a) && (t == [] || !IsSpace(t[0]))
    ensures LStrip(a + t) == t
    decreases |a|
  {
    if a != [] {
      assert (a + t)[1..] == a[1..] + t;
      LStripSpaces(a[1..], t);
    } else {
      assert a + t == t;
    }
  }

  lemma {:induction false} RStripSpaces(t: string, b: string)
    requires AllSpace(b) && (t == [] || !IsSpace(t[|t| - 1]))
    ensures RStrip(t + b) == t
    decreases |b|
  {
    if b != [] {
      assert (t + b)[..|t + b| - 1] == t + b[..|b| - 1];
      RStripSpaces(t, b[..|b| - 1]);
    } else {
      assert t + b == t;
    }
  }

  /** Whitespace on both sides of a string is exactly what `strip()` removes. */
  lemma StripSurrounded(a: string, m: string, b: string)
    requires AllSpace(a) && AllSpace(b)
    requires m == [] || (!IsSpace(m[0]) && !IsSpace(m[|m| - 1]))
    ensures Strip(a + m + b) == m
  {
    if m == [] {
      assert a + m + b == (a + b) + [];
      LStripSpaces(a + b, []);
    } else {
      assert a + m + b == a + (m + b);
      LStripSpaces(a, m + b);
      RStripSpaces(m, b);
    }
  }

  /** Stripping twice is stripping once. */
  lemma StripIdempotent(s: string)
    ensures Strip(Strip(s)) == Strip(s)
  {
    StripSurrounded([], Strip(s), []);
    assert [] + Strip(s) + [] == Strip(s);
  }

  /** `s[:n]` for a non-negative `n`. */
  function Take(s: string, n: nat): (r: string)
    ensures |r| == if n < |s| then n else |s|
    ensures r <= s
  {
    if n < |s| then s[..n] else s
  }

  /** The pattern occurs in `s` starting at index `i`. */
  predicate OccursAt(pat: string, s: string, i: nat) {
    i + |pat| <= |s| && s[i..i + |pat|] == pat
  }

  /** `pat in s`: the pattern occurs somewhere in `s`. */
  predicate Occurs(pat: string, s: string) {
    exists i: nat | i <= |s| :: OccursAt(pat, s, i)
  }

  /** `s.replace(pat, rep)` for a non-empty pattern: occurrences are found from the
      left, do not overlap, and the text a replacement produces is not searched again. */
  function Replace(s: string, pat: string, rep: string): (r: string)
    requires pat != []
    ensures rep == pat ==> r == s
    ensures |rep| == |pat| ==> |r| == |s|
    ensures |rep| <= |pat| ==> |r| <= |s|
    decreases |s|
  {
    if |s| < |pat| then s
    else if s[..|pat|] == pat then rep + Replace(s[|pat|..], pat, rep)
    else [s[0]] + Replace(s[1..], pat, rep)
  }

  /** A string in which the pattern does not occur passes through `replace` unchanged. */
  lemma {:induction false} ReplaceAbsent(s: string, pat: string, rep: string)
    requires pat != [] && !Occurs(pat, s)
    ensures Replace(s, pat, rep) == s
    decreases |s|
  {
    if |s| >= |pat| {
      assert s[..|pat|] != pat by {
        assert !OccursAt(pat, s, 0);
      }
      assert !Occurs(pat, s[1..]) by {
        forall i: nat | OccursAt(pat, s[1..], i)
          ensures false
        {
          assert s[1..][i..i + |pat|] == s[i + 1..i + 1 + |pat|];
          assert OccursAt(pat, s, i + 1);
        }
      }
      ReplaceAbsent(s[1..], pat, rep);
      assert Replace(s, pat, rep) == [s[0]] + Replace(s[1..], pat, rep);
      assert [s[0]] + s[1..] == s;
    }
  }

  /** Removing a pattern that leads a string which does not otherwise contain it
      leaves exactly the rest. */
  lemma RemoveLeading(pat: string, rest: string)
    requires pat != [] && !Occurs(pat, rest)
    ensures Replace(pat + rest, pat, "") == rest
  {
    var s := pat + rest;
    assert s[..|pat|] == pat;
    assert s[|pat|..] == rest;
    ReplaceAbsent(rest, pat, "");
  }

  /** `s.replace(a, b)` for single characters maps each character on its own. */
  lemma {:induction false} ReplaceChar(s: string, a: char, b: char)
    ensures |Replace(s, [a], [b])| == |s|
    ensures forall k :: 0 <= k < |s| ==> Replace(s, [a], [b])[k] == if s[k] == a then b else s[k]
    decreases |s|
  {
    if |s| >= 1 {
      ReplaceChar(s[1..], a, b);
      var tail := Replace(s[1..], [a], [b]);
      if s[..1] == [a] {
        assert Replace(s, [a], [b]) == [b] + tail;
      } else {
        assert Replace(s, [a], [b]) == [s[0]] + tail;
      }
    }
  }
}
