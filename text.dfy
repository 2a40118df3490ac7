/**
 * Trimming of strings, as Rust's `str::trim` and `str::trim_matches(c)` do it:
 * both remove every leading and every trailing character of a given set.
 * `trim` uses the whitespace set, restricted here to its ASCII members.
 */
module Text {

  /** The ASCII characters for which `char::is_whitespace` holds: tab, line feed,
      vertical tab, form feed, carriage return and space. */
  const AsciiWhitespace: set<char> := {'\t', '\n', '\U{000B}', '\U{000C}', '\r', ' '}

  /** `r` is what is left of `s` after peeling characters of `cs` off its two ends. */
  ghost predicate Peels(s: string, cs: set<char>, r: string)
    decreases |s|
  {
    || s == r
    || (|s| > 0 && s[0] in cs && Peels(s[1..], cs, r))
    || (|s| > 0 && s[|s| - 1] in cs && Peels(s[..|s| - 1], cs, r))
  }

  lemma {:induction false} PeelsShorter(s: string, cs: set<char>, r: string)
    requires Peels(s, cs, r)
    ensures |r| <= |s|
    ensures |r| == |s| ==> r == s
    decreases |s|
  {
    if s == r {
    } else if |s| > 0 && s[0] in cs && Peels(s[1..], cs, r) {
      PeelsShorter(s[1..], cs, r);
    } else {
      PeelsShorter(s[..|s| - 1], cs, r);
    }
  }

  lemma {:induction false} PeelsTransitive(a: string, cs: set<char>, b: string, c: string)
    requires Peels(a, cs, b) && Peels(b, cs, c)
    ensures Peels(a, cs, c)
    decreases |a|
  {
    if a == b {
    } else if |a| > 0 && a[0] in cs && Peels(a[1..], cs, b) {
      PeelsTransitive(a[1..], cs, b, c);
    } else {
      PeelsTransitive(a[..|a| - 1], cs, b, c);
    }
  }

  lemma {:induction false} PeelsWiden(s: string, cs: set<char>, ds: set<char>, r: string)
    requires cs <= ds && Peels(s, cs, r)
    ensures Peels(s, ds, r)
    decreases |s|
  {
    if s == r {
    } else if |s| > 0 && s[0] in cs && Peels(s[1..], cs, r) {
      PeelsWiden(s[1..], cs, ds, r);
    } else {
      PeelsWiden(s[..|s| - 1], cs, ds, r);
    }
  }

  /** What is peeled off is a contiguous piece of the original. */
  lemma {:induction false} PeelsInfix(s: string, cs: set<char>, r: string)
    requires Peels(s, cs, r)
    ensures exists lo, hi :: 0 <= lo <= hi <= |s| && s[lo..hi] == r
    decreases |s|
  {
    if s == r {
      assert s[0..|s|] == r;
    } else if |s| > 0 && s[0] in cs && Peels(s[1..], cs, r) {
      PeelsInfix(s[1..], cs, r);
      var lo, hi :| 0 <= lo <= hi <= |s| - 1 && s[1..][lo..hi] == r;
      assert s[lo + 1..hi + 1] == r;
    } else {
      PeelsInfix(s[..|s| - 1], cs, r);
      var lo, hi :| 0 <= lo <= hi <= |s| - 1 && s[..|s| - 1][lo..hi] == r;
      assert s[lo..hi] == r;
    }
  }

  function TrimLeft(s: string, cs: set<char>): (r: string)
    ensures Peels(s, cs, r)
    ensures |r| > 0 ==> r[0] !in cs
    ensures |s| > 0 && s[0] !in cs ==> r == s
    ensures |s| > 0 && s[|s| - 1] !in cs ==> |r| > 0 && r[|r| - 1] == s[|s| - 1]
    decreases |s|
  {
    if |s| > 0 && s[0] in cs then TrimLeft(s[1..], cs) else s
  }

  function TrimRight(s: string, cs: set<char>): (r: string)
    ensures Peels(s, cs, r)
    ensures |r| > 0 ==> r[|r| - 1] !in cs
    ensures |s| > 0 && s[|s| - 1] !in cs ==> r == s
    ensures |s| > 0 && s[0] !in cs ==> |r| > 0 && r[0] == s[0]
    decreases |s|
  {
    if |s| > 0 && s[|s| - 1] in cs then TrimRight(s[..|s| - 1], cs) else s
  }

  /** Both ends of `s` stripped of every character in `cs`. */
  function TrimSet(s: string, cs: set<char>): (r: string)
    ensures Peels(s, cs, r) && |r| <= |s|
    ensures |r| > 0 ==> r[0] !in cs && r[|r| - 1] !in cs
    ensures |s| > 0 && (s[0] in cs || s[|s| - 1] in cs) ==> |r| < |s|
    ensures |s| > 0 && s[0] !in cs ==> |r| > 0 && r[0] == s[0]
    ensures |s| > 0 && s[|s| - 1] !in cs ==> |r| > 0 && r[|r| - 1] == s[|s| - 1]
  {
    var left := TrimLeft(s, cs);
    PeelsTransitive(s, cs, left, TrimRight(left, cs));
    PeelsShorter(s, cs, left);
    PeelsShorter(left, cs, TrimRight(left, cs));
    TrimRight(left, cs)
  }

  /** Trimming a second time changes nothing. */
  lemma TrimSetIdempotent(s: string, cs: set<char>)
    ensures TrimSet(TrimSet(s, cs), cs) == TrimSet(s, cs)
  {
  }

  /** `str::trim`, restricted to ASCII whitespace. */
  function Trim(s: string): (r: string)
    ensures Peels(s, AsciiWhitespace, r) && |r| <= |s|
    ensures |r| > 0 ==> r[0] !in AsciiWhitespace && r[|r| - 1] !in AsciiWhitespace
    ensures |s| > 0 && s[|s| - 1] !in AsciiWhitespace ==> |r| > 0
  {
    TrimSet(s, AsciiWhitespace)
  }

  /** `str::trim_matches(c)` for a single character `c`. */
  function TrimMatches(s: string, c: char): (r: string)
    ensures Peels(s, {c}, r) && |r| <= |s|
    ensures |r| > 0 ==> r[0] != c && r[|r| - 1] != c
    ensures |s| > 0 && (s[0] == c || s[|s| - 1] == c) ==> |r| < |s|
    ensures |s| > 0 && s[0] != c ==> |r| > 0 && r[0] == s[0]
    ensures |s| > 0 && s[|s| - 1] != c ==> |r| > 0 && r[|r| - 1] == s[|s| - 1]
  {
    TrimSet(s, {c})
  }
}
