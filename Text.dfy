/**
  The string operations of Python's `str` that the uploader relies on:
  `endswith`, `rstrip('/')` and `strip()`.
*/
module Text {

  /** Python's `s.endswith(suffix)`. */
  predicate EndsWith(s: string, suffix: string) {
    |suffix| <= |s| && s[|s| - |suffix|..] == suffix
  }

  /** A string that ends with `suffix` is some front followed by `suffix`. */
  lemma EndsWithSplits(s: string, suffix: string)
    requires EndsWith(s, suffix)
    ensures s == s[..|s| - |suffix|] + suffix
  {
  }

  /** Whatever comes before it, a string ends with its own last part. */
  lemma EndsWithAppend(front: string, suffix: string)
    ensures EndsWith(front + suffix, suffix)
  {
  }

  /**
    The characters for which Python's `str.isspace()` holds, which are the
    characters `str.strip()` removes when called without an argument.
  */
  predicate IsSpace(c: char) {
    var n := c as int;
    || 0x09 <= n <= 0x0D
    || 0x1C <= n <= 0x20
    || n == 0x85 || n == 0xA0 || n == 0x1680
    || 0x2000 <= n <= 0x200A
    || n == 0x2028 || n == 0x2029 || n == 0x202F || n == 0x205F || n == 0x3000
  }

  predicate AllSpace(s: string) {
    forall i :: 0 <= i < |s| ==> IsSpace(s[i])
  }

  /**
    Python's `s.rstrip('/')`: the result is a prefix of `s`, everything it
    drops is a '/', and it does not itself end in '/'.
  */
  function RStripSlash(s: string): (r: string)
    ensures r <= s
    ensures forall i :: |r| <= i < |s| ==> s[i] == '/'
    ensures r == [] || r[|r| - 1] != '/'
  {
    if |s| > 0 && s[|s| - 1] == '/' then RStripSlash(s[..|s| - 1]) else s
  }

  /** Stripping the trailing slashes a second time changes nothing. */
  lemma RStripSlashIdempotent(s: string)
    ensures RStripSlash(RStripSlash(s)) == RStripSlash(s)
  {
  }

  /** Appending slashes to a string does not change what `rstrip('/')` keeps. */
  lemma {:induction false} RStripSlashIgnoresTrailingSlashes(s: string, slashes: string)
    requires forall i :: 0 <= i < |slashes| ==> slashes[i] == '/'
    ensures RStripSlash(s + slashes) == RStripSlash(s)
  {
    if slashes != [] {
      var shorter := slashes[..|slashes| - 1];
      assert (s + slashes)[|s + slashes| - 1] == '/';
      assert (s + slashes)[..|s + slashes| - 1] == s + shorter;
      RStripSlashIgnoresTrailingSlashes(s, shorter);
    } else {
      assert s + slashes == s;
    }
  }

  /** The number of whitespace characters at the front of `s`. */
  function LeadingSpace(s: string): (n: nat)
    ensures n <= |s| && AllSpace(s[..n])
    ensures n < |s| ==> !IsSpace(s[n])
  {
    if |s| == 0 || !IsSpace(s[0]) then 0 else 1 + LeadingSpace(s[1..])
  }

  /** The number of whitespace characters at the end of `s`. */
  function TrailingSpace(s: string): (n: nat)
    ensures n <= |s| && AllSpace(s[|s| - n..])
    ensures n < |s| ==> !IsSpace(s[|s| - n - 1])
  {
    if |s| == 0 || !IsSpace(s[|s| - 1]) then 0 else 1 + TrailingSpace(s[..|s| - 1])
  }

  /**
    Python's `s.strip()`: the result is the slice of `s` left after removing
    the whitespace on both sides, and it neither starts nor ends with
    whitespace.
  */
  function Strip(s: string): (r: string)
    ensures r == [] || (!IsSpace(r[0]) && !IsSpace(r[|r| - 1]))
    ensures LeadingSpace(s) + |r| <= |s|
    ensures s[LeadingSpace(s)..LeadingSpace(s) + |r|] == r
    ensures AllSpace(s[..LeadingSpace(s)]) && AllSpace(s[LeadingSpace(s) + |r|..])
  {
    var t := s[LeadingSpace(s)..];
    assert t != [] ==> !IsSpace(t[0]);
    t[..|t| - TrailingSpace(t)]
  }

  /** A string without whitespace at either end is its own `strip()`. */
  lemma StripKeepsTrimmed(s: string)
    requires s == [] || (!IsSpace(s[0]) && !IsSpace(s[|s| - 1]))
    ensures Strip(s) == s
  {
    assert LeadingSpace(s) == 0;
    assert TrailingSpace(s) == 0;
  }

  /** Stripping twice is stripping once. */
  lemma StripIdempotent(s: string)
    ensures Strip(Strip(s)) == Strip(s)
  {
    StripKeepsTrimmed(Strip(s));
  }
}
