/** The Python string operations the script relies on: `str.strip()`,
    `str.startswith`, the substring test `t in s`, and `str.lower()`
    (restricted to ASCII letters). */
module Text {

  /** Python's `str.isspace()` on a single character: the ASCII controls
      TAB to CR, the four information separators, NEL, NBSP and the Unicode
      space, line and paragraph separators. */
  predicate IsSpace(c: char) {
    c == ' ' || ('\t' <= c <= '\r') || ('\U{1C}' <= c <= '\U{1F}')
    || c == '\U{85}' || c == '\U{A0}' || c == '\U{1680}'
    || ('\U{2000}' <= c <= '\U{200A}') || c == '\U{2028}' || c == '\U{2029}'
    || c == '\U{202F}' || c == '\U{205F}' || c == '\U{3000}'
  }

  /** Leading whitespace removed: what is kept is a suffix of `s` that
      does not start with whitespace. */
  function StripLeading(s: string): (r: string)
    ensures |r| <= |s| && r == s[|s| - |r|..]
    ensures r == [] || !IsSpace(r[0])
    decreases |s|
  {
    if |s| > 0 && IsSpace(s[0]) then StripLeading(s[1..]) else s
  }

  /** Trailing whitespace removed: what is kept is a prefix of `s` that
      does not end with whitespace. */
  function StripTrailing(s: string): (r: string)
    ensures |r| <= |s| && r == s[..|r|]
    ensures r == [] || !IsSpace(r[|r| - 1])
    decreases |s|
  {
    if |s| > 0 && IsSpace(s[|s| - 1]) then StripTrailing(s[..|s| - 1]) else s
  }

  /** What StripLeading drops is whitespace only. */
  lemma {:induction false} StripLeadingDropsSpace(s: string, i: nat)
    requires i < |s| - |StripLeading(s)|
    ensures IsSpace(s[i])
    decreases |s|
  {
    if i > 0 {
      StripLeadingDropsSpace(s[1..], i - 1);
    }
  }

  /** What StripTrailing drops is whitespace only. */
  lemma {:induction false} StripTrailingDropsSpace(s: string, i: nat)
    requires |StripTrailing(s)| <= i < |s|
    ensures IsSpace(s[i])
    decreases |s|
  {
    if i < |s| - 1 {
      StripTrailingDropsSpace(s[..|s| - 1], i);
    }
  }

  /** `s.strip()`: the result neither starts nor ends with whitespace; by
      the two lemmas above, only whitespace was cut off either side. */
  function Strip(s: string): (r: string)
    ensures r == [] || (!IsSpace(r[0]) && !IsSpace(r[|r| - 1]))
    ensures |r| <= |s|
  {
    StripTrailing(StripLeading(s))
  }

  /** `r` sits in `s` at index `i`, with only whitespace before and after
      it. */
  predicate SpaceAround(s: string, r: string, i: nat) {
    i + |r| <= |s| && r == s[i..i + |r|] &&
    (forall k :: 0 <= k < i ==> IsSpace(s[k])) &&
    (forall k :: i + |r| <= k < |s| ==> IsSpace(s[k]))
  }

  /** Everything StripLeading drops is whitespace. */
  lemma StripLeadingAllSpace(s: string)
    ensures forall k :: 0 <= k < |s| - |StripLeading(s)| ==> IsSpace(s[k])
  {
    forall k | 0 <= k < |s| - |StripLeading(s)|
      ensures IsSpace(s[k])
    {
      StripLeadingDropsSpace(s, k);
    }
  }

  /** Everything StripTrailing drops is whitespace. */
  lemma StripTrailingAllSpace(s: string)
    ensures forall k :: |StripTrailing(s)| <= k < |s| ==> IsSpace(s[k])
  {
    forall k | |StripTrailing(s)| <= k < |s|
      ensures IsSpace(s[k])
    {
      StripTrailingDropsSpace(s, k);
    }
  }

  /** A prefix of a suffix of `s` is a slice of `s`. */
  lemma PrefixOfSuffix(s: string, l: string, r: string)
    requires |l| <= |s| && l == s[|s| - |l|..]
    requires |r| <= |l| && r == l[..|r|]
    ensures r == s[|s| - |l|..|s| - |l| + |r|]
  {
  }

  /** Everything after what `strip()` keeps is whitespace. */
  lemma StripTailSpace(s: string)
    ensures forall k :: |s| - |StripLeading(s)| + |Strip(s)| <= k < |s| ==> IsSpace(s[k])
  {
    var l := StripLeading(s);
    var i := |s| - |l|;
    StripTrailingAllSpace(l);
    forall k | i + |Strip(s)| <= k < |s|
      ensures IsSpace(s[k])
    {
      assert s[k] == l[k - i];
    }
  }

  /** What `strip()` keeps is a middle slice of `s`: everything cut off
      before it and after it is whitespace. */
  lemma StripDropsSpace(s: string)
    ensures exists i: nat :: SpaceAround(s, Strip(s), i)
  {
    var l := StripLeading(s);
    var r := StripTrailing(l);
    assert r == Strip(s);
    PrefixOfSuffix(s, l, r);
    StripLeadingAllSpace(s);
    StripTailSpace(s);
    assert SpaceAround(s, r, |s| - |l|);
  }

  /** A string without whitespace at either end is left as it is. */
  lemma StripUnchanged(s: string)
    requires s == [] || (!IsSpace(s[0]) && !IsSpace(s[|s| - 1]))
    ensures Strip(s) == s
  {
  }

  /** Stripping twice is stripping once. */
  lemma StripIdempotent(s: string)
    ensures Strip(Strip(s)) == Strip(s)
  {
    StripUnchanged(Strip(s));
  }

  /** `s.startswith(prefix)`. */
  predicate StartsWith(s: string, prefix: string) {
    |prefix| <= |s| && s[..|prefix|] == prefix
  }

  /** `t` occurs in `s` starting at index `i`. */
  predicate OccursAt(s: string, t: string, i: nat) {
    i <= |s| && StartsWith(s[i..], t)
  }

  /** `t in s` for strings: `t` occurs at some index of `s`. */
  predicate Contains(s: string, t: string) {
    exists i :: 0 <= i <= |s| && OccursAt(s, t, i)
  }

  /** An occurrence at a known index makes the search succeed. */
  lemma ContainsAt(s: string, t: string, i: nat)
    requires i <= |s| && StartsWith(s[i..], t)
    ensures Contains(s, t)
  {
    assert OccursAt(s, t, i);
  }

  /** Every character of a found substring occurs in the string searched:
      the quick way to show that a substring is absent. */
  lemma ContainsChar(s: string, t: string, k: nat)
    requires Contains(s, t) && k < |t|
    ensures t[k] in s
  {
    var i :| 0 <= i <= |s| && OccursAt(s, t, i);
    assert s[i..][k] == s[i + k];
  }

  /** A string that lacks one of the characters of `t` does not contain
      `t`. */
  lemma NotContainsByChar(s: string, t: string, k: nat)
    requires k < |t| && t[k] !in s
    ensures !Contains(s, t)
  {
    if Contains(s, t) {
      ContainsChar(s, t, k);
    }
  }

  /** A string is never found inside a shorter one. */
  lemma ContainsLength(s: string, t: string)
    ensures Contains(s, t) ==> |t| <= |s|
  {
  }

  /** `str.lower()` on one character, for ASCII letters only. */
  function LowerChar(c: char): (r: char)
    ensures !('A' <= r <= 'Z')
    ensures 'A' <= c <= 'Z' || r == c
    ensures 'A' <= c <= 'Z' ==> 'a' <= r <= 'z' && r as int - 'a' as int == c as int - 'A' as int
  {
    if 'A' <= c <= 'Z' then (c as int + 32) as char else c
  }

  /** `s.lower()`, ASCII letters only: same length, no upper-case letter
      left, everything else untouched. */
  function Lower(s: string): (r: string)
    ensures |r| == |s|
    ensures forall i :: 0 <= i < |s| ==> r[i] == LowerChar(s[i])
  {
    seq(|s|, i requires 0 <= i < |s| => LowerChar(s[i]))
  }

  /** Lower-casing twice is lower-casing once. */
  lemma LowerIdempotent(s: string)
    ensures Lower(Lower(s)) == Lower(s)
  {
  }
}
