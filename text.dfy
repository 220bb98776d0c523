/**
 * String primitives the router is built from: `str.lower()`, `str.strip()`,
 * the substring test `w in s` and `any(w in s for w in words)`.
 * Lowering is ASCII-only; the whitespace set is the one `str.isspace` uses.
 */
module Text {

  /** The characters Python's `str.strip()` removes. */
  predicate IsSpace(c: char) {
    c == ' ' || ('\t' <= c <= '\r') || ('\U{1C}' <= c <= '\U{1F}')
    || c == '\U{85}' || c == '\U{A0}' || c == '\U{1680}'
    || ('\U{2000}' <= c <= '\U{200A}') || c == '\U{2028}' || c == '\U{2029}'
    || c == '\U{202F}' || c == '\U{205F}' || c == '\U{3000}'
  }

  function LowerChar(c: char): (r: char) {
    if 'A' <= c <= 'Z' then (c as int + 32) as char else c
  }

  /** `s.lower()` restricted to ASCII letters. */
  function Lower(s: string): (r: string) {
    seq(|s|, i requires 0 <= i < |s| => LowerChar(s[i]))
  }

  /** The index of the first non-whitespace character of `s` at or after `i` (`|s|` if none). */
  function SkipSpaces(s: string, i: nat): (j: nat)
    requires i <= |s|
    ensures i <= j <= |s|
    decreases |s| - i
  {
    if i < |s| && IsSpace(s[i]) then SkipSpaces(s, i + 1) else i
  }

  /** The end of `s[lo..j]` once its trailing whitespace is dropped. */
  function SkipSpacesBack(s: string, lo: nat, j: nat): (k: nat)
    requires lo <= j <= |s|
    ensures lo <= k <= j
  {
    if lo < j && IsSpace(s[j - 1]) then SkipSpacesBack(s, lo, j - 1) else j
  }

  /** `s.strip()`. */
  function Strip(s: string): (r: string)
    ensures |r| <= |s|
  {
    var a := SkipSpaces(s, 0);
    s[a..SkipSpacesBack(s, a, |s|)]
  }

  /** `SkipSpaces` passes over whitespace only and stops at the end or at a non-whitespace character. */
  lemma {:induction false} SkipSpacesStops(s: string, i: nat)
    requires i <= |s|
    ensures var j := SkipSpaces(s, i);
      (j == |s| || !IsSpace(s[j])) && forall k :: i <= k < j ==> IsSpace(s[k])
    decreases |s| - i
  {
    if i < |s| && IsSpace(s[i]) {
      SkipSpacesStops(s, i + 1);
    }
  }

  /** `SkipSpacesBack` passes over whitespace only and stops at `lo` or after a non-whitespace character. */
  lemma {:induction false} SkipSpacesBackStops(s: string, lo: nat, j: nat)
    requires lo <= j <= |s|
    ensures var k := SkipSpacesBack(s, lo, j);
      (k == lo || !IsSpace(s[k - 1])) && forall m :: k <= m < j ==> IsSpace(s[m])
  {
    if lo < j && IsSpace(s[j - 1]) {
      SkipSpacesBackStops(s, lo, j - 1);
    }
  }

  /**
   * `s.strip()` is the contiguous slice of `s` that remains once the whitespace
   * runs at both ends are removed: it neither begins nor ends with whitespace,
   * and only whitespace was cut away on either side.
   */
  lemma StripSlice(s: string)
    ensures exists a: nat, b: nat ::
      (a <= b <= |s| && Strip(s) == s[a..b]
       && (forall k :: 0 <= k < a ==> IsSpace(s[k]))
       && (forall k :: b <= k < |s| ==> IsSpace(s[k])))
    ensures Strip(s) == [] || (!IsSpace(Strip(s)[0]) && !IsSpace(Strip(s)[|Strip(s)| - 1]))
  {
    var a := SkipSpaces(s, 0);
    var b := SkipSpacesBack(s, a, |s|);
    SkipSpacesStops(s, 0);
    SkipSpacesBackStops(s, a, |s|);
    assert Strip(s) == s[a..b];
  }

  /** A string that neither begins nor ends with whitespace is its own stripped form. */
  lemma StripOfStripped(s: string)
    requires s != [] && !IsSpace(s[0]) && !IsSpace(s[|s| - 1])
    ensures Strip(s) == s
  {
  }

  /** `s` starts with `w`. */
  predicate StartsWith(s: string, w: string) {
    |w| <= |s| && s[..|w|] == w
  }

  /** `w in s`: `w` occurs somewhere in `s` (the empty string occurs everywhere). */
  predicate Contains(s: string, w: string)
    decreases |s|
  {
    StartsWith(s, w) || (s != [] && Contains(s[1..], w))
  }

  /** Independent reference definition of an occurrence of `w` at index `i`. */
  ghost predicate OccursAt(s: string, w: string, i: nat) {
    i + |w| <= |s| && s[i..i + |w|] == w
  }

  /** The recursive substring test agrees with "there is an index where `w` occurs". */
  lemma {:induction false} ContainsIff(s: string, w: string)
    ensures Contains(s, w) <==> exists i: nat :: OccursAt(s, w, i)
    decreases |s|
  {
    if StartsWith(s, w) {
      assert OccursAt(s, w, 0);
    } else if s != [] {
      ContainsIff(s[1..], w);
      if Contains(s[1..], w) {
        var i: nat :| OccursAt(s[1..], w, i);
        assert s[i + 1..i + 1 + |w|] == s[1..][i..i + |w|];
        assert OccursAt(s, w, i + 1);
      }
      if exists i: nat :: OccursAt(s, w, i) {
        var i: nat :| OccursAt(s, w, i);
        if i > 0 {
          assert s[1..][i - 1..i - 1 + |w|] == s[i..i + |w|];
          assert OccursAt(s[1..], w, i - 1);
        }
      }
    }
  }

  /** `any(w in s for w in words)`. */
  predicate ContainsAny(s: string, words: seq<string>) {
    words != [] && (Contains(s, words[0]) || ContainsAny(s, words[1..]))
  }

  /** `any(...)` holds exactly when one of the listed words is a substring. */
  lemma {:induction false} ContainsAnyIff(s: string, words: seq<string>)
    ensures ContainsAny(s, words) <==> exists k :: 0 <= k < |words| && Contains(s, words[k])
  {
    if words != [] {
      ContainsAnyIff(s, words[1..]);
      if exists k :: 0 <= k < |words| && Contains(s, words[k]) {
        var k :| 0 <= k < |words| && Contains(s, words[k]);
        if k > 0 {
          assert words[1..][k - 1] == words[k];
        }
      }
      if ContainsAny(s, words[1..]) {
        var k :| 0 <= k < |words[1..]| && Contains(s, words[1..][k]);
        assert Contains(s, words[k + 1]);
      }
    }
  }

  /** `any(w in s for w in words)` holds exactly when some listed word occurs at some index of `s`. */
  lemma ContainsAnyOccurs(s: string, words: seq<string>)
    ensures ContainsAny(s, words) <==> exists k: nat, i: nat :: k < |words| && OccursAt(s, words[k], i)
  {
    ContainsAnyIff(s, words);
    if ContainsAny(s, words) {
      var k :| 0 <= k < |words| && Contains(s, words[k]);
      ContainsIff(s, words[k]);
      var i: nat :| OccursAt(s, words[k], i);
      assert k < |words| && OccursAt(s, words[k], i);
    }
    if exists k: nat, i: nat :: k < |words| && OccursAt(s, words[k], i) {
      var k: nat, i: nat :| k < |words| && OccursAt(s, words[k], i);
      ContainsIff(s, words[k]);
    }
  }
}
