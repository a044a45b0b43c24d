/** The pieces of Python's `str` that the core relies on: `isspace`, `strip`,
    `lower`/`upper`, substring search, `startswith`, `split` and `join`. */
module Text {
  import opened Common

  /** Python's `str.isspace()` on one character: the Unicode White_Space
      characters plus the separators U+001C..U+001F. */
  predicate IsSpace(c: char) {
    c == ' ' || ('\t' <= c <= '\r') || ('\U{1c}' <= c <= '\U{1f}')
    || c == '\U{85}' || c == '\U{a0}' || c == '\U{1680}'
    || ('\U{2000}' <= c <= '\U{200a}') || c == '\U{2028}' || c == '\U{2029}'
    || c == '\U{202f}' || c == '\U{205f}' || c == '\U{3000}'
  }

  /** Every character of `s` at an index in `[lo, hi)` is whitespace. */
  predicate SpaceBetween(s: string, lo: nat, hi: nat) {
    forall i :: lo <= i < hi && i < |s| ==> IsSpace(s[i])
  }

  predicate AllSpace(s: string) {
    SpaceBetween(s, 0, |s|)
  }

  /** Neither end of `s` is whitespace (true of every result of `Strip`). */
  predicate NoEdgeSpace(s: string) {
    s == [] || (!IsSpace(s[0]) && !IsSpace(s[|s| - 1]))
  }

  /** The first index at or after `lo` that is not whitespace, or `|s|`. */
  function SkipSpace(s: string, lo: nat): (i: nat)
    requires lo <= |s|
    ensures lo <= i <= |s| && SpaceBetween(s, lo, i)
    ensures i == |s| || !IsSpace(s[i])
    decreases |s| - lo
  {
    if lo < |s| && IsSpace(s[lo]) then SkipSpace(s, lo + 1) else lo
  }

  /** The least end at or after `lo` such that only whitespace follows it up to `hi`. */
  function BackSpace(s: string, lo: nat, hi: nat): (e: nat)
    requires lo <= hi <= |s|
    ensures lo <= e <= hi && SpaceBetween(s, e, hi)
    ensures e == lo || !IsSpace(s[e - 1])
    decreases hi
  {
    if lo < hi && IsSpace(s[hi - 1]) then BackSpace(s, lo, hi - 1) else hi
  }

  /** `SkipSpace` is determined by its contract. */
  lemma SkipSpaceUnique(s: string, lo: nat, k: nat)
    requires lo <= k <= |s| && SpaceBetween(s, lo, k) && (k == |s| || !IsSpace(s[k]))
    ensures SkipSpace(s, lo) == k
  {
  }

  /** `BackSpace` is determined by its contract. */
  lemma BackSpaceUnique(s: string, lo: nat, hi: nat, k: nat)
    requires lo <= k <= hi <= |s| && SpaceBetween(s, k, hi) && (k == lo || !IsSpace(s[k - 1]))
    ensures BackSpace(s, lo, hi) == k
  {
  }

  /** Python's `str.strip()`. */
  function Strip(s: string): (r: string)
    ensures NoEdgeSpace(r) && |r| <= |s|
  {
    var i := SkipSpace(s, 0);
    var e := BackSpace(s, i, |s|);
    s[i..e]
  }

  /** What `Strip` keeps is an infix of `s`, everything cut off on either side
      being whitespace. */
  lemma StripIsTrimmed(s: string)
    ensures var r := Strip(s);
            exists i :: 0 <= i <= |s| - |r| && r == s[i..i + |r|]
                        && SpaceBetween(s, 0, i) && SpaceBetween(s, i + |r|, |s|)
  {
    var i := SkipSpace(s, 0);
    var e := BackSpace(s, i, |s|);
    assert Strip(s) == s[i..e];
  }

  lemma StripKeepsStripped(s: string)
    requires NoEdgeSpace(s)
    ensures Strip(s) == s
  {
    SkipSpaceUnique(s, 0, 0);
    if s != [] {
      BackSpaceUnique(s, 0, |s|, |s|);
    }
    assert s[0..|s|] == s;
  }

  lemma StripIdempotent(s: string)
    ensures Strip(Strip(s)) == Strip(s)
  {
    StripKeepsStripped(Strip(s));
  }

  lemma StripAllSpace(s: string)
    requires AllSpace(s)
    ensures Strip(s) == []
  {
    SkipSpaceUnique(s, 0, |s|);
  }

  /** `Strip` gives "" exactly for all-whitespace text. */
  lemma StripEmptyIff(s: string)
    ensures Strip(s) == [] <==> AllSpace(s)
  {
    var i := SkipSpace(s, 0);
    if AllSpace(s) {
      StripAllSpace(s);
    } else {
      assert i < |s|;
      var e := BackSpace(s, i, |s|);
      assert e != i;
    }
  }

  /** Whitespace appended to a string does not survive `Strip`. */
  lemma StripTrailingSpace(s: string, c: char)
    requires IsSpace(c)
    ensures Strip(s + [c]) == Strip(s)
  {
    var t := s + [c];
    if AllSpace(s) {
      assert AllSpace(t);
      StripAllSpace(t);
      StripAllSpace(s);
    } else {
      var i := SkipSpace(s, 0);
      assert i < |s|;
      SkipSpaceUnique(t, 0, i);
      var e := BackSpace(s, i, |s|);
      assert e > i;
      BackSpaceUnique(t, i, |t|, e);
      assert t[i..e] == s[i..e];
    }
  }

  /** `s` begins with `t` (Python's `s.startswith(t)`). */
  predicate StartsWith(s: string, t: string) {
    |t| <= |s| && s[..|t|] == t
  }

  /** `t` occurs in `s` at index `k`. */
  predicate OccursAt(s: string, t: string, k: int) {
    0 <= k && k + |t| <= |s| && s[k..k + |t|] == t
  }

  /** Python's `s.find(t)`: the first index at which `t` occurs in `s`. */
  function IndexOf(s: string, t: string): (r: Option<nat>)
    ensures r.Some? ==> OccursAt(s, t, r.value)
    ensures r.Some? ==> forall j :: 0 <= j < r.value ==> !OccursAt(s, t, j)
    ensures r.None? ==> forall j :: !OccursAt(s, t, j)
    decreases |s|
  {
    if |t| > |s| then None
    else if StartsWith(s, t) then Some(0)
    else
      var rest := IndexOf(s[1..], t);
      assert forall j :: 0 <= j ==> (OccursAt(s[1..], t, j) <==> OccursAt(s, t, j + 1)) by {
        forall j | 0 <= j ensures OccursAt(s[1..], t, j) <==> OccursAt(s, t, j + 1) { OccursShift(s, t, j); }
      }
      assert forall j :: 0 < j ==> (OccursAt(s, t, j) <==> OccursAt(s[1..], t, j - 1));
      match rest
      case Some(k) => Some(k + 1)
      case None => None
  }

  lemma OccursShift(s: string, t: string, j: int)
    requires s != [] && 0 <= j
    ensures OccursAt(s[1..], t, j) <==> OccursAt(s, t, j + 1)
  {
    if j + 1 + |t| <= |s| {
      assert s[1..][j..j + |t|] == s[j + 1..j + 1 + |t|];
    }
  }

  lemma OccursDrop(s: string, n: nat, t: string, j: int)
    requires n <= |s| && 0 <= j
    ensures OccursAt(s[n..], t, j) <==> OccursAt(s, t, n + j)
  {
    if n + j + |t| <= |s| {
      assert s[n..][j..j + |t|] == s[n + j..n + j + |t|];
    }
  }

  /** `IndexOf` finds an occurrence that no earlier occurrence precedes. */
  lemma IndexOfIsFirst(s: string, t: string, k: nat)
    requires OccursAt(s, t, k)
    requires forall j :: 0 <= j < k ==> !OccursAt(s, t, j)
    ensures IndexOf(s, t) == Some(k)
  {
  }

  /** The first character of `t` occurs nowhere else in `t`. */
  predicate HeadUnique(t: string) {
    |t| > 0 && forall j :: 0 < j < |t| ==> t[j] != t[0]
  }

  /** When `t` does not occur in `d` and its first character is unique, the
      first occurrence of `t` in `d + t` is the appended one. */
  lemma IndexOfAppended(d: string, t: string)
    requires HeadUnique(t) && IndexOf(d, t).None?
    ensures IndexOf(d + t, t) == Some(|d|)
  {
    assert (d + t)[|d|..|d| + |t|] == t;
    forall j | 0 <= j < |d| ensures !OccursAt(d + t, t, j) {
      NoOccurrenceAcrossJoin(d, t, j);
    }
    IndexOfIsFirst(d + t, t, |d|);
  }

  lemma NoOccurrenceAcrossJoin(d: string, t: string, j: nat)
    requires HeadUnique(t) && IndexOf(d, t).None? && j < |d|
    ensures !OccursAt(d + t, t, j)
  {
    var n := |t|;
    if j + n <= |d| {
      assert !OccursAt(d, t, j);
      assert (d + t)[j..j + n] == d[j..j + n];
    } else {
      var w := (d + t)[j..j + n];
      assert w[|d| - j] == t[0];
    }
  }

  /** A string that begins with `p` and holds `q` after `k` more characters
      starts with `p`, those `k` characters and `q`. */
  lemma Framed(x: string, p: string, q: string, k: nat)
    requires StartsWith(x, p) && OccursAt(x, q, |p| + k)
    ensures x[..|p| + k + |q|] == p + x[|p|..|p| + k] + q
  {
    assert x[..|p| + k + |q|] == x[..|p|] + x[|p|..|p| + k] + x[|p| + k..|p| + k + |q|];
  }

  /** Python's `t in s` on strings. */
  predicate Contains(s: string, t: string) {
    IndexOf(s, t).Some?
  }

  lemma ContainsIff(s: string, t: string)
    ensures Contains(s, t) <==> exists k :: OccursAt(s, t, k)
  {
  }

  /** An occurrence of `t` inside `a` is an occurrence inside `a + b`. */
  lemma OccursInPrefix(a: string, b: string, t: string, k: int)
    requires OccursAt(a, t, k)
    ensures OccursAt(a + b, t, k)
  {
    assert (a + b)[k..k + |t|] == a[k..k + |t|];
  }

  /** Python's `str.lower()` on one character, for ASCII and Latin-1 letters. */
  function LowerChar(c: char): char {
    if 'A' <= c <= 'Z' || ('\U{c0}' <= c <= '\U{de}' && c != '\U{d7}') then (c as int + 32) as char else c
  }

  /** Python's `str.upper()` on one character, for ASCII and Latin-1 letters. */
  function UpperChar(c: char): char {
    if 'a' <= c <= 'z' || ('\U{e0}' <= c <= '\U{fe}' && c != '\U{f7}') then (c as int - 32) as char else c
  }

  function Lower(s: string): (r: string)
    ensures |r| == |s| && forall i :: 0 <= i < |s| ==> r[i] == LowerChar(s[i])
  {
    seq(|s|, i requires 0 <= i < |s| => LowerChar(s[i]))
  }

  function Upper(s: string): (r: string)
    ensures |r| == |s| && forall i :: 0 <= i < |s| ==> r[i] == UpperChar(s[i])
  {
    seq(|s|, i requires 0 <= i < |s| => UpperChar(s[i]))
  }

  /** Lower-casing forgets any earlier upper-casing. */
  lemma LowerOfUpper(s: string)
    ensures Lower(Upper(s)) == Lower(s)
  {
    forall i | 0 <= i < |s| ensures Lower(Upper(s))[i] == Lower(s)[i] {
      var c := s[i];
      assert LowerChar(UpperChar(c)) == LowerChar(c);
    }
  }

  /** Python's `sep.join(parts)`. */
  function Join(sep: string, parts: seq<string>): string {
    if parts == [] then ""
    else if |parts| == 1 then parts[0]
    else Join(sep, parts[..|parts| - 1]) + sep + parts[|parts| - 1]
  }

  /** Joining non-empty parts gives "" exactly when there are no parts. */
  lemma JoinEmptyIff(sep: string, parts: seq<string>)
    requires forall i :: 0 <= i < |parts| ==> parts[i] != ""
    ensures Join(sep, parts) == "" <==> parts == []
  {
    if |parts| > 1 {
      assert |Join(sep, parts)| >= |parts[|parts| - 1]| > 0;
    }
  }

  /** Python's `s.split(c)[-1]`: the text after the last `c`, or all of `s`. */
  function AfterLast(s: string, c: char): (r: string)
    ensures |r| <= |s| && r == s[|s| - |r|..]
    ensures c !in r
    ensures |r| < |s| ==> s[|s| - |r| - 1] == c
  {
    if s == [] then []
    else if s[|s| - 1] == c then []
    else AfterLast(s[..|s| - 1], c) + [s[|s| - 1]]
  }
}
