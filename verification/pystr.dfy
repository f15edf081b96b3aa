/**
 * The three Python string operations the worker's crumb scraping relies on:
 * the `in` operator, `str.find` (first index or -1) and slicing `s[a:b]`
 * with Python's treatment of negative and out-of-range indices.
 */
module PyStr {

  /** `pat` occurs in `text` starting at index `i`. */
  predicate OccursAt(text: string, pat: string, i: int)
  {
    0 <= i && i + |pat| <= |text| && text[i..i + |pat|] == pat
  }

  /** Python's `pat in text`. */
  predicate Contains(text: string, pat: string)
  {
    exists i | 0 <= i <= |text| :: OccursAt(text, pat, i)
  }

  /** Search for `pat` from index `from` on: the first occurrence at or after `from`, or -1. */
  function FindFrom(text: string, pat: string, from: nat): (r: int)
    requires from <= |text|
    ensures r == -1 || (from <= r && OccursAt(text, pat, r))
    ensures r == -1 ==> forall j :: from <= j ==> !OccursAt(text, pat, j)
    ensures r != -1 ==> forall j :: from <= j < r ==> !OccursAt(text, pat, j)
    decreases |text| - from
  {
    if from + |pat| > |text| then -1
    else if OccursAt(text, pat, from) then from
    else FindFrom(text, pat, from + 1)
  }

  /** Python's `text.find(pat)`: the least index where `pat` occurs, or -1 when it does not occur. */
  function Find(text: string, pat: string): (r: int)
    ensures -1 <= r
    ensures r == -1 <==> !Contains(text, pat)
    ensures r != -1 ==> OccursAt(text, pat, r)
    ensures forall j :: 0 <= j < r ==> !OccursAt(text, pat, j)
  {
    FindFrom(text, pat, 0)
  }

  /** How Python normalises one bound of `s[a:b]` for a sequence of length `len`. */
  function Clamp(i: int, len: nat): (r: nat)
    ensures r <= len
    ensures 0 <= i <= len ==> r == i
    ensures i < 0 && 0 <= i + len ==> r == i + len
    ensures i + len < 0 ==> r == 0
    ensures len < i ==> r == len
  {
    if i < 0 then (if i + len < 0 then 0 else i + len)
    else if i > len then len
    else i
  }

  /** Python's `s[a:b]`: negative bounds count from the end, bounds are clipped, crossed bounds give "". */
  function Slice(s: string, a: int, b: int): (r: string)
    ensures 0 <= a <= b <= |s| ==> r == s[a..b]
    ensures Clamp(b, |s|) <= Clamp(a, |s|) <==> r == []
    ensures Clamp(a, |s|) < Clamp(b, |s|) ==> r == s[Clamp(a, |s|)..Clamp(b, |s|)]
  {
    var lo := Clamp(a, |s|);
    var hi := Clamp(b, |s|);
    if lo >= hi then [] else s[lo..hi]
  }

  /** Python's `s[a:]`. */
  function SliceFrom(s: string, a: int): (r: string)
    ensures 0 <= a <= |s| ==> r == s[a..]
  {
    Slice(s, a, |s|)
  }

  /** For a one-character pattern, `find` is the index of the first occurrence of that character. */
  lemma FindChar(s: string, ch: char)
    ensures Find(s, [ch]) != -1 ==> s[Find(s, [ch])] == ch
    ensures forall m :: 0 <= m < |s| && (Find(s, [ch]) == -1 || m < Find(s, [ch])) ==> s[m] != ch
  {
    var k := Find(s, [ch]);
    if k != -1 {
      assert s[k..k + 1] == [ch];
    }
    forall m | 0 <= m < |s| && (k == -1 || m < k)
      ensures s[m] != ch
    {
      assert !OccursAt(s, [ch], m);
      assert s[m..m + 1] == [s[m]];
    }
  }
}
