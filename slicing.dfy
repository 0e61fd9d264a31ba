/**
 * The three range-reading conventions the dashboard relies on:
 * Python's `s[start:stop]`, Redis' `LRANGE key start stop` and JavaScript's
 * `String.prototype.slice(start)`. Each clamps and wraps negative indices in
 * its own way, so each is written out once here.
 */
module Slicing {

  /** A Python slice bound: a negative index counts from the end, then the bound is clamped to 0..n. */
  function PyBound(i: int, n: nat): (b: nat)
    ensures b <= n
    ensures 0 <= i <= n ==> b == i
    ensures i > n ==> b == n
    ensures i < 0 ==> b == (if n + i < 0 then 0 else n + i)
  {
    if i < 0 then (if n + i < 0 then 0 else n + i)
    else if i > n then n
    else i
  }

  /** Python's `s[start:stop]` (step 1). */
  function PySlice<T>(s: seq<T>, start: int, stop: int): (r: seq<T>)
    ensures |r| <= |s|
  {
    var b, e := PyBound(start, |s|), PyBound(stop, |s|);
    if b < e then s[b..e] else []
  }

  /** Every element of a slice is an element of the list. */
  lemma PySliceMembers<T>(s: seq<T>, start: int, stop: int)
    ensures forall x :: x in PySlice(s, start, stop) ==> x in s
  {
    var b, e := PyBound(start, |s|), PyBound(stop, |s|);
    if b < e {
      forall x | x in s[b..e] ensures x in s {
        var k :| b <= k < e && s[k] == x;
      }
    }
  }

  /** A slice never holds more than `stop - start` elements. */
  lemma PySliceWidth<T>(s: seq<T>, start: int, stop: int)
    requires start <= stop
    ensures |PySlice(s, start, stop)| <= stop - start
  {
  }

  /** Python's `s[start:]`. */
  function PySuffix<T>(s: seq<T>, start: int): (r: seq<T>)
    ensures 0 <= start <= |s| ==> r == s[start..]
  {
    s[PyBound(start, |s|)..]
  }

  /** Non-negative bounds need no wrapping: the slice is the clamped sub-sequence. */
  lemma PySliceNonNegative<T>(s: seq<T>, start: nat, stop: int)
    requires start <= stop
    ensures start <= |s| ==> PySlice(s, start, stop) == s[start..if stop <= |s| then stop else |s|]
    ensures start > |s| ==> PySlice(s, start, stop) == []
  {
  }

  /**
   * Redis `LRANGE key start stop` over the list `s`: both ends are inclusive,
   * a negative index counts from the end of the list, an out-of-range start
   * gives the empty list and an out-of-range stop is clamped to the last element.
   */
  function LRange<T>(s: seq<T>, start: int, stop: int): (r: seq<T>)
    ensures |r| <= |s|
    ensures 0 <= start <= stop ==>
      r == s[(if start <= |s| then start else |s|)..(if stop + 1 <= |s| then stop + 1 else |s|)]
    ensures 0 <= stop < start ==> r == []
    ensures start == 0 && stop == -1 ==> r == s
  {
    var n := |s|;
    var b := if start < 0 then (if n + start < 0 then 0 else n + start) else start;
    var e := if stop < 0 then n + stop else (if stop >= n then n - 1 else stop);
    if b >= n || e < b then [] else s[b..e + 1]
  }

  /** JavaScript's `s.slice(start)`: a negative start counts from the end, clamped at 0. */
  function JsSliceFrom<T>(s: seq<T>, start: int): (r: seq<T>)
    ensures 0 <= start <= |s| ==> r == s[start..]
    ensures start > |s| ==> r == []
    ensures start < 0 && -start <= |s| ==> r == s[|s| + start..]
    ensures |r| <= |s| && r == s[|s| - |r|..]
  {
    if start < 0 then (if |s| + start < 0 then s else s[|s| + start..])
    else if start > |s| then []
    else s[start..]
  }

  /** JavaScript's `s.indexOf(c)` for a single character: the first position, or -1. */
  function IndexOf<T(==)>(s: seq<T>, c: T): (i: int)
    ensures -1 <= i < |s|
    ensures 0 <= i ==> s[i] == c
    ensures forall k :: 0 <= k < |s| && (i < 0 || k < i) ==> s[k] != c
  {
    if |s| == 0 then -1
    else if s[0] == c then 0
    else
      var j := IndexOf(s[1..], c);
      if j < 0 then -1 else j + 1
  }
}
