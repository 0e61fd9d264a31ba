/**
 * Counting keys in first-occurrence order: what Python's `Counter` and a
 * JavaScript object filled key by key both produce. Used for the scheduler's
 * per-queue counts and for the worker groups of the client dashboard.
 */
module Tally {

  type Key = string

  /** The number of occurrences of `x` in `xs`. */
  function Count(xs: seq<Key>, x: Key): (n: nat)
    ensures n <= |xs|
    ensures n == 0 <==> x !in xs
  {
    if xs == [] then 0
    else
      var ys := xs[..|xs| - 1];
      assert xs == ys + [xs[|xs| - 1]];
      Count(ys, x) + (if xs[|xs| - 1] == x then 1 else 0)
  }

  predicate NoDuplicates(xs: seq<Key>)
  {
    forall i, j :: 0 <= i < j < |xs| ==> xs[i] != xs[j]
  }

  /** The distinct elements of `xs`, each where it first occurs. */
  function Distinct(xs: seq<Key>): (r: seq<Key>)
    ensures forall x :: x in r <==> x in xs
    ensures NoDuplicates(r)
    ensures |r| <= |xs|
  {
    if xs == [] then []
    else
      var ys := xs[..|xs| - 1];
      var y := xs[|xs| - 1];
      assert xs == ys + [y];
      var d := Distinct(ys);
      if y in d then d else d + [y]
  }

  /** The position of the first occurrence of `x` in `xs`. */
  function FirstAt(xs: seq<Key>, x: Key): (k: nat)
    requires x in xs
    ensures k < |xs| && xs[k] == x
    ensures forall p :: 0 <= p < k ==> xs[p] != x
  {
    if xs[0] == x then 0
    else
      assert x in xs[1..] by {
        var p :| 0 <= p < |xs| && xs[p] == x;
        assert xs[1..][p - 1] == x;
      }
      1 + FirstAt(xs[1..], x)
  }

  /** Any position holding `x` with no earlier `x` is the first occurrence. */
  lemma FirstAtUnique(xs: seq<Key>, x: Key, k: nat)
    requires k < |xs| && xs[k] == x
    requires forall p :: 0 <= p < k ==> xs[p] != x
    ensures FirstAt(xs, x) == k
  {
  }

  /** The keys of `r` occur in `xs`, and their first occurrences there come in the order of `r`. */
  predicate InFirstOccurrenceOrder(xs: seq<Key>, r: seq<Key>)
  {
    forall i, j :: 0 <= i < j < |r| ==> r[i] in xs && r[j] in xs && FirstAt(xs, r[i]) < FirstAt(xs, r[j])
  }

  /**
   * `Distinct` lists the keys in the order of their first occurrences, so together with
   * its contract (the same keys, none twice) it is determined by `xs`.
   */
  lemma {:induction false} DistinctInFirstOccurrenceOrder(xs: seq<Key>)
    ensures InFirstOccurrenceOrder(xs, Distinct(xs))
  {
    if xs != [] {
      var ys := xs[..|xs| - 1];
      var y := xs[|xs| - 1];
      assert xs == ys + [y];
      var d := Distinct(ys);
      DistinctInFirstOccurrenceOrder(ys);
      assert Distinct(xs) == if y in d then d else d + [y];
      FirstOrderStep(ys, y, d);
    }
  }

  /** Appending `y` to the keys (once, if it is new) keeps them in first-occurrence order. */
  lemma FirstOrderStep(ys: seq<Key>, y: Key, d: seq<Key>)
    requires forall x :: x in d <==> x in ys
    requires InFirstOccurrenceOrder(ys, d)
    ensures InFirstOccurrenceOrder(ys + [y], if y in d then d else d + [y])
  {
    var r := if y in d then d else d + [y];
    forall i, j | 0 <= i < j < |r|
      ensures r[i] in ys + [y] && r[j] in ys + [y] && FirstAt(ys + [y], r[i]) < FirstAt(ys + [y], r[j])
    {
      assert r[i] == d[i];
      FirstAtPrefix(ys, y, d[i]);
      if j < |d| {
        assert r[j] == d[j];
        FirstAtPrefix(ys, y, d[j]);
      } else {
        assert r[j] == y && y !in ys;
        FirstAtUnique(ys + [y], y, |ys|);
      }
    }
  }

  /** Appending an element does not move the first occurrence of a key already present. */
  lemma FirstAtPrefix(ys: seq<Key>, y: Key, x: Key)
    requires x in ys
    ensures FirstAt(ys + [y], x) == FirstAt(ys, x)
  {
    var k := FirstAt(ys, x);
    assert (ys + [y])[k] == x;
    FirstAtUnique(ys + [y], x, k);
  }

  /** The sum of the counts in `xs` of every key in `keys`. */
  function SumCounts(keys: seq<Key>, xs: seq<Key>): nat
  {
    if keys == [] then 0 else SumCounts(keys[..|keys| - 1], xs) + Count(xs, keys[|keys| - 1])
  }

  /** Appending one element adds one to the sum for every key equal to it. */
  lemma {:induction false} SumCountsAppend(keys: seq<Key>, ys: seq<Key>, y: Key)
    ensures SumCounts(keys, ys + [y]) == SumCounts(keys, ys) + Count(keys, y)
  {
    if keys != [] {
      var ks := keys[..|keys| - 1];
      SumCountsAppend(ks, ys, y);
      assert (ys + [y])[..|ys + [y]| - 1] == ys;
    }
  }

  /** A key occurring in a duplicate-free sequence occurs exactly once. */
  lemma {:induction false} CountInDistinct(keys: seq<Key>, y: Key)
    requires NoDuplicates(keys) && y in keys
    ensures Count(keys, y) == 1
  {
    var ks := keys[..|keys| - 1];
    if keys[|keys| - 1] == y {
      assert y !in ks by {
        forall i | 0 <= i < |ks| ensures ks[i] != y {
          assert keys[i] != keys[|keys| - 1];
        }
      }
    } else {
      assert y in ks by {
        var i :| 0 <= i < |keys| && keys[i] == y;
        assert i < |keys| - 1;
        assert ks[i] == y;
      }
      CountInDistinct(ks, y);
    }
  }

  /** Every element is counted exactly once: the counts of the distinct keys sum to `|xs|`. */
  lemma {:induction false} CountsSumToLength(xs: seq<Key>)
    ensures SumCounts(Distinct(xs), xs) == |xs|
  {
    if xs != [] {
      var ys := xs[..|xs| - 1];
      var y := xs[|xs| - 1];
      assert xs == ys + [y];
      var d := Distinct(ys);
      CountsSumToLength(ys);
      SumCountsAppend(d, ys, y);
      if y in d {
        CountInDistinct(d, y);
      } else {
        assert Count(ys, y) == 0;
        assert (d + [y])[..|d + [y]| - 1] == d;
      }
    }
  }
}
