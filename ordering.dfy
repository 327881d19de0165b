/**
 * The orderings the modelled code takes from Python's built-ins: tuple comparison,
 * `max`/`min` with a key (which keep the FIRST extreme element) and the stable `sorted`.
 * Every key here is a pair compared lexicographically; a single-component key `k`
 * is written `(k, 0)`.
 */
module Ordering {

  /** Python's `a <= b` on two pairs of integers. */
  predicate LexLeq(a: (int, int), b: (int, int)) {
    a.0 < b.0 || (a.0 == b.0 && a.1 <= b.1)
  }

  /** The index `max(s, key=key)` returns; `FirstMaxIndexIsFirstMax` says what it is. */
  function FirstMaxIndex<T>(s: seq<T>, key: T -> (int, int)): (k: nat)
    requires |s| > 0
    ensures k < |s|
  {
    if |s| == 1 then 0
    else
      var k := FirstMaxIndex(s[..|s| - 1], key);
      if LexLeq(key(s[|s| - 1]), key(s[k])) then k else |s| - 1
  }

  /** `FirstMaxIndex` is at a maximal key, and no earlier element reaches it. */
  lemma {:induction false} FirstMaxIndexIsFirstMax<T>(s: seq<T>, key: T -> (int, int))
    requires |s| > 0
    ensures forall j :: 0 <= j < |s| ==> LexLeq(key(s[j]), key(s[FirstMaxIndex(s, key)]))
    ensures forall j :: 0 <= j < FirstMaxIndex(s, key) ==> !LexLeq(key(s[FirstMaxIndex(s, key)]), key(s[j]))
  {
    if |s| > 1 {
      var init := s[..|s| - 1];
      FirstMaxIndexIsFirstMax(init, key);
      assert forall j :: 0 <= j < |init| ==> init[j] == s[j];
    }
  }

  /** The index `min(s, key=key)` returns; `FirstMinIndexIsFirstMin` says what it is. */
  function FirstMinIndex<T>(s: seq<T>, key: T -> (int, int)): (k: nat)
    requires |s| > 0
    ensures k < |s|
  {
    if |s| == 1 then 0
    else
      var k := FirstMinIndex(s[..|s| - 1], key);
      if LexLeq(key(s[k]), key(s[|s| - 1])) then k else |s| - 1
  }

  /** `FirstMinIndex` is at a minimal key, and no earlier element reaches it. */
  lemma {:induction false} FirstMinIndexIsFirstMin<T>(s: seq<T>, key: T -> (int, int))
    requires |s| > 0
    ensures forall j :: 0 <= j < |s| ==> LexLeq(key(s[FirstMinIndex(s, key)]), key(s[j]))
    ensures forall j :: 0 <= j < FirstMinIndex(s, key) ==> !LexLeq(key(s[j]), key(s[FirstMinIndex(s, key)]))
  {
    if |s| > 1 {
      var init := s[..|s| - 1];
      FirstMinIndexIsFirstMin(init, key);
      assert forall j :: 0 <= j < |init| ==> init[j] == s[j];
    }
  }

  ghost predicate SortedBy<T>(s: seq<T>, key: T -> (int, int)) {
    forall i, j :: 0 <= i < j < |s| ==> LexLeq(key(s[i]), key(s[j]))
  }

  ghost predicate KeysAtLeast<T>(v: (int, int), s: seq<T>, key: T -> (int, int)) {
    forall i :: 0 <= i < |s| ==> LexLeq(v, key(s[i]))
  }

  /** Places `x` in front of the first element whose key is not below its own. */
  function InsertBy<T>(x: T, s: seq<T>, key: T -> (int, int)): (r: seq<T>)
    ensures multiset(r) == multiset(s) + multiset{x}
    ensures |r| == |s| + 1
  {
    if s == [] then [x]
    else if LexLeq(key(x), key(s[0])) then [x] + s
    else
      assert s == [s[0]] + s[1..];
      [s[0]] + InsertBy(x, s[1..], key)
  }

  lemma {:induction false} InsertKeepsLowerBound<T>(v: (int, int), x: T, s: seq<T>, key: T -> (int, int))
    requires KeysAtLeast(v, s, key) && LexLeq(v, key(x))
    ensures KeysAtLeast(v, InsertBy(x, s, key), key)
  {
    if s != [] && !LexLeq(key(x), key(s[0])) {
      InsertKeepsLowerBound(v, x, s[1..], key);
    }
  }

  lemma {:induction false} InsertKeepsSorted<T>(x: T, s: seq<T>, key: T -> (int, int))
    requires SortedBy(s, key)
    ensures SortedBy(InsertBy(x, s, key), key)
  {
    if s == [] {
    } else if LexLeq(key(x), key(s[0])) {
      assert KeysAtLeast(key(x), s, key);
    } else {
      InsertKeepsSorted(x, s[1..], key);
      assert KeysAtLeast(key(s[0]), s[1..], key);
      InsertKeepsLowerBound(key(s[0]), x, s[1..], key);
    }
  }

  /**
   * Python's stable `sorted(s, key=key)`: earlier elements stay ahead of later ones
   * with an equal key, because each head is inserted before its equals in the sorted tail.
   */
  function SortBy<T>(s: seq<T>, key: T -> (int, int)): (r: seq<T>)
    ensures multiset(r) == multiset(s)
    ensures |r| == |s|
  {
    if s == [] then []
    else
      assert s == [s[0]] + s[1..];
      InsertBy(s[0], SortBy(s[1..], key), key)
  }

  /** `SortBy` orders its result by key. */
  lemma {:induction false} SortByIsSorted<T>(s: seq<T>, key: T -> (int, int))
    ensures SortedBy(SortBy(s, key), key)
  {
    if s != [] {
      SortByIsSorted(s[1..], key);
      InsertKeepsSorted(s[0], SortBy(s[1..], key), key);
    }
  }
}
