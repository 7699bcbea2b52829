/** `Array.prototype.sort` with a "newest first" comparator: a permutation of the input in
    non-increasing order of a numeric key. */
module Sorting {

  predicate SortedDesc<T>(xs: seq<T>, key: T -> int) {
    forall i, j :: 0 <= i < j < |xs| ==> key(xs[i]) >= key(xs[j])
  }

  /** Places `x` before the first element whose key is not greater than its own. */
  function Insert<T>(x: T, xs: seq<T>, key: T -> int): (r: seq<T>)
    requires SortedDesc(xs, key)
    ensures |r| == |xs| + 1
    ensures SortedDesc(r, key)
    ensures multiset(r) == multiset(xs) + multiset{x}
    decreases |xs|
  {
    if |xs| == 0 || key(x) >= key(xs[0]) then [x] + xs
    else
      var rest := Insert(x, xs[1..], key);
      InsertedBelowHead(x, xs, rest, key);
      assert xs == [xs[0]] + xs[1..];
      [xs[0]] + rest
  }

  /** What inserting a key below the head produces stays below the head. */
  lemma InsertedBelowHead<T>(x: T, xs: seq<T>, rest: seq<T>, key: T -> int)
    requires |xs| > 0 && SortedDesc(xs, key) && key(x) < key(xs[0])
    requires multiset(rest) == multiset(xs[1..]) + multiset{x}
    ensures forall j :: 0 <= j < |rest| ==> key(rest[j]) <= key(xs[0])
  {
    forall j | 0 <= j < |rest|
      ensures key(rest[j]) <= key(xs[0])
    {
      assert rest[j] in multiset(rest);
      if rest[j] != x {
        assert rest[j] in multiset(xs[1..]);
        var m :| 0 <= m < |xs[1..]| && xs[1..][m] == rest[j];
        assert xs[m + 1] == rest[j];
      }
    }
  }

  function SortDesc<T>(xs: seq<T>, key: T -> int): (r: seq<T>)
    ensures SortedDesc(r, key)
    ensures multiset(r) == multiset(xs)
    decreases |xs|
  {
    if |xs| == 0 then []
    else
      assert xs == [xs[0]] + xs[1..];
      Insert(xs[0], SortDesc(xs[1..], key), key)
  }

  /** The head of a sorted non-empty list is one of the inputs with the greatest key. */
  lemma SortDescHead<T>(xs: seq<T>, key: T -> int)
    requires |xs| > 0
    ensures var r := SortDesc(xs, key);
      |r| == |xs| && r[0] in xs && forall y :: y in xs ==> key(y) <= key(r[0])
  {
    var r := SortDesc(xs, key);
    assert |r| == |multiset(r)| == |multiset(xs)| == |xs|;
    assert r[0] in multiset(r);
    forall y | y in xs
      ensures key(y) <= key(r[0])
    {
      assert y in multiset(xs);
      assert y in r;
      var j :| 0 <= j < |r| && r[j] == y;
      if j > 0 {
        assert key(r[0]) >= key(r[j]);
      }
    }
  }

  /** The position of the first element with the greatest key. */
  function FirstMaxIndex<T>(xs: seq<T>, key: T -> int): (i: nat)
    requires |xs| > 0
    ensures i < |xs|
    ensures forall j :: 0 <= j < |xs| ==> key(xs[j]) <= key(xs[i])
    ensures forall j :: 0 <= j < i ==> key(xs[j]) < key(xs[i])
    decreases |xs|
  {
    if |xs| == 1 then 0
    else
      var k := FirstMaxIndex(xs[1..], key);
      assert forall j :: 1 <= j < |xs| ==> xs[j] == xs[1..][j - 1];
      if key(xs[0]) >= key(xs[k + 1]) then 0 else k + 1
  }

  /** The sort is stable at the head: it is the first of the inputs with the greatest key. */
  lemma {:induction false} SortDescHeadIsFirstMax<T>(xs: seq<T>, key: T -> int)
    requires |xs| > 0
    ensures |SortDesc(xs, key)| == |xs|
    ensures SortDesc(xs, key)[0] == xs[FirstMaxIndex(xs, key)]
    decreases |xs|
  {
    var r := SortDesc(xs, key);
    assert |r| == |multiset(r)| == |multiset(xs)| == |xs|;
    if |xs| > 1 {
      var s := SortDesc(xs[1..], key);
      SortDescHeadIsFirstMax(xs[1..], key);
      assert r == Insert(xs[0], s, key);
      assert xs[1..][FirstMaxIndex(xs[1..], key)] == xs[FirstMaxIndex(xs[1..], key) + 1];
    }
  }

  /** `xs.slice(0, k)`. */
  function Take<T>(xs: seq<T>, k: nat): (r: seq<T>)
    ensures |r| == if k < |xs| then k else |xs|
    ensures r <= xs
  {
    if k < |xs| then xs[..k] else xs
  }

  /** A prefix of a sorted list is sorted. */
  lemma TakeSorted<T>(xs: seq<T>, k: nat, key: T -> int)
    requires SortedDesc(xs, key)
    ensures SortedDesc(Take(xs, k), key)
  {
  }
}
