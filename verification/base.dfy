/** Failure-compatible wrappers and small sequence helpers shared by every module. */
module Base {

  /** JavaScript's `undefined` / `null`-or-value, or a lookup that may miss. */
  datatype Option<+T> = None | Some(value: T) {
    function GetOr(default: T): T {
      match this
      case Some(v) => v
      case None => default
    }
  }

  /** A value, or the message of the exception the source would throw. */
  datatype Result<+T> = Ok(value: T) | Err(error: string)

  /** `Array.prototype.indexOf`: the first position of `x`, or -1. */
  function IndexOf<T(==)>(xs: seq<T>, x: T): (i: int)
    ensures -1 <= i < |xs|
    ensures i == -1 <==> x !in xs
    ensures 0 <= i ==> xs[i] == x && x !in xs[..i]
  {
    if |xs| == 0 then -1
    else if xs[0] == x then 0
    else
      var j := IndexOf(xs[1..], x);
      assert xs[1..] == xs[1..];
      if j == -1 then -1
      else
        assert xs[..j + 1] == [xs[0]] + xs[1..][..j];
        j + 1
  }

  /** `Array.from(new Set(xs))`: first occurrences, in order. */
  function Dedupe<T(==)>(xs: seq<T>): seq<T>
  {
    DedupeAfter([], xs)
  }

  /** Appends to `seen` the elements of `xs` not yet present, in order. */
  function DedupeAfter<T(==)>(seen: seq<T>, xs: seq<T>): (r: seq<T>)
    decreases |xs|
  {
    if |xs| == 0 then seen
    else if xs[0] in seen then DedupeAfter(seen, xs[1..])
    else DedupeAfter(seen + [xs[0]], xs[1..])
  }

  predicate NoDuplicates<T(==)>(xs: seq<T>) {
    forall i, j :: 0 <= i < j < |xs| ==> xs[i] != xs[j]
  }

  /** The set construction keeps `seen` as a prefix, adds exactly the missing elements and never
      repeats one. */
  lemma {:induction false} DedupeAfterSpec<T>(seen: seq<T>, xs: seq<T>)
    requires NoDuplicates(seen)
    ensures var r := DedupeAfter(seen, xs);
      && NoDuplicates(r)
      && seen <= r
      && (forall x :: x in r <==> x in seen || x in xs)
    decreases |xs|
  {
    if |xs| == 0 {
    } else if xs[0] in seen {
      DedupeAfterSpec(seen, xs[1..]);
      assert forall x :: x in xs <==> x == xs[0] || x in xs[1..];
    } else {
      var s' := seen + [xs[0]];
      assert NoDuplicates(s');
      DedupeAfterSpec(s', xs[1..]);
      assert forall x :: x in xs <==> x == xs[0] || x in xs[1..];
    }
  }

  /** Deduplicating a concatenation starts with the deduplicated first part. */
  lemma {:induction false} DedupeAfterAppend<T>(seen: seq<T>, a: seq<T>, b: seq<T>)
    ensures DedupeAfter(seen, a + b) == DedupeAfter(DedupeAfter(seen, a), b)
    decreases |a|
  {
    if |a| == 0 {
      assert a + b == b;
    } else {
      assert (a + b)[0] == a[0];
      assert (a + b)[1..] == a[1..] + b;
      if a[0] in seen {
        DedupeAfterAppend(seen, a[1..], b);
      } else {
        DedupeAfterAppend(seen + [a[0]], a[1..], b);
      }
    }
  }

  lemma DedupeAfterExtends<T>(seen: seq<T>, xs: seq<T>)
    ensures seen <= DedupeAfter(seen, xs)
    decreases |xs|
  {
    if |xs| > 0 {
      if xs[0] in seen {
        DedupeAfterExtends(seen, xs[1..]);
      } else {
        DedupeAfterExtends(seen + [xs[0]], xs[1..]);
      }
    }
  }
}
