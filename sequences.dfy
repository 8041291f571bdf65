/** Generic facts about sequences used by the aggregation and the filters:
    duplicate-free first-seen order (what `new Set(...)` and the insertion
    order of a JavaScript object give), order-preserving subsequences and sums. */
module Sequences {

  /** No element occurs twice. */
  predicate Distinct<T(==)>(xs: seq<T>) {
    forall i, j :: 0 <= i < j < |xs| ==> xs[i] != xs[j]
  }

  /** Everything but the last element. */
  function Init<T>(xs: seq<T>): seq<T>
    requires |xs| > 0
  {
    xs[..|xs| - 1]
  }

  function Last<T>(xs: seq<T>): T
    requires |xs| > 0
  {
    xs[|xs| - 1]
  }

  /** Dropping the last element of a distinct sequence leaves a distinct
      sequence without that element. */
  lemma DistinctInit<T>(xs: seq<T>)
    requires Distinct(xs) && xs != []
    ensures Distinct(Init(xs)) && Last(xs) !in Init(xs)
  {
    var init := Init(xs);
    assert forall i :: 0 <= i < |init| ==> init[i] == xs[i];
  }

  /** The position of the first occurrence of `x` in `xs`. */
  function FirstIndex<T(==)>(xs: seq<T>, x: T): (k: nat)
    requires x in xs
    ensures k < |xs| && xs[k] == x && x !in xs[..k]
  {
    if x in Init(xs) then FirstIndex(Init(xs), x) else |xs| - 1
  }

  /** The elements of `xs` without repetitions, each at the place where it
      first occurs: the spread of a `Set` built from `xs`, and the key order
      of an object whose keys were inserted in the order of `xs`. */
  function DistinctFirstSeen<T(==)>(xs: seq<T>): (r: seq<T>)
    ensures Distinct(r)
    ensures forall i :: 0 <= i < |r| ==> r[i] in xs
    ensures forall i :: 0 <= i < |xs| ==> xs[i] in r
    ensures |r| <= |xs|
  {
    if xs == [] then []
    else
      var p := DistinctFirstSeen(Init(xs));
      if Last(xs) in p then p else p + [Last(xs)]
  }

  lemma FirstIndexInInit<T>(xs: seq<T>, y: T)
    requires |xs| > 0 && y in Init(xs)
    ensures FirstIndex(xs, y) == FirstIndex(Init(xs), y) < |xs| - 1
  {
  }

  lemma DistinctFirstSeenAppend<T>(xs: seq<T>, x: T)
    ensures DistinctFirstSeen(xs + [x]) ==
            if x in xs then DistinctFirstSeen(xs) else DistinctFirstSeen(xs) + [x]
  {
    assert Init(xs + [x]) == xs && Last(xs + [x]) == x;
    var p := DistinctFirstSeen(xs);
    if x in xs {
      var i :| 0 <= i < |xs| && xs[i] == x;
      assert x in p;
    } else {
      assert forall i :: 0 <= i < |p| ==> p[i] != x;
    }
  }

  /** Every element of `r` occurs in `xs`, and each first occurs before the
      elements that follow it in `r`. */
  predicate InFirstSeenOrder<T(==)>(r: seq<T>, xs: seq<T>) {
    && (forall i :: 0 <= i < |r| ==> r[i] in xs)
    && (forall j, k :: 0 <= j < k < |r| ==> FirstIndex(xs, r[j]) < FirstIndex(xs, r[k]))
  }

  lemma {:induction false} FirstSeenOrder<T>(xs: seq<T>)
    ensures InFirstSeenOrder(DistinctFirstSeen(xs), xs)
  {
    if xs != [] {
      FirstSeenOrder(Init(xs));
      var p := DistinctFirstSeen(Init(xs));
      var r := DistinctFirstSeen(xs);
      forall j, k | 0 <= j < k < |r|
        ensures FirstIndex(xs, r[j]) < FirstIndex(xs, r[k])
      {
        assert r[j] == p[j] && p[j] in Init(xs);
        FirstIndexInInit(xs, p[j]);
        if k < |p| {
          assert r[k] == p[k] && p[k] in Init(xs);
          FirstIndexInInit(xs, p[k]);
          assert FirstIndex(Init(xs), p[j]) < FirstIndex(Init(xs), p[k]);
        } else {
          assert r[k] == Last(xs) && Last(xs) !in Init(xs);
          assert FirstIndex(xs, Last(xs)) == |xs| - 1;
        }
      }
    }
  }

  /** `xs` is obtained from `ys` by dropping elements, keeping the order. */
  predicate Subsequence<T(==)>(xs: seq<T>, ys: seq<T>)
    decreases |ys|
  {
    if xs == [] then true
    else if ys == [] then false
    else (Last(xs) == Last(ys) && Subsequence(Init(xs), Init(ys))) || Subsequence(xs, Init(ys))
  }

  function Sum(xs: seq<nat>): nat {
    if xs == [] then 0 else Sum(Init(xs)) + Last(xs)
  }

  lemma {:induction false} SumOfZeros(xs: seq<nat>)
    requires forall i :: 0 <= i < |xs| ==> xs[i] == 0
    ensures Sum(xs) == 0
  {
    if xs != [] {
      SumOfZeros(Init(xs));
    }
  }

  /** Increasing one entry of a sequence by one increases its sum by one. */
  lemma {:induction false} SumBumpOne(a: seq<nat>, b: seq<nat>, j: nat)
    requires |a| == |b| && j < |a|
    requires b[j] == a[j] + 1
    requires forall i :: 0 <= i < |a| && i != j ==> b[i] == a[i]
    ensures Sum(b) == Sum(a) + 1
  {
    if j == |a| - 1 {
      assert Init(b) == Init(a);
    } else {
      SumBumpOne(Init(a), Init(b), j);
    }
  }
}
