/**
 * The Kotlin collection operations the catalog and the downloaders rely on:
 * `filter`, `firstOrNull`/`find` and `listOfNotNull`, each specified
 * independently of its recursive definition.
 */
module Seqs {
  import opened Wrappers

  /** `a` can be obtained from `b` by deleting elements (order is kept). */
  ghost predicate IsSubsequence<T>(a: seq<T>, b: seq<T>)
    decreases |b|
  {
    |a| == 0 || (|b| > 0 && if a[0] == b[0] then IsSubsequence(a[1..], b[1..]) else IsSubsequence(a, b[1..]))
  }

  /** Number of elements of `s` that satisfy `p`. */
  function CountWhere<T>(s: seq<T>, p: T -> bool): nat
  {
    if |s| == 0 then 0 else (if p(s[0]) then 1 else 0) + CountWhere(s[1..], p)
  }

  /** Kotlin's `List.filter`: the elements satisfying `p`, in their original order. */
  function Filter<T(!new)>(s: seq<T>, p: T -> bool): (r: seq<T>)
    ensures forall x :: x in r <==> x in s && p(x)
    ensures forall i :: 0 <= i < |r| ==> p(r[i])
    ensures IsSubsequence(r, s)
    ensures |r| == CountWhere(s, p)
    ensures forall x :: multiset(r)[x] == if p(x) then multiset(s)[x] else 0
  {
    if |s| == 0 then []
    else
      var rest := Filter(s[1..], p);
      assert s == [s[0]] + s[1..];
      if p(s[0]) then [s[0]] + rest else rest
  }

  /** Filtering with a predicate every element satisfies returns the list unchanged. */
  lemma {:induction false} FilterAll<T(!new)>(s: seq<T>, p: T -> bool)
    requires forall i :: 0 <= i < |s| ==> p(s[i])
    ensures Filter(s, p) == s
  {
    if |s| > 0 {
      FilterAll(s[1..], p);
    }
  }

  /** Kotlin's `firstOrNull { p }` / `find { p }`: the earliest element satisfying `p`. */
  function FirstWhere<T>(s: seq<T>, p: T -> bool): (r: Option<T>)
    ensures r.None? <==> forall i :: 0 <= i < |s| ==> !p(s[i])
    ensures r.Some? ==> exists i :: 0 <= i < |s| && s[i] == r.value && p(s[i]) && forall j :: 0 <= j < i ==> !p(s[j])
  {
    if |s| == 0 then None
    else if p(s[0]) then Some(s[0])
    else
      var r := FirstWhere(s[1..], p);
      if r.Some? then FirstWhereShift(s, p, r.value); r else r
  }

  /** A first match in the tail of `s` is a first match in `s` when `s[0]` does not match. */
  lemma FirstWhereShift<T>(s: seq<T>, p: T -> bool, v: T)
    requires |s| > 0 && !p(s[0])
    requires exists i :: 0 <= i < |s| - 1 && s[1..][i] == v && p(v) && forall j :: 0 <= j < i ==> !p(s[1..][j])
    ensures exists i :: 0 <= i < |s| && s[i] == v && p(s[i]) && forall j :: 0 <= j < i ==> !p(s[j])
  {
    var i :| 0 <= i < |s| - 1 && s[1..][i] == v && p(v) && forall j :: 0 <= j < i ==> !p(s[1..][j]);
    assert s[i + 1] == v;
    forall j | 0 <= j < i + 1 ensures !p(s[j]) {
      if j > 0 { assert s[j] == s[1..][j - 1]; }
    }
  }

  /** Kotlin's `listOfNotNull`: the present values, in argument order. */
  function Present<T(!new)>(xs: seq<Option<T>>): (r: seq<T>)
    ensures |r| <= |xs|
    ensures forall x :: x in r <==> Some(x) in xs
    ensures |r| == |xs| - CountWhere(xs, (o: Option<T>) => o.None?)
  {
    if |xs| == 0 then []
    else
      var rest := Present(xs[1..]);
      assert forall x :: Some(x) in xs <==> xs[0] == Some(x) || Some(x) in xs[1..];
      if xs[0].Some? then [xs[0].value] + rest else rest
  }

  /** The values of an optional, as a list of length 0 or 1. */
  function OptionToSeq<T>(o: Option<T>): (r: seq<T>)
    ensures |r| <= 1
    ensures o.Some? ==> r == [o.value]
    ensures o.None? ==> r == []
  {
    if o.Some? then [o.value] else []
  }

  /** `listOfNotNull(a, b, c)` keeps the argument order. */
  lemma PresentOfThree<T(!new)>(a: Option<T>, b: Option<T>, c: Option<T>)
    ensures Present([a, b, c]) == OptionToSeq(a) + OptionToSeq(b) + OptionToSeq(c)
  {
    assert [a, b, c][1..] == [b, c];
    assert [b, c][1..] == [c];
    assert [c][1..] == [];
  }

  /** Three present values are kept, in order. */
  lemma PresentOfSomes<T(!new)>(a: T, b: T, c: T)
    ensures Present([Some(a), Some(b), Some(c)]) == [a, b, c]
  {
    PresentOfThree(Some(a), Some(b), Some(c));
  }

  /** An absent middle value is dropped and the outer two kept, in order. */
  lemma PresentSkipsMiddle<T(!new)>(a: T, c: T)
    ensures Present([Some(a), None, Some(c)]) == [a, c]
  {
    PresentOfThree(Some(a), None, Some(c));
  }
}
