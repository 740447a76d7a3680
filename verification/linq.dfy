/**
  LINQ's `Enumerable.Union`: the distinct elements of the first sequence
  followed by those of the second not already produced, each element kept at
  its first occurrence.
 */
module Linq {

  predicate NoDuplicates<T(==)>(s: seq<T>) {
    forall i, j :: 0 <= i < j < |s| ==> s[i] != s[j]
  }

  /** Position of the first occurrence of `x` in `s`. */
  function FirstIndex<T(==)>(s: seq<T>, x: T): (k: nat)
    requires x in s
    ensures k < |s| && s[k] == x && x !in s[..k]
  {
    if s[0] == x then 0
    else
      var k := 1 + FirstIndex(s[1..], x);
      assert s[..k] == [s[0]] + s[1..][..k - 1];
      k
  }

  /** The first occurrence of `x` is the only position before which `x` does not appear. */
  lemma FirstIndexUnique<T>(s: seq<T>, x: T, k: nat)
    requires k < |s| && s[k] == x && x !in s[..k]
    ensures FirstIndex(s, x) == k
  {
  }

  /** The elements of `r` appear in the order of their first occurrences in `s`. */
  ghost predicate InFirstOccurrenceOrder<T>(s: seq<T>, r: seq<T>)
    requires forall i :: 0 <= i < |r| ==> r[i] in s
  {
    forall i, j :: 0 <= i < j < |r| ==> FirstIndex(s, r[i]) < FirstIndex(s, r[j])
  }

  /** `s` with every repeated element dropped after its first occurrence. */
  function Distinct<T(==)>(s: seq<T>): (r: seq<T>)
    ensures NoDuplicates(r)
    ensures forall i :: 0 <= i < |r| ==> r[i] in s
    ensures forall i :: 0 <= i < |s| ==> s[i] in r
    decreases |s|
  {
    if |s| == 0 then []
    else
      var d := Distinct(s[..|s| - 1]);
      var x := s[|s| - 1];
      if x in d then d else d + [x]
  }

  /** Extending `init` by one element leaves the first occurrences of its elements where they were. */
  lemma FirstIndexOfPrefix<T>(s: seq<T>, init: seq<T>, d: seq<T>)
    requires |s| > 0 && init == s[..|s| - 1]
    requires forall i :: 0 <= i < |d| ==> d[i] in init
    ensures forall y :: y in d ==> FirstIndex(s, y) == FirstIndex(init, y) < |s| - 1
  {
  }

  /** `Distinct` keeps the surviving elements in the order in which they first occur. */
  lemma {:induction false} DistinctInFirstOccurrenceOrder<T>(s: seq<T>)
    ensures InFirstOccurrenceOrder(s, Distinct(s))
    decreases |s|
  {
    if |s| > 0 {
      var init, x := s[..|s| - 1], s[|s| - 1];
      var d := Distinct(init);
      DistinctInFirstOccurrenceOrder(init);
      FirstIndexOfPrefix(s, init, d);
      if x !in d {
        assert x !in init;
        FirstIndexUnique(s, x, |s| - 1);
      }
    }
  }

  /** `first.Union(second)`. */
  function Union<T(==)>(first: seq<T>, second: seq<T>): (r: seq<T>)
    ensures NoDuplicates(r)
    ensures forall i :: 0 <= i < |r| ==> r[i] in first || r[i] in second
    ensures forall i :: 0 <= i < |first| ==> first[i] in r
    ensures forall i :: 0 <= i < |second| ==> second[i] in r
  {
    var s := first + second;
    assert forall i :: 0 <= i < |first| ==> s[i] == first[i];
    assert forall i :: 0 <= i < |second| ==> s[|first| + i] == second[i];
    Distinct(s)
  }

  /** A sequence without duplicates is its own set of first occurrences. */
  lemma {:induction false} DistinctOfNoDuplicates<T>(s: seq<T>)
    requires NoDuplicates(s)
    ensures Distinct(s) == s
    decreases |s|
  {
    if |s| > 0 {
      var init := s[..|s| - 1];
      var x := s[|s| - 1];
      DistinctOfNoDuplicates(init);
      assert Distinct(s) == if x in Distinct(init) then Distinct(init) else Distinct(init) + [x];
      assert x !in init;
      assert init + [x] == s;
    }
  }

  /** Removing duplicates twice is removing them once. */
  lemma DistinctIdempotent<T>(s: seq<T>)
    ensures Distinct(Distinct(s)) == Distinct(s)
  {
    DistinctOfNoDuplicates(Distinct(s));
  }

  lemma DistinctSnoc<T>(s: seq<T>, z: T)
    ensures Distinct(s + [z]) == if z in Distinct(s) then Distinct(s) else Distinct(s) + [z]
  {
  }

  /** Dropping duplicates early does not change the end result. */
  lemma {:induction false} DistinctAbsorbs<T>(x: seq<T>, y: seq<T>)
    ensures Distinct(Distinct(x) + y) == Distinct(x + y)
    decreases |y|
  {
    var dx := Distinct(x);
    if |y| == 0 {
      assert dx + y == dx && x + y == x;
      DistinctIdempotent(x);
    } else {
      var y', z := y[..|y| - 1], y[|y| - 1];
      DistinctAbsorbs(x, y');
      SnocSplit(dx, y);
      SnocSplit(x, y);
      DistinctSnoc(dx + y', z);
      DistinctSnoc(x + y', z);
    }
  }

  lemma SnocSplit<T>(a: seq<T>, y: seq<T>)
    requires |y| > 0
    ensures a + y == (a + y[..|y| - 1]) + [y[|y| - 1]]
  {
  }

  /** `a.Union(b).Union(c).Union(d)` is the distinct elements of the four sequences concatenated. */
  lemma UnionChain<T>(a: seq<T>, b: seq<T>, c: seq<T>, d: seq<T>)
    ensures Union(Union(Union(a, b), c), d) == Distinct(a + b + c + d)
  {
    DistinctAbsorbs(a + b, c);
    DistinctAbsorbs(a + b + c, d);
  }
}
