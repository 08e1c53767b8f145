/** The n-ary slice intersection of examples/intersect.go. */
module Intersect {

  /** `x` occurs in every one of `rest`. */
  predicate InAll<T(==)>(x: T, rest: seq<seq<T>>)
  {
    forall k :: 0 <= k < |rest| ==> x in rest[k]
  }

  /** The elements of `first` that occur in every one of `rest`, in order and with
      their repetitions. */
  function Kept<T(==)>(first: seq<T>, rest: seq<seq<T>>): seq<T>
  {
    if |first| == 0 then []
    else Kept(first[..|first| - 1], rest) + (if InAll(first[|first| - 1], rest) then [first[|first| - 1]] else [])
  }

  /** Intersection: nothing for no slices, the one slice itself for one, and otherwise
      the first slice filtered by membership in all the others. */
  function Intersected<T(==)>(p: seq<seq<T>>): seq<T>
  {
    if |p| == 0 then []
    else if |p| == 1 then p[0]
    else Kept(p[0], p[1..])
  }

  /** What the filter keeps: every element that occurs in all the others, as often as
      it occurs in `first`, and nothing else. */
  lemma {:induction false} KeptMeaning<T>(first: seq<T>, rest: seq<seq<T>>)
    ensures |Kept(first, rest)| <= |first|
    ensures forall x :: multiset(Kept(first, rest))[x] == if InAll(x, rest) then multiset(first)[x] else 0
    decreases |first|
  {
    if |first| > 0 {
      var init, last := first[..|first| - 1], first[|first| - 1];
      assert first == init + [last];
      KeptMeaning(init, rest);
    }
  }

  /** The result, for two or more slices, holds exactly the common elements. */
  lemma IntersectedMeaning<T>(p: seq<seq<T>>, x: T)
    requires |p| >= 2
    ensures x in Intersected(p) <==> x in p[0] && forall k :: 1 <= k < |p| ==> x in p[k]
    ensures |Intersected(p)| <= |p[0]|
  {
    KeptMeaning(p[0], p[1..]);
    assert x in Intersected(p) <==> multiset(Intersected(p))[x] > 0;
    assert InAll(x, p[1..]) <==> forall k :: 1 <= k < |p| ==> x in p[k] by {
      if InAll(x, p[1..]) {
        forall k | 1 <= k < |p|
          ensures x in p[k]
        {
          assert p[1..][k - 1] == p[k];
        }
      }
    }
  }

  /** Intersection, as the loops compute it: for each element of the first slice,
      count the other slices that contain it, stopping at the first that does not. */
  method Intersection<T(==)>(p: seq<seq<T>>) returns (rs: seq<T>)
    ensures rs == Intersected(p)
  {
    rs := [];
    if |p| == 0 {
      return;
    }
    if |p| == 1 {
      return p[0];
    }
    var first, rest := p[0], p[1..];
    var i := 0;
    while i < |first|
      invariant 0 <= i <= |first|
      invariant rs == Kept(first[..i], rest)
    {
      var f := first[i];
      var j := 0;
      while j < |rest| && f in rest[j]
        invariant 0 <= j <= |rest|
        invariant forall k :: 0 <= k < j ==> f in rest[k]
      {
        j := j + 1;
      }
      assert first[..i + 1][..i] == first[..i];
      if j == |rest| {
        rs := rs + [f];
      }
      i := i + 1;
    }
    assert first[..i] == first;
  }
}
