/** Order-preserving filtering of sequences, the shape of every Go loop in the
    core that appends the items passing a test to a fresh slice. */
module Seqs {

  /** The subsequence of `s` whose elements satisfy `p`, in order, with duplicates. */
  function Where<T>(s: seq<T>, p: T -> bool): (r: seq<T>)
    ensures |r| <= |s|
  {
    if s == [] then [] else (if p(s[0]) then [s[0]] else []) + Where(s[1..], p)
  }

  /** Concatenation regroups freely. */
  lemma SeqAssoc<T>(x: seq<T>, y: seq<T>, z: seq<T>)
    ensures x + (y + z) == x + y + z
  {
  }

  lemma {:induction false} WhereAppend<T>(s: seq<T>, x: T, p: T -> bool)
    ensures Where(s + [x], p) == Where(s, p) + (if p(x) then [x] else [])
  {
    if s == [] {
      assert s + [x] == [x];
    } else {
      var t := if p(x) then [x] else [];
      var h := if p(s[0]) then [s[0]] else [];
      assert (s + [x])[0] == s[0];
      assert (s + [x])[1..] == s[1..] + [x];
      WhereAppend(s[1..], x, p);
      calc {
        Where(s + [x], p);
        h + Where(s[1..] + [x], p);
        h + (Where(s[1..], p) + t);
        (h + Where(s[1..], p)) + t;
      }
    }
  }

  lemma {:induction false} WhereMembers<T>(s: seq<T>, p: T -> bool, x: T)
    ensures x in Where(s, p) <==> x in s && p(x)
  {
    if s != [] {
      WhereMembers(s[1..], p, x);
      assert s == [s[0]] + s[1..];
    }
  }

  lemma {:induction false} WhereAll<T>(s: seq<T>, p: T -> bool)
    requires forall i :: 0 <= i < |s| ==> p(s[i])
    ensures Where(s, p) == s
  {
    if s != [] {
      WhereAll(s[1..], p);
    }
  }

  lemma {:induction false} WhereNone<T>(s: seq<T>, p: T -> bool)
    requires forall i :: 0 <= i < |s| ==> !p(s[i])
    ensures Where(s, p) == []
  {
    if s != [] {
      WhereNone(s[1..], p);
    }
  }

  /** Every element of `s` that satisfies `p` occurs in `Where(s, p)` as often as in `s`. */
  lemma {:induction false} WhereCount<T>(s: seq<T>, p: T -> bool, x: T)
    requires p(x)
    ensures multiset(Where(s, p))[x] == multiset(s)[x]
  {
    if s != [] {
      WhereCount(s[1..], p, x);
      assert s == [s[0]] + s[1..];
    }
  }

  /** Go's `append(s[:i], s[i+w:]...)` on a slice of length `n` backed by `a`: the
      elements after the gap are copied `w` places down inside the same array, and the
      last `w` cells of the old slice keep their old contents. */
  method ShiftDown<T>(a: array<T>, n: nat, i: nat, w: nat)
    requires i + w <= n <= a.Length
    modifies a
    ensures a[..n - w] == old(a[..i]) + old(a[i + w..n])
    ensures forall j :: n - w <= j < a.Length ==> a[j] == old(a[j])
  {
    ghost var original := a[..];
    var k := i;
    while k < n - w
      invariant i <= k <= n - w
      invariant forall j :: 0 <= j < i ==> a[j] == original[j]
      invariant forall j :: i <= j < k ==> a[j] == original[j + w]
      invariant forall j :: k <= j < a.Length ==> a[j] == original[j]
    {
      a[k] := a[k + w];
      k := k + 1;
    }
    Closed(a[..n - w], original[..n], i, w);
  }

  /** A sequence that agrees with `s` before `i` and with `s` shifted by `w` after it
      is `s` with the `w` elements at `i` cut out. */
  lemma Closed<T>(t: seq<T>, s: seq<T>, i: nat, w: nat)
    requires i + w <= |s| && |t| == |s| - w
    requires forall j :: 0 <= j < i ==> t[j] == s[j]
    requires forall j :: i <= j < |t| ==> t[j] == s[j + w]
    ensures t == s[..i] + s[i + w..]
  {
  }
}
