/** Joins of two filter groups: FilterJoin over a slice, which runs ApplyGroup for each
    side on the same backing array, and MatchJoin for a single item. */
module Joins {
  import opened Wrappers
  import opened Values
  import opened Operators
  import opened Seqs
  import opened Conditions
  import opened Tree
  import opened FilterGroups
  import Utils

  /** A join: two optional groups, a boolean combinator and a negation flag. */
  datatype Join = Join(left: Option<FilterGroup>, right: Option<FilterGroup>, operator: string, reverse: bool)

  const MissingGroup := "missing left or right filter group"
  const UnsupportedOperator := "unsupported boolean operator"

  /** The final switch of FilterJoin: AND intersects, OR unites, anything else fails. */
  function Combine<T>(left: seq<T>, right: seq<T>, key: T -> string, op: string): (r: Result<seq<T>>)
    ensures r.Err? <==> op != AND && op != OR
    ensures r.Err? ==> r.msg == UnsupportedOperator
  {
    if op == AND then Ok(Utils.IntersectionOf(left, right, key))
    else if op == OR then Ok(Utils.UnionOf(left, right, key))
    else Err(UnsupportedOperator)
  }

  /** FilterJoin as written on an input `s0`: the left pass compacts the array in place,
      the right pass compacts the already compacted array, and the left result is read
      back through its slice header after the right pass has overwritten its storage. */
  function JoinAsWritten<T>(s0: seq<T>, keepLeft: T -> bool, keepRight: T -> bool, key: T -> string, op: string): Result<seq<T>>
  {
    var left := Where(s0, keepLeft);
    var s1 := left + s0[|left|..];
    var right := Where(s1, keepRight);
    var s2 := right + s1[|right|..];
    Combine(s2[..|left|], right, key, op)
  }

  /** The array ApplyGroup leaves behind: the kept items moved to the front, in order,
      and the old contents after them. */
  function Compacted<T>(s: seq<T>, p: T -> bool): (r: seq<T>)
    ensures |r| == |s|
    ensures r[..|Where(s, p)|] == Where(s, p) && r[|Where(s, p)|..] == s[|Where(s, p)|..]
  {
    Where(s, p) + s[|Where(s, p)|..]
  }

  /** FilterJoin as evidently intended: each side filters the original input. */
  function JoinIntended<T>(s0: seq<T>, keepLeft: T -> bool, keepRight: T -> bool, key: T -> string, op: string): Result<seq<T>>
  {
    Combine(Where(s0, keepLeft), Where(s0, keepRight), key, op)
  }

  /** No item of `s` panics when matched against group `g`. */
  ghost predicate NoPanics(env: Env, s: seq<Value>, g: FilterGroup)
  {
    forall x :: x in s ==> PassesAll(env, x, [g]).Ret?
  }

  /** Every element of a compacted array `Where(s, p) + s[|Where(s, p)|..]` comes from `s`. */
  lemma CompactedFrom<T>(s: seq<T>, p: T -> bool, x: T)
    requires x in Where(s, p) + s[|Where(s, p)|..]
    ensures x in s
  {
    if x in Where(s, p) {
      WhereMembers(s, p, x);
    }
  }

  /** A panic in the right pass over the compacted array comes from an item of the
      original input. */
  lemma SecondPassPanics(env: Env, s0: seq<Value>, keepLeft: Value -> bool, s1: seq<Value>, g: FilterGroup)
    requires s1 == Where(s0, keepLeft) + s0[|Where(s0, keepLeft)|..]
    requires !forall i :: 0 <= i < |s1| ==> PassesAll(env, s1[i], [g]).Ret?
    ensures !NoPanics(env, s0, g)
  {
    var i :| 0 <= i < |s1| && !PassesAll(env, s1[i], [g]).Ret?;
    CompactedFrom(s0, keepLeft, s1[i]);
  }

  /** FilterJoin: a missing side fails before the array is touched; a panic while
      matching either pass propagates; otherwise the result is the as-written join. */
  method FilterJoin(env: Env, data: array<Value>, j: Join, key: Value -> string) returns (r: Run<Result<seq<Value>>>)
    modifies data
    ensures j.left.None? || j.right.None? ==> r == Ret(Err(MissingGroup)) && data[..] == old(data[..])
    ensures (j.left.Some? && j.right.Some? && NoPanics(env, old(data[..]), j.left.value)
             && NoPanics(env, old(data[..]), j.right.value)) ==> r.Ret?
    ensures j.left.Some? && j.right.Some? ==>
      (r.Ret? <==> NoPanics(env, old(data[..]), j.left.value) &&
                   NoPanics(env, Compacted(old(data[..]), Keep(env, [j.left.value])), j.right.value))
    ensures r.Ret? && j.left.Some? && j.right.Some? ==>
      r.value == JoinAsWritten(old(data[..]), Keep(env, [j.left.value]), Keep(env, [j.right.value]), key, j.operator)
    ensures r.Ret? && j.left.Some? && j.right.Some? ==>
      data[..] == Compacted(Compacted(old(data[..]), Keep(env, [j.left.value])), Keep(env, [j.right.value]))
  {
    ghost var s0 := data[..];
    if j.left.None? || j.right.None? {
      return Ret(Err(MissingGroup));
    }
    ghost var keepLeft := Keep(env, [j.left.value]);
    ghost var keepRight := Keep(env, [j.right.value]);
    var first := ApplyGroup(env, data, [j.left.value]);
    if first.Panic? {
      return Panic;
    }
    var n1 := first.value;
    ghost var s1 := data[..];
    assert s1 == Where(s0, keepLeft) + s0[n1..] by {
      assert data[..] == data[..n1] + data[n1..];
    }
    var second := ApplyGroup(env, data, [j.right.value]);
    if second.Panic? {
      SecondPassPanics(env, s0, keepLeft, s1, j.right.value);
      return Panic;
    }
    var n2 := second.value;
    assert data[..] == Where(s1, keepRight) + s1[n2..] by {
      assert data[..] == data[..n2] + data[n2..];
    }
    var leftResult := data[..n1];
    var rightResult := data[..n2];
    if j.operator == AND {
      var joined := Utils.Intersection(leftResult, rightResult, key);
      return Ret(Ok(joined));
    } else if j.operator == OR {
      var joined := Utils.Union(leftResult, rightResult, key);
      return Ret(Ok(joined));
    }
    return Ret(Err(UnsupportedOperator));
  }

  /** With AND every element the as-written join returns comes from the input and was
      kept by the right group; with OR every element comes from the input. */
  lemma {:induction false} JoinAsWrittenSound<T>(s0: seq<T>, keepLeft: T -> bool, keepRight: T -> bool, key: T -> string, op: string, x: T)
    requires JoinAsWritten(s0, keepLeft, keepRight, key, op).Ok?
    requires x in JoinAsWritten(s0, keepLeft, keepRight, key, op).value
    ensures x in s0
    ensures op == AND ==> keepRight(x)
  {
    var left := Where(s0, keepLeft);
    var s1 := left + s0[|left|..];
    var right := Where(s1, keepRight);
    var s2 := right + s1[|right|..];
    var view := s2[..|left|];
    assert x in view || x in right by {
      Utils.IntersectionUnionMembers(view, right, key, x);
    }
    if x in view {
      assert x in s2;
      CompactedFrom(s1, keepRight, x);
    } else {
      WhereMembers(s1, keepRight, x);
    }
    CompactedFrom(s0, keepLeft, x);
    if op == AND {
      Utils.IntersectionUnionMembers(view, right, key, x);
      WhereMembers(s1, keepRight, x);
    }
  }

  /** The intended join, for a key that tells items apart: AND keeps exactly the input
      items both groups keep, OR exactly those either group keeps. */
  lemma JoinIntendedMembers<T>(s0: seq<T>, keepLeft: T -> bool, keepRight: T -> bool, key: T -> string, op: string, x: T)
    requires forall y, z :: key(y) == key(z) ==> y == z
    requires op == AND || op == OR
    ensures JoinIntended(s0, keepLeft, keepRight, key, op).Ok?
    ensures op == AND ==> (x in JoinIntended(s0, keepLeft, keepRight, key, op).value <==> x in s0 && keepLeft(x) && keepRight(x))
    ensures op == OR ==> (x in JoinIntended(s0, keepLeft, keepRight, key, op).value <==> x in s0 && (keepLeft(x) || keepRight(x)))
  {
    var left := Where(s0, keepLeft);
    var right := Where(s0, keepRight);
    Utils.IntersectionUnionMembers(left, right, key, x);
    WhereMembers(s0, keepLeft, x);
    WhereMembers(s0, keepRight, x);
    if key(x) in Utils.KeysOf(left, key) {
      var i :| 0 <= i < |left| && key(left[i]) == key(x);
      assert left[i] == x;
    }
  }

  /** The input that shows the aliasing with OR: two records, the left group keeping the
      second and the right group the first; the as-written join loses the record only
      the right group keeps. */
  lemma JoinAliasingLosesItem()
    ensures JoinAsWritten([One, Two], IsTwo, IsOne, FormatKey, OR) == Ok([Two])
    ensures JoinIntended([One, Two], IsTwo, IsOne, FormatKey, OR) == Ok([Two, One])
  {
    RecordsDiffer();
    var s0 := [One, Two];
    assert s0[1..] == [Two];
    assert Where(s0, IsTwo) == [Two];
    assert Where(s0, IsOne) == [One];
    var s1 := [Two, Two];
    assert s1[1..] == [Two];
    assert Where(s0, IsTwo) + s0[1..] == s1;
    assert Where(s1, IsOne) == [];
    assert [] + s1[0..] == s1 && s1[..1] == [Two];
    assert Utils.UnionOf([Two], [], FormatKey) == [Two];
    assert Utils.KeysOf([Two], FormatKey) == {"id:2|"};
    assert FormatKey(One) == "id:1|";
    assert Utils.NotInKeys([Two], FormatKey)(One);
    assert [One][1..] == [];
    assert Where([One], Utils.NotInKeys([Two], FormatKey)) == [One];
    assert Utils.UnionOf([Two], [One], FormatKey) == [Two, One];
  }

  /** The input that shows the aliasing with AND: the as-written join returns a record
      the left group rejects, because the right pass overwrote the left result. */
  lemma JoinAliasingAddsItem()
    ensures JoinAsWritten([One, Two], IsOne, IsTwo, FormatKey, AND) == Ok([Two])
    ensures JoinIntended([One, Two], IsOne, IsTwo, FormatKey, AND) == Ok([])
  {
    RecordsDiffer();
    var s0 := [One, Two];
    assert s0[1..] == [Two];
    assert Where(s0, IsOne) == [One];
    assert Where(s0, IsTwo) == [Two];
    assert Where(s0, IsOne) + s0[1..] == s0;
    var s2 := [Two, Two];
    assert Where(s0, IsTwo) + s0[1..] == s2;
    assert s2[..1] == [Two];
    assert Utils.KeysOf([Two], FormatKey) == {"id:2|"};
    assert Utils.KeysOf([One], FormatKey) == {"id:1|"};
    assert Where([Two], Utils.InKeys([One], FormatKey)) == [];
    assert Where([Two], Utils.InKeys([Two], FormatKey)) == [Two];
  }

  /** The two records of the counterexamples, maps as the data of a join usually are:
      Serialize works on maps, while on an int it panics before any join. */
  const One: Value := Map(map["id" := Int(1)])
  const Two: Value := Map(map["id" := Int(2)])

  lemma RecordsDiffer()
    ensures One != Two && One.entries["id"] == Int(1) && Two.entries["id"] == Int(2)
  {
    assert One.entries["id"] != Two.entries["id"];
  }

  /** The two groups of the counterexamples, as predicates on items. */
  predicate IsOne(v: Value) { v == One }
  predicate IsTwo(v: Value) { v == Two }

  /** Serialize on the two records: each key with its value, `key:value|`, in key order. */
  function FormatKey(v: Value): (k: string)
    ensures v == One ==> k == "id:1|"
    ensures v == Two ==> k == "id:2|"
  {
    RecordsDiffer();
    if v == One then "id:1|" else if v == Two then "id:2|" else ""
  }

  /** MatchJoin: a missing side is false; both sides are matched (left first) and
      combined with AND/OR, negated when reversed; any other combinator is false. */
  function MatchJoin(env: Env, item: Value, j: Join): (r: Run<bool>)
    ensures j.left.None? || j.right.None? ==> r == Ret(false)
    ensures j.operator != AND && j.operator != OR ==> r != Ret(true)
    ensures j.left.Some? && j.right.Some? ==>
      (r.Panic? <==> EvalGroup(env, item, j.left.value).Panic? || EvalGroup(env, item, j.right.value).Panic?)
  {
    if j.left.None? || j.right.None? then Ret(false)
    else
      var l :- EvalGroup(env, item, j.left.value);
      var r :- EvalGroup(env, item, j.right.value);
      if j.operator == AND then Ret((l && r) != j.reverse)
      else if j.operator == OR then Ret((l || r) != j.reverse)
      else Ret(false)
  }

  /** Reverse negates an AND/OR join of two present sides, panicking together with the
      unreversed join; on a missing side or another combinator it changes nothing. */
  lemma MatchJoinReverse(env: Env, item: Value, j: Join)
    ensures var plain, reversed := MatchJoin(env, item, j.(reverse := false)), MatchJoin(env, item, j.(reverse := true));
      if j.left.Some? && j.right.Some? && (j.operator == AND || j.operator == OR) then
        (reversed.Panic? <==> plain.Panic?) && (plain.Ret? ==> reversed == Ret(!plain.value))
      else reversed == plain
  {
  }

  /** An item of the data matches an unreversed AND/OR join exactly when the intended
      FilterJoin of the data over the same groups returns it. */
  lemma MatchJoinAgreesWithJoin(env: Env, s0: seq<Value>, item: Value, j: Join, key: Value -> string)
    requires forall y, z :: key(y) == key(z) ==> y == z
    requires j.left.Some? && j.right.Some? && !j.reverse && (j.operator == AND || j.operator == OR)
    requires item in s0
    requires EvalGroup(env, item, j.left.value).Ret? && EvalGroup(env, item, j.right.value).Ret?
    ensures MatchJoin(env, item, j)
      == Ret(item in JoinIntended(s0, Keep(env, [j.left.value]), Keep(env, [j.right.value]), key, j.operator).value)
  {
    JoinIntendedMembers(s0, Keep(env, [j.left.value]), Keep(env, [j.right.value]), key, j.operator, item);
    KeepSingle(env, item, j.left.value);
    KeepSingle(env, item, j.right.value);
  }

  /** Keeping by one group is matching that group. */
  lemma KeepSingle(env: Env, item: Value, g: FilterGroup)
    ensures Keep(env, [g])(item) <==> EvalGroup(env, item, g) == Ret(true)
  {
    assert [g][1..] == [];
    assert PassesAll(env, item, []) == Ret(true);
  }
}
