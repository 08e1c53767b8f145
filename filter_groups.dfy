/** MatchGroup as the source's loop, and ApplyGroup, which compacts an array in place
    to the items every group matches. */
module FilterGroups {
  import opened Wrappers
  import opened Values
  import opened Operators
  import opened Seqs
  import opened Conditions
  import opened Tree

  /** Match(item, filter) for a filter member: match, negated when reversed. */
  method MatchFilter(env: Env, item: Value, f: Filter) returns (r: Run<bool>)
    ensures r == FilterMatch(env, item, f)
  {
    var m := Conditions.Match(env, item, f);
    r := if m.Panic? then Panic else Ret(m.value != f.reverse);
  }

  /** MatchGroup: every member is visited (the source's `break` leaves only the type
      switch); members that are neither filters nor groups are skipped. */
  method MatchGroup(env: Env, item: Value, g: FilterGroup) returns (r: Run<bool>)
    ensures r == EvalGroup(env, item, g)
    decreases g, 1
  {
    if g.operator == AND {
      var matched := MatchAll(env, item, g);
      r := if matched.Panic? then Panic else Ret(matched.value != g.reverse);
    } else if g.operator == OR {
      var matched := MatchAny(env, item, g);
      r := if matched.Panic? then Panic else Ret(matched.value != g.reverse);
    } else {
      r := Ret(false);
    }
  }

  /** The AND loop: `matched` starts true and is cleared by a member that fails. */
  method MatchAll(env: Env, item: Value, g: FilterGroup) returns (r: Run<bool>)
    ensures r == AllOf(env, item, g, |g.members|)
    decreases g, 0
  {
    var matched := true;
    for i := 0 to |g.members|
      invariant AllOf(env, item, g, i) == Ret(matched)
    {
      var res := MatchMember(env, item, g.members[i], true);
      if res.Panic? {
        PanicSpreads(env, item, g, |g.members|, i);
        return Panic;
      }
      if !res.value {
        matched := false;
      }
    }
    return Ret(matched);
  }

  /** The OR loop: `matched` starts false and is set by a member that matches. */
  method MatchAny(env: Env, item: Value, g: FilterGroup) returns (r: Run<bool>)
    ensures r == AnyOf(env, item, g, |g.members|)
    decreases g, 0
  {
    var matched := false;
    for i := 0 to |g.members|
      invariant AnyOf(env, item, g, i) == Ret(matched)
    {
      var res := MatchMember(env, item, g.members[i], false);
      if res.Panic? {
        PanicSpreads(env, item, g, |g.members|, i);
        return Panic;
      }
      if res.value {
        matched := true;
      }
    }
    return Ret(matched);
  }

  /** One iteration's type switch: a group or a filter is matched, anything else is
      skipped and leaves the flag at `neutral`. */
  method MatchMember(env: Env, item: Value, c: Condition, neutral: bool) returns (r: Run<bool>)
    ensures r == Member(env, item, c, neutral)
    decreases c, 0
  {
    match c {
      case Group(inner) => r := MatchGroup(env, item, inner);
      case Leaf(f) => r := MatchFilter(env, item, f);
      case Chain(_) => r := Ret(neutral);
    }
  }

  /** Whether an item passes every group, stopping at the first group it fails. */
  function PassesAll(env: Env, item: Value, groups: seq<FilterGroup>): Run<bool>
  {
    if groups == [] then Ret(true)
    else
      var m :- EvalGroup(env, item, groups[0]);
      if !m then Ret(false) else PassesAll(env, item, groups[1..])
  }

  /** The inner loop of ApplyGroup, with its early `break`. */
  method MatchesEveryGroup(env: Env, item: Value, groups: seq<FilterGroup>) returns (r: Run<bool>)
    ensures r == PassesAll(env, item, groups)
  {
    for j := 0 to |groups|
      invariant PassesAll(env, item, groups) == PassesAll(env, item, groups[j..])
    {
      assert groups[j..][0] == groups[j] && groups[j..][1..] == groups[j + 1..];
      var m := MatchGroup(env, item, groups[j]);
      if m.Panic? {
        return Panic;
      }
      if !m.value {
        return Ret(false);
      }
    }
    return Ret(true);
  }

  /** The predicate ApplyGroup keeps items by. */
  function Keep(env: Env, groups: seq<FilterGroup>): Value -> bool
  {
    item => PassesAll(env, item, groups) == Ret(true)
  }

  /** ApplyGroup: moves each kept item to the next free position and returns that
      prefix's length. Unless some item panics, the prefix holds exactly the kept items
      in their original order and every position from the prefix's end on is untouched. */
  method ApplyGroup(env: Env, collection: array<Value>, groups: seq<FilterGroup>) returns (r: Run<nat>)
    modifies collection
    ensures r.Ret? <==> forall i :: 0 <= i < collection.Length ==> PassesAll(env, old(collection[i]), groups).Ret?
    ensures r.Ret? ==> r.value <= collection.Length
    ensures r.Ret? ==> collection[..r.value] == Where(old(collection[..]), Keep(env, groups))
    ensures r.Ret? ==> forall k :: r.value <= k < collection.Length ==> collection[k] == old(collection[k])
  {
    ghost var s := collection[..];
    var position := 0;
    for i := 0 to collection.Length
      invariant position <= i
      invariant collection[..position] == Where(s[..i], Keep(env, groups))
      invariant forall k :: position <= k < collection.Length ==> collection[k] == s[k]
      invariant forall j :: 0 <= j < i ==> PassesAll(env, s[j], groups).Ret?
    {
      assert collection[i] == s[i];
      WhereAppend(s[..i], s[i], Keep(env, groups));
      assert s[..i + 1] == s[..i] + [s[i]];
      var matches := MatchesEveryGroup(env, collection[i], groups);
      if matches.Panic? {
        return Panic;
      }
      if matches.value {
        collection[position] := collection[i];
        position := position + 1;
      }
    }
    assert s[..collection.Length] == s;
    return Ret(position);
  }

  /** With no groups every item is kept. */
  lemma ApplyNoGroups(env: Env, s: seq<Value>)
    ensures Where(s, Keep(env, [])) == s
  {
    WhereAll(s, Keep(env, []));
  }

  /** An item is kept iff it passes every group, so once one group rejects it the later
      groups are irrelevant. */
  lemma {:induction false} KeepMeaning(env: Env, item: Value, groups: seq<FilterGroup>)
    requires forall k :: 0 <= k < |groups| ==> EvalGroup(env, item, groups[k]).Ret?
    ensures Keep(env, groups)(item) <==> forall k :: 0 <= k < |groups| ==> EvalGroup(env, item, groups[k]).value
    decreases |groups|
  {
    if groups != [] {
      assert forall k :: 0 <= k < |groups[1..]| ==> groups[1..][k] == groups[k + 1];
      KeepMeaning(env, item, groups[1..]);
      if EvalGroup(env, item, groups[0]).value {
        assert forall k :: 1 <= k < |groups| ==> groups[k] == groups[1..][k - 1];
      }
    }
  }
}
