/** Rule requests: the serialisable description of a rule (condition entries and group
    entries of filters, an error message and action) and BuildRuleFromRequest, which
    turns one into a Rule by resolving filter keys through a lookup and filing the
    resulting conditions with AddCondition. */
module Requests {
  import opened Wrappers
  import opened Values
  import opened Conditions
  import opened Tree
  import opened Rules

  /** A GroupRequest: filters combined by `operator`, possibly reversed. */
  datatype GroupRequest = GroupRequest(operator: string, filters: seq<Filter>, reverse: bool)

  /** A group entry: an optional left and right group request and the operator and
      reverse flag the pair is filed with. */
  datatype GroupEntry = GroupEntry(left: Option<GroupRequest>, operator: string, right: Option<GroupRequest>, reverse: bool)

  /** getCondition: nil, or a function from a filter key to an optional filter. */
  type Resolver = Option<string -> Option<Filter>>

  /** What handleConditions makes of one filter: a filter with a key, when there is a
      resolver, becomes the resolved filter or disappears; any other filter is kept. */
  function Resolved(f: Filter, get: Resolver): seq<Condition>
  {
    if f.filterKey != "" && get.Some? then
      match get.value(f.filterKey)
      case Some(g) => [Leaf(g)]
      case None => []
    else [Leaf(f)]
  }

  /** handleConditions on a list of filters, in order. */
  function Handled(fs: seq<Filter>, get: Resolver): seq<Condition>
  {
    if fs == [] then [] else Handled(fs[..|fs| - 1], get) + Resolved(fs[|fs| - 1], get)
  }

  /** handleConditions keeps the order of the filters: the conditions of a concatenation
      are the conditions of each part, one after the other. */
  lemma {:induction false} HandledAppend(a: seq<Filter>, b: seq<Filter>, get: Resolver)
    ensures Handled(a + b, get) == Handled(a, get) + Handled(b, get)
    decreases |b|
  {
    if b == [] {
      assert a + b == a;
    } else {
      var n := |b| - 1;
      assert (a + b)[..|a + b| - 1] == a + b[..n];
      assert (a + b)[|a + b| - 1] == b[n];
      HandledAppend(a, b[..n], get);
    }
  }

  /** Without a resolver every filter is kept, as a leaf, in place. */
  lemma {:induction false} HandledWithoutResolver(fs: seq<Filter>)
    ensures |Handled(fs, None)| == |fs|
    ensures forall i :: 0 <= i < |fs| ==> Handled(fs, None)[i] == Leaf(fs[i])
    decreases |fs|
  {
    if fs != [] {
      HandledWithoutResolver(fs[..|fs| - 1]);
    }
  }

  /** A condition is produced iff it is a leaf of a filter without a key (or of any
      filter when there is no resolver), or a leaf of what the resolver returns for a
      filter's key. */
  lemma {:induction false} HandledMembers(fs: seq<Filter>, get: Resolver, c: Condition)
    ensures c in Handled(fs, get) <==> exists i :: 0 <= i < |fs| && c in Resolved(fs[i], get)
    decreases |fs|
  {
    if fs != [] {
      var n := |fs| - 1;
      HandledMembers(fs[..n], get, c);
      if c in Resolved(fs[n], get) {
        assert 0 <= n < |fs| && c in Resolved(fs[n], get);
      }
      if exists i :: 0 <= i < |fs| && c in Resolved(fs[i], get) {
        var i :| 0 <= i < |fs| && c in Resolved(fs[i], get);
        if i < n {
          assert fs[..n][i] == fs[i];
        }
      }
    }
  }

  /** What Resolved produces, spelled out. */
  lemma ResolvedCases(f: Filter, get: Resolver, c: Condition)
    ensures c in Resolved(f, get) <==>
      ((f.filterKey == "" || get.None?) && c == Leaf(f)) ||
      (f.filterKey != "" && get.Some? && c.Leaf? && get.value(f.filterKey) == Some(c.filter))
  {
  }

  /** handleConditions: the filters of the request, resolved as Handled says. */
  method HandleConditions(request: GroupRequest, get: Resolver) returns (conditions: seq<Condition>)
    ensures conditions == Handled(request.filters, get)
  {
    conditions := [];
    for i := 0 to |request.filters|
      invariant conditions == Handled(request.filters[..i], get)
    {
      var con := request.filters[i];
      assert request.filters[..i + 1][..i] == request.filters[..i];
      if con.filterKey != "" && get.Some? {
        var fil := get.value(con.filterKey);
        if fil.Some? {
          conditions := conditions + [Leaf(fil.value)];
        }
      } else {
        conditions := conditions + [Leaf(con)];
      }
    }
    assert request.filters[..|request.filters|] == request.filters;
  }

  /** handleGroupRequest: nothing for a nil request or one whose conditions all
      disappear, else a group of those conditions with the request's operator and
      reverse flag. */
  function GroupOf(request: Option<GroupRequest>, get: Resolver): Option<FilterGroup>
  {
    if request.None? then None
    else
      var conditions := Handled(request.value.filters, get);
      if |conditions| > 0 then Some(NewFilterGroup(request.value.operator, request.value.reverse, conditions))
      else None
  }

  /** A group comes out iff the request is present and one of its filters survives
      resolution; it then carries the request's operator and flag and has members. */
  lemma GroupOfMeaning(request: Option<GroupRequest>, get: Resolver)
    ensures GroupOf(request, get).Some? <==>
      request.Some? && exists i :: 0 <= i < |request.value.filters| && Resolved(request.value.filters[i], get) != []
    ensures GroupOf(request, get).Some? ==>
      GroupOf(request, get).value.operator == request.value.operator &&
      GroupOf(request, get).value.reverse == request.value.reverse &&
      |GroupOf(request, get).value.members| > 0
  {
    if request.Some? {
      var fs := request.value.filters;
      var conditions := Handled(fs, get);
      if |conditions| > 0 {
        HandledMembers(fs, get, conditions[0]);
      }
      if exists i :: 0 <= i < |fs| && Resolved(fs[i], get) != [] {
        var i :| 0 <= i < |fs| && Resolved(fs[i], get) != [];
        HandledMembers(fs, get, Resolved(fs[i], get)[0]);
      }
    }
  }

  /** handleGroupRequest. */
  method HandleGroupRequest(request: Option<GroupRequest>, get: Resolver) returns (g: Option<FilterGroup>)
    ensures g == GroupOf(request, get)
  {
    if request.None? {
      return None;
    }
    var conditions := HandleConditions(request.value, get);
    if |conditions| > 0 {
      return Some(NewFilterGroup(request.value.operator, request.value.reverse, conditions));
    }
    return None;
  }

  // ---- BuildRuleFromRequest ------------------------------------------------------

  /** One AddCondition call: operator, reverse flag and conditions. */
  datatype Call = Call(operator: string, reverse: bool, conditions: seq<Condition>)

  /** The effect of one call on a rule value. */
  function Step(r: RuleNode, c: Call): RuleNode
  {
    AddTo(r, c.operator, c.reverse, Wrap(c.operator, c.reverse, c.conditions), |c.conditions| > 1)
  }

  /** The rule value after a sequence of calls, in order. */
  function Replay(r: RuleNode, calls: seq<Call>): RuleNode
  {
    if calls == [] then r else Step(Replay(r, calls[..|calls| - 1]), calls[|calls| - 1])
  }

  /** The call an entry makes: one, unless it has no conditions. */
  function CallIfAny(operator: string, reverse: bool, conditions: seq<Condition>): seq<Call>
  {
    if |conditions| > 0 then [Call(operator, reverse, conditions)] else []
  }

  /** The calls the condition entries make: one per entry whose filters do not all
      disappear. */
  function ConditionCalls(entries: seq<GroupRequest>, get: Resolver): seq<Call>
  {
    if entries == [] then []
    else
      var e := entries[|entries| - 1];
      var conditions := Handled(e.filters, get);
      ConditionCalls(entries[..|entries| - 1], get) + CallIfAny(e.operator, e.reverse, conditions)
  }

  /** The groups one group entry contributes: its left group, then its right group,
      each only when present. */
  function Pieces(e: GroupEntry, get: Resolver): seq<Condition>
  {
    var left := GroupOf(e.left, get);
    var right := GroupOf(e.right, get);
    (if left.Some? then [Group(left.value)] else []) + (if right.Some? then [Group(right.value)] else [])
  }

  /** Pieces, as a function of the entry. */
  function PiecesFor(get: Resolver): GroupEntry -> seq<Condition>
  {
    e => Pieces(e, get)
  }

  /** The `groups` list after the given entries, for any way `pieces` of computing an
      entry's groups: the list is shared by all entries, so it holds the pieces of
      every entry so far. */
  function Accumulated(entries: seq<GroupEntry>, pieces: GroupEntry -> seq<Condition>): seq<Condition>
  {
    if entries == [] then []
    else Accumulated(entries[..|entries| - 1], pieces) + pieces(entries[|entries| - 1])
  }

  /** The calls the group entries make as written: after each entry, one call with the
      whole accumulated list, once it is non-empty. */
  function GroupCalls(entries: seq<GroupEntry>, pieces: GroupEntry -> seq<Condition>): seq<Call>
  {
    if entries == [] then []
    else
      var e := entries[|entries| - 1];
      var groups := Accumulated(entries, pieces);
      GroupCalls(entries[..|entries| - 1], pieces) + CallIfAny(e.operator, e.reverse, groups)
  }

  /** The calls the group entries evidently should make: one per entry with its own
      pieces, as the condition entries do. */
  function GroupCallsIntended(entries: seq<GroupEntry>, pieces: GroupEntry -> seq<Condition>): seq<Call>
  {
    if entries == [] then []
    else
      var e := entries[|entries| - 1];
      var groups := pieces(e);
      GroupCallsIntended(entries[..|entries| - 1], pieces) + CallIfAny(e.operator, e.reverse, groups)
  }

  /** The rule BuildRuleFromRequest builds: the condition calls, then the group calls,
      replayed on an empty rule. */
  function Built(conditions: seq<GroupRequest>, groups: seq<GroupEntry>, get: Resolver): RuleNode
  {
    Replay(Replay(RuleNode(None, "", None, false, ""), ConditionCalls(conditions, get)), GroupCalls(groups, PiecesFor(get)))
  }

  /** The accumulated list grows: the list after fewer entries is a prefix of it. */
  lemma {:induction false} AccumulatedPrefix(entries: seq<GroupEntry>, pieces: GroupEntry -> seq<Condition>, k: nat)
    requires k <= |entries|
    ensures Accumulated(entries[..k], pieces) <= Accumulated(entries, pieces)
    decreases |entries|
  {
    if k < |entries| {
      var n := |entries| - 1;
      assert entries[..n][..k] == entries[..k];
      AccumulatedPrefix(entries[..n], pieces, k);
    } else {
      assert entries[..k] == entries;
    }
  }

  /** Each group call as written passes a prefix of the next call's list, and the last
      call passes the pieces of every entry. */
  lemma {:induction false} GroupCallsAccumulate(entries: seq<GroupEntry>, pieces: GroupEntry -> seq<Condition>)
    ensures forall i, j :: 0 <= i < j < |GroupCalls(entries, pieces)| ==>
      GroupCalls(entries, pieces)[i].conditions <= GroupCalls(entries, pieces)[j].conditions
    ensures GroupCalls(entries, pieces) != [] ==>
      GroupCalls(entries, pieces)[|GroupCalls(entries, pieces)| - 1].conditions == Accumulated(entries, pieces)
    ensures forall i :: 0 <= i < |GroupCalls(entries, pieces)| ==> GroupCalls(entries, pieces)[i].conditions <= Accumulated(entries, pieces)
    decreases |entries|
  {
    if entries != [] {
      var n := |entries| - 1;
      var e := entries[n];
      var acc := Accumulated(entries, pieces);
      var before := GroupCalls(entries[..n], pieces);
      var last := CallIfAny(e.operator, e.reverse, acc);
      var calls := GroupCalls(entries, pieces);
      assert calls == before + last;
      GroupCallsAccumulate(entries[..n], pieces);
      AccumulatedPrefix(entries, pieces, n);
      ChainAppend(before, last, Accumulated(entries[..n], pieces), acc);
    }
  }

  /** Appending at most one call whose list extends every earlier list keeps the lists
      growing. */
  lemma ChainAppend(before: seq<Call>, last: seq<Call>, prev: seq<Condition>, acc: seq<Condition>)
    requires forall i, j :: 0 <= i < j < |before| ==> before[i].conditions <= before[j].conditions
    requires forall i :: 0 <= i < |before| ==> before[i].conditions <= prev
    requires prev <= acc
    requires |last| <= 1 && forall c :: c in last ==> c.conditions == acc
    ensures forall i, j :: 0 <= i < j < |before + last| ==> (before + last)[i].conditions <= (before + last)[j].conditions
    ensures forall i :: 0 <= i < |before + last| ==> (before + last)[i].conditions <= acc
  {
    var calls := before + last;
    forall i | 0 <= i < |calls|
      ensures calls[i].conditions <= acc
    {
      if i < |before| {
        assert calls[i] == before[i];
      } else {
        assert calls[i] == last[i - |before|];
      }
    }
  }

  /** The intended group calls pass each entry's own pieces: their lists together are
      the accumulated list. */
  lemma {:induction false} GroupCallsIntendedPartition(entries: seq<GroupEntry>, pieces: GroupEntry -> seq<Condition>)
    ensures Concat(GroupCallsIntended(entries, pieces)) == Accumulated(entries, pieces)
    decreases |entries|
  {
    if entries != [] {
      var n := |entries| - 1;
      GroupCallsIntendedPartition(entries[..n], pieces);
      var groups := pieces(entries[n]);
      if |groups| > 0 {
        ConcatAppend(GroupCallsIntended(entries[..n], pieces), [Call(entries[n].operator, entries[n].reverse, groups)]);
      } else {
        assert GroupCallsIntended(entries, pieces) == GroupCallsIntended(entries[..n], pieces) + [];
        assert GroupCallsIntended(entries[..n], pieces) + [] == GroupCallsIntended(entries[..n], pieces);
        assert Accumulated(entries, pieces) == Accumulated(entries[..n], pieces) + [];
      }
    }
  }

  /** The condition lists of some calls, one after the other. */
  function Concat(calls: seq<Call>): seq<Condition>
  {
    if calls == [] then [] else Concat(calls[..|calls| - 1]) + calls[|calls| - 1].conditions
  }

  lemma {:induction false} ConcatAppend(a: seq<Call>, b: seq<Call>)
    requires |b| == 1
    ensures Concat(a + b) == Concat(a) + b[0].conditions
  {
    assert (a + b)[..|a + b| - 1] == a;
  }

  /** An entry whose only group is a left one made of one filter without a key
      contributes exactly that group. */
  lemma LeftOnlyPieces(o: string, f: Filter, r: bool, op: string, rev: bool, get: Resolver)
    requires f.filterKey == ""
    ensures Pieces(GroupEntry(Some(GroupRequest(o, [f], r)), op, None, rev), get) == [Group(FilterGroup(o, [Leaf(f)], r))]
  {
    assert [f][..0] == [];
    assert Handled([f], get) == [Leaf(f)];
  }

  /** Two entries that each contribute one group: as written the second call passes
      both groups, so the first group is filed twice; as intended it passes its own. */
  lemma GroupsAccumulateTwice(e1: GroupEntry, e2: GroupEntry, pieces: GroupEntry -> seq<Condition>, a: Condition, b: Condition)
    requires pieces(e1) == [a] && pieces(e2) == [b]
    ensures GroupCalls([e1, e2], pieces) == [Call(e1.operator, e1.reverse, [a]), Call(e2.operator, e2.reverse, [a, b])]
    ensures GroupCallsIntended([e1, e2], pieces) == [Call(e1.operator, e1.reverse, [a]), Call(e2.operator, e2.reverse, [b])]
  {
    var entries := [e1, e2];
    assert entries[..1] == [e1];
    assert entries[..1][..0] == [];
    assert Accumulated([e1], pieces) == [a];
    assert Accumulated(entries, pieces) == [a, b];
    assert GroupCalls([e1], pieces) == [] + CallIfAny(e1.operator, e1.reverse, [a]);
    assert GroupCalls(entries, pieces) == GroupCalls([e1], pieces) + CallIfAny(e2.operator, e2.reverse, [a, b]);
    assert GroupCallsIntended([e1], pieces) == [] + CallIfAny(e1.operator, e1.reverse, [a]);
    assert GroupCallsIntended(entries, pieces) == GroupCallsIntended([e1], pieces) + CallIfAny(e2.operator, e2.reverse, [b]);
  }

  /** Replaying calls on a rule value, split at the last call. */
  lemma ReplaySnoc(r: RuleNode, calls: seq<Call>, c: Call)
    ensures Replay(r, calls + [c]) == Step(Replay(r, calls), c)
  {
    assert (calls + [c])[..|calls|] == calls;
  }

  /** What each call files, in order. */
  function Wraps(calls: seq<Call>): (w: seq<Option<Condition>>)
    ensures |w| == |calls|
  {
    if calls == [] then []
    else
      var c := calls[|calls| - 1];
      Wraps(calls[..|calls| - 1]) + [Wrap(c.operator, c.reverse, c.conditions)]
  }

  /** Each call's entry in Wraps is that call's conditions as AddCondition wraps them. */
  lemma {:induction false} WrapsAt(calls: seq<Call>, i: nat)
    requires i < |calls|
    ensures Wraps(calls)[i] == Wrap(calls[i].operator, calls[i].reverse, calls[i].conditions)
    decreases |calls|
  {
    if i < |calls| - 1 {
      WrapsAt(calls[..|calls| - 1], i);
    }
  }

  /** The chain of a rule built from an empty rule: one link per call, each holding
      that call's conditions as AddCondition wraps them; the root takes the first
      call's operator, and its reverse flag unless that call wrapped several
      conditions. */
  lemma {:induction false} ReplayChain(calls: seq<Call>)
    requires calls != []
    requires forall i :: 0 <= i < |calls| ==> calls[i].conditions != []
    ensures Linked(Replay(RuleNode(None, "", None, false, ""), calls))
    ensures ChainOf(Replay(RuleNode(None, "", None, false, ""), calls)) == Wraps(calls)
    ensures Replay(RuleNode(None, "", None, false, ""), calls).operator == calls[0].operator
    ensures Replay(RuleNode(None, "", None, false, ""), calls).reverse ==
      (|calls[0].conditions| <= 1 && calls[0].reverse)
    decreases |calls|
  {
    var empty := RuleNode(None, "", None, false, "");
    var n := |calls| - 1;
    var c := calls[n];
    if n == 0 {
      assert calls[..0] == [];
      AddToEmpty(empty, c.operator, c.reverse, c.conditions);
    } else {
      var before := Replay(empty, calls[..n]);
      ReplayChain(calls[..n]);
      AddAppends(before, c.operator, c.reverse, Wrap(c.operator, c.reverse, c.conditions), |c.conditions| > 1);
      assert calls[..n][0] == calls[0];
    }
  }

  /** There are never more condition calls than entries, and none of them is empty. */
  lemma {:induction false} ConditionCallsShape(entries: seq<GroupRequest>, get: Resolver)
    ensures |ConditionCalls(entries, get)| <= |entries|
    ensures forall i :: 0 <= i < |ConditionCalls(entries, get)| ==> ConditionCalls(entries, get)[i].conditions != []
    decreases |entries|
  {
    if entries != [] {
      ConditionCallsShape(entries[..|entries| - 1], get);
    }
  }

  /** Replaying two runs of calls is replaying them one after the other. */
  lemma {:induction false} ReplayAppend(r: RuleNode, a: seq<Call>, b: seq<Call>)
    ensures Replay(r, a + b) == Replay(Replay(r, a), b)
    decreases |b|
  {
    if b == [] {
      assert a + b == a;
    } else {
      var n := |b| - 1;
      assert (a + b)[..|a + b| - 1] == a + b[..n];
      assert (a + b)[|a + b| - 1] == b[n];
      ReplayAppend(r, a, b[..n]);
    }
  }

  /** Adds the conditions when there are any, as both loops of BuildRuleFromRequest do. */
  method AddIfAny(rule: Rule, operator: string, reverse: bool, conditions: seq<Condition>)
    modifies rule
    ensures rule.Snapshot() == Replay(old(rule.Snapshot()), CallIfAny(operator, reverse, conditions))
    ensures rule.result == old(rule.result) && rule.errorResponse == old(rule.errorResponse)
    ensures rule.callback == old(rule.callback)
  {
    if |conditions| > 0 {
      ghost var calls := CallIfAny(operator, reverse, conditions);
      assert calls[..0] == [];
      rule.AddCondition(operator, reverse, conditions);
    }
  }

  /** BuildRuleFromRequest's first loop: each condition entry whose filters do not all
      disappear adds its conditions with its operator and reverse flag. */
  method AddConditionEntries(rule: Rule, entries: seq<GroupRequest>, get: Resolver)
    modifies rule
    ensures rule.Snapshot() == Replay(old(rule.Snapshot()), ConditionCalls(entries, get))
    ensures rule.result == old(rule.result) && rule.errorResponse == old(rule.errorResponse)
    ensures rule.callback == old(rule.callback)
  {
    ghost var start := rule.Snapshot();
    for i := 0 to |entries|
      invariant rule.Snapshot() == Replay(start, ConditionCalls(entries[..i], get))
      invariant rule.result == old(rule.result) && rule.errorResponse == old(rule.errorResponse)
      invariant rule.callback == old(rule.callback)
    {
      assert entries[..i + 1][..i] == entries[..i];
      var cons := entries[i];
      var conditions := HandleConditions(cons, get);
      ReplayAppend(start, ConditionCalls(entries[..i], get), CallIfAny(cons.operator, cons.reverse, conditions));
      AddIfAny(rule, cons.operator, cons.reverse, conditions);
    }
    assert entries[..|entries|] == entries;
  }

  /** BuildRuleFromRequest's second loop: each group entry appends its left and right
      groups to the shared list, and the whole list is added whenever it is
      non-empty. */
  method AddGroupEntries(rule: Rule, pairs: seq<GroupEntry>, get: Resolver)
    modifies rule
    ensures rule.Snapshot() == Replay(old(rule.Snapshot()), GroupCalls(pairs, PiecesFor(get)))
    ensures rule.result == old(rule.result) && rule.errorResponse == old(rule.errorResponse)
    ensures rule.callback == old(rule.callback)
  {
    ghost var middle := rule.Snapshot();
    var groups: seq<Condition> := [];
    for i := 0 to |pairs|
      invariant groups == Accumulated(pairs[..i], PiecesFor(get))
      invariant rule.Snapshot() == Replay(middle, GroupCalls(pairs[..i], PiecesFor(get)))
      invariant rule.result == old(rule.result) && rule.errorResponse == old(rule.errorResponse)
      invariant rule.callback == old(rule.callback)
    {
      assert pairs[..i + 1][..i] == pairs[..i];
      var cons := pairs[i];
      groups := AppendPieces(groups, cons, get);
      assert groups == Accumulated(pairs[..i + 1], PiecesFor(get));
      ReplayAppend(middle, GroupCalls(pairs[..i], PiecesFor(get)), CallIfAny(cons.operator, cons.reverse, groups));
      AddIfAny(rule, cons.operator, cons.reverse, groups);
    }
    assert pairs[..|pairs|] == pairs;
  }

  /** The body of the second loop up to the call: the entry's left group, then its right
      group, appended to the shared list when present. */
  method AppendPieces(groups: seq<Condition>, cons: GroupEntry, get: Resolver) returns (r: seq<Condition>)
    ensures r == groups + Pieces(cons, get)
  {
    r := groups;
    var left := HandleGroupRequest(cons.left, get);
    if left.Some? {
      r := r + [Group(left.value)];
    }
    var right := HandleGroupRequest(cons.right, get);
    if right.Some? {
      r := r + [Group(right.value)];
    }
  }

  /** Every group call passes a non-empty list, and there are never more group calls
      than entries. */
  lemma {:induction false} GroupCallsShape(entries: seq<GroupEntry>, pieces: GroupEntry -> seq<Condition>)
    ensures |GroupCalls(entries, pieces)| <= |entries|
    ensures forall i :: 0 <= i < |GroupCalls(entries, pieces)| ==> GroupCalls(entries, pieces)[i].conditions != []
    decreases |entries|
  {
    if entries != [] {
      GroupCallsShape(entries[..|entries| - 1], pieces);
    }
  }

  /** Two runs of non-empty calls on an empty rule give one link per call. */
  lemma ReplayChainTwo(first: seq<Call>, second: seq<Call>)
    requires first + second != []
    requires forall i :: 0 <= i < |first| ==> first[i].conditions != []
    requires forall i :: 0 <= i < |second| ==> second[i].conditions != []
    ensures Linked(Replay(Replay(RuleNode(None, "", None, false, ""), first), second))
    ensures ChainOf(Replay(Replay(RuleNode(None, "", None, false, ""), first), second)) == Wraps(first + second)
  {
    var empty := RuleNode(None, "", None, false, "");
    ReplayAppend(empty, first, second);
    var calls := first + second;
    forall i | 0 <= i < |calls|
      ensures calls[i].conditions != []
    {
      if i >= |first| {
        assert calls[i] == second[i - |first|];
      }
    }
    ReplayChain(calls);
  }

  /** The rule BuildRuleFromRequest builds has one link per call it makes, condition
      entries first and group entries after, each holding what that call filed. */
  lemma BuiltChain(conditions: seq<GroupRequest>, groups: seq<GroupEntry>, get: Resolver)
    requires ConditionCalls(conditions, get) + GroupCalls(groups, PiecesFor(get)) != []
    ensures Linked(Built(conditions, groups, get))
    ensures ChainOf(Built(conditions, groups, get)) ==
      Wraps(ConditionCalls(conditions, get) + GroupCalls(groups, PiecesFor(get)))
  {
    ConditionCallsShape(conditions, get);
    GroupCallsShape(groups, PiecesFor(get));
    ReplayChainTwo(ConditionCalls(conditions, get), GroupCalls(groups, PiecesFor(get)));
  }

  /** RuleRequest: the error response to use, the condition and group entries, and the
      rule built from them (nil until BuildRuleFromRequest or SetRule sets it). */
  class RuleRequest {
    var id: string
    var errorMsg: string
    var errorAction: string
    var conditions: seq<GroupRequest>
    var groups: seq<GroupEntry>
    var rule: Rule?

    constructor (id: string, errorMsg: string, errorAction: string, conditions: seq<GroupRequest>, groups: seq<GroupEntry>)
      ensures this.id == id && this.errorMsg == errorMsg && this.errorAction == errorAction
      ensures this.conditions == conditions && this.groups == groups && rule == null
    {
      this.id := id;
      this.errorMsg := errorMsg;
      this.errorAction := errorAction;
      this.conditions := conditions;
      this.groups := groups;
      rule := null;
    }

    /** SetRule: replaces the rule and nothing else. */
    method SetRule(r: Rule?)
      modifies this
      ensures rule == r
      ensures id == old(id) && errorMsg == old(errorMsg) && errorAction == old(errorAction)
      ensures conditions == old(conditions) && groups == old(groups)
    {
      rule := r;
    }

    /** Validate: the error "rule not provided" without a rule, else what the rule's own
      validation (given as `validate`) says about the data. */
    method Validate(data: Value, validate: (RuleNode, Value) -> Result<Value>) returns (r: Result<Value>)
      ensures rule == null ==> r == Err("rule not provided")
      ensures rule != null ==> r == validate(rule.Snapshot(), data)
    {
      if rule == null {
        return Err("rule not provided");
      }
      return validate(rule.Snapshot(), data);
    }
  }

  /** An ApplicationRule: a rule request and where it applies. */
  class ApplicationRule {
    var request: RuleRequest
    var key: string
    var level: string
    var parentKey: string

    constructor (request: RuleRequest, key: string, level: string, parentKey: string)
      ensures this.request == request && this.key == key && this.level == level && this.parentKey == parentKey
    {
      this.request := request;
      this.key := key;
      this.level := level;
      this.parentKey := parentKey;
    }

    /** BuildRuleFromRequest: a new rule holding the condition entries' calls and then
      the group entries' calls, with the request's error response, stored in the
      request; nothing else in the request changes. */
    method BuildRuleFromRequest(get: Resolver)
      modifies request
      ensures request == old(request)
      ensures request.rule != null && fresh(request.rule)
      ensures request.rule.Snapshot() == Built(request.conditions, request.groups, get)
      ensures request.rule.errorResponse == ErrorResponse(request.errorMsg, request.errorAction)
      ensures request.rule.callback.None? && !request.rule.result
      ensures request.id == old(request.id) && request.errorMsg == old(request.errorMsg)
      ensures request.errorAction == old(request.errorAction)
      ensures request.conditions == old(request.conditions) && request.groups == old(request.groups)
    {
      var rule := new Rule();
      AddConditionEntries(rule, request.conditions, get);
      AddGroupEntries(rule, request.groups, get);
      rule.SetErrorResponse(request.errorMsg, request.errorAction);
      request.SetRule(rule);
    }
  }
}
