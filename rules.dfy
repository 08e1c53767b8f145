/** The Rule object: a linear chain `Node <Operator> Next` that conditions are appended
    to, with the error response and callback that Apply uses. Rules nested inside the
    chain are the value `Tree.RuleNode`; the root rule is a class because AddCondition,
    SetCallback and SetErrorResponse update its fields in place. */
module Rules {
  import opened Wrappers
  import opened Values
  import opened Operators
  import opened Seqs
  import opened Conditions
  import opened Tree

  /** ErrorResponse: the message and action a failed rule reports. */
  datatype ErrorResponse = ErrorResponse(errorMsg: string, errorAction: string)

  /** The single condition AddCondition files: one condition as it is, several wrapped
      in one group carrying the operator and the reverse flag, none as a nil condition. */
  function Wrap(operator: string, reverse: bool, conditions: seq<Condition>): (c: Option<Condition>)
    ensures |conditions| == 1 ==> c == Some(conditions[0])
    ensures |conditions| > 1 ==> c == Some(Group(FilterGroup(operator, conditions, reverse)))
    ensures conditions == [] <==> c.None?
  {
    if |conditions| == 1 then Some(conditions[0])
    else if |conditions| > 1 then Some(Group(NewFilterGroup(operator, reverse, conditions)))
    else None
  }

  /** AddCondition on a rule value. An empty rule takes the condition as its node, the
      operator as its combinator and, unless the condition is a group, the reverse flag.
      Otherwise the condition is appended at the tail: into a missing next as a new rule
      node, into a next rule recursively, and after a next that is not a rule by first
      wrapping that next in a rule node carrying the new operator. */
  function AddTo(r: RuleNode, operator: string, reverse: bool, condition: Option<Condition>, grouped: bool): RuleNode
    decreases r
  {
    if r.node.None? then
      r.(node := condition, operator := operator, reverse := if grouped then r.reverse else reverse)
    else match r.next
      case None => r.(next := Some(Chain(NewRuleNode(operator, condition))))
      case Some(Chain(n)) => r.(next := Some(Chain(AddTo(n, operator, reverse, condition, false))))
      case Some(other) =>
        // NewRuleNode(operator, Next) has a node and no next, so the recursive call
        // on it stores the condition as its next.
        r.(next := Some(Chain(NewRuleNode(operator, Some(other)).(next := Some(Chain(NewRuleNode(operator, condition)))))))
  }

  /** The conditions of a chain from the root to the tail, the node of each link
      followed by a last next that is not a rule. */
  function ChainOf(r: RuleNode): seq<Option<Condition>>
    decreases r
  {
    [r.node] + match r.next
      case None => []
      case Some(Chain(n)) => ChainOf(n)
      case Some(c) => [Some(c)]
  }

  /** The combinator of the last link of a chain. */
  function TailOperator(r: RuleNode): string
    decreases r
  {
    match r.next
    case Some(Chain(n)) => TailOperator(n)
    case _ => r.operator
  }

  /** Every link of the chain has a node. */
  predicate Linked(r: RuleNode)
    decreases r
  {
    r.node.Some? && match r.next
      case Some(Chain(n)) => Linked(n)
      case _ => true
  }

  /** On a chain whose links all have nodes, AddTo appends the condition at the tail,
      the tail link carries the new operator, the chain stays linked when the condition
      is present, and the root keeps its reverse flag. */
  lemma {:induction false} AddAppends(r: RuleNode, operator: string, reverse: bool, condition: Option<Condition>, grouped: bool)
    requires Linked(r)
    ensures ChainOf(AddTo(r, operator, reverse, condition, grouped)) == ChainOf(r) + [condition]
    ensures TailOperator(AddTo(r, operator, reverse, condition, grouped)) == operator
    ensures condition.Some? ==> Linked(AddTo(r, operator, reverse, condition, grouped))
    ensures AddTo(r, operator, reverse, condition, grouped).reverse == r.reverse
    ensures AddTo(r, operator, reverse, condition, grouped).node == r.node
    decreases r
  {
    match r.next {
      case None =>
      case Some(Chain(n)) =>
        AddAppends(n, operator, reverse, condition, false);
      case Some(other) =>
        AddWraps(r, operator, reverse, condition, grouped);
    }
  }

  /** AddTo on a link whose next is a plain condition: that condition and the new one
      become a two-link chain in its place. */
  lemma AddWraps(r: RuleNode, operator: string, reverse: bool, condition: Option<Condition>, grouped: bool)
    requires Linked(r) && r.next.Some? && !r.next.value.Chain?
    ensures ChainOf(AddTo(r, operator, reverse, condition, grouped)) == ChainOf(r) + [condition]
    ensures TailOperator(AddTo(r, operator, reverse, condition, grouped)) == operator
    ensures condition.Some? ==> Linked(AddTo(r, operator, reverse, condition, grouped))
    ensures AddTo(r, operator, reverse, condition, grouped).reverse == r.reverse
    ensures AddTo(r, operator, reverse, condition, grouped).node == r.node
  {
    var other := r.next.value;
    var tail := NewRuleNode(operator, condition);
    var wrapped := NewRuleNode(operator, Some(other)).(next := Some(Chain(tail)));
    assert ChainOf(tail) == [condition];
    assert ChainOf(wrapped) == [Some(other)] + ChainOf(tail);
    assert TailOperator(wrapped) == TailOperator(tail) == operator;
    assert ChainOf(r) == [r.node] + [Some(other)];
  }

  /** On an empty rule, AddTo sets the node and the combinator, and applies the reverse
      flag only when the condition is not a group built from several conditions. */
  lemma AddToEmpty(r: RuleNode, operator: string, reverse: bool, conditions: seq<Condition>)
    requires r.node.None?
    ensures AddTo(r, operator, reverse, Wrap(operator, reverse, conditions), |conditions| > 1)
      == r.(node := Wrap(operator, reverse, conditions), operator := operator,
            reverse := if |conditions| > 1 then r.reverse else reverse)
    ensures ChainOf(AddTo(r, operator, reverse, Wrap(operator, reverse, conditions), |conditions| > 1))[0]
      == Wrap(operator, reverse, conditions)
  {
  }

  /** A Rule. `node`, `operator`, `next`, `reverse` and `condition` form the chain;
      `result` is a field the shown code never reads; the error response and the
      callback are private and set through their setters. */
  class Rule {
    var node: Option<Condition>
    var operator: string
    var next: Option<Condition>
    var reverse: bool
    var result: bool
    var condition: string
    var errorResponse: ErrorResponse
    var callback: Option<Value -> Value>

    /** NewRule: a rule with every field at its zero value. */
    constructor ()
      ensures Snapshot() == RuleNode(None, "", None, false, "")
      ensures !result && errorResponse == ErrorResponse("", "") && callback.None?
    {
      node := None;
      operator := "";
      next := None;
      reverse := false;
      result := false;
      condition := "";
      errorResponse := ErrorResponse("", "");
      callback := None;
    }

    /** The chain this rule holds, as a value. */
    function Snapshot(): RuleNode
      reads this
    {
      RuleNode(node, operator, next, reverse, condition)
    }

    /** Rule.Match. */
    function Match(env: Env, item: Value): Run<bool>
      reads this
    {
      EvalRule(env, item, Snapshot())
    }

    /** AddCondition: files the conditions as AddTo describes; nothing else changes. */
    method AddCondition(op: string, rev: bool, conditions: seq<Condition>)
      modifies this
      ensures Snapshot() == AddTo(old(Snapshot()), op, rev, Wrap(op, rev, conditions), |conditions| > 1)
      ensures result == old(result) && errorResponse == old(errorResponse) && callback == old(callback)
    {
      var cond: Option<Condition> := None;
      var hasReverse := false;
      if |conditions| == 1 {
        cond := Some(conditions[0]);
      } else if |conditions| > 1 {
        hasReverse := true;
        cond := Some(Group(NewFilterGroup(op, rev, conditions)));
      }
      if node.None? {
        node := cond;
        operator := op;
        if !hasReverse {
          reverse := rev;
        }
      } else if next.None? {
        next := Some(Chain(NewRuleNode(op, cond)));
      } else {
        var nextSequence: RuleNode;
        if next.value.Chain? {
          nextSequence := next.value.rule;
        } else {
          nextSequence := NewRuleNode(op, next);
        }
        next := Some(Chain(AddTo(nextSequence, op, rev, cond, false)));
      }
    }

    /** SetCallback: replaces the callback and nothing else. */
    method SetCallback(handler: Option<Value -> Value>)
      modifies this
      ensures callback == handler
      ensures Snapshot() == old(Snapshot()) && result == old(result) && errorResponse == old(errorResponse)
    {
      callback := handler;
    }

    /** SetErrorResponse: replaces the error response and nothing else. */
    method SetErrorResponse(msg: string, action: string)
      modifies this
      ensures errorResponse == ErrorResponse(msg, action)
      ensures Snapshot() == old(Snapshot()) && result == old(result) && callback == old(callback)
    {
      errorResponse := ErrorResponse(msg, action);
    }

    /** Apply: the callback's result for `data` always, with the stored error response
      exactly when the rule does not match; a panic in matching propagates. */
    method Apply(env: Env, data: Value, given: seq<Option<Value -> Value>>) returns (r: Run<(Value, Option<ErrorResponse>)>)
      ensures r.Panic? <==> Match(env, data).Panic?
      ensures r.Ret? ==> r.value.0 == ChooseCallback(callback, given)(data)
      ensures r.Ret? ==> (r.value.1.None? <==> Match(env, data) == Ret(true))
      ensures r.Ret? && r.value.1.Some? ==> r.value.1.value == errorResponse
    {
      var chosen: Option<Value -> Value> := None;
      if callback.Some? {
        chosen := callback;
      }
      if |given| > 0 {
        chosen := given[0];
      }
      var fn: Value -> Value;
      if chosen.None? {
        fn := (d: Value) => d;
      } else {
        fn := chosen.value;
      }
      var matched := EvalRule(env, data, Snapshot());
      if matched.Panic? {
        return Panic;
      }
      var err: Option<ErrorResponse> := None;
      if !matched.value {
        err := Some(ErrorResponse(errorResponse.errorMsg, errorResponse.errorAction));
      }
      return Ret((fn(data), err));
    }
  }

  /** The callback Apply runs: an explicitly given one (even a nil one, which then means
      the identity) wins over the stored one, and no callback at all means the identity. */
  function ChooseCallback(stored: Option<Value -> Value>, given: seq<Option<Value -> Value>>): Value -> Value
  {
    var chosen := if |given| > 0 then given[0] else stored;
    if chosen.Some? then chosen.value else (d: Value) => d
  }

  /** The three ways Apply picks its callback. */
  lemma ChooseCallbackCases(stored: Option<Value -> Value>, given: seq<Option<Value -> Value>>, d: Value)
    ensures |given| > 0 && given[0].Some? ==> ChooseCallback(stored, given)(d) == given[0].value(d)
    ensures |given| > 0 && given[0].None? ==> ChooseCallback(stored, given)(d) == d
    ensures given == [] && stored.Some? ==> ChooseCallback(stored, given)(d) == stored.value(d)
    ensures given == [] && stored.None? ==> ChooseCallback(stored, given)(d) == d
  {
  }

  // ---- FilterCondition -----------------------------------------------------------

  /** Condition.Match as a function from items to outcomes. */
  function Matcher(env: Env, expr: Condition): Value -> Run<bool>
  {
    item => Eval(env, item, expr)
  }

  /** FilterCondition: the items that match, in order; a panic in matching propagates. */
  method FilterCondition(env: Env, data: seq<Value>, expr: Condition) returns (r: Run<seq<Value>>)
    ensures r.Ret? <==> forall i :: 0 <= i < |data| ==> Eval(env, data[i], expr).Ret?
    ensures r.Ret? ==> r.value == Where(data, Accepts(Matcher(env, expr)))
  {
    r := KeepMatching(data, Matcher(env, expr));
  }

  /** An item is in FilterCondition's result iff it is in the data and matches. */
  lemma FilterConditionMembers(env: Env, data: seq<Value>, expr: Condition, x: Value)
    ensures x in Where(data, Accepts(Matcher(env, expr))) <==> x in data && Eval(env, x, expr) == Ret(true)
  {
    WhereMembers(data, Accepts(Matcher(env, expr)), x);
  }

  // ---- FirstTermFilter -----------------------------------------------------------

  /** FirstTermFilter's traversal: an Equal filter is the answer; a rule is searched
      node first, then next; groups and other filters give nothing. */
  function Traverse(c: Option<Condition>): Option<Filter>
    decreases c
  {
    match c
    case None => None
    case Some(Leaf(f)) => if f.operator == Equal then Some(f) else None
    case Some(Group(_)) => None
    case Some(Chain(n)) =>
      var first := Traverse(n.node);
      if first.Some? then first else Traverse(n.next)
  }

  /** The filters reachable from a condition through rules only, left to right. */
  function ChainLeaves(c: Option<Condition>): seq<Filter>
    decreases c
  {
    match c
    case None => []
    case Some(Leaf(f)) => [f]
    case Some(Group(_)) => []
    case Some(Chain(n)) => ChainLeaves(n.node) + ChainLeaves(n.next)
  }

  /** The first filter of a list whose operator is Equal. */
  function FirstEqual(fs: seq<Filter>): (r: Option<Filter>)
    ensures r.Some? ==> r.value in fs && r.value.operator == Equal
    ensures r.None? <==> forall i :: 0 <= i < |fs| ==> fs[i].operator != Equal
  {
    if fs == [] then None
    else if fs[0].operator == Equal then Some(fs[0])
    else FirstEqual(fs[1..])
  }

  /** The filter FirstEqual returns sits at a position before which no filter is Equal. */
  lemma {:induction false} FirstEqualPosition(fs: seq<Filter>)
    ensures FirstEqual(fs).Some? ==>
      exists i :: 0 <= i < |fs| && fs[i] == FirstEqual(fs).value &&
        forall j :: 0 <= j < i ==> fs[j].operator != Equal
  {
    if fs != [] && fs[0].operator != Equal {
      FirstEqualPosition(fs[1..]);
      if FirstEqual(fs).Some? {
        var i :| 0 <= i < |fs[1..]| && fs[1..][i] == FirstEqual(fs[1..]).value &&
          forall j :: 0 <= j < i ==> fs[1..][j].operator != Equal;
        assert fs[i + 1] == FirstEqual(fs).value;
        forall j | 0 <= j < i + 1
          ensures fs[j].operator != Equal
        {
          if j > 0 { assert fs[j] == fs[1..][j - 1]; }
        }
      }
    }
  }

  lemma {:induction false} FirstEqualAppend(a: seq<Filter>, b: seq<Filter>)
    ensures FirstEqual(a + b) == if FirstEqual(a).Some? then FirstEqual(a) else FirstEqual(b)
  {
    if a != [] {
      assert (a + b)[0] == a[0];
      assert (a + b)[1..] == a[1..] + b;
      FirstEqualAppend(a[1..], b);
    } else {
      assert a + b == b;
    }
  }

  /** The traversal finds the first Equal filter among the filters reachable through
      rules. */
  lemma {:induction false} TraverseFindsFirstEqual(c: Option<Condition>)
    ensures Traverse(c) == FirstEqual(ChainLeaves(c))
    decreases c
  {
    match c {
      case None =>
      case Some(Leaf(f)) =>
        assert [f][1..] == [];
      case Some(Group(_)) =>
      case Some(Chain(n)) =>
        TraverseFindsFirstEqual(n.node);
        TraverseFindsFirstEqual(n.next);
        FirstEqualAppend(ChainLeaves(n.node), ChainLeaves(n.next));
    }
  }

  /** FirstTermFilter: an error for a nil rule, else the first Equal filter in the node
      and then in next, else the error "no equal filter found". */
  function FirstTermFilter(r: Option<RuleNode>): (res: Result<Filter>)
    ensures r.None? ==> res == Err("sequence is nil")
    ensures r.Some? ==>
      res == (var f := FirstEqual(ChainLeaves(r.value.node) + ChainLeaves(r.value.next));
              if f.Some? then Ok(f.value) else Err("no equal filter found"))
    ensures res.Ok? ==> res.value.operator == Equal
  {
    if r.None? then Err("sequence is nil")
    else
      TraverseFindsFirstEqual(r.value.node);
      TraverseFindsFirstEqual(r.value.next);
      FirstEqualAppend(ChainLeaves(r.value.node), ChainLeaves(r.value.next));
      var first := Traverse(r.value.node);
      if first.Some? then Ok(first.value)
      else
        var second := Traverse(r.value.next);
        if second.Some? then Ok(second.value)
        else Err("no equal filter found")
  }
}
