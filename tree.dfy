/** The Condition interface and its three implementations: a single filter, a filter
    group (AND/OR over members, optionally reversed), and a rule, the linear chain
    `Node <Operator> Next`. Evaluation functions here are the specifications the
    group and rule operations are proved against. */
module Tree {
  import opened Wrappers
  import opened Values
  import opened Operators
  import opened Conditions

  datatype Condition =
    | Leaf(filter: Filter)
    | Group(group: FilterGroup)
    | Chain(rule: RuleNode)

  /** A FilterGroup: its members are combined by `operator`, "AND" or "OR". */
  datatype FilterGroup = FilterGroup(operator: string, members: seq<Condition>, reverse: bool)

  /** A Rule as a value: `node`, the combinator, the optional `next`, the reverse flag
      and the SQL text it was parsed from. */
  datatype RuleNode = RuleNode(node: Option<Condition>, operator: string, next: Option<Condition>, reverse: bool, condition: string)

  /** NewFilterGroup. */
  function NewFilterGroup(operator: string, reverse: bool, conditions: seq<Condition>): (g: FilterGroup)
    ensures g.operator == operator && g.reverse == reverse && g.members == conditions
  {
    FilterGroup(operator, conditions, reverse)
  }

  /** NewRuleNode: a rule holding only a node and its combinator. */
  function NewRuleNode(operator: string, condition: Option<Condition>): (r: RuleNode)
    ensures r.node == condition && r.operator == operator && r.next.None? && !r.reverse
  {
    RuleNode(condition, operator, None, false, "")
  }

  /** Condition.Match. */
  function Eval(env: Env, item: Value, c: Condition): Run<bool>
    decreases c, 0
  {
    match c
    case Leaf(f) => FilterMatch(env, item, f)
    case Group(g) => EvalGroup(env, item, g)
    case Chain(r) => EvalRule(env, item, r)
  }

  /** What a group member contributes: MatchGroup looks only at filters and groups, so
      any other member (a rule) contributes the neutral value `neutral`. */
  function Member(env: Env, item: Value, c: Condition, neutral: bool): Run<bool>
    decreases c, 1
  {
    if c.Chain? then Ret(neutral) else Eval(env, item, c)
  }

  /** The conjunction of the first `n` members; every member is evaluated. */
  function AllOf(env: Env, item: Value, g: FilterGroup, n: nat): Run<bool>
    requires n <= |g.members|
    decreases g, 0, n
  {
    if n == 0 then Ret(true)
    else
      var before :- AllOf(env, item, g, n - 1);
      var current :- Member(env, item, g.members[n - 1], true);
      Ret(before && current)
  }

  /** The disjunction of the first `n` members; every member is evaluated. */
  function AnyOf(env: Env, item: Value, g: FilterGroup, n: nat): Run<bool>
    requires n <= |g.members|
    decreases g, 0, n
  {
    if n == 0 then Ret(false)
    else
      var before :- AnyOf(env, item, g, n - 1);
      var current :- Member(env, item, g.members[n - 1], false);
      Ret(before || current)
  }

  /** MatchGroup: AND or OR over the members, negated when reversed; any other
      combinator is false, reversed or not. */
  function EvalGroup(env: Env, item: Value, g: FilterGroup): Run<bool>
    decreases g, 1
  {
    if g.operator == AND then
      var m :- AllOf(env, item, g, |g.members|);
      Ret(m != g.reverse)
    else if g.operator == OR then
      var m :- AnyOf(env, item, g, |g.members|);
      Ret(m != g.reverse)
    else Ret(false)
  }

  /** Rule.Match: Rule.match, negated when reversed. Rule.match evaluates the node
      (a nil node panics); AND with a false node stops there; with no next the node
      decides; otherwise next is evaluated and combined, any other combinator taking
      next's result alone. */
  function EvalRule(env: Env, item: Value, r: RuleNode): Run<bool>
    decreases r, 1
  {
    match r.node
    case None => Panic
    case Some(node) =>
      var matched :- Eval(env, item, node);
      var result :-
        if r.operator == AND && !matched then Ret(false)
        else match r.next
          case None => Ret(matched)
          case Some(next) =>
            var matchedNext :- Eval(env, item, next);
            Ret(if r.operator == AND then matched && matchedNext
                else if r.operator == OR then matched || matchedNext
                else matchedNext);
      Ret(result != r.reverse)
  }

  // ---- properties of groups ----------------------------------------------------

  /** No member of the first `n` panics. */
  predicate NonePanic(env: Env, item: Value, g: FilterGroup, n: nat, neutral: bool)
    requires n <= |g.members|
  {
    forall i :: 0 <= i < n ==> Member(env, item, g.members[i], neutral).Ret?
  }

  lemma {:induction false} AllOfMeaning(env: Env, item: Value, g: FilterGroup, n: nat)
    requires n <= |g.members| && NonePanic(env, item, g, n, true)
    ensures AllOf(env, item, g, n) ==
      Ret(forall i :: 0 <= i < n ==> Member(env, item, g.members[i], true).value)
    decreases n
  {
    if n > 0 {
      AllOfMeaning(env, item, g, n - 1);
    }
  }

  lemma {:induction false} AnyOfMeaning(env: Env, item: Value, g: FilterGroup, n: nat)
    requires n <= |g.members| && NonePanic(env, item, g, n, false)
    ensures AnyOf(env, item, g, n) ==
      Ret(exists i :: 0 <= i < n && Member(env, item, g.members[i], false).value)
    decreases n
  {
    if n > 0 {
      AnyOfMeaning(env, item, g, n - 1);
      if Member(env, item, g.members[n - 1], false).value {
        assert 0 <= n - 1 < n;
      }
    }
  }

  /** A member that panics makes the whole conjunction or disjunction panic: there is
      no short-circuit. */
  lemma {:induction false} PanicSpreads(env: Env, item: Value, g: FilterGroup, n: nat, k: nat)
    requires k < n <= |g.members|
    ensures Member(env, item, g.members[k], true).Panic? ==> AllOf(env, item, g, n).Panic?
    ensures Member(env, item, g.members[k], false).Panic? ==> AnyOf(env, item, g, n).Panic?
    decreases n
  {
    if k < n - 1 {
      PanicSpreads(env, item, g, n - 1, k);
    }
  }

  /** An AND group is true iff every filter and group member matches (true when there
      are none), negated when reversed. */
  lemma AndGroup(env: Env, item: Value, g: FilterGroup)
    requires g.operator == AND && NonePanic(env, item, g, |g.members|, true)
    ensures EvalGroup(env, item, g) ==
      Ret((forall i :: 0 <= i < |g.members| && !g.members[i].Chain? ==> Eval(env, item, g.members[i]).value) != g.reverse)
  {
    AllOfMeaning(env, item, g, |g.members|);
    assert (forall i :: 0 <= i < |g.members| ==> Member(env, item, g.members[i], true).value) <==>
           (forall i :: 0 <= i < |g.members| && !g.members[i].Chain? ==> Eval(env, item, g.members[i]).value);
  }

  /** An OR group is true iff some filter or group member matches (false when there are
      none), negated when reversed. */
  lemma OrGroup(env: Env, item: Value, g: FilterGroup)
    requires g.operator == OR && NonePanic(env, item, g, |g.members|, false)
    ensures EvalGroup(env, item, g) ==
      Ret((exists i :: 0 <= i < |g.members| && !g.members[i].Chain? && Eval(env, item, g.members[i]).value) != g.reverse)
  {
    AnyOfMeaning(env, item, g, |g.members|);
    assert (exists i :: 0 <= i < |g.members| && Member(env, item, g.members[i], false).value) <==>
           (exists i :: 0 <= i < |g.members| && !g.members[i].Chain? && Eval(env, item, g.members[i]).value);
  }

  /** Empty groups: AND is true and OR is false, before reversal. */
  lemma EmptyGroups(env: Env, item: Value, reverse: bool)
    ensures EvalGroup(env, item, FilterGroup(AND, [], reverse)) == Ret(!reverse)
    ensures EvalGroup(env, item, FilterGroup(OR, [], reverse)) == Ret(reverse)
  {
  }

  /** Any combinator other than AND and OR gives false, whatever the reverse flag and
      the members. */
  lemma UnknownGroupOperator(env: Env, item: Value, g: FilterGroup)
    requires g.operator != AND && g.operator != OR
    ensures EvalGroup(env, item, g) == Ret(false)
    ensures EvalGroup(env, item, g.(reverse := !g.reverse)) == Ret(false)
  {
  }

  /** A member that is a rule never changes a group's result. */
  lemma RuleMembersIgnored(env: Env, item: Value, g: FilterGroup, r: RuleNode)
    ensures EvalGroup(env, item, g.(members := g.members + [Chain(r)])) == EvalGroup(env, item, g)
  {
    FoldsIgnoreRule(env, item, g, r);
  }

  /** Both folds over a group with a rule member appended equal the folds without it. */
  lemma FoldsIgnoreRule(env: Env, item: Value, g: FilterGroup, r: RuleNode)
    ensures AllOf(env, item, g.(members := g.members + [Chain(r)]), |g.members| + 1) == AllOf(env, item, g, |g.members|)
    ensures AnyOf(env, item, g.(members := g.members + [Chain(r)]), |g.members| + 1) == AnyOf(env, item, g, |g.members|)
  {
    var h := g.(members := g.members + [Chain(r)]);
    var n := |g.members|;
    assert h.members[..n] == g.members == g.members[..n];
    PrefixSame(env, item, g, h, n);
    assert h.members[n] == Chain(r);
  }

  /** Two groups that agree on their first `n` members agree on those members' fold. */
  lemma {:induction false} PrefixSame(env: Env, item: Value, g: FilterGroup, h: FilterGroup, n: nat)
    requires n <= |g.members| && n <= |h.members| && g.members[..n] == h.members[..n]
    ensures AllOf(env, item, g, n) == AllOf(env, item, h, n)
    ensures AnyOf(env, item, g, n) == AnyOf(env, item, h, n)
    decreases n
  {
    if n > 0 {
      assert g.members[n - 1] == g.members[..n][n - 1] == h.members[n - 1];
      assert g.members[..n - 1] == g.members[..n][..n - 1];
      assert h.members[..n - 1] == h.members[..n][..n - 1];
      PrefixSame(env, item, g, h, n - 1);
    }
  }

  // ---- properties of rules -----------------------------------------------------

  /** The evaluation rules of a chain whose node is present: AND with a false node never
      looks at next; with no next the node decides; OR evaluates next even after a true
      node; another combinator takes next's result alone. */
  lemma RuleRules(env: Env, item: Value, r: RuleNode)
    requires r.node.Some? && Eval(env, item, r.node.value).Ret?
    ensures r.operator == AND && !Eval(env, item, r.node.value).value ==>
      EvalRule(env, item, r) == Ret(r.reverse)
    ensures r.next.None? ==> EvalRule(env, item, r) == Ret(Eval(env, item, r.node.value).value != r.reverse)
    ensures r.operator == OR && r.next.Some? && Eval(env, item, r.next.value).Panic? ==>
      EvalRule(env, item, r).Panic?
    ensures r.operator != AND && r.operator != OR && r.next.Some? && Eval(env, item, r.next.value).Ret? ==>
      EvalRule(env, item, r) == Ret(Eval(env, item, r.next.value).value != r.reverse)
  {
  }

  /** A rule without a node panics when matched. */
  lemma NilNodePanics(env: Env, item: Value, r: RuleNode)
    requires r.node.None?
    ensures EvalRule(env, item, r).Panic?
  {
  }
}
