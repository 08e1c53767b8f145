/** The stand-alone rule engine of rule/rule.go: a rule is a list of conditions joined by
    one conjunction, and validateData reports, rule by rule, whether the data breaks it. */
module RuleEngine {
  import opened Values

  const DENY := "DENY"
  const WARNING := "WARNING"
  const WARNING_WITH_CONFIRMATION := "WARNING_WITH_CONFIRMATION"
  const ALLOW := "ALLOW"

  const AND := "AND"
  const OR := "OR"
  const NOT := "NOT"

  /** The data a rule is checked against, as reflection sees it: a map keyed by field
      name, a struct with named fields, or a value of any other kind. */
  datatype UserData =
    | MapData(entries: map<string, Value>)
    | StructData(fields: map<string, Value>)
    | OtherData

  datatype Condition = Condition(field: string, operator: string, value: Value)

  datatype Rule = Rule(conditions: seq<Condition>, conjunction: string, action: string, message: string)

  datatype ValidationResult = ValidationResult(status: bool, message: string, action: string)

  /** A Go identifier is exported when it begins with an upper-case letter. */
  predicate Exported(name: string)
  {
    |name| > 0 && 'A' <= name[0] <= 'Z'
  }

  /** getFieldValue: the map entry or the struct field of that name, nil otherwise.
      Reflection finds an unexported struct field too, and reading its value then
      panics. */
  function FieldValue(data: UserData, field: string): (r: Run<Value>)
    ensures data.MapData? && field in data.entries ==> r == Ret(data.entries[field])
    ensures data.StructData? && field in data.fields && Exported(field) ==> r == Ret(data.fields[field])
    ensures r.Panic? <==> data.StructData? && field in data.fields && !Exported(field)
    ensures r.Ret? && r.value != Null ==>
      (data.MapData? && field in data.entries) || (data.StructData? && field in data.fields)
  {
    match data
    case MapData(entries) => Ret(if field in entries then entries[field] else Null)
    case StructData(fields) =>
      if field !in fields then Ret(Null)
      else if Exported(field) then Ret(fields[field])
      else Panic
    case OtherData => Ret(Null)
  }

  /** The data has a map entry or a struct field named `field`. */
  predicate Present(data: UserData, field: string)
  {
    (data.MapData? && field in data.entries) || (data.StructData? && field in data.fields)
  }

  /** The four ordering operators of compare, on two ints. */
  predicate IntOrder(a: int, op: string, b: int)
  {
    if op == "<" then a < b
    else if op == "<=" then a <= b
    else if op == ">" then a > b
    else a >= b
  }

  predicate IsOrdering(op: string)
  {
    op == "<" || op == "<=" || op == ">" || op == ">="
  }

  /** compare: `==` and `!=` are Go's interface equality, the ordering operators assert
      both sides to int, `&&` and `||` assert to bool with Go's short circuit (the right
      side is not asserted once the left decides), and any other operator is false. */
  function Compare(fieldValue: Value, operator: string, value: Value): (r: Run<bool>)
    ensures operator == "==" ==> r == GoEq(fieldValue, value)
    ensures operator == "!=" ==> r == Not(GoEq(fieldValue, value))
    ensures IsOrdering(operator) ==>
      (r.Ret? <==> fieldValue.Int? && value.Int?) &&
      (r.Ret? ==> r.value == IntOrder(fieldValue.i, operator, value.i))
    ensures operator == "&&" ==>
      (r.Ret? <==> fieldValue.Bool? && (fieldValue.b ==> value.Bool?)) &&
      (r.Ret? ==> r.value == (fieldValue.b && value.b))
    ensures operator == "||" ==>
      (r.Ret? <==> fieldValue.Bool? && (!fieldValue.b ==> value.Bool?)) &&
      (r.Ret? ==> r.value == (fieldValue.b || value.b))
    ensures !(operator in {"==", "!=", "&&", "||"} || IsOrdering(operator)) ==> r == Ret(false)
  {
    if operator == "==" then GoEq(fieldValue, value)
    else if operator == "!=" then Not(GoEq(fieldValue, value))
    else if IsOrdering(operator) then
      if fieldValue.Int? && value.Int? then Ret(IntOrder(fieldValue.i, operator, value.i)) else Panic
    else if operator == "&&" then
      if !fieldValue.Bool? then Panic
      else if !fieldValue.b then Ret(false)
      else if value.Bool? then Ret(value.b) else Panic
    else if operator == "||" then
      if !fieldValue.Bool? then Panic
      else if fieldValue.b then Ret(true)
      else if value.Bool? then Ret(value.b) else Panic
    else Ret(false)
  }

  /** `!=` is the negation of `==` and `>` is `<` with the sides swapped, whatever the values. */
  lemma CompareDuals(a: Value, b: Value)
    ensures Compare(a, "!=", b) == Not(Compare(a, "==", b))
    ensures Compare(a, ">", b) == Compare(b, "<", a)
    ensures Compare(a, ">=", b) == Compare(b, "<=", a)
    ensures a.Int? && b.Int? ==> Compare(a, "<=", b) == Ret(Compare(a, "<", b).value || Compare(a, "==", b).value)
  {
  }

  /** Condition.Match: the field's value compared with the condition's literal. A field
      the data does not have, or data that is neither a map nor a struct, compares as
      nil: it equals only a nil literal, and an ordering on it panics. An unexported
      struct field panics when it is read. */
  function MatchCondition(data: UserData, c: Condition): (r: Run<bool>)
    ensures data.MapData? && c.field in data.entries ==> r == Compare(data.entries[c.field], c.operator, c.value)
    ensures data.StructData? && c.field in data.fields && Exported(c.field) ==>
      r == Compare(data.fields[c.field], c.operator, c.value)
    ensures data.StructData? && c.field in data.fields && !Exported(c.field) ==> r == Panic
    ensures !Present(data, c.field) ==> r == Compare(Null, c.operator, c.value)
    ensures !Present(data, c.field) && c.operator == "==" ==> r == Ret(c.value == Null)
    ensures !Present(data, c.field) && IsOrdering(c.operator) ==> r == Panic
  {
    match FieldValue(data, c.field)
    case Panic => Panic
    case Ret(v) => Compare(v, c.operator, c.value)
  }

  /** One later iteration of evaluateRule's loop: AND and OR short-circuit, NOT replaces
      the result by the negated condition, any other conjunction keeps the result and
      does not evaluate the condition. */
  function Combine(data: UserData, conjunction: string, result: bool, c: Condition): (r: Run<bool>)
    ensures conjunction == AND && !result ==> r == Ret(false)
    ensures conjunction == OR && result ==> r == Ret(true)
    ensures conjunction == NOT ==> r == Not(MatchCondition(data, c))
    ensures conjunction !in {AND, OR, NOT} ==> r == Ret(result)
  {
    if conjunction == AND then (if result then MatchCondition(data, c) else Ret(false))
    else if conjunction == OR then (if result then Ret(true) else MatchCondition(data, c))
    else if conjunction == NOT then Not(MatchCondition(data, c))
    else Ret(result)
  }

  /** The result of evaluateRule on the conditions `cs`: false for none, the first
      condition's result for one, and each later condition folded in by Combine. */
  function Fold(data: UserData, conjunction: string, cs: seq<Condition>): Run<bool>
    decreases |cs|
  {
    if |cs| == 0 then Ret(false)
    else if |cs| == 1 then MatchCondition(data, cs[0])
    else
      match Fold(data, conjunction, cs[..|cs| - 1])
      case Panic => Panic
      case Ret(b) => Combine(data, conjunction, b, cs[|cs| - 1])
  }

  /** evaluateRule: a loop over the conditions that folds the running result. */
  method EvaluateRule(data: UserData, rule: Rule) returns (r: Run<bool>)
    ensures r == Fold(data, rule.conjunction, rule.conditions)
  {
    var cs := rule.conditions;
    var result := false;
    var i := 0;
    while i < |cs|
      invariant 0 <= i <= |cs|
      invariant Fold(data, rule.conjunction, cs[..i]) == Ret(result)
    {
      assert cs[..i + 1][..i] == cs[..i];
      var m;
      if i == 0 {
        m := MatchCondition(data, cs[0]);
      } else {
        m := Combine(data, rule.conjunction, result, cs[i]);
      }
      if m.Panic? {
        PanicStays(data, rule.conjunction, cs, i + 1);
        return Panic;
      }
      result := m.value;
      i := i + 1;
    }
    assert cs[..i] == cs;
    return Ret(result);
  }

  /** Every condition of `cs` evaluates to `b` without a panic. */
  predicate All(data: UserData, cs: seq<Condition>, b: bool)
  {
    forall i :: 0 <= i < |cs| ==> MatchCondition(data, cs[i]) == Ret(b)
  }

  /** Condition `i` is the first of `cs` not to evaluate to `!b`, and it evaluates to `b`. */
  predicate DecidedAt(data: UserData, cs: seq<Condition>, i: int, b: bool)
  {
    0 <= i < |cs| && MatchCondition(data, cs[i]) == Ret(b) && All(data, cs[..i], !b)
  }

  /** Once evaluation panics on a non-empty prefix, the whole rule panics. */
  lemma {:induction false} PanicStays(data: UserData, conjunction: string, cs: seq<Condition>, i: nat)
    requires 0 < i <= |cs| && Fold(data, conjunction, cs[..i]) == Panic
    ensures Fold(data, conjunction, cs) == Panic
    decreases |cs|
  {
    if i < |cs| {
      assert cs[..|cs| - 1][..i] == cs[..i];
      PanicStays(data, conjunction, cs[..|cs| - 1], i);
    } else {
      assert cs[..i] == cs;
    }
  }

  /** Dropping the last condition changes neither All nor DecidedAt below it. */
  lemma PrefixAgrees(data: UserData, cs: seq<Condition>, b: bool)
    requires |cs| > 0
    ensures All(data, cs, b) <==> All(data, cs[..|cs| - 1], b) && MatchCondition(data, cs[|cs| - 1]) == Ret(b)
    ensures forall i :: 0 <= i < |cs| - 1 ==> (DecidedAt(data, cs, i, b) <==> DecidedAt(data, cs[..|cs| - 1], i, b))
  {
    var init := cs[..|cs| - 1];
    assert forall i :: 0 <= i < |init| ==> init[i] == cs[i];
    forall i | 0 <= i < |cs| - 1
      ensures DecidedAt(data, cs, i, b) <==> DecidedAt(data, init, i, b)
    {
      assert init[..i] == cs[..i];
    }
  }

  /** The short circuit shared by AND (deciding value false) and OR (deciding value
      true): a non-empty rule gives `!d` iff every condition gives `!d`, and gives `d`
      iff some condition gives `d` after all before it gave `!d`. */
  lemma {:induction false} ShortCircuit(data: UserData, conjunction: string, cs: seq<Condition>, d: bool)
    requires (conjunction == AND && !d) || (conjunction == OR && d)
    requires |cs| > 0
    ensures Fold(data, conjunction, cs) == Ret(!d) <==> All(data, cs, !d)
    ensures Fold(data, conjunction, cs) == Ret(d) <==> exists i :: DecidedAt(data, cs, i, d)
    decreases |cs|
  {
    var n := |cs|;
    if n == 1 {
      assert cs[..0] == [];
      if Fold(data, conjunction, cs) == Ret(d) {
        assert DecidedAt(data, cs, 0, d);
      }
    } else {
      var init := cs[..n - 1];
      ShortCircuit(data, conjunction, init, d);
      PrefixAgrees(data, cs, !d);
      PrefixAgrees(data, cs, d);
      assert cs[..n - 1] == init;
      if Fold(data, conjunction, cs) == Ret(d) {
        if Fold(data, conjunction, init) == Ret(d) {
          var i :| DecidedAt(data, init, i, d);
          assert DecidedAt(data, cs, i, d);
        } else {
          assert DecidedAt(data, cs, n - 1, d);
        }
      }
      if exists i :: DecidedAt(data, cs, i, d) {
        var i :| DecidedAt(data, cs, i, d);
        if i == n - 1 {
          assert All(data, init, !d);
        } else {
          assert DecidedAt(data, init, i, d);
        }
      }
    }
  }

  /** With AND the rule holds iff it has conditions and every one holds, and it fails iff
      it has none or some condition fails after all before it held. */
  lemma FoldAnd(data: UserData, cs: seq<Condition>)
    ensures Fold(data, AND, cs) == Ret(true) <==> |cs| > 0 && All(data, cs, true)
    ensures Fold(data, AND, cs) == Ret(false) <==> |cs| == 0 || exists i :: DecidedAt(data, cs, i, false)
  {
    if |cs| > 0 {
      ShortCircuit(data, AND, cs, false);
    }
  }

  /** With OR the rule fails iff every condition fails (so also with none), and it holds
      iff some condition holds after all before it failed. */
  lemma FoldOr(data: UserData, cs: seq<Condition>)
    ensures Fold(data, OR, cs) == Ret(false) <==> All(data, cs, false)
    ensures Fold(data, OR, cs) == Ret(true) <==> exists i :: DecidedAt(data, cs, i, true)
  {
    if |cs| > 0 {
      ShortCircuit(data, OR, cs, true);
    }
  }

  /** With NOT every condition is evaluated: a panic in any of them propagates, and
      otherwise the result is the negation of the last condition alone. A single
      condition is not negated. */
  lemma FoldNot(data: UserData, cs: seq<Condition>)
    requires |cs| >= 2
    ensures (forall i :: 0 <= i < |cs| - 1 ==> MatchCondition(data, cs[i]).Ret?) ==>
      Fold(data, NOT, cs) == Not(MatchCondition(data, cs[|cs| - 1]))
    ensures (exists i :: 0 <= i < |cs| && MatchCondition(data, cs[i]).Panic?) ==> Fold(data, NOT, cs) == Panic
  {
    if forall i :: 0 <= i < |cs| - 1 ==> MatchCondition(data, cs[i]).Ret? {
      FoldNotLast(data, cs);
    }
    if exists i :: 0 <= i < |cs| && MatchCondition(data, cs[i]).Panic? {
      var i :| 0 <= i < |cs| && MatchCondition(data, cs[i]).Panic?;
      FoldNotPanics(data, cs, i);
    }
  }

  lemma {:induction false} FoldNotLast(data: UserData, cs: seq<Condition>)
    requires |cs| >= 2
    requires forall i :: 0 <= i < |cs| - 1 ==> MatchCondition(data, cs[i]).Ret?
    ensures Fold(data, NOT, cs) == Not(MatchCondition(data, cs[|cs| - 1]))
    decreases |cs|
  {
    var init := cs[..|cs| - 1];
    if |cs| > 2 {
      assert forall i :: 0 <= i < |init| - 1 ==> init[i] == cs[i];
      FoldNotLast(data, init);
    }
    assert Fold(data, NOT, init).Ret? by {
      assert init[|init| - 1] == cs[|init| - 1];
    }
  }

  lemma {:induction false} FoldNotPanics(data: UserData, cs: seq<Condition>, i: nat)
    requires |cs| >= 2 && i < |cs| && MatchCondition(data, cs[i]).Panic?
    ensures Fold(data, NOT, cs) == Panic
    decreases |cs|
  {
    var init := cs[..|cs| - 1];
    if i < |init| {
      assert init[i] == cs[i];
      if |cs| > 2 {
        FoldNotPanics(data, init, i);
      }
    }
  }

  /** Any conjunction other than AND, OR and NOT leaves the first condition's result,
      and the later conditions are never evaluated. */
  lemma {:induction false} FoldOther(data: UserData, conjunction: string, cs: seq<Condition>)
    requires conjunction != AND && conjunction != OR && conjunction != NOT
    requires |cs| > 0
    ensures Fold(data, conjunction, cs) == MatchCondition(data, cs[0])
    decreases |cs|
  {
    if |cs| > 1 {
      var init := cs[..|cs| - 1];
      FoldOther(data, conjunction, init);
    }
  }

  /** The entry validateData records for a rule whose evaluation gave `valid`. */
  function Outcome(valid: bool, rule: Rule): ValidationResult
  {
    if valid then ValidationResult(false, "", ALLOW)
    else ValidationResult(true, rule.message, rule.action)
  }

  /** validateData on `rules`: one entry per rule in order, or a panic when evaluating
      some rule panics. */
  function Validations(data: UserData, rules: seq<Rule>): Run<seq<ValidationResult>>
    decreases |rules|
  {
    if |rules| == 0 then Ret([])
    else
      match Validations(data, rules[..|rules| - 1])
      case Panic => Panic
      case Ret(done) =>
        match Fold(data, rules[|rules| - 1].conjunction, rules[|rules| - 1].conditions)
        case Panic => Panic
        case Ret(valid) => Ret(done + [Outcome(valid, rules[|rules| - 1])])
  }

  /** Once a prefix of the rules panics, validating them all panics. */
  lemma {:induction false} ValidationsPanicStays(data: UserData, rules: seq<Rule>, k: nat)
    requires k <= |rules| && Validations(data, rules[..k]) == Panic
    ensures Validations(data, rules) == Panic
    decreases |rules|
  {
    if k < |rules| {
      assert rules[..|rules| - 1][..k] == rules[..k];
      ValidationsPanicStays(data, rules[..|rules| - 1], k);
    } else {
      assert rules[..k] == rules;
    }
  }

  /** validateData: appends an ALLOW entry per rule and, when the rule is broken,
      overwrites the entry's message and action with the rule's. */
  method ValidateData(data: UserData, rules: seq<Rule>) returns (r: Run<seq<ValidationResult>>)
    ensures r == Validations(data, rules)
  {
    var results: seq<ValidationResult> := [];
    var k := 0;
    while k < |rules|
      invariant 0 <= k <= |rules|
      invariant Validations(data, rules[..k]) == Ret(results)
    {
      assert rules[..k + 1][..k] == rules[..k];
      assert rules[..k + 1][k] == rules[k];
      var isValid := EvaluateRule(data, rules[k]);
      if isValid.Panic? {
        ValidationsPanicStays(data, rules, k + 1);
        return Panic;
      }
      ghost var done := results;
      results := results + [ValidationResult(!isValid.value, "", ALLOW)];
      if !isValid.value {
        var last := |results| - 1;
        results := results[last := results[last].(message := rules[k].message, action := rules[k].action)];
      }
      assert results == done + [Outcome(isValid.value, rules[k])];
      k := k + 1;
    }
    assert rules[..k] == rules;
    return Ret(results);
  }

  /** validateData's result: it panics iff some rule's evaluation panics; otherwise it
      has one entry per rule, whose status is true iff the rule is broken, with an empty
      message and ALLOW for a kept rule and the rule's own message and action otherwise. */
  lemma {:induction false} ValidationsMeaning(data: UserData, rules: seq<Rule>)
    ensures Validations(data, rules).Ret? <==>
      forall i :: 0 <= i < |rules| ==> Fold(data, rules[i].conjunction, rules[i].conditions).Ret?
    ensures Validations(data, rules).Ret? ==>
      var out := Validations(data, rules).value;
      |out| == |rules| &&
      forall i :: 0 <= i < |rules| ==>
        var valid := Fold(data, rules[i].conjunction, rules[i].conditions).value;
        out[i].status == !valid &&
        (valid ==> out[i].message == "" && out[i].action == ALLOW) &&
        (!valid ==> out[i].message == rules[i].message && out[i].action == rules[i].action)
    decreases |rules|
  {
    if |rules| > 0 {
      var init := rules[..|rules| - 1];
      ValidationsMeaning(data, init);
      assert forall i :: 0 <= i < |init| ==> init[i] == rules[i];
    }
  }
}
