/** The URL query front end: each decoded query parameter `key=value…` becomes at most
    one filter. A key `field:op` names an operator, a key `field:op:value` carries the
    operand, and a plain key is compared for equality (or membership, with several
    values) unless its single value itself names an operator. */
module Queries {
  import opened Wrappers
  import opened Values
  import opened Text
  import opened Operators
  import opened Conditions

  /** The operator codes a query may name. The null and zero tests are not among them. */
  const ValidOperators: set<string> := {
    In, Equal, Pattern, Between, LessThan, NotEqual, Contains, EndsWith, Expression,
    EqualCount, StartsWith, NotContains, GreaterThan, NotEndsWith, LessThanEqual,
    NotEqualCount, NotStartsWith, LesserThanCount, GreaterThanEqual, GreaterThanCount,
    LesserThanEqualCount, GreaterThanEqualCount}

  /** The message for an operator that is not recognised. */
  function InvalidOperator(op: string): string
  {
    "invalid operator " + op
  }

  const TooFewValues: string := "operator must have at least two values"

  /** The operators that take no operand. */
  predicate NoValueOperator(op: string)
  {
    op == IsNull || op == NotNull || op == IsZero || op == NotZero
  }

  /** No operator without an operand is valid in a query, so the branches that would
      give such a filter a nil value are never taken. */
  lemma NoValueOperatorsInvalid(op: string)
    requires NoValueOperator(op)
    ensures op !in ValidOperators
  {
  }

  /** A field is skipped when an exception list is given and names it. */
  predicate Excluded(field: string, except: seq<string>)
  {
    |except| > 0 && field in except
  }

  /** Every part with surrounding white space removed, in place. */
  function Trimmed(parts: seq<string>): (r: seq<string>)
    ensures |r| == |parts|
    ensures forall i :: 0 <= i < |parts| ==> r[i] == TrimSpace(parts[i])
  {
    if parts == [] then [] else Trimmed(parts[..|parts| - 1]) + [TrimSpace(parts[|parts| - 1])]
  }

  /** The operand of an `op:value` form: a value with commas is the list of its trimmed
      comma-separated parts, which must be two for `between`; any other value is kept
      as it is. */
  function Operand(op: string, opValue: string): Result<Value>
  {
    if ',' in opValue then
      var parts := Split(opValue, ',');
      if op == Between && |parts| != 2 then Err(TooFewValues)
      else if op == In && |parts| < 1 then Err(TooFewValues)
      else Ok(StrList(Trimmed(parts)))
    else Ok(Str(opValue))
  }

  /** The filter of an `op:value` form on `field`: the operator is checked ignoring
      case but kept as written. */
  function OperatorFilter(field: string, op: string, opValue: string): Result<Filter>
  {
    if ToLower(op) !in ValidOperators then Err(InvalidOperator(op))
    else
      match Operand(op, opValue)
      case Err(m) => Err(m)
      case Ok(v) => Ok(NewFilter(field, op, v))
  }

  /** The filter of a `field:op` key: a recognised operator, lower-cased, with an empty
      operand; anything else is an equality test against the operator text. */
  function NamedOperator(field: string, op: string): Filter
  {
    var lower := ToLower(op);
    if lower in ValidOperators then NewFilter(field, lower, if NoValueOperator(lower) then Null else Str(""))
    else NewFilter(field, Equal, Str(op))
  }

  /** The filter of a plain key with one value: a value naming an operator gives that
      operator as written, a value `op:value` is read like a `field:op:value` key, and
      anything else is an equality test. */
  function ValueFilter(key: string, value: string): Result<Filter>
  {
    if ToLower(value) in ValidOperators then
      Ok(NewFilter(key, value, if NoValueOperator(ToLower(value)) then Null else Str("")))
    else if ':' in value then
      var parts := Split(value, ':');
      if |parts| == 2 then OperatorFilter(key, parts[0], parts[1])
      else Ok(NewFilter(key, Equal, Str(value)))
    else Ok(NewFilter(key, Equal, Str(value)))
  }

  /** Zero or one filter from a filter result. */
  function Single(f: Result<Filter>): Result<seq<Filter>>
  {
    match f
    case Err(m) => Err(m)
    case Ok(x) => Ok([x])
  }

  /** The filters one query parameter gives. */
  function KeyFilters(key: string, values: seq<string>, except: seq<string>): Result<seq<Filter>>
  {
    if ':' in key then
      var parts := Split(key, ':');
      if |parts| == 2 then
        if Excluded(parts[0], except) then Ok([]) else Ok([NamedOperator(parts[0], parts[1])])
      else if |parts| == 3 then
        if Excluded(parts[0], except) then Ok([]) else Single(OperatorFilter(parts[0], parts[1], parts[2]))
      else Ok([])
    else if Excluded(key, except) then Ok([])
    else if |values| == 1 then Single(ValueFilter(key, values[0]))
    else if |values| > 1 then Ok([NewFilter(key, In, StrList(values))])
    else Ok([])
  }

  /** A decoded query parameter: a key and its values. */
  datatype Param = Param(key: string, values: seq<string>)

  /** What one parameter gives, as a function of the parameter. */
  function Each(except: seq<string>): Param -> Result<seq<Filter>>
  {
    (p: Param) => KeyFilters(p.key, p.values, except)
  }

  /** The loop of ParseQuery, for any way `each` of turning one parameter into filters:
      the filters of every parameter in turn, or the first error. */
  function Collect<P, F>(params: seq<P>, each: P -> Result<seq<F>>): Result<seq<F>>
  {
    if params == [] then Ok([])
    else
      match Collect(params[..|params| - 1], each)
      case Err(m) => Err(m)
      case Ok(fs) =>
        match each(params[|params| - 1])
        case Err(m) => Err(m)
        case Ok(gs) => Ok(fs + gs)
  }

  /** ParseQuery over the parameters in the order they are visited. */
  function Query(params: seq<Param>, except: seq<string>): Result<seq<Filter>>
  {
    Collect(params, Each(except))
  }

  // ---- Properties of one parameter ----------------------------------------------

  /** The field of any filter a parameter gives is the part of the key before the first
      colon (the whole key when it has none), and it is never an excepted field; a
      parameter gives at most one filter. */
  lemma KeyFiltersFields(key: string, values: seq<string>, except: seq<string>)
    ensures KeyFilters(key, values, except).Ok? ==> |KeyFilters(key, values, except).value| <= 1
    ensures KeyFilters(key, values, except).Ok? ==> forall f :: f in KeyFilters(key, values, except).value ==>
      f.field == Split(key, ':')[0] && !Excluded(f.field, except)
  {
    if ':' !in key {
      assert Split(key, ':') == [key];
    }
  }

  /** A key `field:op` gives one filter as long as the field is not excepted: a
      recognised operator always gets the empty operand. */
  lemma TwoPartKey(key: string, values: seq<string>, except: seq<string>)
    requires |Split(key, ':')| == 2
    ensures var parts := Split(key, ':');
      var r := KeyFilters(key, values, except);
      r.Ok? && (Excluded(parts[0], except) <==> r.value == []) &&
      (!Excluded(parts[0], except) && ToLower(parts[1]) in ValidOperators ==>
        r.value == [NewFilter(parts[0], ToLower(parts[1]), Str(""))]) &&
      (!Excluded(parts[0], except) && ToLower(parts[1]) !in ValidOperators ==>
        r.value == [NewFilter(parts[0], Equal, Str(parts[1]))])
  {
    var parts := Split(key, ':');
    if ToLower(parts[1]) in ValidOperators && NoValueOperator(ToLower(parts[1])) {
      NoValueOperatorsInvalid(ToLower(parts[1]));
    }
  }

  /** A key `field:op:value` fails exactly when the operator is not recognised or it is
      `between` with a comma-separated value of other than two parts; otherwise its one
      filter keeps the operator as written. */
  lemma ThreePartKey(key: string, values: seq<string>, except: seq<string>)
    requires |Split(key, ':')| == 3
    requires !Excluded(Split(key, ':')[0], except)
    ensures var parts := Split(key, ':');
      var r := KeyFilters(key, values, except);
      (r.Err? <==> (ToLower(parts[1]) !in ValidOperators ||
        (parts[1] == Between && ',' in parts[2] && |Split(parts[2], ',')| != 2))) &&
      (r.Err? && ToLower(parts[1]) !in ValidOperators ==> r.msg == InvalidOperator(parts[1])) &&
      (r.Err? && ToLower(parts[1]) in ValidOperators ==> r.msg == TooFewValues) &&
      (r.Ok? ==> |r.value| == 1 && r.value[0].field == parts[0] && r.value[0].operator == parts[1])
  {
  }

  /** A value with commas becomes its trimmed parts, two of them for `between`; a value
      without commas is kept as it is; the only error is a `between` with other than
      two parts. */
  lemma OperandMeaning(op: string, opValue: string)
    ensures ',' !in opValue ==> Operand(op, opValue) == Ok(Str(opValue))
    ensures ',' in opValue ==>
      (Operand(op, opValue).Err? <==> op == Between && |Split(opValue, ',')| != 2)
    ensures Operand(op, opValue).Err? ==> Operand(op, opValue).msg == TooFewValues
    ensures ',' in opValue && Operand(op, opValue).Ok? ==>
      Operand(op, opValue).value.StrList? &&
      |Operand(op, opValue).value.strs| == |Split(opValue, ',')| >= 2 &&
      (op == Between ==> |Operand(op, opValue).value.strs| == 2) &&
      forall i :: 0 <= i < |Split(opValue, ',')| ==>
        Operand(op, opValue).value.strs[i] == TrimSpace(Split(opValue, ',')[i])
  {
  }

  /** A plain key with several values is a membership test over them. */
  lemma ManyValues(key: string, values: seq<string>, except: seq<string>)
    requires ':' !in key && !Excluded(key, except) && |values| > 1
    ensures KeyFilters(key, values, except) == Ok([NewFilter(key, In, StrList(values))])
  {
  }

  /** A plain key with one value: an operator name gives that operator, as written,
      with the empty operand; a value without a colon otherwise gives an equality
      test against it. */
  lemma OneValue(key: string, value: string, except: seq<string>)
    requires ':' !in key && !Excluded(key, except)
    ensures ToLower(value) in ValidOperators ==> KeyFilters(key, [value], except) == Ok([NewFilter(key, value, Str(""))])
    ensures ToLower(value) !in ValidOperators && ':' !in value ==>
      KeyFilters(key, [value], except) == Ok([NewFilter(key, Equal, Str(value))])
  {
    if ToLower(value) in ValidOperators && NoValueOperator(ToLower(value)) {
      NoValueOperatorsInvalid(ToLower(value));
    }
  }

  /** A key with more than three colon-separated parts, or with no value and no colon,
      gives nothing. */
  lemma IgnoredKeys(key: string, values: seq<string>, except: seq<string>)
    ensures |Split(key, ':')| > 3 ==> KeyFilters(key, values, except) == Ok([])
    ensures ':' !in key && values == [] ==> KeyFilters(key, values, except) == Ok([])
  {
  }

  // ---- Properties of the whole query --------------------------------------------

  /** The loop succeeds iff every parameter does. */
  lemma {:induction false} CollectOk<P, F>(params: seq<P>, each: P -> Result<seq<F>>)
    ensures Collect(params, each).Ok? <==> forall i :: 0 <= i < |params| ==> each(params[i]).Ok?
    decreases |params|
  {
    if params != [] {
      var n := |params| - 1;
      var prefix := params[..n];
      CollectOk(prefix, each);
      assert forall i :: 0 <= i < n ==> prefix[i] == params[i];
    }
  }

  /** On success a filter is in the result iff some parameter gives it. */
  lemma {:induction false} CollectMembers<P, F>(params: seq<P>, each: P -> Result<seq<F>>, f: F)
    requires Collect(params, each).Ok?
    ensures f in Collect(params, each).value <==>
      exists i :: 0 <= i < |params| && each(params[i]).Ok? && f in each(params[i]).value
    decreases |params|
  {
    if params != [] {
      var n := |params| - 1;
      var prefix := params[..n];
      CollectMembers(prefix, each, f);
      assert forall i :: 0 <= i < n ==> prefix[i] == params[i];
      if f in each(params[n]).value {
        assert 0 <= n < |params| && each(params[n]).Ok? && f in each(params[n]).value;
      }
    }
  }

  /** On failure the error is that of the first parameter that fails. */
  lemma {:induction false} CollectFirstError<P, F>(params: seq<P>, each: P -> Result<seq<F>>)
    requires Collect(params, each).Err?
    ensures exists i :: (0 <= i < |params| && each(params[i]) == Err(Collect(params, each).msg) &&
      forall j :: 0 <= j < i ==> each(params[j]).Ok?)
    decreases |params|
  {
    var n := |params| - 1;
    var prefix := params[..n];
    assert forall i :: 0 <= i < n ==> prefix[i] == params[i];
    if Collect(prefix, each).Err? {
      CollectFirstError(prefix, each);
      var i :| 0 <= i < |prefix| && each(prefix[i]) == Err(Collect(prefix, each).msg) &&
        (forall j :: 0 <= j < i ==> each(prefix[j]).Ok?);
      assert each(params[i]) == Err(Collect(params, each).msg);
    } else {
      CollectOk(prefix, each);
      assert each(params[n]) == Err(Collect(params, each).msg);
    }
  }

  /** Once a prefix of the parameters fails, the whole loop fails the same way. */
  lemma {:induction false} CollectErrorStays<P, F>(params: seq<P>, k: nat, each: P -> Result<seq<F>>)
    requires k <= |params| && Collect(params[..k], each).Err?
    ensures Collect(params, each) == Collect(params[..k], each)
    decreases |params| - k
  {
    if k < |params| {
      assert params[..k + 1][..k] == params[..k];
      CollectErrorStays(params, k + 1, each);
    } else {
      assert params[..k] == params;
    }
  }

  /** No excepted field ever gets a filter. */
  lemma QueryAvoidsExcept(params: seq<Param>, except: seq<string>, f: Filter)
    requires Query(params, except).Ok? && f in Query(params, except).value
    ensures !Excluded(f.field, except)
  {
    CollectMembers(params, Each(except), f);
    var i :| 0 <= i < |params| && Each(except)(params[i]).Ok? && f in Each(except)(params[i]).value;
    KeyFiltersFields(params[i].key, params[i].values, except);
  }

  // ---- The imperative code ------------------------------------------------------

  /** The loop that trims the comma-separated parts in place. */
  method TrimAll(parts: array<string>)
    modifies parts
    ensures parts[..] == Trimmed(old(parts[..]))
  {
    ghost var original := parts[..];
    for i := 0 to parts.Length
      invariant forall k :: 0 <= k < i ==> parts[k] == TrimSpace(original[k])
      invariant forall k :: i <= k < parts.Length ==> parts[k] == original[k]
    {
      parts[i] := TrimSpace(parts[i]);
    }
    ghost var t := Trimmed(original);
    assert forall k :: 0 <= k < parts.Length ==> parts[..][k] == t[k];
  }

  /** The operand of an `op:value` form, computed as Operand says. */
  method OperandOf(op: string, opValue: string) returns (r: Result<Value>)
    ensures r == Operand(op, opValue)
  {
    if ',' !in opValue {
      return Ok(Str(opValue));
    }
    var split := Split(opValue, ',');
    if op == Between && |split| != 2 {
      return Err(TooFewValues);
    }
    if op == In && |split| < 1 {
      return Err(TooFewValues);
    }
    var betweenParts := new string[|split|](i requires 0 <= i < |split| => split[i]);
    assert betweenParts[..] == split;
    TrimAll(betweenParts);
    return Ok(StrList(betweenParts[..]));
  }

  /** One parameter's filters, as KeyFilters says. */
  method ParamFilters(key: string, values: seq<string>, except: seq<string>) returns (r: Result<seq<Filter>>)
    ensures r == KeyFilters(key, values, except)
  {
    if ':' in key {
      var parts := Split(key, ':');
      if |parts| == 2 {
        if Excluded(parts[0], except) {
          return Ok([]);
        }
        return Ok([NamedOperator(parts[0], parts[1])]);
      } else if |parts| == 3 {
        if Excluded(parts[0], except) {
          return Ok([]);
        }
        r := OperatorFilterOf(parts[0], parts[1], parts[2]);
        return;
      }
      return Ok([]);
    }
    if Excluded(key, except) {
      return Ok([]);
    }
    if |values| == 1 {
      var value := values[0];
      if ToLower(value) in ValidOperators {
        return Ok([NewFilter(key, value, if NoValueOperator(ToLower(value)) then Null else Str(""))]);
      }
      if ':' in value {
        var parts := Split(value, ':');
        if |parts| == 2 {
          r := OperatorFilterOf(key, parts[0], parts[1]);
          return;
        }
      }
      return Ok([NewFilter(key, Equal, Str(value))]);
    }
    if |values| > 1 {
      return Ok([NewFilter(key, In, StrList(values))]);
    }
    return Ok([]);
  }

  /** The filter of an `op:value` form, as OperatorFilter says, as a list. */
  method OperatorFilterOf(field: string, op: string, opValue: string) returns (r: Result<seq<Filter>>)
    ensures r == Single(OperatorFilter(field, op, opValue))
  {
    if ToLower(op) !in ValidOperators {
      return Err(InvalidOperator(op));
    }
    var v := OperandOf(op, opValue);
    if v.Err? {
      return Err(v.msg);
    }
    return Ok([NewFilter(field, op, v.value)]);
  }

  /** ParseQuery on the decoded parameters; the decoding error is ignored, as
      QueryAsWritten says. */
  method ParseQuery(params: seq<Param>, decodeError: Option<string>, except: seq<string>) returns (r: Result<seq<Filter>>)
    ensures r == QueryAsWritten(params, decodeError, except)
  {
    var filters: seq<Filter> := [];
    for i := 0 to |params|
      invariant Collect(params[..i], Each(except)) == Ok(filters)
    {
      assert params[..i + 1][..i] == params[..i];
      var found := ParamFilters(params[i].key, params[i].values, except);
      if found.Err? {
        CollectErrorStays(params, i + 1, Each(except));
        assert params[..|params|] == params;
        return Err(found.msg);
      }
      filters := filters + found.value;
    }
    assert params[..|params|] == params;
    return Ok(filters);
  }

  /** ParseQuery as written: the decoding error is tested through the wrong variable,
      so it never reaches the caller. */
  function QueryAsWritten(params: seq<Param>, decodeError: Option<string>, except: seq<string>): Result<seq<Filter>>
  {
    Query(params, except)
  }

  /** ParseQuery as evidently intended: a decoding error is returned. */
  function QueryIntended(params: seq<Param>, decodeError: Option<string>, except: seq<string>): (r: Result<seq<Filter>>)
    ensures decodeError.Some? ==> r == Err(decodeError.value)
    ensures decodeError.None? ==> r == Query(params, except)
  {
    if decodeError.Some? then Err(decodeError.value) else Query(params, except)
  }

  /** A query whose only parameter fails to decode: as written the caller gets no
      filters and no error, as intended it gets the decoding error. */
  lemma DecodeErrorDropped(e: string, except: seq<string>)
    ensures QueryAsWritten([], Some(e), except) == Ok([])
    ensures QueryIntended([], Some(e), except) == Err(e)
  {
  }
}
