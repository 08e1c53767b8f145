/** A single filter and how it is matched against a record: field and value resolution,
    the lookup rules, and the per-operator checks of the current engine. */
module Conditions {
  import opened Wrappers
  import opened Values
  import opened Text
  import Utils
  import opened Operators

  /** Data a filter compares against instead of its own value: fixed data, or the
      result of a named handler, optionally post-processed by an expression. */
  datatype Lookup = Lookup(data: Value, handler: Option<string>, handlerCondition: string, condition: string)

  /** One leaf condition. `filterKey` names a stored filter that a request may refer to. */
  datatype Filter = Filter(
    key: string, field: string, operator: string, value: Value,
    reverse: bool, lookup: Option<Lookup>, filterKey: string)

  /** NewFilter: a filter on `field` with only its operator and value set. */
  function NewFilter(field: string, operator: string, value: Value): (f: Filter)
    ensures f.field == field && f.operator == operator && f.value == value
    ensures !f.reverse && f.lookup.None? && f.key == "" && f.filterKey == ""
  {
    Filter("", field, operator, value, false, None, "")
  }

  /** The libraries a filter calls into, as uninterpreted functions. */
  datatype Env = Env(
    lib: Utils.Lib,
    /** dipper.Get(item, path) */
    get: (Value, string) -> Result<Value>,
    /** expr.Eval(expression, environment) */
    eval: (string, Value) -> Result<Value>,
    /** convert.ToString */
    toString: Value -> Option<string>,
    /** convert.To(field, literal): the literal converted to the field's type */
    convertTo: (Value, Value) -> Option<Value>,
    /** convert.Compare */
    convertCompare: (Value, Value) -> int,
    /** convert.ToSlice(field, literal) */
    toSlice: (Value, Value) -> Option<Value>,
    /** convert.ToBool */
    toBool: Value -> Option<bool>,
    /** utils.FilterSlice(lookup, field) */
    filterSlice: (Value, Value) -> Result<Value>,
    /** utils.IsSlice */
    isSlice: Value -> bool,
    /** utils.GetSliceLength */
    sliceLength: Value -> Result<int>,
    /** Filter.Validate() returning nil */
    validate: Filter -> bool,
    /** the lookup handler registered under a name, applied to (item, condition) */
    handler: (string, Value, string) -> Result<Value>,
    /** regexp.Compile(pattern) then MatchString(text); None when the pattern is invalid */
    regexMatch: (string, string) -> Option<bool>,
    /** reflect.ValueOf(v).IsZero() and .IsNil(), which panic on some kinds */
    isZero: Value -> Run<bool>,
    isNil: Value -> Run<bool>)

  /** fmt's %v of a value. */
  function FormatV(lib: Utils.Lib, v: Value): string
  {
    if v.Str? then v.s else lib.sprint(v)
  }

  // ---- the comparison checks -------------------------------------------------

  /** checkComparison: a string field compares case-insensitively with the literal as a
      string; any other field compares with `==` against the literal converted to its type.
      A literal that cannot be converted makes the check false whatever `isEqual` is. */
  function CheckComparison(env: Env, val: Value, value: Value, isEqual: bool): Run<bool>
  {
    match val
    case Str(s) =>
      (match env.toString(value)
       case None => Ret(false)
       case Some(data) => Ret(EqualFold(s, data) == isEqual))
    case _ =>
      (match env.convertTo(val, value)
       case None => Ret(false)
       case Some(data) =>
         var same :- GoEq(val, data);
         Ret(same == isEqual))
  }

  function CheckEq(env: Env, val: Value, value: Value): Run<bool>
  {
    CheckComparison(env, val, value, true)
  }

  function CheckNeq(env: Env, val: Value, value: Value): Run<bool>
  {
    CheckComparison(env, val, value, false)
  }

  /** Equal on a string field ignores ASCII case; when the literal converts, NotEqual is
      the negation of Equal; when it does not, both are false. */
  lemma EqualityChecks(env: Env, val: Value, value: Value)
    ensures val.Str? && env.toString(value).Some? ==>
      CheckEq(env, val, value) == Ret(ToLower(val.s) == ToLower(env.toString(value).value))
    ensures val.Str? && env.toString(value).None? ==>
      CheckEq(env, val, value) == Ret(false) && CheckNeq(env, val, value) == Ret(false)
    ensures !val.Str? && env.convertTo(val, value).None? ==>
      CheckEq(env, val, value) == Ret(false) && CheckNeq(env, val, value) == Ret(false)
    ensures (if val.Str? then env.toString(value).Some? else env.convertTo(val, value).Some?) ==>
      CheckNeq(env, val, value) == Not(CheckEq(env, val, value))
  {
  }

  /** A string field equals the literal whatever the case of its letters. */
  lemma EqualIgnoresCase(env: Env, a: string, value: Value)
    requires env.toString(value) == Some(ToUpper(a))
    ensures CheckEq(env, Str(a), value) == Ret(true)
  {
    var u := ToUpper(a);
    forall i | 0 <= i < |a| ensures LowerChar(u[i]) == LowerChar(a[i]) {
    }
    assert ToLower(a) == ToLower(u);
  }

  function CheckGt(env: Env, data: Value, value: Value): bool { env.convertCompare(data, value) > 0 }
  function CheckLt(env: Env, data: Value, value: Value): bool { env.convertCompare(data, value) < 0 }
  function CheckGte(env: Env, data: Value, value: Value): bool { env.convertCompare(data, value) >= 0 }
  function CheckLte(env: Env, data: Value, value: Value): bool { env.convertCompare(data, value) <= 0 }

  /** checkBetween: inclusive at both ends by utils.Compare, for a `[]string` or `[]any`
      literal only. The upper bound is only compared when the lower test passes; a literal
      too short to index panics. */
  function CheckBetween(lib: Utils.Lib, data: Value, value: Value): (r: Run<bool>)
    ensures Elements(value).None? ==> r == Ret(false)
    ensures Elements(value).Some? && |Elements(value).value| == 0 ==> r.Panic?
  {
    match Elements(value)
    case None => Ret(false)
    case Some(bounds) =>
      if |bounds| == 0 then Panic
      else
        var low :- Utils.Compare(lib, data, bounds[0]);
        if low < 0 then Ret(false)
        else if |bounds| < 2 then Panic
        else
          var high :- Utils.Compare(lib, data, bounds[1]);
          Ret(high <= 0)
  }

  /** Between two int bounds an int field is in range exactly when lo <= x <= hi. */
  lemma BetweenInts(lib: Utils.Lib, x: int, lo: int, hi: int)
    ensures CheckBetween(lib, Int(x), List([Int(lo), Int(hi)])) == Ret(lo <= x <= hi)
  {
  }

  /** Between is inclusive: with both bounds comparable, the result is exactly the two
      comparisons. */
  lemma BetweenInclusive(lib: Utils.Lib, data: Value, value: Value)
    requires Elements(value).Some? && |Elements(value).value| >= 2
    requires Utils.Compare(lib, data, Elements(value).value[0]).Ret?
    requires Utils.Compare(lib, data, Elements(value).value[1]).Ret?
    ensures CheckBetween(lib, data, value) ==
      Ret(Utils.Compare(lib, data, Elements(value).value[0]).value >= 0 &&
          Utils.Compare(lib, data, Elements(value).value[1]).value <= 0)
  {
  }

  // ---- the string checks -----------------------------------------------------

  /** The three string predicates stringOperation is applied with. */
  datatype StrOp = HasSub | Prefix | Suffix

  function ApplyStrOp(op: StrOp, a: string, b: string): bool
  {
    match op
    case HasSub => ContainsStr(a, b)
    case Prefix => HasPrefix(a, b)
    case Suffix => HasSuffix(a, b)
  }

  /** stringOperation: false unless both operands are strings, else `op` on their
      lower-cased forms. */
  function StringOperation(data: Value, value: Value, op: StrOp): (r: bool)
    ensures r ==> data.Str? && value.Str?
    ensures data.Str? && value.Str? ==> (r <==> ApplyStrOp(op, ToLower(data.s), ToLower(value.s)))
  {
    data.Str? && value.Str? && ApplyStrOp(op, ToLower(data.s), ToLower(value.s))
  }

  function CheckContains(data: Value, value: Value): bool { StringOperation(data, value, HasSub) }
  function CheckNotContains(data: Value, value: Value): bool { !CheckContains(data, value) }
  function CheckStartsWith(data: Value, value: Value): bool { StringOperation(data, value, Prefix) }
  function CheckEndsWith(data: Value, value: Value): bool { StringOperation(data, value, Suffix) }

  /** The string checks ignore case, and their negations hold for any non-string operand. */
  lemma StringChecks(data: Value, value: Value)
    ensures !data.Str? || !value.Str? ==>
      !CheckContains(data, value) && !CheckStartsWith(data, value) && !CheckEndsWith(data, value) &&
      CheckNotContains(data, value)
    ensures data.Str? && value.Str? ==>
      CheckStartsWith(data, value) == CheckStartsWith(Str(ToLower(data.s)), Str(ToUpper(value.s)))
  {
    if data.Str? && value.Str? {
      var u := ToUpper(value.s);
      forall i | 0 <= i < |u| ensures LowerChar(u[i]) == LowerChar(value.s[i]) {
      }
      assert ToLower(u) == ToLower(value.s);
      var l := ToLower(data.s);
      forall i | 0 <= i < |l| ensures LowerChar(l[i]) == LowerChar(data.s[i]) {
      }
      assert ToLower(l) == ToLower(data.s);
    }
  }

  // ---- membership ------------------------------------------------------------

  /** checkIn: for a slice field, whether the literal is one of the field's elements;
      otherwise the literal converted to a slice must contain the field. A nil field
      panics (reflect.TypeOf(nil).Kind()). */
  function CheckIn(env: Env, data: Value, value: Value): (r: Run<bool>)
    ensures data.Null? ==> r.Panic?
    ensures data.List? ==> r == Ret(value in data.items)
    ensures data.StrList? ==> r == Ret(value.Str? && value.s in data.strs)
    ensures !data.Null? && !data.List? && !data.StrList? && env.toSlice(data, value).None? ==> r == Ret(false)
  {
    if data.Null? then Panic
    else if data.List? || data.StrList? then Utils.ContainsValue(data, value)
    else match env.toSlice(data, value)
      case None => Ret(false)
      case Some(sl) => Utils.ContainsValue(sl, data)
  }

  /** checkNotIn is the exact negation of checkIn. */
  function CheckNotIn(env: Env, data: Value, value: Value): (r: Run<bool>)
    ensures r.Panic? <==> CheckIn(env, data, value).Panic?
    ensures r.Ret? ==> r.value == !CheckIn(env, data, value).value
  {
    Not(CheckIn(env, data, value))
  }

  // ---- resolving references ----------------------------------------------------

  /** A `{{ expression }}` template. */
  predicate IsTemplate(v: string)
  {
    HasPrefix(v, "{{") && HasSuffix(v, "}}")
  }

  /** The braces of a template do not overlap. */
  lemma TemplateLength(v: string)
    requires IsTemplate(v)
    ensures |v| >= 4
  {
    assert v[0] == '{' && v[1] == '{' by {
      assert v[..2] == "{{";
    }
    assert v[|v| - 2] == '}' && v[|v| - 1] == '}' by {
      assert v[|v| - 2..] == "}}";
    }
  }

  /** The expression inside a template. */
  function TemplateBody(v: string): string
    requires IsTemplate(v)
  {
    TemplateLength(v);
    TrimSpace(v[2..|v| - 2])
  }

  /** resolveString: a template is evaluated against the item, any other string is
      returned as it is. */
  function ResolveString(env: Env, item: Value, v: string): (r: Result<Value>)
    ensures !IsTemplate(v) ==> r == Ok(Str(v))
    ensures IsTemplate(v) ==> r == env.eval(TemplateBody(v), item)
  {
    if IsTemplate(v) then env.eval(TemplateBody(v), item) else Ok(Str(v))
  }

  /** Every string resolved, left to right, stopping at the first error. */
  function ResolveAll(env: Env, item: Value, vs: seq<string>): (r: Result<seq<Value>>)
    ensures r.Ok? ==> |r.value| == |vs|
  {
    if vs == [] then Ok([])
    else
      var init :- ResolveAll(env, item, vs[..|vs| - 1]);
      var last :- ResolveString(env, item, vs[|vs| - 1]);
      Ok(init + [last])
  }

  /** ResolveAll resolves element by element: it succeeds iff every string resolves,
      with the i-th value that of the i-th string, and otherwise fails with the error
      of the first string that does not resolve. */
  lemma ResolveAllMeaning(env: Env, item: Value, vs: seq<string>)
    ensures var r := ResolveAll(env, item, vs);
      (r.Ok? ==> forall i :: 0 <= i < |vs| ==> ResolveString(env, item, vs[i]) == Ok(r.value[i])) &&
      (r.Err? <==> exists i :: 0 <= i < |vs| && ResolveString(env, item, vs[i]).Err?)
    ensures var r := ResolveAll(env, item, vs);
      r.Err? ==>
        exists i :: 0 <= i < |vs| && ResolveString(env, item, vs[i]) == Err(r.msg) &&
          forall j :: 0 <= j < i ==> ResolveString(env, item, vs[j]).Ok?
  {
    ResolveAllOk(env, item, vs);
    if ResolveAll(env, item, vs).Err? {
      ResolveAllFirstError(env, item, vs);
    }
  }

  /** Success iff every string resolves, each value in its place. */
  lemma ResolveAllOk(env: Env, item: Value, vs: seq<string>)
    ensures ResolveAll(env, item, vs).Ok? <==> forall i :: 0 <= i < |vs| ==> ResolveString(env, item, vs[i]).Ok?
    ensures ResolveAll(env, item, vs).Ok? ==>
      forall i :: 0 <= i < |vs| ==> ResolveString(env, item, vs[i]) == Ok(ResolveAll(env, item, vs).value[i])
  {
    ResolveAllValues(env, item, vs);
    ResolveAllSucceeds(env, item, vs);
  }

  /** On success the i-th value is that of the i-th string. */
  lemma {:induction false} ResolveAllValues(env: Env, item: Value, vs: seq<string>)
    ensures ResolveAll(env, item, vs).Ok? ==>
      forall i :: 0 <= i < |vs| ==> ResolveString(env, item, vs[i]) == Ok(ResolveAll(env, item, vs).value[i])
    decreases |vs|
  {
    if vs != [] && ResolveAll(env, item, vs).Ok? {
      var n := |vs| - 1;
      ResolveAllValues(env, item, vs[..n]);
      var init := ResolveAll(env, item, vs[..n]).value;
      var last := ResolveString(env, item, vs[n]).value;
      assert ResolveAll(env, item, vs).value == init + [last];
      forall i | 0 <= i < |vs|
        ensures ResolveString(env, item, vs[i]) == Ok(ResolveAll(env, item, vs).value[i])
      {
        if i < n {
          assert vs[..n][i] == vs[i];
        }
      }
    }
  }

  /** Every string resolving is enough for success. */
  lemma {:induction false} ResolveAllSucceeds(env: Env, item: Value, vs: seq<string>)
    ensures (forall i :: 0 <= i < |vs| ==> ResolveString(env, item, vs[i]).Ok?) ==> ResolveAll(env, item, vs).Ok?
    decreases |vs|
  {
    if vs != [] {
      var n := |vs| - 1;
      ResolveAllSucceeds(env, item, vs[..n]);
      assert forall i :: 0 <= i < n ==> vs[..n][i] == vs[i];
    }
  }

  /** A failure is the error of the first string that does not resolve. */
  lemma {:induction false} ResolveAllFirstError(env: Env, item: Value, vs: seq<string>)
    requires ResolveAll(env, item, vs).Err?
    ensures
      exists i :: 0 <= i < |vs| && ResolveString(env, item, vs[i]) == Err(ResolveAll(env, item, vs).msg) &&
        forall j :: 0 <= j < i ==> ResolveString(env, item, vs[j]).Ok?
    decreases |vs|
  {
    var n := |vs| - 1;
    assert forall i :: 0 <= i < n ==> vs[..n][i] == vs[i];
    if ResolveAll(env, item, vs[..n]).Err? {
      ResolveAllFirstError(env, item, vs[..n]);
      var k :| 0 <= k < n && ResolveString(env, item, vs[..n][k]) == Err(ResolveAll(env, item, vs[..n]).msg) &&
        forall j :: 0 <= j < k ==> ResolveString(env, item, vs[..n][j]).Ok?;
      assert ResolveString(env, item, vs[k]) == Err(ResolveAll(env, item, vs).msg);
    } else {
      ResolveAllOk(env, item, vs[..n]);
      assert ResolveString(env, item, vs[n]) == Err(ResolveAll(env, item, vs).msg);
    }
  }

  /** The string elements of an `[]any`, in order. */
  function StringsOf(items: seq<Value>): (r: seq<string>)
    ensures |r| <= |items|
  {
    if items == [] then []
    else
      var init := StringsOf(items[..|items| - 1]);
      if items[|items| - 1].Str? then init + [items[|items| - 1].s] else init
  }

  /** A string is among the string elements iff it is an element. */
  lemma {:induction false} StringsOfMembers(items: seq<Value>, s: string)
    ensures s in StringsOf(items) <==> Str(s) in items
    decreases |items|
  {
    if items != [] {
      StringsOfMembers(items[..|items| - 1], s);
      assert items == items[..|items| - 1] + [items[|items| - 1]];
    }
  }

  /** resolveFilterValue: a string is resolved, a `[]string` element-wise, an `[]any`
      keeps only its string elements and resolves those; anything else passes through. */
  function ResolveValue(env: Env, item: Value, value: Value): (r: Result<Value>)
    ensures !value.Str? && !value.StrList? && !value.List? ==> r == Ok(value)
    ensures value.Str? ==> r == ResolveString(env, item, value.s)
    ensures value.StrList? ==> r == InList(ResolveAll(env, item, value.strs))
    ensures value.List? ==> r == InList(ResolveAll(env, item, StringsOf(value.items)))
    ensures (value.StrList? || value.List?) && r.Ok? ==> r.value.List?
  {
    match value
    case Str(s) => ResolveString(env, item, s)
    case StrList(strs) =>
      var vs :- ResolveAll(env, item, strs);
      Ok(List(vs))
    case List(items) =>
      var vs :- ResolveAll(env, item, StringsOf(items));
      Ok(List(vs))
    case _ => Ok(value)
  }

  /** Resolved slice elements as an `[]any`, or the error. */
  function InList(res: Result<seq<Value>>): (r: Result<Value>)
    ensures r.Ok? <==> res.Ok?
    ensures r.Ok? ==> r.value == List(res.value)
    ensures r.Err? ==> r.msg == res.msg
  {
    match res
    case Ok(vs) => Ok(List(vs))
    case Err(m) => Err(m)
  }

  /** Every string a slice resolves, element by element: a `[]string` or `[]any` value
      succeeds iff each of its strings resolves, giving an `[]any` of their values in
      order, and otherwise fails with the error of its first string that does not. */
  lemma ResolveValueMeaning(env: Env, item: Value, value: Value)
    requires value.StrList? || value.List?
    ensures var ss := if value.StrList? then value.strs else StringsOf(value.items);
      var r := ResolveValue(env, item, value);
      (r.Ok? <==> forall i :: 0 <= i < |ss| ==> ResolveString(env, item, ss[i]).Ok?) &&
      (r.Ok? ==>
        r.value.List? && |r.value.items| == |ss| &&
        forall i :: 0 <= i < |ss| ==> ResolveString(env, item, ss[i]) == Ok(r.value.items[i]))
    ensures var ss := if value.StrList? then value.strs else StringsOf(value.items);
      var r := ResolveValue(env, item, value);
      r.Err? ==>
        exists i :: 0 <= i < |ss| && ResolveString(env, item, ss[i]) == Err(r.msg) &&
          forall j :: 0 <= j < i ==> ResolveString(env, item, ss[j]).Ok?
  {
    var ss := if value.StrList? then value.strs else StringsOf(value.items);
    assert ResolveValue(env, item, value) == InList(ResolveAll(env, item, ss));
    ResolveAllMeaning(env, item, ss);
  }

  /** Strings that are not templates resolve to themselves. */
  lemma {:induction false} ResolveAllPlain(env: Env, item: Value, vs: seq<string>)
    requires forall i :: 0 <= i < |vs| ==> !IsTemplate(vs[i])
    ensures ResolveAll(env, item, vs) == Ok(seq(|vs|, i requires 0 <= i < |vs| => Str(vs[i])))
    decreases |vs|
  {
    if vs != [] {
      var init := vs[..|vs| - 1];
      ResolveAllPlain(env, item, init);
      var wrapped := seq(|vs|, i requires 0 <= i < |vs| => Str(vs[i]));
      assert wrapped == seq(|init|, i requires 0 <= i < |init| => Str(init[i])) + [Str(vs[|vs| - 1])];
    } else {
      assert seq(|vs|, i requires 0 <= i < |vs| => Str(vs[i])) == [];
    }
  }

  /** With no templates, a `[]string` resolves to the same strings as an `[]any`, and an
      `[]any` to its string elements alone. */
  lemma ResolvePlainLists(env: Env, item: Value, value: Value)
    requires value.StrList? ==> forall i :: 0 <= i < |value.strs| ==> !IsTemplate(value.strs[i])
    requires value.List? ==> forall s :: Str(s) in value.items ==> !IsTemplate(s)
    ensures value.StrList? ==> ResolveValue(env, item, value) == Ok(List(Elements(value).value))
    ensures value.List? ==> ResolveValue(env, item, value) == Ok(List(Elements(StrList(StringsOf(value.items))).value))
  {
    if value.StrList? {
      ResolveAllPlain(env, item, value.strs);
    }
    if value.List? {
      var strs := StringsOf(value.items);
      forall i | 0 <= i < |strs| ensures !IsTemplate(strs[i]) {
        assert strs[i] in strs;
        StringsOfMembers(value.items, strs[i]);
      }
      ResolveAllPlain(env, item, strs);
    }
  }

  /** resolveFilterValue, appending to the result in loops as the source does. */
  method ResolveFilterValue(env: Env, item: Value, value: Value) returns (r: Result<Value>)
    ensures r == ResolveValue(env, item, value)
  {
    match value {
      case Str(s) =>
        r := ResolveString(env, item, s);
      case StrList(strs) =>
        var resolved := ResolveStrings(env, item, strs);
        r := if resolved.Err? then Err(resolved.msg) else Ok(List(resolved.value));
      case List(items) =>
        var resolved := ResolveStringElements(env, item, items);
        r := if resolved.Err? then Err(resolved.msg) else Ok(List(resolved.value));
      case _ =>
        r := Ok(value);
    }
  }

  /** The loop over a `[]string`. */
  method ResolveStrings(env: Env, item: Value, strs: seq<string>) returns (r: Result<seq<Value>>)
    ensures r == ResolveAll(env, item, strs)
  {
    var resolved: seq<Value> := [];
    for i := 0 to |strs|
      invariant ResolveAll(env, item, strs[..i]) == Ok(resolved)
    {
      StringsStep(env, item, strs, i);
      var one := ResolveString(env, item, strs[i]);
      if one.Err? {
        return Err(one.msg);
      }
      resolved := resolved + [one.value];
    }
    assert strs[..|strs|] == strs;
    return Ok(resolved);
  }

  /** The loop over an `[]any`, which skips the elements that are not strings. */
  method ResolveStringElements(env: Env, item: Value, items: seq<Value>) returns (r: Result<seq<Value>>)
    ensures r == ResolveAll(env, item, StringsOf(items))
  {
    var resolved: seq<Value> := [];
    ghost var strs: seq<string> := [];
    for i := 0 to |items|
      invariant strs == StringsOf(items[..i])
      invariant ResolveAll(env, item, strs) == Ok(resolved)
    {
      ElementsStep(env, item, items, i, strs);
      if items[i].Str? {
        var one := ResolveString(env, item, items[i].s);
        if one.Err? {
          return Err(one.msg);
        }
        resolved := resolved + [one.value];
        strs := strs + [items[i].s];
      }
    }
    assert items[..|items|] == items;
    return Ok(resolved);
  }

  /** One more string: an error of its own ends the list, an Ok value extends it. */
  lemma ResolveAllStep(env: Env, item: Value, vs: seq<string>, i: nat)
    requires i < |vs| && ResolveAll(env, item, vs[..i]).Ok?
    ensures ResolveString(env, item, vs[i]).Err? ==> ResolveAll(env, item, vs[..i + 1]) == Err(ResolveString(env, item, vs[i]).msg)
    ensures ResolveString(env, item, vs[i]).Ok? ==>
      ResolveAll(env, item, vs[..i + 1]) == Ok(ResolveAll(env, item, vs[..i]).value + [ResolveString(env, item, vs[i]).value])
  {
    assert vs[..i + 1][..i] == vs[..i];
  }

  /** One more element of a `[]string`: its error, if any, is the error of them all. */
  lemma StringsStep(env: Env, item: Value, vs: seq<string>, i: nat)
    requires i < |vs| && ResolveAll(env, item, vs[..i]).Ok?
    ensures ResolveString(env, item, vs[i]).Err? ==> ResolveAll(env, item, vs) == Err(ResolveString(env, item, vs[i]).msg)
    ensures ResolveString(env, item, vs[i]).Ok? ==>
      ResolveAll(env, item, vs[..i + 1]) == Ok(ResolveAll(env, item, vs[..i]).value + [ResolveString(env, item, vs[i]).value])
  {
    ResolveAllStep(env, item, vs, i);
    if ResolveString(env, item, vs[i]).Err? {
      PrefixError(env, item, vs, i + 1);
    }
  }

  /** One more element of an `[]any`: a string extends the string elements, and its
      error, if any, is the error of them all. */
  lemma ElementsStep(env: Env, item: Value, items: seq<Value>, i: nat, strs: seq<string>)
    requires i < |items| && strs == StringsOf(items[..i]) && ResolveAll(env, item, strs).Ok?
    ensures !items[i].Str? ==> StringsOf(items[..i + 1]) == strs
    ensures items[i].Str? ==> StringsOf(items[..i + 1]) == strs + [items[i].s]
    ensures items[i].Str? && ResolveString(env, item, items[i].s).Err? ==>
      ResolveAll(env, item, StringsOf(items)) == Err(ResolveString(env, item, items[i].s).msg)
    ensures items[i].Str? && ResolveString(env, item, items[i].s).Ok? ==>
      ResolveAll(env, item, strs + [items[i].s]) == Ok(ResolveAll(env, item, strs).value + [ResolveString(env, item, items[i].s).value])
  {
    StringsOfStep(items, i);
    if items[i].Str? {
      ElementsStringStep(env, item, items, i, strs);
    }
  }

  /** One more element of an `[]any` extends its string elements exactly when it is a string. */
  lemma StringsOfStep(items: seq<Value>, i: nat)
    requires i < |items|
    ensures !items[i].Str? ==> StringsOf(items[..i + 1]) == StringsOf(items[..i])
    ensures items[i].Str? ==> StringsOf(items[..i + 1]) == StringsOf(items[..i]) + [items[i].s]
  {
    assert items[..i + 1][..i] == items[..i];
  }

  /** One more string element of an `[]any`: its error ends them all, its value extends them. */
  lemma ElementsStringStep(env: Env, item: Value, items: seq<Value>, i: nat, strs: seq<string>)
    requires i < |items| && items[i].Str? && strs == StringsOf(items[..i]) && ResolveAll(env, item, strs).Ok?
    requires StringsOf(items[..i + 1]) == strs + [items[i].s]
    ensures ResolveString(env, item, items[i].s).Err? ==>
      ResolveAll(env, item, StringsOf(items)) == Err(ResolveString(env, item, items[i].s).msg)
    ensures ResolveString(env, item, items[i].s).Ok? ==>
      ResolveAll(env, item, strs + [items[i].s]) == Ok(ResolveAll(env, item, strs).value + [ResolveString(env, item, items[i].s).value])
  {
    var more := strs + [items[i].s];
    assert more[..|strs|] == strs && more[|strs|] == items[i].s;
    ResolveAllStep(env, item, more, |strs|);
    assert more[..|strs| + 1] == more;
    if ResolveString(env, item, items[i].s).Err? {
      ElementsError(env, item, items, i + 1, more);
    }
  }

  /** An error among the string elements of a prefix is the error of them all. */
  lemma ElementsError(env: Env, item: Value, items: seq<Value>, n: nat, strs: seq<string>)
    requires n <= |items| && strs == StringsOf(items[..n]) && ResolveAll(env, item, strs).Err?
    ensures ResolveAll(env, item, StringsOf(items)) == ResolveAll(env, item, strs)
  {
    StringsOfPrefix(items, n);
    assert StringsOf(items)[..|strs|] == strs;
    PrefixError(env, item, StringsOf(items), |strs|);
  }

  /** The string elements of a prefix are a prefix of the string elements. */
  lemma {:induction false} StringsOfPrefix(items: seq<Value>, n: nat)
    requires n <= |items|
    ensures StringsOf(items[..n]) <= StringsOf(items)
    decreases |items|
  {
    if n < |items| {
      assert items[..|items| - 1][..n] == items[..n];
      StringsOfPrefix(items[..|items| - 1], n);
    } else {
      assert items[..n] == items;
    }
  }

  /** An error on some prefix is the error of the whole resolution. */
  lemma {:induction false} PrefixError(env: Env, item: Value, vs: seq<string>, n: nat)
    requires n <= |vs|
    requires ResolveAll(env, item, vs[..n]).Err?
    ensures ResolveAll(env, item, vs) == ResolveAll(env, item, vs[..n])
    decreases |vs|
  {
    if n < |vs| {
      assert vs[..|vs| - 1][..n] == vs[..n];
      PrefixError(env, item, vs[..|vs| - 1], n);
    } else {
      assert vs[..n] == vs;
    }
  }

  // ---- cardinality ---------------------------------------------------------------

  /** The comparison a cardinality operator writes into its `len(data) <op> n` expression. */
  function CountSymbol(op: string): string
  {
    if op == GreaterThanEqualCount then ">="
    else if op == GreaterThanCount then ">"
    else if op == LesserThanEqualCount then "<="
    else if op == LesserThanCount then "<"
    else if op == NotEqualCount then "!="
    else "=="
  }

  /** validatedCount: the expression evaluated with `data` bound, read as a bool. */
  function ValidatedCount(env: Env, input: string, lookupData: Value): bool
  {
    match env.eval(input, Map(map["data" := lookupData]))
    case Err(_) => false
    case Ok(rs) => env.toBool(rs) == Some(true)
  }

  /** processValidate: the field filtered by the lookup, then `len(data) <op> val` on it. */
  function ProcessValidate(env: Env, op: string, val: Value, lookupData: Value, fieldValue: Value): bool
  {
    match env.filterSlice(lookupData, fieldValue)
    case Err(_) => false
    case Ok(filtered) => ValidatedCount(env, "len(data) " + op + " " + FormatV(env.lib, val), filtered)
  }

  /** Every inner slice of a slice of slices passes processValidate. */
  predicate EveryInnerPass(env: Env, op: string, vat: Value, lookupData: Value, items: seq<Value>)
  {
    forall i :: 0 <= i < |items| ==> ProcessValidate(env, op, vat, lookupData, items[i])
  }

  /** validateCount: false for a field that is not a slice; for a slice of slices every
      inner slice must pass; otherwise the slice is checked once. Looking inside the first
      element of a non-empty `[]string` panics (reflect's Elem on a string). */
  function ValidateCountSpec(env: Env, op: string, vat: Value, lookupData: Value, fieldValue: Value): (r: Run<bool>)
    ensures !fieldValue.List? && !fieldValue.StrList? ==> r == Ret(false)
  {
    match fieldValue
    case StrList(strs) => if |strs| > 0 then Panic else Ret(ProcessValidate(env, op, vat, lookupData, fieldValue))
    case List(items) =>
      if |items| > 0 && (items[0].List? || items[0].StrList?) then
        Ret(EveryInnerPass(env, op, vat, lookupData, items))
      else Ret(ProcessValidate(env, op, vat, lookupData, fieldValue))
    case _ => Ret(false)
  }

  /** validateCount, looping over the inner slices with an early return. */
  method ValidateCount(env: Env, op: string, vat: Value, lookupData: Value, fieldValue: Value) returns (r: Run<bool>)
    ensures r == ValidateCountSpec(env, op, vat, lookupData, fieldValue)
  {
    if fieldValue.StrList? && |fieldValue.strs| > 0 {
      r := Panic;
    } else if fieldValue.List? && |fieldValue.items| > 0 && (fieldValue.items[0].List? || fieldValue.items[0].StrList?) {
      var all := EveryInnerPasses(env, op, vat, lookupData, fieldValue.items);
      r := Ret(all);
    } else if fieldValue.List? || fieldValue.StrList? {
      r := Ret(ProcessValidate(env, op, vat, lookupData, fieldValue));
    } else {
      r := Ret(false);
    }
  }

  /** The loop of validateCount over the inner slices, returning at the first failure. */
  method EveryInnerPasses(env: Env, op: string, vat: Value, lookupData: Value, items: seq<Value>) returns (all: bool)
    ensures all == EveryInnerPass(env, op, vat, lookupData, items)
  {
    for i := 0 to |items|
      invariant forall j :: 0 <= j < i ==> ProcessValidate(env, op, vat, lookupData, items[j])
    {
      if !ProcessValidate(env, op, vat, lookupData, items[i]) {
        return false;
      }
    }
    return true;
  }

  // ---- match -----------------------------------------------------------------------

  /** The field's value: a field containing `{{` is resolved as a template, any other is
      a path into the item. */
  function FieldValue(env: Env, item: Value, f: Filter): Result<Value>
  {
    if ContainsStr(f.field, "{{") then ResolveString(env, item, f.field) else env.get(item, f.field)
  }

  /** The lookup data: fixed data if present, else the handler's result; then the lookup
      condition, if any, evaluated over `{data: item, lookup: ...}`. Nil when there is no lookup. */
  function LookupData(env: Env, item: Value, f: Filter): Result<Value>
  {
    match f.lookup
    case None => Ok(Null)
    case Some(l) =>
      var base :-
        if l.data != Null then Ok(l.data)
        else if l.handler.Some? then env.handler(l.handler.value, item, l.handlerCondition)
        else Ok(Null);
      if l.condition != "" then env.eval(l.condition, Map(map["data" := item, "lookup" := base]))
      else Ok(base)
  }

  /** The decision a slice-valued lookup takes before any operator runs, if it takes one:
      false for an empty slice field, then true for an empty lookup. */
  function LookupShortCircuit(env: Env, fieldValue: Value, lookupData: Value): (r: Option<bool>)
    ensures lookupData == Null || !env.isSlice(lookupData) ==> r.None?
  {
    if lookupData != Null && env.isSlice(lookupData) then
      var fieldLength := if env.sliceLength(fieldValue).Ok? then env.sliceLength(fieldValue).value else 0;
      if env.isSlice(fieldValue) && fieldLength == 0 then Some(false)
      else if env.sliceLength(lookupData).Err? then Some(false)
      else if env.sliceLength(lookupData).value == 0 then Some(true)
      else None
    else None
  }

  /** The operand the operator compares the field with: lookup data, when present,
      replaces the literal except for the cardinality operators. */
  function Operand(op: string, val: Value, lookupData: Value): (r: Value)
    ensures IsCountOperator(op) || lookupData == Null ==> r == val
    ensures !IsCountOperator(op) && lookupData != Null ==> r == lookupData
  {
    if !IsCountOperator(op) && lookupData != Null then lookupData else val
  }

  /** The case of match's operator switch a code selects. */
  datatype Case =
    | EqCase | NeCase | GtCase | LtCase | GeCase | LeCase | BetweenCase | CountCase
    | ExprCase | PatternCase | InCase | NotInCase | ContainsCase | NotContainsCase
    | StartsCase | EndsCase | NotStartsCase | NotEndsCase
    | ZeroCase | NotZeroCase | NullCase | NotNullCase | NoCase

  function CaseOf(op: string): Case
  {
    if op == Equal then EqCase
    else if op == NotEqual then NeCase
    else if op == GreaterThan then GtCase
    else if op == LessThan then LtCase
    else if op == GreaterThanEqual then GeCase
    else if op == LessThanEqual then LeCase
    else if op == Between then BetweenCase
    else if IsCountOperator(op) then CountCase
    else if op == Expression then ExprCase
    else if op == Pattern then PatternCase
    else if op == In then InCase
    else if op == NotIn then NotInCase
    else if op == Contains then ContainsCase
    else if op == NotContains then NotContainsCase
    else if op == StartsWith then StartsCase
    else if op == EndsWith then EndsCase
    else if op == NotStartsWith then NotStartsCase
    else if op == NotEndsWith then NotEndsCase
    else if op == IsZero then ZeroCase
    else if op == NotZero then NotZeroCase
    else if op == IsNull then NullCase
    else if op == NotNull then NotNullCase
    else NoCase
  }

  /** Every code before the case-sensitive family has a case in the switch ... */
  lemma HandledCodes(op: string)
    requires op in AllOperators[..27]
    ensures CaseOf(op) != NoCase
  {
  }

  /** ... and the six case-sensitive codes have none. */
  lemma CaseSensitiveUnhandled(op: string)
    requires op in AllOperators[27..]
    ensures op in [ContainsCS, NotContainsCS, StartsWithCS, NotStartsWithCS, EndsWithCS, NotEndsWithCS]
    ensures CaseOf(op) == NoCase
  {
  }

  /** The operator switch of match. */
  function Dispatch(env: Env, item: Value, f: Filter, fieldValue: Value, val: Value, lookupData: Value): Run<bool>
  {
    match CaseOf(f.operator)
    case EqCase => CheckEq(env, fieldValue, val)
    case NeCase => CheckNeq(env, fieldValue, val)
    case GtCase => Ret(CheckGt(env, fieldValue, val))
    case LtCase => Ret(CheckLt(env, fieldValue, val))
    case GeCase => Ret(CheckGte(env, fieldValue, val))
    case LeCase => Ret(CheckLte(env, fieldValue, val))
    case BetweenCase => CheckBetween(env.lib, fieldValue, val)
    case CountCase => ValidateCountSpec(env, CountSymbol(f.operator), val, lookupData, fieldValue)
    case ExprCase =>
      Ret(f.value.Str? && env.eval(f.value.s, item).Ok? && env.eval(f.value.s, item).value != Null)
    case PatternCase =>
      Ret(f.value.Str? && fieldValue.Str? && env.regexMatch(f.value.s, fieldValue.s) == Some(true))
    case InCase => CheckIn(env, fieldValue, val)
    case NotInCase => CheckNotIn(env, fieldValue, val)
    case ContainsCase => Ret(CheckContains(fieldValue, val))
    case NotContainsCase => Ret(CheckNotContains(fieldValue, val))
    case StartsCase => Ret(CheckStartsWith(fieldValue, val))
    case EndsCase => Ret(CheckEndsWith(fieldValue, val))
    case NotStartsCase => Ret(!CheckStartsWith(fieldValue, val))
    case NotEndsCase => Ret(!CheckEndsWith(fieldValue, val))
    case ZeroCase => env.isZero(fieldValue)
    case NotZeroCase => Not(env.isZero(fieldValue))
    case NullCase => env.isNil(fieldValue)
    case NotNullCase => Not(env.isNil(fieldValue))
    case NoCase => Ret(false)
  }

  /** match: false when validation, field resolution, value resolution or the lookup
      fails; then the lookup short-circuit; then the operator on the chosen operand. */
  function MatchSpec(env: Env, item: Value, f: Filter): Run<bool>
  {
    if !env.validate(f) then Ret(false)
    else match (FieldValue(env, item, f), ResolveValue(env, item, f.value), LookupData(env, item, f))
      case (Ok(fieldValue), Ok(val), Ok(lookupData)) =>
        (match LookupShortCircuit(env, fieldValue, lookupData)
         case Some(decided) => Ret(decided)
         case None => Dispatch(env, item, f, fieldValue, Operand(f.operator, val, lookupData), lookupData))
      case _ => Ret(false)
  }

  /** The exported Filter.Match: match, negated when the filter is reversed. */
  function FilterMatch(env: Env, item: Value, f: Filter): (r: Run<bool>)
    ensures r.Panic? <==> MatchSpec(env, item, f).Panic?
    ensures r.Ret? ==> r.value == (MatchSpec(env, item, f).value != f.reverse)
  {
    var m :- MatchSpec(env, item, f);
    Ret(m != f.reverse)
  }

  /** The lookup rules of match, for a filter whose field, value and lookup resolve.
      With slice lookup data: an empty field slice never matches (the field's length
      counts as 0 when it cannot be taken); otherwise a lookup whose length cannot be
      taken never matches, and an empty lookup always matches. Past those rules the
      lookup data replaces the literal for the operator. */
  lemma LookupRules(env: Env, item: Value, f: Filter)
    requires env.validate(f)
    requires FieldValue(env, item, f).Ok? && ResolveValue(env, item, f.value).Ok? && LookupData(env, item, f).Ok?
    ensures var fv, ld := FieldValue(env, item, f).value, LookupData(env, item, f).value;
      var fl := if env.sliceLength(fv).Ok? then env.sliceLength(fv).value else 0;
      ld != Null && env.isSlice(ld) && env.isSlice(fv) && fl == 0 ==>
        MatchSpec(env, item, f) == Ret(false)
    ensures var fv, ld := FieldValue(env, item, f).value, LookupData(env, item, f).value;
      var fl := if env.sliceLength(fv).Ok? then env.sliceLength(fv).value else 0;
      ld != Null && env.isSlice(ld) && !(env.isSlice(fv) && fl == 0) && env.sliceLength(ld).Err? ==>
        MatchSpec(env, item, f) == Ret(false)
    ensures var fv, ld := FieldValue(env, item, f).value, LookupData(env, item, f).value;
      var fl := if env.sliceLength(fv).Ok? then env.sliceLength(fv).value else 0;
      ld != Null && env.isSlice(ld) && !(env.isSlice(fv) && fl == 0) && env.sliceLength(ld) == Ok(0) ==>
        MatchSpec(env, item, f) == Ret(true)
    ensures var fv, ld := FieldValue(env, item, f).value, LookupData(env, item, f).value;
      LookupShortCircuit(env, fv, ld).None? && !IsCountOperator(f.operator) && ld != Null ==>
        MatchSpec(env, item, f) == Dispatch(env, item, f, fv, ld, ld)
  {
  }

  /** An Expression filter matches exactly when its value is a string whose evaluation
      succeeds with a non-nil result, even false; an evaluation error, a nil result or
      a non-string expression never matches. */
  lemma ExpressionRule(env: Env, item: Value, f: Filter, fieldValue: Value, val: Value, lookupData: Value)
    requires f.operator == Expression
    ensures f.value.Str? && env.eval(f.value.s, item).Ok? && env.eval(f.value.s, item).value != Null ==>
      Dispatch(env, item, f, fieldValue, val, lookupData) == Ret(true)
    ensures f.value.Str? && (env.eval(f.value.s, item).Err? || env.eval(f.value.s, item).value == Null) ==>
      Dispatch(env, item, f, fieldValue, val, lookupData) == Ret(false)
    ensures f.value.Str? && env.eval(f.value.s, item) == Ok(Bool(false)) ==>
      Dispatch(env, item, f, fieldValue, val, lookupData) == Ret(true)
    ensures !f.value.Str? ==> Dispatch(env, item, f, fieldValue, val, lookupData) == Ret(false)
  {
  }

  /** Operators with no case in the switch never match. */
  lemma UnhandledOperator(env: Env, item: Value, f: Filter, fieldValue: Value, val: Value, lookupData: Value)
    requires CaseOf(f.operator) == NoCase
    ensures Dispatch(env, item, f, fieldValue, val, lookupData) == Ret(false)
  {
  }

  /** The negated string operators hold for a field that is not a string. */
  lemma NegatedStringRule(env: Env, item: Value, f: Filter, fieldValue: Value, val: Value, lookupData: Value)
    requires CaseOf(f.operator) in {NotContainsCase, NotStartsCase, NotEndsCase} && !fieldValue.Str?
    ensures Dispatch(env, item, f, fieldValue, val, lookupData) == Ret(true)
  {
  }

  /** match, reassigning its locals step by step as the source does. */
  method Match(env: Env, item: Value, f: Filter) returns (r: Run<bool>)
    ensures r == MatchSpec(env, item, f)
  {
    if !env.validate(f) {
      return Ret(false);
    }
    var fieldValue := FieldValue(env, item, f);
    if fieldValue.Err? {
      return Ret(false);
    }
    var val := ResolveFilterValue(env, item, f.value);
    if val.Err? {
      return Ret(false);
    }
    var lookupData := ResolveLookup(env, item, f);
    if lookupData.Err? {
      return Ret(false);
    }
    var decided := ApplyLookupLengths(env, fieldValue.value, lookupData.value);
    if decided.Some? {
      return Ret(decided.value);
    }
    var operand := val.value;
    if !IsCountOperator(f.operator) && lookupData.value != Null {
      operand := lookupData.value;
    }
    r := Dispatch(env, item, f, fieldValue.value, operand, lookupData.value);
  }

  /** The lookup step of match, reassigning `lookupData`. */
  method ResolveLookup(env: Env, item: Value, f: Filter) returns (r: Result<Value>)
    ensures r == LookupData(env, item, f)
  {
    var lookupData := Null;
    if f.lookup.Some? {
      var l := f.lookup.value;
      if l.data != Null {
        lookupData := l.data;
      } else if l.handler.Some? {
        var rs := env.handler(l.handler.value, item, l.handlerCondition);
        if rs.Err? {
          return rs;
        }
        lookupData := rs.value;
      }
      if l.condition != "" {
        return env.eval(l.condition, Map(map["data" := item, "lookup" := lookupData]));
      }
    }
    return Ok(lookupData);
  }

  /** The slice-length tests of match on a slice-valued lookup. */
  method ApplyLookupLengths(env: Env, fieldValue: Value, lookupData: Value) returns (r: Option<bool>)
    ensures r == LookupShortCircuit(env, fieldValue, lookupData)
  {
    if lookupData != Null && env.isSlice(lookupData) {
      var lookupLength := env.sliceLength(lookupData);
      var fieldLength := env.sliceLength(fieldValue);
      var n := if fieldLength.Ok? then fieldLength.value else 0;
      if env.isSlice(fieldValue) && n == 0 {
        return Some(false);
      }
      if lookupLength.Err? {
        return Some(false);
      }
      if lookupLength.value == 0 {
        return Some(true);
      }
    }
    return None;
  }
}
