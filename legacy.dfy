/** The legacy filter engine: flat filters with a twelve-operator vocabulary, groups
    combined by AND, OR or NOT, validation, translation to search-engine query clauses,
    slice filtering and the URL query reader of that generation. */
module Legacy {
  import opened Wrappers
  import opened Values
  import opened Text
  import opened Seqs
  import Utils
  import Queries

  const Equal: string := "eq"
  const LessThan: string := "lt"
  const LessThanEqual: string := "le"
  const GreaterThan: string := "gt"
  const GreaterThanEqual: string := "ge"
  const NotEqual: string := "ne"
  const Contains: string := "contains"
  const NotContains: string := "not_contains"
  const Between: string := "between"
  const In: string := "in"
  const StartsWith: string := "starts_with"
  const EndsWith: string := "ends_with"

  /** The twelve operators. */
  const ValidOperators: set<string> := {
    Equal, LessThan, LessThanEqual, GreaterThan, GreaterThanEqual, NotEqual,
    Contains, NotContains, Between, In, StartsWith, EndsWith}

  const AND: string := "AND"
  const OR: string := "OR"
  const NOT: string := "NOT"

  /** A legacy filter: a field, an operator and a value. */
  datatype Filter = Filter(field: string, operator: string, value: Value)

  /** A legacy group: filters combined by AND, OR or NOT. */
  datatype FilterGroup = FilterGroup(operator: string, filters: seq<Filter>)

  /** What Match needs from outside: the comparison library, and the struct field of a
      non-map item by name as reflection finds it: none when the struct has no such
      field, and a panic when the item's type is not a struct (an int, a string, a bool
      or a slice), as asking such a type for its number of fields does. */
  datatype Host = Host(lib: Utils.Lib, fieldOf: (Value, string) -> Run<Option<Value>>)

  // ---- ValidateFilters -----------------------------------------------------------

  /** A slice, as reflection sees it. */
  predicate IsSlice(v: Value)
  {
    v.List? || v.StrList?
  }

  function SliceLength(v: Value): nat
    requires IsSlice(v)
  {
    if v.List? then |v.items| else |v.strs|
  }

  /** The check of one filter: the first failing rule's message, if any. Asking for
      the kind of a nil value's type panics. */
  function Validation(f: Filter): (r: Run<Option<string>>)
    ensures r.Panic? <==> f.field != "" && f.operator in {Between, In} && f.value.Null?
    ensures r == Ret(None) <==> (f.field != "" && f.operator in ValidOperators &&
      (f.operator == Between ==> IsSlice(f.value) && SliceLength(f.value) == 2) &&
      (f.operator == In ==> IsSlice(f.value)))
  {
    if f.field == "" then Ret(Some("filter field cannot be empty"))
    else if f.operator !in ValidOperators then Ret(Some("invalid operator: " + f.operator))
    else if f.operator == Between then
      if f.value.Null? then Panic
      else if !IsSlice(f.value) || SliceLength(f.value) != 2 then
        Ret(Some("between filter must have a slice of two elements as value"))
      else Ret(None)
    else if f.operator == In then
      if f.value.Null? then Panic
      else if !IsSlice(f.value) then Ret(Some("in filter must have a slice as value"))
      else Ret(None)
    else Ret(None)
  }

  /** The first failure among the filters, checked in order. */
  function FirstFailure(fs: seq<Filter>): Run<Option<string>>
  {
    if fs == [] then Ret(None)
    else
      match Validation(fs[0])
      case Panic => Panic
      case Ret(Some(e)) => Ret(Some(e))
      case Ret(None) => FirstFailure(fs[1..])
  }

  /** ValidateFilters passes iff every filter does, and a failure is the message of a
      filter all of whose predecessors pass. */
  lemma FirstFailureMeaning(fs: seq<Filter>)
    ensures FirstFailure(fs) == Ret(None) <==> forall i :: 0 <= i < |fs| ==> Validation(fs[i]) == Ret(None)
    ensures FirstFailure(fs).Ret? && FirstFailure(fs).value.Some? ==>
      exists i :: 0 <= i < |fs| && Validation(fs[i]) == FirstFailure(fs) &&
        forall j :: 0 <= j < i ==> Validation(fs[j]) == Ret(None)
  {
    FirstFailureNone(fs);
    if FirstFailure(fs).Ret? && FirstFailure(fs).value.Some? {
      FirstFailureSome(fs);
    }
  }

  /** ValidateFilters passes iff every filter does. */
  lemma {:induction false} FirstFailureNone(fs: seq<Filter>)
    ensures FirstFailure(fs) == Ret(None) <==> forall i :: 0 <= i < |fs| ==> Validation(fs[i]) == Ret(None)
    decreases |fs|
  {
    if fs != [] {
      FirstFailureNone(fs[1..]);
      assert forall i :: 0 < i < |fs| ==> fs[1..][i - 1] == fs[i];
    }
  }

  /** A failure is the message of a filter all of whose predecessors pass. */
  lemma {:induction false} FirstFailureSome(fs: seq<Filter>)
    requires FirstFailure(fs).Ret? && FirstFailure(fs).value.Some?
    ensures
      exists i :: 0 <= i < |fs| && Validation(fs[i]) == FirstFailure(fs) &&
        forall j :: 0 <= j < i ==> Validation(fs[j]) == Ret(None)
    decreases |fs|
  {
    if Validation(fs[0]) != Ret(None) {
      assert Validation(fs[0]) == FirstFailure(fs);
    } else {
      FirstFailureSome(fs[1..]);
      var k :| 0 <= k < |fs[1..]| && Validation(fs[1..][k]) == FirstFailure(fs[1..]) &&
        forall j :: 0 <= j < k ==> Validation(fs[1..][j]) == Ret(None);
      assert Validation(fs[k + 1]) == FirstFailure(fs);
      forall j | 0 <= j < k + 1
        ensures Validation(fs[j]) == Ret(None)
      {
        if j > 0 {
          assert fs[j] == fs[1..][j - 1];
        }
      }
    }
  }

  /** ValidateFilters. */
  method ValidateFilters(filters: seq<Filter>) returns (r: Run<Option<string>>)
    ensures r == FirstFailure(filters)
  {
    for i := 0 to |filters|
      invariant FirstFailure(filters) == FirstFailure(filters[i..])
    {
      assert filters[i..][0] == filters[i] && filters[i..][1..] == filters[i + 1..];
      var f := filters[i];
      if f.field == "" {
        return Ret(Some("filter field cannot be empty"));
      }
      if f.operator !in ValidOperators {
        return Ret(Some("invalid operator: " + f.operator));
      }
      if f.operator == Between {
        if f.value.Null? {
          return Panic;
        }
        if !IsSlice(f.value) || SliceLength(f.value) != 2 {
          return Ret(Some("between filter must have a slice of two elements as value"));
        }
      }
      if f.operator == In {
        if f.value.Null? {
          return Panic;
        }
        if !IsSlice(f.value) {
          return Ret(Some("in filter must have a slice as value"));
        }
      }
    }
    return Ret(None);
  }

  // ---- Match ---------------------------------------------------------------------

  /** The value of a field: a map entry for a map, else the struct field. A nil item
      has no type to ask for its fields, which panics. */
  function FieldValue(h: Host, item: Value, field: string): Run<Option<Value>>
  {
    if item.Map? then Ret(if field in item.entries then Some(item.entries[field]) else None)
    else if item.Null? then Panic
    else h.fieldOf(item, field)
  }

  /** A comparison outcome tested by `op`, one of the four ordering operators. */
  function Ordered(c: Run<int>, op: string): Run<bool>
  {
    match c
    case Panic => Panic
    case Ret(k) =>
      Ret(if op == LessThan then k < 0 else if op == LessThanEqual then k <= 0
          else if op == GreaterThan then k > 0 else k >= 0)
  }

  /** A string test on the value as a string and the operand as a string; either
      assertion failing panics. */
  function StringTest(val: Value, operand: Value, op: string): Run<bool>
  {
    if !val.Str? || !operand.Str? then Panic
    else if op == Contains then Ret(ContainsStr(val.s, operand.s))
    else if op == NotContains then Ret(!ContainsStr(val.s, operand.s))
    else if op == StartsWith then Ret(HasPrefix(val.s, operand.s))
    else Ret(HasSuffix(val.s, operand.s))
  }

  /** The two bounds of a between operand, when it has them; indexing a missing one
      panics. */
  function Bound(operand: Value, k: nat): Option<Value>
  {
    if operand.StrList? then (if k < |operand.strs| then Some(Str(operand.strs[k])) else None)
    else if operand.List? then (if k < |operand.items| then Some(operand.items[k]) else None)
    else None
  }

  /** Inclusive range test, evaluated left to right: the upper bound is only looked at
      when the value is not below the lower one. */
  function InRange(lib: Utils.Lib, val: Value, operand: Value): Run<bool>
  {
    match Bound(operand, 0)
    case None => Panic
    case Some(lo) =>
      match Utils.Compare(lib, val, lo)
      case Panic => Panic
      case Ret(c) =>
        if c < 0 then Ret(false)
        else
          match Bound(operand, 1)
          case None => Panic
          case Some(hi) =>
            match Utils.Compare(lib, val, hi)
            case Panic => Panic
            case Ret(d) => Ret(d <= 0)
  }

  /** The operator switch of Match on a present, non-nil value. */
  function Test(lib: Utils.Lib, val: Value, f: Filter): Run<bool>
  {
    var op := f.operator;
    if op == Equal then Ret(val == f.value)
    else if op == NotEqual then Ret(val != f.value)
    else if op in {LessThan, LessThanEqual, GreaterThan, GreaterThanEqual} then Ordered(Utils.Compare(lib, val, f.value), op)
    else if op in {Contains, NotContains, StartsWith, EndsWith} then StringTest(val, f.value, op)
    else if op == In then
      if f.value.StrList? then Ret(val.Str? && val.s in f.value.strs)
      else if f.value.List? then Ret(val in f.value.items)
      else Ret(false)
    else if op == Between then
      if IsSlice(f.value) then InRange(lib, val, f.value) else Ret(false)
    else Ret(false)
  }

  /** Match as a function: false for a missing field or a nil value, else the test. */
  function Matches(h: Host, item: Value, f: Filter): Run<bool>
  {
    match FieldValue(h, item, f.field)
    case Panic => Panic
    case Ret(found) =>
      if found.None? || found.value.Null? then Ret(false) else Test(h.lib, found.value, f)
  }

  /** Looking the field up panics on a nil item and wherever reflection does, and that
      panic is the outcome of Match, whatever the operator. */
  lemma MatchesLookupPanic(h: Host, item: Value, f: Filter)
    ensures item.Null? ==> Matches(h, item, f) == Panic
    ensures FieldValue(h, item, f.field).Panic? ==> Matches(h, item, f) == Panic
    ensures item.Map? ==> FieldValue(h, item, f.field).Ret?
  {
  }

  /** A missing field or a nil value never matches; on a present value, not-equal is
      the exact negation of equal, which is plain equality of values. */
  lemma MatchesEquality(h: Host, item: Value, field: string, v: Value)
    ensures FieldValue(h, item, field) == Ret(None) ==> Matches(h, item, Filter(field, Equal, v)) == Ret(false)
    ensures FieldValue(h, item, field) == Ret(Some(Null)) ==> Matches(h, item, Filter(field, NotEqual, v)) == Ret(false)
    ensures FieldValue(h, item, field).Ret? && FieldValue(h, item, field).value.Some? && !FieldValue(h, item, field).value.value.Null? ==>
      Matches(h, item, Filter(field, Equal, v)) == Ret(FieldValue(h, item, field).value.value == v) &&
      Matches(h, item, Filter(field, NotEqual, v)) == Not(Matches(h, item, Filter(field, Equal, v)))
  {
  }

  /** `in` holds iff the value equals an element of the list operand. */
  lemma MatchesIn(h: Host, item: Value, field: string, v: Value)
    requires FieldValue(h, item, field).Ret? && FieldValue(h, item, field).value.Some?
    requires !FieldValue(h, item, field).value.value.Null?
    ensures v.List? ==> Matches(h, item, Filter(field, In, v)) == Ret(FieldValue(h, item, field).value.value in v.items)
    ensures v.StrList? ==> (Matches(h, item, Filter(field, In, v)) ==
      Ret(exists k :: 0 <= k < |v.strs| && FieldValue(h, item, field).value.value == Str(v.strs[k])))
    ensures !IsSlice(v) ==> Matches(h, item, Filter(field, In, v)) == Ret(false)
  {
    var val := FieldValue(h, item, field).value.value;
    if v.StrList? && val.Str? && val.s in v.strs {
      var k :| 0 <= k < |v.strs| && v.strs[k] == val.s;
    }
  }

  /** `between` is inclusive at both ends. */
  lemma MatchesBetween(h: Host, item: Value, field: string, lo: Value, hi: Value)
    requires FieldValue(h, item, field).Ret? && FieldValue(h, item, field).value.Some?
    requires !FieldValue(h, item, field).value.value.Null?
    requires Utils.Compare(h.lib, FieldValue(h, item, field).value.value, lo).Ret?
    requires Utils.Compare(h.lib, FieldValue(h, item, field).value.value, hi).Ret?
    ensures Matches(h, item, Filter(field, Between, List([lo, hi]))) == Ret(
      Utils.Compare(h.lib, FieldValue(h, item, field).value.value, lo).value >= 0 &&
      Utils.Compare(h.lib, FieldValue(h, item, field).value.value, hi).value <= 0)
  {
  }

  /** Membership in a list operand, by a loop. */
  method Among(val: Value, items: seq<Value>) returns (found: bool)
    ensures found <==> val in items
  {
    for k := 0 to |items|
      invariant val !in items[..k]
    {
      if val == items[k] {
        return true;
      }
    }
    assert items[..|items|] == items;
    return false;
  }

  /** Membership in a string list operand, by a loop. */
  method AmongStrings(val: Value, strs: seq<string>) returns (found: bool)
    ensures found <==> val.Str? && val.s in strs
  {
    for k := 0 to |strs|
      invariant !(val.Str? && val.s in strs[..k])
    {
      if val == Str(strs[k]) {
        return true;
      }
    }
    assert strs[..|strs|] == strs;
    return false;
  }

  /** Match. */
  method Match(h: Host, item: Value, f: Filter) returns (r: Run<bool>)
    ensures r == Matches(h, item, f)
  {
    var lookup := FieldValue(h, item, f.field);
    if lookup.Panic? {
      return Panic;
    }
    var found := lookup.value;
    if found.None? || found.value.Null? {
      return Ret(false);
    }
    var val := found.value;
    if f.operator == In {
      if f.value.StrList? {
        var b := AmongStrings(val, f.value.strs);
        return Ret(b);
      } else if f.value.List? {
        var b := Among(val, f.value.items);
        return Ret(b);
      }
      return Ret(false);
    }
    return Test(h.lib, val, f);
  }

  // ---- MatchGroup ----------------------------------------------------------------

  /** Every item passes `m`, stopping at the first that does not. */
  function Every<T>(xs: seq<T>, m: T -> Run<bool>): Run<bool>
  {
    if xs == [] then Ret(true)
    else match m(xs[0])
      case Panic => Panic
      case Ret(b) => if !b then Ret(false) else Every(xs[1..], m)
  }

  /** Some item passes `m`, stopping at the first that does. */
  function Any<T>(xs: seq<T>, m: T -> Run<bool>): Run<bool>
  {
    if xs == [] then Ret(false)
    else match m(xs[0])
      case Panic => Panic
      case Ret(b) => if b then Ret(true) else Any(xs[1..], m)
  }

  /** Without panics Every is the conjunction and Any the disjunction; a decided
      result comes from some item that decides it. */
  lemma {:induction false} EveryAnyMeaning<T>(xs: seq<T>, m: T -> Run<bool>)
    ensures (forall i :: 0 <= i < |xs| ==> m(xs[i]).Ret?) ==>
      Every(xs, m) == Ret(forall i :: 0 <= i < |xs| ==> m(xs[i]).value) &&
      Any(xs, m) == Ret(exists i :: 0 <= i < |xs| && m(xs[i]).value)
    ensures Every(xs, m) == Ret(false) ==> exists i :: 0 <= i < |xs| && m(xs[i]) == Ret(false)
    ensures Any(xs, m) == Ret(true) ==> exists i :: 0 <= i < |xs| && m(xs[i]) == Ret(true)
    ensures Every(xs, m) == Ret(true) <==> forall i :: 0 <= i < |xs| ==> m(xs[i]) == Ret(true)
    decreases |xs|
  {
    if xs != [] {
      EveryAnyMeaning(xs[1..], m);
      assert forall i :: 0 < i < |xs| ==> xs[1..][i - 1] == xs[i];
      assert forall i :: 0 <= i < |xs| - 1 ==> xs[1..][i] == xs[i + 1];
    }
  }

  /** Match on a fixed item, as a function of the filter. */
  function FilterMatcher(h: Host, item: Value): Filter -> Run<bool>
  {
    f => Matches(h, item, f)
  }

  /** MatchGroup as a function: AND needs every filter, OR some filter, NOT no filter;
      any other operator is false. */
  function GroupMatches(h: Host, item: Value, g: FilterGroup): Run<bool>
  {
    if g.operator == AND then Every(g.filters, FilterMatcher(h, item))
    else if g.operator == OR then Any(g.filters, FilterMatcher(h, item))
    else if g.operator == NOT then Not(Any(g.filters, FilterMatcher(h, item)))
    else Ret(false)
  }

  /** Without panics a group is the conjunction, disjunction or negated disjunction
      of its filters. */
  lemma GroupMatchesMeaning(h: Host, item: Value, g: FilterGroup)
    requires forall i :: 0 <= i < |g.filters| ==> Matches(h, item, g.filters[i]).Ret?
    ensures g.operator == AND ==> GroupMatches(h, item, g) == Ret(forall i :: 0 <= i < |g.filters| ==> Matches(h, item, g.filters[i]).value)
    ensures g.operator == OR ==> GroupMatches(h, item, g) == Ret(exists i :: 0 <= i < |g.filters| && Matches(h, item, g.filters[i]).value)
    ensures g.operator == NOT ==> GroupMatches(h, item, g) == Ret(forall i :: 0 <= i < |g.filters| ==> !Matches(h, item, g.filters[i]).value)
    ensures g.operator !in {AND, OR, NOT} ==> GroupMatches(h, item, g) == Ret(false)
  {
    EveryAnyMeaning(g.filters, FilterMatcher(h, item));
  }

  /** The AND loop of MatchGroup. */
  method MatchAll(h: Host, item: Value, fs: seq<Filter>) returns (r: Run<bool>)
    ensures r == Every(fs, FilterMatcher(h, item))
  {
    for i := 0 to |fs|
      invariant Every(fs, FilterMatcher(h, item)) == Every(fs[i..], FilterMatcher(h, item))
    {
      assert fs[i..][0] == fs[i] && fs[i..][1..] == fs[i + 1..];
      var m := Match(h, item, fs[i]);
      if m.Panic? {
        return Panic;
      }
      if !m.value {
        return Ret(false);
      }
    }
    return Ret(true);
  }

  /** The OR and NOT loops of MatchGroup, which stop at the first match. */
  method MatchAny(h: Host, item: Value, fs: seq<Filter>) returns (r: Run<bool>)
    ensures r == Any(fs, FilterMatcher(h, item))
  {
    for i := 0 to |fs|
      invariant Any(fs, FilterMatcher(h, item)) == Any(fs[i..], FilterMatcher(h, item))
    {
      assert fs[i..][0] == fs[i] && fs[i..][1..] == fs[i + 1..];
      var m := Match(h, item, fs[i]);
      if m.Panic? {
        return Panic;
      }
      if m.value {
        return Ret(true);
      }
    }
    return Ret(false);
  }

  /** MatchGroup. */
  method MatchGroup(h: Host, item: Value, g: FilterGroup) returns (r: Run<bool>)
    ensures r == GroupMatches(h, item, g)
  {
    if g.operator == AND {
      r := MatchAll(h, item, g.filters);
    } else if g.operator == OR {
      r := MatchAny(h, item, g.filters);
    } else if g.operator == NOT {
      var any := MatchAny(h, item, g.filters);
      r := Not(any);
    } else {
      r := Ret(false);
    }
  }

  // ---- ApplyGroup and ApplyBinaryFilter ------------------------------------------

  /** MatchGroup on a fixed item, as a function of the group. */
  function GroupMatcher(h: Host, item: Value): FilterGroup -> Run<bool>
  {
    g => GroupMatches(h, item, g)
  }

  /** An item passes ApplyGroup iff it matches every group, checked in order. */
  function Passes(h: Host, groups: seq<FilterGroup>): Value -> Run<bool>
  {
    item => Every(groups, GroupMatcher(h, item))
  }

  /** ApplyGroup: the items that match every group, in order, and no error; a panic in
      matching propagates. */
  method ApplyGroup(h: Host, data: seq<Value>, groups: seq<FilterGroup>) returns (r: Run<Result<seq<Value>>>)
    ensures r.Ret? <==> forall i :: 0 <= i < |data| ==> Passes(h, groups)(data[i]).Ret?
    ensures r.Ret? ==> r.value == Ok(Where(data, Accepts(Passes(h, groups))))
  {
    var kept := KeepMatching(data, Passes(h, groups));
    if kept.Panic? {
      return Panic;
    }
    return Ret(Ok(kept.value));
  }

  /** ApplyGroup's inner loop: stops at the first group the item fails. */
  method MatchEvery(h: Host, item: Value, groups: seq<FilterGroup>) returns (r: Run<bool>)
    ensures r == Passes(h, groups)(item)
  {
    for i := 0 to |groups|
      invariant Every(groups, GroupMatcher(h, item)) == Every(groups[i..], GroupMatcher(h, item))
    {
      assert groups[i..][0] == groups[i] && groups[i..][1..] == groups[i + 1..];
      var m := MatchGroup(h, item, groups[i]);
      if m.Panic? {
        return Panic;
      }
      if !m.value {
        return Ret(false);
      }
    }
    return Ret(true);
  }

  /** An item is kept iff it is in the data and matches every group. */
  lemma ApplyGroupMembers(h: Host, data: seq<Value>, groups: seq<FilterGroup>, x: Value)
    ensures x in Where(data, Accepts(Passes(h, groups))) <==>
      x in data && forall i :: 0 <= i < |groups| ==> GroupMatches(h, x, groups[i]) == Ret(true)
  {
    WhereMembers(data, Accepts(Passes(h, groups)), x);
    EveryAnyMeaning(groups, GroupMatcher(h, x));
  }

  /** A binary expression: two optional groups and AND or OR. */
  datatype BinaryExpr = BinaryExpr(left: Option<FilterGroup>, operator: string, right: Option<FilterGroup>)

  const MissingGroup: string := "missing left or right filter group"
  const UnsupportedOperator: string := "unsupported boolean operator"

  /** ApplyBinaryFilter: each side filters the data on its own; AND intersects the
      results and OR unites them, keyed by `key`. */
  method ApplyBinaryFilter(h: Host, data: seq<Value>, expr: BinaryExpr, key: Value -> string) returns (r: Run<Result<seq<Value>>>)
    ensures expr.left.None? || expr.right.None? ==> r == Ret(Err(MissingGroup))
    ensures expr.left.Some? && expr.right.Some? ==>
      (r.Ret? <==> forall i :: 0 <= i < |data| ==>
         Passes(h, [expr.left.value])(data[i]).Ret? && Passes(h, [expr.right.value])(data[i]).Ret?)
    ensures r.Ret? && expr.left.Some? && expr.right.Some? ==>
      var l := Where(data, Accepts(Passes(h, [expr.left.value])));
      var rr := Where(data, Accepts(Passes(h, [expr.right.value])));
      r.value == (if expr.operator == AND then Ok(Utils.IntersectionOf(l, rr, key))
                  else if expr.operator == OR then Ok(Utils.UnionOf(l, rr, key))
                  else Err(UnsupportedOperator))
  {
    if expr.left.None? || expr.right.None? {
      return Ret(Err(MissingGroup));
    }
    var left := ApplyGroup(h, data, [expr.left.value]);
    if left.Panic? {
      return Panic;
    }
    var right := ApplyGroup(h, data, [expr.right.value]);
    if right.Panic? {
      return Panic;
    }
    if expr.operator == AND {
      var both := Utils.Intersection(left.value.value, right.value.value, key);
      return Ret(Ok(both));
    } else if expr.operator == OR {
      var either := Utils.Union(left.value.value, right.value.value, key);
      return Ret(Ok(either));
    }
    return Ret(Err(UnsupportedOperator));
  }

  // ---- filterToQuery and filtersToQuery ------------------------------------------

  /** A search-engine query clause. */
  datatype Clause =
    | TermQuery(term: map<string, Value>)
    | RangeQuery(range: map<string, map<string, Value>>)
    | WildcardQuery(wildcard: map<string, string>)
    | Nested(query: BoolQuery)

  datatype BoolQuery = BoolQuery(must: seq<Clause>, should: seq<Clause>, mustNot: seq<Clause>)

  /** The top-level query. */
  datatype Query = Query(boolQuery: BoolQuery)

  /** fmt's `%v` of a value. */
  function Show(lib: Utils.Lib, v: Value): string
  {
    if v.Str? then v.s else lib.sprint(v)
  }

  /** filterToQuery: the clause of a filter, if its operator has one. */
  function FilterToQuery(lib: Utils.Lib, f: Filter): Option<Clause>
  {
    var op := f.operator;
    var fld := f.field;
    if op == Equal then Some(TermQuery(map[fld := f.value]))
    else if op == LessThan then Some(RangeQuery(map[fld := map["lt" := f.value]]))
    else if op == LessThanEqual then Some(RangeQuery(map[fld := map["le" := f.value]]))
    else if op == GreaterThan then Some(RangeQuery(map[fld := map["gt" := f.value]]))
    else if op == GreaterThanEqual then Some(RangeQuery(map[fld := map["ge" := f.value]]))
    else if op == NotEqual then Some(Nested(BoolQuery([TermQuery(map[fld := Map(map["ne" := f.value])])], [], [])))
    else if op == Contains then Some(WildcardQuery(map[fld := "*" + Show(lib, f.value) + "*"]))
    else if op == NotContains then Some(Nested(BoolQuery([WildcardQuery(map[fld := "!*" + Show(lib, f.value) + "*"])], [], [])))
    else if op == StartsWith then Some(WildcardQuery(map[fld := Show(lib, f.value) + "*"]))
    else if op == EndsWith then Some(WildcardQuery(map[fld := "*" + Show(lib, f.value)]))
    else if op == In then Some(TermQuery(map[fld := Map(map["in" := f.value])]))
    else if op == Between then
      if f.value.List? && |f.value.items| == 2 then
        Some(RangeQuery(map[fld := map["gte" := f.value.items[0], "lte" := f.value.items[1]]]))
      else None
    else None
  }

  /** A filter has a clause iff its operator is one of the twelve, and for `between`
      when its value is a `[]any` of two elements; the wildcard clauses put the
      operand between the fixed `*` marks. */
  lemma FilterToQueryShapes(lib: Utils.Lib, f: Filter)
    ensures FilterToQuery(lib, f).Some? <==>
      f.operator in ValidOperators && (f.operator == Between ==> f.value.List? && |f.value.items| == 2)
    ensures f.operator == Contains ==> FilterToQuery(lib, f) == Some(WildcardQuery(map[f.field := "*" + Show(lib, f.value) + "*"]))
    ensures f.operator == StartsWith ==> FilterToQuery(lib, f) == Some(WildcardQuery(map[f.field := Show(lib, f.value) + "*"]))
    ensures f.operator == EndsWith ==> FilterToQuery(lib, f) == Some(WildcardQuery(map[f.field := "*" + Show(lib, f.value)]))
    ensures f.operator == Between && f.value.List? && |f.value.items| == 2 ==>
      FilterToQuery(lib, f) == Some(RangeQuery(map[f.field := map["gte" := f.value.items[0], "lte" := f.value.items[1]]]))
  {
  }

  /** A filter that passes validation loses its clause only as a `between` over a
      `[]string`. */
  lemma ValidWithoutClause(lib: Utils.Lib, f: Filter)
    requires Validation(f) == Ret(None)
    ensures FilterToQuery(lib, f).None? <==> f.operator == Between && f.value.StrList?
  {
  }

  /** The clauses of the filters that have one, in order. */
  function Clauses(lib: Utils.Lib, fs: seq<Filter>): seq<Clause>
  {
    if fs == [] then []
    else
      var c := FilterToQuery(lib, fs[|fs| - 1]);
      Clauses(lib, fs[..|fs| - 1]) + (if c.Some? then [c.value] else [])
  }

  /** There is one clause per filter that has one, in the filters' order. */
  lemma ClausesMembers(lib: Utils.Lib, fs: seq<Filter>, c: Clause)
    ensures c in Clauses(lib, fs) <==> exists i :: 0 <= i < |fs| && FilterToQuery(lib, fs[i]) == Some(c)
    ensures (forall i :: 0 <= i < |fs| ==> FilterToQuery(lib, fs[i]).Some?) ==> |Clauses(lib, fs)| == |fs|
  {
    ClausesIn(lib, fs, c);
    ClausesLength(lib, fs);
  }

  /** A clause is in the list iff some filter has it. */
  lemma {:induction false} ClausesIn(lib: Utils.Lib, fs: seq<Filter>, c: Clause)
    ensures c in Clauses(lib, fs) <==> exists i :: 0 <= i < |fs| && FilterToQuery(lib, fs[i]) == Some(c)
    decreases |fs|
  {
    if fs != [] {
      var n := |fs| - 1;
      ClausesIn(lib, fs[..n], c);
      assert forall i :: 0 <= i < n ==> fs[..n][i] == fs[i];
      if FilterToQuery(lib, fs[n]) == Some(c) {
        assert 0 <= n < |fs| && FilterToQuery(lib, fs[n]) == Some(c);
      }
    }
  }

  /** When every filter has a clause there is one clause per filter. */
  lemma {:induction false} ClausesLength(lib: Utils.Lib, fs: seq<Filter>)
    ensures (forall i :: 0 <= i < |fs| ==> FilterToQuery(lib, fs[i]).Some?) ==> |Clauses(lib, fs)| == |fs|
    decreases |fs|
  {
    if fs != [] {
      var n := |fs| - 1;
      ClausesLength(lib, fs[..n]);
      assert forall i :: 0 <= i < n ==> fs[..n][i] == fs[i];
    }
  }

  /** filtersToQuery: the validation error, or a query whose `must` list holds the
      clauses of the filters. */
  method FiltersToQuery(lib: Utils.Lib, filters: seq<Filter>) returns (r: Run<Result<Query>>)
    ensures FirstFailure(filters).Panic? ==> r.Panic?
    ensures FirstFailure(filters).Ret? && FirstFailure(filters).value.Some? ==> r == Ret(Err(FirstFailure(filters).value.value))
    ensures FirstFailure(filters) == Ret(None) ==> r == Ret(Ok(Query(BoolQuery(Clauses(lib, filters), [], []))))
  {
    var failure := ValidateFilters(filters);
    if failure.Panic? {
      return Panic;
    }
    if failure.value.Some? {
      return Ret(Err(failure.value.value));
    }
    var mustQueries: seq<Clause> := [];
    for i := 0 to |filters|
      invariant mustQueries == Clauses(lib, filters[..i])
    {
      assert filters[..i + 1][..i] == filters[..i];
      var query := FilterToQuery(lib, filters[i]);
      if query.Some? {
        mustQueries := mustQueries + [query.value];
      }
    }
    assert filters[..|filters|] == filters;
    return Ret(Ok(Query(BoolQuery(mustQueries, [], []))));
  }

  // ---- removeFilter --------------------------------------------------------------

  /** The filters without the first one equal to `x`. */
  function RemoveFirst(fs: seq<Filter>, x: Filter): seq<Filter>
  {
    if fs == [] then [] else if fs[0] == x then fs[1..] else [fs[0]] + RemoveFirst(fs[1..], x)
  }

  /** Without an equal filter nothing is removed. */
  lemma {:induction false} RemoveFirstAbsent(fs: seq<Filter>, x: Filter)
    requires x !in fs
    ensures RemoveFirst(fs, x) == fs
    decreases |fs|
  {
    if fs != [] {
      RemoveFirstAbsent(fs[1..], x);
      assert fs == [fs[0]] + fs[1..];
    }
  }

  /** Only the first equal filter goes: the ones before and after it stay, in order. */
  lemma RemoveFirstAt(fs: seq<Filter>, x: Filter, i: nat)
    requires i < |fs| && fs[i] == x && x !in fs[..i]
    ensures RemoveFirst(fs, x) == fs[..i] + fs[i + 1..]
    ensures multiset(RemoveFirst(fs, x)) == multiset(fs) - multiset{x}
  {
    RemoveFirstSplit(fs, x, i);
    assert multiset(fs) == multiset(fs[..i]) + multiset{x} + multiset(fs[i + 1..]) by {
      assert fs == fs[..i] + [x] + fs[i + 1..];
    }
  }

  lemma {:induction false} RemoveFirstSplit(fs: seq<Filter>, x: Filter, i: nat)
    requires i < |fs| && fs[i] == x && x !in fs[..i]
    ensures RemoveFirst(fs, x) == fs[..i] + fs[i + 1..]
    decreases i
  {
    if i > 0 {
      var t := fs[1..];
      assert fs[0] != x by {
        assert fs[0] == fs[..i][0];
      }
      assert x !in t[..i - 1] by {
        assert t[..i - 1] == fs[1..i];
        assert forall y :: y in fs[1..i] ==> y in fs[..i];
      }
      RemoveFirstSplit(t, x, i - 1);
      assert RemoveFirst(fs, x) == [fs[0]] + (t[..i - 1] + t[i..]);
      assert t[i..] == fs[i + 1..] && [fs[0]] + t[..i - 1] == fs[..i] by {
        assert fs[..i] == [fs[0]] + fs[1..i];
      }
      SeqAssoc([fs[0]], t[..i - 1], t[i..]);
    }
  }

  /** removeFilter on a slice backed by `a`: the result is the slice `a[..n]`. When a
      filter is removed, the later filters are copied one place down inside the same
      array, so the caller's slice sees them moved and its last element repeated. */
  method RemoveFilter(a: array<Filter>, x: Filter) returns (n: nat)
    modifies a
    ensures n <= a.Length
    ensures a[..n] == RemoveFirst(old(a[..]), x)
    ensures x !in old(a[..]) ==> n == a.Length && a[..] == old(a[..])
    ensures x in old(a[..]) ==> n == a.Length - 1 && a[n] == old(a[a.Length - 1])
  {
    var i := FindFilter(a, x);
    if i == a.Length {
      RemoveFirstAbsent(a[..], x);
      return a.Length;
    }
    RemoveFirstAt(a[..], x, i);
    ShiftDown(a, a.Length, i, 1);
    return a.Length - 1;
  }

  /** The position of the first filter equal to `x`, or the length when there is none. */
  method FindFilter(a: array<Filter>, x: Filter) returns (i: nat)
    ensures i <= a.Length
    ensures x !in a[..i]
    ensures i < a.Length ==> a[i] == x
  {
    i := 0;
    while i < a.Length && a[i] != x
      invariant i <= a.Length
      invariant x !in a[..i]
    {
      assert a[..i + 1] == a[..i] + [a[i]];
      i := i + 1;
    }
  }

  // ---- ParseQuery ----------------------------------------------------------------

  /** The filters one query parameter gives: a key `field:x` is an equality test
      against `x`, a key `field:op:value` must name one of the twelve operators, a
      plain key is an equality test on one value or a membership test on several. */
  function KeyFilters(key: string, values: seq<string>): Result<seq<Filter>>
  {
    if ':' in key then
      var parts := Split(key, ':');
      if |parts| == 2 then Ok([Filter(parts[0], Equal, Str(parts[1]))])
      else if |parts| == 3 then
        if ToLower(parts[1]) !in ValidOperators then Err("invalid operator")
        else
          match Queries.Operand(parts[1], parts[2])
          case Err(m) => Err(m)
          case Ok(v) => Ok([Filter(parts[0], parts[1], v)])
      else Ok([])
    else if |values| == 1 then Ok([Filter(key, Equal, Str(values[0]))])
    else if |values| > 1 then Ok([Filter(key, In, StrList(values))])
    else Ok([])
  }

  /** KeyFilters as a function of the parameter. */
  function Each(): Queries.Param -> Result<seq<Filter>>
  {
    (p: Queries.Param) => KeyFilters(p.key, p.values)
  }

  /** A `field:x` key never fails and ignores its values; a `field:op:value` key fails
      exactly when the operator is unknown or a `between` does not have two parts;
      a plain key never fails. */
  lemma KeyFiltersMeaning(key: string, values: seq<string>)
    ensures |Split(key, ':')| == 2 ==>
      KeyFilters(key, values) == Ok([Filter(Split(key, ':')[0], Equal, Str(Split(key, ':')[1]))])
    ensures |Split(key, ':')| == 3 ==>
      var parts := Split(key, ':');
      (KeyFilters(key, values).Err? <==> (ToLower(parts[1]) !in ValidOperators ||
        (parts[1] == Between && ',' in parts[2] && |Split(parts[2], ',')| != 2)))
    ensures ':' !in key ==> KeyFilters(key, values).Ok? && |KeyFilters(key, values).value| <= 1
    ensures ':' !in key && |values| > 1 ==> KeyFilters(key, values) == Ok([Filter(key, In, StrList(values))])
  {
    if |Split(key, ':')| == 3 {
      var parts := Split(key, ':');
      Queries.OperandMeaning(parts[1], parts[2]);
    }
  }

  /** ParseQuery on the decoded parameters, in the order they are visited. */
  method ParseQuery(params: seq<Queries.Param>) returns (r: Result<seq<Filter>>)
    ensures r == Queries.Collect(params, Each())
  {
    var filters: seq<Filter> := [];
    for i := 0 to |params|
      invariant Queries.Collect(params[..i], Each()) == Ok(filters)
    {
      assert params[..i + 1][..i] == params[..i];
      var found := ParamFilters(params[i].key, params[i].values);
      if found.Err? {
        Queries.CollectErrorStays(params, i + 1, Each());
        assert params[..|params|] == params;
        return Err(found.msg);
      }
      filters := filters + found.value;
    }
    assert params[..|params|] == params;
    return Ok(filters);
  }

  /** One parameter's filters, as KeyFilters says. */
  method ParamFilters(key: string, values: seq<string>) returns (r: Result<seq<Filter>>)
    ensures r == KeyFilters(key, values)
  {
    if ':' in key {
      var parts := Split(key, ':');
      if |parts| == 2 {
        return Ok([Filter(parts[0], Equal, Str(parts[1]))]);
      } else if |parts| == 3 {
        if ToLower(parts[1]) !in ValidOperators {
          return Err("invalid operator");
        }
        var v := Queries.OperandOf(parts[1], parts[2]);
        if v.Err? {
          return Err(v.msg);
        }
        return Ok([Filter(parts[0], parts[1], v.value)]);
      }
      return Ok([]);
    }
    if |values| == 1 {
      return Ok([Filter(key, Equal, Str(values[0]))]);
    } else if |values| > 1 {
      return Ok([Filter(key, In, StrList(values))]);
    }
    return Ok([]);
  }
}
