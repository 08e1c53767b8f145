/** The case/default pattern matcher of pattern/pattern.go: `Match(values...)` stores
    the values under generated field names, `Case` and `Default` record cases, and
    `Result` runs copies of the cases in order until one fails or matches. A case's
    arguments are turned into an AND group of filters, one per position. */
module Patterns {
  import opened Wrappers
  import opened Values
  import opened Text
  import opened Operators
  import opened Conditions
  import Tree

  const ANY := "ANY-VAL"
  const NONE := "NONE-VAL"
  const EXISTS := "EXISTS-VAL"
  const NOTEXISTS := "NOT-EXISTS-VAL"

  /** The package's field prefix `field_<xid>_`; the random identifier is fixed here. */
  const RandomField := "field_pattern_"

  /** The package's error values, by name (their declarations are not part of this model). */
  const NoValueError := "NoValueError"
  const NoValueOrCaseError := "NoValueOrCaseError"
  const InvalidArgumentsError := "InvalidArgumentsError"
  const InvalidHandler := "InvalidHandler"
  const NoMatcherError := "NoMatcherError"

  /** The filter engine, and the registered handlers: `call(h, args)` runs handler `h`. */
  datatype PatternEnv = PatternEnv(filters: Env, call: (string, seq<Value>) -> Result<Value>)

  /** A Case struct value; a `None` handler is Go's nil. */
  datatype Case = Case(handler: Option<string>, args: seq<Value>, defaultCase: bool,
                       matchFound: bool, err: Option<string>, result: Value)

  /** A case as addCase records it: not yet matched and without an error. */
  function NewCase(handler: Option<string>, defaultCase: bool, args: seq<Value>): (c: Case)
    ensures c.handler == handler && c.defaultCase == defaultCase && c.args == args
    ensures !c.matchFound && c.err.None? && c.result == Null
  {
    Case(handler, args, defaultCase, false, None, Null)
  }

  /** The key of the value at position `i`: the prefix followed by `i + 1` in decimal. */
  function FieldName(i: nat): string
  {
    RandomField + NatToString(i + 1)
  }

  /** Different positions have different keys. */
  lemma FieldNamesDistinct(i: nat, j: nat)
    requires FieldName(i) == FieldName(j)
    ensures i == j
  {
    var n := |RandomField|;
    assert FieldName(i)[n..] == NatToString(i + 1);
    assert FieldName(j)[n..] == NatToString(j + 1);
    NatToStringInjective(i + 1, j + 1);
  }

  // ---- Match(values...) ----------------------------------------------------------

  /** The map of `vals` with value `i` under `key(i)`, built front to back. */
  function Keyed<K, V>(vals: seq<V>, key: nat -> K): map<K, V>
    decreases |vals|
  {
    if |vals| == 0 then map[]
    else Keyed(vals[..|vals| - 1], key)[key(|vals| - 1) := vals[|vals| - 1]]
  }

  /** Under an injective key, the map holds exactly one entry per value. */
  lemma {:induction false} KeyedMeaning<K, V>(vals: seq<V>, key: nat -> K)
    requires forall i: nat, j: nat :: key(i) == key(j) ==> i == j
    ensures |Keyed(vals, key)| == |vals|
    ensures forall i :: 0 <= i < |vals| ==> key(i) in Keyed(vals, key) && Keyed(vals, key)[key(i)] == vals[i]
    ensures forall k :: k in Keyed(vals, key) ==> exists i :: 0 <= i < |vals| && k == key(i)
    decreases |vals|
  {
    if |vals| > 0 {
      var n := |vals| - 1;
      var init := vals[..n];
      KeyedMeaning(init, key);
      assert forall i :: 0 <= i < n ==> init[i] == vals[i];
      assert key(n) !in Keyed(init, key);
    }
  }

  /** The map Match builds: value `i` under FieldName(i). */
  function ValuesMap(vals: seq<Value>): map<string, Value>
  {
    Keyed(vals, FieldName)
  }

  /** The map holds exactly one entry per value: value `i` under FieldName(i), and no
      other keys. */
  lemma ValuesMapMeaning(vals: seq<Value>)
    ensures |ValuesMap(vals)| == |vals|
    ensures forall i :: 0 <= i < |vals| ==> FieldName(i) in ValuesMap(vals) && ValuesMap(vals)[FieldName(i)] == vals[i]
    ensures forall k :: k in ValuesMap(vals) ==> exists i :: 0 <= i < |vals| && k == FieldName(i)
  {
    forall i: nat, j: nat | FieldName(i) == FieldName(j)
      ensures i == j
    {
      FieldNamesDistinct(i, j);
    }
    KeyedMeaning(vals, FieldName);
  }

  /** The loop of Match that fills the value map. */
  method FillValues(vals: seq<Value>) returns (mp: map<string, Value>)
    ensures mp == ValuesMap(vals)
  {
    mp := map[];
    var i := 0;
    while i < |vals|
      invariant 0 <= i <= |vals|
      invariant mp == Keyed(vals[..i], FieldName)
    {
      assert vals[..i + 1][..i] == vals[..i];
      mp := mp[FieldName(i) := vals[i]];
      i := i + 1;
    }
    assert vals[..i] == vals;
  }

  // ---- the filters of a case -----------------------------------------------------

  /** The filter for argument `arg` at position `i`: EXISTS asks for a non-zero value,
      NOTEXISTS for a zero value, ANY asks nothing, and any other argument (NONE
      included) asks for equality. */
  function CheckOf(i: nat, arg: Value): (c: Option<Filter>)
    ensures c.None? <==> arg == Str(ANY)
    ensures arg == Str(EXISTS) ==> c == Some(NewFilter(FieldName(i), NotZero, Str("")))
    ensures arg == Str(NOTEXISTS) ==> c == Some(NewFilter(FieldName(i), IsZero, Str("")))
    ensures arg != Str(ANY) && arg != Str(EXISTS) && arg != Str(NOTEXISTS) ==>
      c == Some(NewFilter(FieldName(i), Equal, arg))
  {
    match arg
    case Str(s) =>
      if s == EXISTS then Some(NewFilter(FieldName(i), NotZero, Str("")))
      else if s == NOTEXISTS then Some(NewFilter(FieldName(i), IsZero, Str("")))
      else if s != ANY then Some(NewFilter(FieldName(i), Equal, arg))
      else None
    case _ => Some(NewFilter(FieldName(i), Equal, arg))
  }

  /** The filter of one argument, as a list of zero or one group members. */
  function CheckList(i: nat, arg: Value): (r: seq<Tree.Condition>)
    ensures forall x :: x in r <==> CheckOf(i, arg).Some? && x == Tree.Leaf(CheckOf(i, arg).value)
  {
    match CheckOf(i, arg)
    case Some(f) => [Tree.Leaf(f)]
    case None => []
  }

  /** The lists `each` gives the elements of `xs`, by position, concatenated. */
  function Gather<A, B>(xs: seq<A>, each: (nat, A) -> seq<B>): seq<B>
    decreases |xs|
  {
    if |xs| == 0 then []
    else Gather(xs[..|xs| - 1], each) + each(|xs| - 1, xs[|xs| - 1])
  }

  lemma {:induction false} GatherMembers<A, B>(xs: seq<A>, each: (nat, A) -> seq<B>, x: B)
    ensures x in Gather(xs, each) <==> exists i :: 0 <= i < |xs| && x in each(i, xs[i])
    decreases |xs|
  {
    if |xs| > 0 {
      var n := |xs| - 1;
      var init := xs[..n];
      GatherMembers(init, each, x);
      if exists i :: 0 <= i < |init| && x in each(i, init[i]) {
        var i :| 0 <= i < |init| && x in each(i, init[i]);
        assert init[i] == xs[i];
      }
      if exists i :: 0 <= i < |xs| && x in each(i, xs[i]) {
        var i :| 0 <= i < |xs| && x in each(i, xs[i]);
        if i < n {
          assert init[i] == xs[i];
        }
      }
    }
  }

  /** The filters Case.match collects for `args`, in argument order. */
  function Checks(args: seq<Value>): seq<Tree.Condition>
  {
    Gather(args, CheckList)
  }

  /** Member `x` is the filter of argument `i`. */
  predicate CheckAt(args: seq<Value>, i: int, x: Tree.Condition)
  {
    0 <= i < |args| && CheckOf(i, args[i]).Some? && x == Tree.Leaf(CheckOf(i, args[i]).value)
  }

  /** Every collected filter is the filter of some argument, and every argument other
      than ANY contributes its filter. */
  lemma ChecksMembers(args: seq<Value>, x: Tree.Condition)
    ensures x in Checks(args) <==> exists i :: CheckAt(args, i, x)
  {
    GatherMembers(args, CheckList, x);
    assert forall i :: 0 <= i < |args| ==> (x in CheckList(i, args[i]) <==> CheckAt(args, i, x));
  }

  /** The AND group Case.match evaluates against the values. */
  function CaseGroup(args: seq<Value>): Tree.FilterGroup
  {
    Tree.FilterGroup(AND, Checks(args), false)
  }

  /** A case's group holds iff every argument other than ANY has its filter met by the
      value at the same position (so an all-ANY case holds for any values). */
  lemma CaseGroupMeaning(env: Env, values: map<string, Value>, args: seq<Value>)
    requires forall i :: 0 <= i < |args| && CheckOf(i, args[i]).Some? ==> FilterMatch(env, Map(values), CheckOf(i, args[i]).value).Ret?
    ensures Tree.EvalGroup(env, Map(values), CaseGroup(args)) ==
      Ret(forall i :: 0 <= i < |args| && CheckOf(i, args[i]).Some? ==> FilterMatch(env, Map(values), CheckOf(i, args[i]).value).value)
  {
    var g := CaseGroup(args);
    var item := Map(values);
    forall k | 0 <= k < |g.members|
      ensures !g.members[k].Chain? && Tree.Eval(env, item, g.members[k]).Ret?
      ensures exists i :: CheckAt(args, i, g.members[k])
    {
      ChecksMembers(args, g.members[k]);
    }
    Tree.AndGroup(env, item, g);
    forall i | 0 <= i < |args| && CheckOf(i, args[i]).Some?
      ensures Tree.Leaf(CheckOf(i, args[i]).value) in g.members
    {
      assert CheckAt(args, i, Tree.Leaf(CheckOf(i, args[i]).value));
      ChecksMembers(args, Tree.Leaf(CheckOf(i, args[i]).value));
    }
  }

  /** The loop of Case.match that collects the filters. */
  method BuildChecks(args: seq<Value>) returns (rules: seq<Tree.Condition>)
    ensures rules == Checks(args)
  {
    rules := [];
    var i := 0;
    while i < |args|
      invariant 0 <= i <= |args|
      invariant rules == Checks(args[..i])
    {
      assert args[..i + 1][..i] == args[..i];
      match args[i] {
        case Str(s) =>
          if s == EXISTS {
            rules := rules + [Tree.Leaf(NewFilter(FieldName(i), NotZero, Str("")))];
          } else if s == NOTEXISTS {
            rules := rules + [Tree.Leaf(NewFilter(FieldName(i), IsZero, Str("")))];
          } else if s != ANY {
            rules := rules + [Tree.Leaf(NewFilter(FieldName(i), Equal, args[i]))];
          }
        case _ =>
          rules := rules + [Tree.Leaf(NewFilter(FieldName(i), Equal, args[i]))];
      }
      i := i + 1;
    }
    assert args[..i] == args;
  }

  // ---- Case.match and matcherDefault ---------------------------------------------

  /** A case the group matched: marked as found, with the handler's result or error. */
  function Handled(c: Case, outcome: Result<Value>): Case
  {
    match outcome
    case Ok(v) => c.(matchFound := true, result := v)
    case Err(e) => c.(matchFound := true, err := Some(e))
  }

  /** Case.match on a copy `c`. A failed or matched case is left alone; then the
      checks run in order: no arguments or no values, a count mismatch, a nil handler;
      then the group is evaluated and, when it holds, the handler is called with the
      case's arguments. */
  function MatchCase(env: PatternEnv, values: map<string, Value>, c: Case): Run<Case>
  {
    if c.err.Some? || c.matchFound then Ret(c)
    else if |c.args| == 0 || |values| == 0 then Ret(c.(err := Some(NoValueOrCaseError)))
    else if |c.args| != |values| then Ret(c.(err := Some(InvalidArgumentsError)))
    else if c.handler.None? then Ret(c.(err := Some(InvalidHandler)))
    else
      match Tree.EvalGroup(env.filters, Map(values), CaseGroup(c.args))
      case Panic => Panic
      case Ret(matched) =>
        if matched then Ret(Handled(c, env.call(c.handler.value, c.args))) else Ret(c)
  }

  /** matcherDefault on a copy `c`: unless it already failed or matched, it is found and
      its handler is called with a single nil argument; a nil handler panics. */
  function MatchDefault(env: PatternEnv, c: Case): Run<Case>
  {
    if c.err.Some? || c.matchFound then Ret(c)
    else if c.handler.None? then Panic
    else Ret(Handled(c, env.call(c.handler.value, [Null])))
  }

  /** A recorded default case always decides Result: its handler is called with a single
      nil argument and the case is marked as found, and a nil handler panics. */
  lemma DefaultNeverPasses(env: PatternEnv, values: map<string, Value>, handler: Option<string>, args: seq<Value>)
    ensures handler.None? ==> Run1(env, values, NewCase(handler, true, args)) == Panic
    ensures handler.Some? ==>
      Run1(env, values, NewCase(handler, true, args)) ==
      Ret(Handled(NewCase(handler, true, args), env.call(handler.value, [Null])))
    ensures !Passes(env, values, NewCase(handler, true, args))
  {
  }

  /** What running a case does to it: only `matchFound`, `err` and `result` change, a
      failure or a match is never undone, and the first failing check sets its error. */
  lemma MatchCaseMeaning(env: PatternEnv, values: map<string, Value>, c: Case)
    ensures MatchCase(env, values, c).Ret? ==>
      var d := MatchCase(env, values, c).value;
      d.handler == c.handler && d.args == c.args && d.defaultCase == c.defaultCase &&
      (c.matchFound ==> d.matchFound) && (c.err.Some? ==> d.err == c.err)
    ensures c.err.None? && !c.matchFound ==>
      ((|c.args| == 0 || |values| == 0) ==> MatchCase(env, values, c) == Ret(c.(err := Some(NoValueOrCaseError)))) &&
      (0 < |c.args| && 0 < |values| && |c.args| != |values| ==> MatchCase(env, values, c) == Ret(c.(err := Some(InvalidArgumentsError)))) &&
      (0 < |c.args| == |values| && c.handler.None? ==> MatchCase(env, values, c) == Ret(c.(err := Some(InvalidHandler))))
    ensures c.err.None? && !c.matchFound && MatchCase(env, values, c).Ret? && MatchCase(env, values, c).value.matchFound ==>
      0 < |c.args| == |values| && c.handler.Some? &&
      Tree.EvalGroup(env.filters, Map(values), CaseGroup(c.args)) == Ret(true) &&
      MatchCase(env, values, c) == Ret(Handled(c, env.call(c.handler.value, c.args)))
    ensures MatchCase(env, values, c).Panic? ==> Tree.EvalGroup(env.filters, Map(values), CaseGroup(c.args)).Panic?
  {
  }

  /** Case.match as a method: the checks, the filter-collecting loop and the handler call. */
  method MatchCaseStep(env: PatternEnv, values: map<string, Value>, c: Case) returns (r: Run<Case>)
    ensures r == MatchCase(env, values, c)
  {
    if c.err.Some? || c.matchFound {
      return Ret(c);
    }
    var valueLen := |values|;
    var matchesLen := |c.args|;
    if matchesLen == 0 || valueLen == 0 {
      return Ret(c.(err := Some(NoValueOrCaseError)));
    }
    if matchesLen != valueLen {
      return Ret(c.(err := Some(InvalidArgumentsError)));
    }
    if c.handler.None? {
      return Ret(c.(err := Some(InvalidHandler)));
    }
    var rules := BuildChecks(c.args);
    var response := Tree.EvalGroup(env.filters, Map(values), Tree.FilterGroup(AND, rules, false));
    if response.Panic? {
      return Panic;
    }
    if !response.value {
      return Ret(c);
    }
    var outcome := env.call(c.handler.value, c.args);
    return Ret(Handled(c, outcome));
  }

  /** One case of Result's loop. */
  function Run1(env: PatternEnv, values: map<string, Value>, c: Case): Run<Case>
  {
    if c.defaultCase then MatchDefault(env, c) else MatchCase(env, values, c)
  }

  // ---- the Matcher ---------------------------------------------------------------

  /** A Matcher: the error Match may have set, the value map and the recorded cases. */
  class Matcher {
    var error: Option<string>
    var values: map<string, Value>
    var cases: seq<Case>

    /** Match(values...): with no values the matcher only carries NoValueError; otherwise
        it maps each value to its position's key. */
    constructor Match(vals: seq<Value>)
      ensures |vals| == 0 ==> error == Some(NoValueError) && values == map[]
      ensures |vals| > 0 ==> error.None? && values == ValuesMap(vals)
      ensures cases == []
    {
      if |vals| == 0 {
        error := Some(NoValueError);
        values := map[];
        cases := [];
      } else {
        var mp := FillValues(vals);
        error := None;
        values := mp;
        cases := [];
      }
    }

    /** addCase: records a fresh case at the end, unless the matcher carries an error. */
    method AddCase(handler: Option<string>, defaultCase: bool, args: seq<Value>)
      modifies this
      ensures error == old(error) && values == old(values)
      ensures old(error).Some? ==> cases == old(cases)
      ensures old(error).None? ==> cases == old(cases) + [NewCase(handler, defaultCase, args)]
    {
      if error.Some? {
        return;
      }
      cases := cases + [NewCase(handler, defaultCase, args)];
    }

    /** Case(handler, matches...): a case over the given arguments. */
    method Case(handler: Option<string>, matches: seq<Value>)
      modifies this
      ensures error == old(error) && values == old(values)
      ensures old(error).Some? ==> cases == old(cases)
      ensures old(error).None? ==> cases == old(cases) + [NewCase(handler, false, matches)]
    {
      AddCase(handler, false, matches);
    }

    /** Default(handler): the default case, which takes no arguments. */
    method Default(handler: Option<string>)
      modifies this
      ensures error == old(error) && values == old(values)
      ensures old(error).Some? ==> cases == old(cases)
      ensures old(error).None? ==> cases == old(cases) + [NewCase(handler, true, [])]
    {
      AddCase(handler, true, []);
    }
  }

  // ---- Result --------------------------------------------------------------------

  /** Result over the cases: the first case that, run on its copy, ends with an error
      gives that error, the first that matches gives its result, and none gives
      `(nil, nil)`, here `Ok(Null)`. */
  function ResultOf(env: PatternEnv, values: map<string, Value>, cases: seq<Case>): Run<Result<Value>>
    decreases |cases|
  {
    if |cases| == 0 then Ret(Ok(Null))
    else
      match Run1(env, values, cases[0])
      case Panic => Panic
      case Ret(c) =>
        if c.err.Some? then Ret(Err(c.err.value))
        else if c.matchFound then Ret(Ok(c.result))
        else ResultOf(env, values, cases[1..])
  }

  /** A case that, run, neither fails nor matches. */
  predicate Passes(env: PatternEnv, values: map<string, Value>, c: Case)
  {
    Run1(env, values, c).Ret? && Run1(env, values, c).value.err.None? && !Run1(env, values, c).value.matchFound
  }

  /** What Result reports for the case that decides it. */
  function Report(r: Run<Case>): Run<Result<Value>>
  {
    match r
    case Panic => Panic
    case Ret(c) => if c.err.Some? then Ret(Err(c.err.value)) else Ret(Ok(c.result))
  }

  /** The first case that does not pass decides Result. */
  lemma {:induction false} FirstDecides(env: PatternEnv, values: map<string, Value>, cases: seq<Case>, i: nat)
    requires i < |cases| && !Passes(env, values, cases[i])
    requires forall j :: 0 <= j < i ==> Passes(env, values, cases[j])
    ensures ResultOf(env, values, cases) == Report(Run1(env, values, cases[i]))
    decreases i
  {
    if i > 0 {
      assert Passes(env, values, cases[0]);
      var rest := cases[1..];
      assert forall j :: 0 <= j < i - 1 ==> rest[j] == cases[j + 1];
      FirstDecides(env, values, rest, i - 1);
    }
  }

  /** When every case passes, Result is `(nil, nil)`. */
  lemma {:induction false} NoneDecides(env: PatternEnv, values: map<string, Value>, cases: seq<Case>)
    requires forall j :: 0 <= j < |cases| ==> Passes(env, values, cases[j])
    ensures ResultOf(env, values, cases) == Ret(Ok(Null))
    decreases |cases|
  {
    if |cases| > 0 {
      assert Passes(env, values, cases[0]);
      var rest := cases[1..];
      assert forall j :: 0 <= j < |rest| ==> rest[j] == cases[j + 1];
      NoneDecides(env, values, rest);
    }
  }

  /** Result: a nil matcher gives NoMatcherError; otherwise each recorded case is run on
      a copy, so the matcher itself is left as it was (and its `error` is never read). */
  method Result(env: PatternEnv, m: Matcher?) returns (r: Run<Result<Value>>)
    ensures m == null ==> r == Ret(Err(NoMatcherError))
    ensures m != null ==> r == ResultOf(env, m.values, m.cases)
  {
    if m == null {
      return Ret(Err(NoMatcherError));
    }
    var cases := m.cases;
    var k := 0;
    while k < |cases|
      invariant 0 <= k <= |cases|
      invariant ResultOf(env, m.values, cases) == ResultOf(env, m.values, cases[k..])
    {
      assert cases[k..][1..] == cases[k + 1..];
      var current := cases[k];
      var matched;
      if current.defaultCase {
        matched := MatchDefault(env, current);
      } else {
        matched := MatchCaseStep(env, m.values, current);
      }
      if matched.Panic? {
        return Panic;
      }
      if matched.value.err.Some? {
        return Ret(Err(matched.value.err.value));
      } else if matched.value.matchFound {
        return Ret(Ok(matched.value.result));
      }
      k := k + 1;
    }
    return Ret(Ok(Null));
  }
}
