/** Go's `any` as it flows through the filter engine, and Go's run-time panic. */
module Values {
  import opened Wrappers
  import opened Seqs

  /** A dynamically typed Go value. `Time` is an instant in nanoseconds since the
      Unix epoch; `List` is `[]any`, `StrList` is `[]string`, `Map` is `map[string]any`. */
  datatype Value =
    | Null
    | Int(i: int)
    | Str(s: string)
    | Bool(b: bool)
    | Time(ns: int)
    | List(items: seq<Value>)
    | StrList(strs: seq<string>)
    | Map(entries: map<string, Value>)

  /** The outcome of Go code that may panic at run time. */
  datatype Run<+T> = Ret(value: T) | Panic
  {
    predicate IsFailure() { Panic? }
    function PropagateFailure<U>(): Run<U>
      requires Panic?
    {
      Panic
    }
    function Extract(): T
      requires Ret?
    {
      value
    }
  }

  /** The items a matcher that may panic accepts. */
  function Accepts<T>(m: T -> Run<bool>): T -> bool
  {
    x => m(x) == Ret(true)
  }

  /** The loop of FilterCondition and ApplyGroup, for any matcher `m`: append each item
      `m` accepts, and stop at the first panic. */
  method KeepMatching<T>(data: seq<T>, m: T -> Run<bool>) returns (r: Run<seq<T>>)
    ensures r.Ret? <==> forall i :: 0 <= i < |data| ==> m(data[i]).Ret?
    ensures r.Ret? ==> r.value == Where(data, Accepts(m))
  {
    var result: seq<T> := [];
    for i := 0 to |data|
      invariant result == Where(data[..i], Accepts(m))
      invariant forall k :: 0 <= k < i ==> m(data[k]).Ret?
    {
      WhereAppend(data[..i], data[i], Accepts(m));
      assert data[..i + 1] == data[..i] + [data[i]];
      var matched := m(data[i]);
      if matched.Panic? {
        return Panic;
      }
      if matched.value {
        result := result + [data[i]];
      }
    }
    assert data[..|data|] == data;
    return Ret(result);
  }

  /** Go's `!` on the result of code that may panic. */
  function Not(r: Run<bool>): (n: Run<bool>)
    ensures n.Panic? <==> r.Panic?
    ensures r.Ret? ==> n.value == !r.value
  {
    match r
    case Ret(b) => Ret(!b)
    case Panic => Panic
  }

  const NanosPerSecond: int := 1_000_000_000

  /** Slices and maps cannot be compared with `==` nor used as map keys. */
  predicate Uncomparable(v: Value)
  {
    v.List? || v.StrList? || v.Map?
  }

  predicate SameKind(a: Value, b: Value)
  {
    match (a, b)
    case (Null, Null) => true
    case (Int(_), Int(_)) => true
    case (Str(_), Str(_)) => true
    case (Bool(_), Bool(_)) => true
    case (Time(_), Time(_)) => true
    case (List(_), List(_)) => true
    case (StrList(_), StrList(_)) => true
    case (Map(_), Map(_)) => true
    case _ => false
  }

  /** Go's `==` on two interface values: false when the dynamic types differ, a panic
      when both hold the same uncomparable type. */
  function GoEq(a: Value, b: Value): (r: Run<bool>)
    ensures r.Panic? <==> Uncomparable(a) && SameKind(a, b)
    ensures r.Ret? ==> (r.value <==> a == b)
  {
    if Uncomparable(a) && SameKind(a, b) then Panic else Ret(a == b)
  }

  /** reflect.DeepEqual: structural equality of the modelled values. */
  predicate DeepEqual(a: Value, b: Value)
  {
    a == b
  }

  /** A `[]string` or `[]any` viewed as its elements. */
  function Elements(v: Value): (r: Option<seq<Value>>)
    ensures r.Some? <==> v.List? || v.StrList?
    ensures v.List? ==> r == Some(v.items)
    ensures v.StrList? ==>
      r.Some? && |r.value| == |v.strs| && forall i :: 0 <= i < |v.strs| ==> r.value[i] == Str(v.strs[i])
  {
    match v
    case List(items) => Some(items)
    case StrList(strs) => Some(seq(|strs|, i requires 0 <= i < |strs| => Str(strs[i])))
    case _ => None
  }
}
