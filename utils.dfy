/** The helpers of package utils: three-way comparison with date sniffing, the
    layout choice of ParseTime, and the slice helpers. */
module Utils {
  import opened Wrappers
  import opened Values
  import opened Text
  import opened Seqs

  /** Library behaviour the helpers call but the model does not define. */
  datatype Lib = Lib(
    /** the date-time regular expression of IsValidDateTime */
    isValidDateTime: string -> bool,
    /** time.Parse(layout, value), giving nanoseconds since the epoch */
    timeParse: (string, string) -> Result<int>,
    /** fmt.Sprint of a value that is not a string */
    sprint: Value -> string)

  const InvalidParams: string := "invalid params"

  /** The layout ParseTime selects from the length of a date string, if any. */
  function LayoutFor(n: nat): (r: Option<string>)
    ensures r.Some? <==> n in {8, 10, 13, 16, 19, 20}
    ensures r.Some? ==> |r.value| == if n == 20 then 25 else n
  {
    if n == 8 then Some("20060102")
    else if n == 10 then Some("2006-01-02")
    else if n == 13 then Some("2006-01-02 15")
    else if n == 16 then Some("2006-01-02 15:04")
    else if n == 19 then Some("2006-01-02 15:04:05")
    else if n == 20 then Some("2006-01-02T15:04:05Z07:00")
    else None
  }

  /** The layout rewrites ParseTime applies: a 'T' in the input turns layout spaces
      into 'T', a '/' turns layout dashes into '/'. */
  function AdjustLayout(layout: string, str: string): (r: string)
    ensures |r| == |layout|
    ensures forall i :: 0 <= i < |layout| ==>
      r[i] == if 'T' in str && layout[i] == ' ' then 'T'
        else if '/' in str && layout[i] == '-' then '/'
        else layout[i]
    ensures 'T' in str ==> ' ' !in r
    ensures '/' in str ==> '-' !in r
    ensures 'T' !in str && '/' !in str ==> r == layout
  {
    var l1 := if 'T' in str then ReplaceChar(layout, ' ', 'T') else layout;
    if '/' in str then ReplaceChar(l1, '-', '/') else l1
  }

  /** ParseTime with an optional custom layout, as written: with a custom layout
      the input is never copied into the parsed string, so the empty string is parsed. */
  function ParseTimeAsWritten(lib: Lib, s: Value, layouts: seq<string>): (r: Result<int>)
    ensures |layouts| > 0 && layouts[0] != "" ==> r == lib.timeParse(layouts[0], "")
  {
    if |layouts| > 0 then
      if layouts[0] == "" then Err(InvalidParams) else lib.timeParse(layouts[0], "")
    else ParseTime(lib, s)
  }

  /** ParseTime with a custom layout, parsing the input string as intended. */
  function ParseTimeLayout(lib: Lib, s: Value, layout: string): (r: Result<int>)
    ensures layout == "" ==> r == Err(InvalidParams)
    ensures layout != "" && s.Str? ==> r == lib.timeParse(AdjustLayout(layout, s.s), s.s)
  {
    var str := if s.Str? then s.s else "";
    if layout == "" then Err(InvalidParams) else lib.timeParse(AdjustLayout(layout, str), str)
  }

  /** ParseTime(s) with no custom layout.  */
  function ParseTime(lib: Lib, s: Value): (r: Result<int>)
    ensures s.Time? ==> r == Ok(s.ns)
    ensures s.Int? ==> r == Ok(s.i * NanosPerSecond)
    ensures s.Str? && LayoutFor(|s.s|).Some? ==>
      r == lib.timeParse(AdjustLayout(LayoutFor(|s.s|).value, s.s), s.s)
    ensures !s.Time? && !s.Int? && !(s.Str? && LayoutFor(|s.s|).Some?) ==> r == Err(InvalidParams)
  {
    match s
    case Time(ns) => Ok(ns)
    case Int(i) => Ok(i * NanosPerSecond)
    case Str(str) =>
      (match LayoutFor(|str|)
       case None => Err(InvalidParams)
       case Some(layout) => lib.timeParse(AdjustLayout(layout, str), str))
    case _ => Err(InvalidParams)
  }

  /** The custom-layout path ignores its input: two different strings parse alike. */
  lemma ParseTimeIgnoresInput(lib: Lib, a: string, b: string, layout: string)
    requires layout != ""
    ensures ParseTimeAsWritten(lib, Str(a), [layout]) == ParseTimeAsWritten(lib, Str(b), [layout])
  {
  }

  /** Three-way order of two instants. */
  function Order(a: int, b: int): (r: int)
    ensures r == -1 || r == 0 || r == 1
    ensures r < 0 <==> a < b
    ensures r == 0 <==> a == b
  {
    if a < b then -1 else if a > b then 1 else 0
  }

  /** utils.Compare: -1, 0 or +1, or a panic when an int meets a non-int. */
  function Compare(lib: Lib, a: Value, b: Value): (r: Run<int>)
    ensures r.Ret? ==> -1 <= r.value <= 1
    ensures r.Panic? <==> a.Int? && !b.Int?
  {
    match a
    case Int(ai) => if b.Int? then Ret(Order(ai, b.i)) else Panic
    case Str(sa) =>
      if !lib.isValidDateTime(sa) then
        Ret(StrCompare(sa, if b.Str? then b.s else lib.sprint(b)))
      else
        (match ParseTime(lib, a)
         case Err(_) => Ret(0)
         case Ok(at) =>
           (match b
            case Str(_) =>
              (match ParseTime(lib, b)
               case Err(_) => Ret(0)
               case Ok(bt) => Ret(Order(at, bt)))
            case Time(bt) => Ret(Order(at, bt))
            case _ => Ret(0)))
    case Time(at) =>
      (match ParseTime(lib, b)
       case Err(_) => Ret(0)
       case Ok(bt) => Ret(Order(at, bt)))
    case _ => Ret(0)
  }

  /** On two ints Compare is the sign of their difference. */
  lemma CompareInts(lib: Lib, a: int, b: int)
    ensures Compare(lib, Int(a), Int(b)) == Ret(if a < b then -1 else if a > b then 1 else 0)
  {
  }

  /** A non-date string compares byte-wise with a string, and with fmt.Sprint of anything
      else; swapping two non-date strings negates the result. */
  lemma CompareStrings(lib: Lib, a: string, b: Value)
    requires !lib.isValidDateTime(a)
    ensures Compare(lib, Str(a), b) == Ret(StrCompare(a, if b.Str? then b.s else lib.sprint(b)))
    ensures b.Str? && !lib.isValidDateTime(b.s) ==>
      Compare(lib, Str(a), b).value == -Compare(lib, b, Str(a)).value
  {
    if b.Str? {
      StrCompareAntisymmetric(a, b.s);
    }
  }

  /** A date string compares chronologically when both sides parse, and 0 when either
      side fails to parse. */
  lemma CompareDates(lib: Lib, a: string, b: Value)
    requires lib.isValidDateTime(a)
    ensures ParseTime(lib, Str(a)).Err? ==> Compare(lib, Str(a), b) == Ret(0)
    ensures ParseTime(lib, Str(a)).Ok? && (b.Str? || b.Time?) && ParseTime(lib, b).Ok? ==>
      Compare(lib, Str(a), b) == Ret(Order(ParseTime(lib, Str(a)).value, ParseTime(lib, b).value))
    ensures b.Str? && ParseTime(lib, b).Err? ==> Compare(lib, Str(a), b) == Ret(0)
    ensures !b.Str? && !b.Time? ==> Compare(lib, Str(a), b) == Ret(0)
  {
  }

  /** Compare is not a total order: values of any other kind all compare equal. */
  lemma CompareOtherKinds(lib: Lib, a: Value, b: Value)
    requires !a.Int? && !a.Str? && !a.Time?
    ensures Compare(lib, a, b) == Ret(0)
    ensures Compare(lib, Bool(true), Bool(false)) == Ret(0)
  {
  }

  /** The set of keys of a slice under the serialisation `key`. */
  function KeysOf<T>(a: seq<T>, key: T -> string): (r: set<string>)
    ensures forall i :: 0 <= i < |a| ==> key(a[i]) in r
    ensures forall k :: k in r ==> exists i :: 0 <= i < |a| && key(a[i]) == k
  {
    set i | 0 <= i < |a| :: key(a[i])
  }

  /** Whether an element's key occurs among the keys of `a`. */
  function InKeys<T>(a: seq<T>, key: T -> string): T -> bool
  {
    x => key(x) in KeysOf(a, key)
  }

  /** Whether an element's key is not among the keys of `a`. */
  function NotInKeys<T>(a: seq<T>, key: T -> string): T -> bool
  {
    x => key(x) !in KeysOf(a, key)
  }

  /** The result utils.Intersection promises: the elements of `b`, in order and with
      duplicates, whose key occurs among the keys of `a`. */
  function IntersectionOf<T>(a: seq<T>, b: seq<T>, key: T -> string): seq<T>
  {
    Where(b, InKeys(a, key))
  }

  /** The result utils.Union promises: all of `a`, then the elements of `b` whose key is
      not a key of `a`; duplicates within `b` are kept. */
  function UnionOf<T>(a: seq<T>, b: seq<T>, key: T -> string): seq<T>
  {
    a + Where(b, NotInKeys(a, key))
  }

  /** utils.Intersection: one loop collects the keys of `a`, a second keeps the elements
      of `b` whose key was collected. */
  method Intersection<T>(a: seq<T>, b: seq<T>, key: T -> string) returns (r: seq<T>)
    ensures r == IntersectionOf(a, b, key)
  {
    var keys: set<string> := {};
    for i := 0 to |a|
      invariant keys == KeysOf(a[..i], key)
    {
      assert a[..i + 1] == a[..i] + [a[i]];
      keys := keys + {key(a[i])};
    }
    assert a[..|a|] == a;
    r := [];
    ghost var p := InKeys(a, key);
    for i := 0 to |b|
      invariant r == Where(b[..i], p)
    {
      WhereAppend(b[..i], b[i], p);
      assert b[..i + 1] == b[..i] + [b[i]];
      if key(b[i]) in keys {
        r := r + [b[i]];
      }
    }
    assert b[..|b|] == b;
  }

  /** utils.Union: one loop copies `a` and collects its keys, a second appends the
      elements of `b` whose key was not collected. */
  method Union<T>(a: seq<T>, b: seq<T>, key: T -> string) returns (r: seq<T>)
    ensures r == UnionOf(a, b, key)
  {
    var keys: set<string> := {};
    r := [];
    for i := 0 to |a|
      invariant keys == KeysOf(a[..i], key) && r == a[..i]
    {
      assert a[..i + 1] == a[..i] + [a[i]];
      keys := keys + {key(a[i])};
      r := r + [a[i]];
    }
    assert a[..|a|] == a;
    ghost var p := NotInKeys(a, key);
    ghost var added: seq<T> := [];
    for i := 0 to |b|
      invariant r == a + added && added == Where(b[..i], p)
    {
      WhereAppend(b[..i], b[i], p);
      assert b[..i + 1] == b[..i] + [b[i]];
      if key(b[i]) !in keys {
        r := r + [b[i]];
        added := added + [b[i]];
      }
    }
    assert b[..|b|] == b;
  }

  /** An element is in the intersection iff it is in `b` and its key is among `a`'s;
      an element is in the union iff it is in `a`, or in `b` with a key not among `a`'s. */
  lemma IntersectionUnionMembers<T>(a: seq<T>, b: seq<T>, key: T -> string, x: T)
    ensures x in IntersectionOf(a, b, key) <==> x in b && key(x) in KeysOf(a, key)
    ensures x in UnionOf(a, b, key) <==> x in a || (x in b && key(x) !in KeysOf(a, key))
  {
    WhereMembers(b, InKeys(a, key), x);
    WhereMembers(b, NotInKeys(a, key), x);
  }

  /** The leaves of a nested `[]any`, left to right. */
  function Flatten(s: seq<Value>): (r: seq<Value>)
    ensures forall i :: 0 <= i < |r| ==> !r[i].List?
    decreases s
  {
    if s == [] then []
    else (if s[0].List? then Flatten(s[0].items) else [s[0]]) + Flatten(s[1..])
  }

  lemma {:induction false} FlattenAppend(a: seq<Value>, b: seq<Value>)
    ensures Flatten(a + b) == Flatten(a) + Flatten(b)
    decreases |a|
  {
    if a != [] {
      var ab := a + b;
      assert ab[0] == a[0] && ab[1..] == a[1..] + b;
      var head := if a[0].List? then Flatten(a[0].items) else [a[0]];
      assert Flatten(ab) == head + Flatten(a[1..] + b);
      assert Flatten(a) == head + Flatten(a[1..]);
      FlattenAppend(a[1..], b);
    } else {
      assert a + b == b;
    }
  }

  /** A slice with no nested slice is its own flattening, so flattening is idempotent. */
  lemma {:induction false} FlattenFlat(s: seq<Value>)
    requires forall i :: 0 <= i < |s| ==> !s[i].List?
    ensures Flatten(s) == s
    decreases |s|
  {
    if s != [] {
      FlattenFlat(s[1..]);
    }
  }

  lemma FlattenIdempotent(s: seq<Value>)
    ensures Flatten(Flatten(s)) == Flatten(s)
  {
    FlattenFlat(Flatten(s));
  }

  /** utils.FlattenSlice. */
  method FlattenSlice(slice: seq<Value>) returns (r: seq<Value>)
    ensures r == Flatten(slice)
    decreases slice
  {
    r := [];
    for i := 0 to |slice|
      invariant r == Flatten(slice[..i])
    {
      assert slice[..i + 1] == slice[..i] + [slice[i]];
      FlattenAppend(slice[..i], [slice[i]]);
      match slice[i]
      case List(inner) =>
        var f := FlattenSlice(inner);
        r := r + f;
      case _ =>
        r := r + [slice[i]];
    }
    assert slice[..|slice|] == slice;
  }

  /** Whether any target is a slice or map, so building the target set panics. */
  predicate SomeUnhashable(target: seq<Value>)
  {
    exists i :: 0 <= i < |target| && Uncomparable(target[i])
  }

  /** The element-by-element scan of SearchDeeplyNestedSlice once the target set exists:
      nested slices are searched first, a leaf that is a `[]string` or map panics on lookup. */
  function Scan(s: seq<Value>, target: seq<Value>): (r: Run<bool>)
    decreases s
  {
    if s == [] then Ret(false)
    else match s[0]
      case List(inner) =>
        (match Scan(inner, target)
         case Ret(false) => Scan(s[1..], target)
         case found => found)
      case leaf =>
        if Uncomparable(leaf) then Panic
        else if leaf in target then Ret(true)
        else Scan(s[1..], target)
  }

  /** SearchDeeplyNestedSlice as a function of its inputs. */
  function SearchNested(nested: seq<Value>, target: seq<Value>): Run<bool>
  {
    if SomeUnhashable(target) then Panic else Scan(nested, target)
  }

  /** When the scan completes it says whether some leaf is a target. */
  lemma {:induction false} ScanFindsLeaf(s: seq<Value>, target: seq<Value>)
    requires Scan(s, target).Ret?
    ensures Scan(s, target).value <==> exists x :: x in Flatten(s) && x in target
    decreases s
  {
    if s != [] {
      FlattenAppend([s[0]], s[1..]);
      assert s == [s[0]] + s[1..];
      match s[0]
      case List(inner) =>
        ScanFindsLeaf(inner, target);
        assert Flatten([s[0]]) == Flatten(inner);
        if Scan(inner, target) == Ret(false) {
          ScanFindsLeaf(s[1..], target);
        }
      case leaf =>
        assert Flatten([s[0]]) == [leaf];
        if leaf !in target {
          ScanFindsLeaf(s[1..], target);
        }
    }
  }

  /** The scan panics only on a leaf that is a `[]string` or a map. */
  lemma {:induction false} ScanPanicsOnlyOnUnhashableLeaf(s: seq<Value>, target: seq<Value>)
    requires forall x :: x in Flatten(s) ==> !Uncomparable(x)
    ensures Scan(s, target).Ret?
    decreases s
  {
    if s != [] {
      FlattenAppend([s[0]], s[1..]);
      assert s == [s[0]] + s[1..];
      if s[0].List? {
        assert Flatten([s[0]]) == Flatten(s[0].items);
        ScanPanicsOnlyOnUnhashableLeaf(s[0].items, target);
      } else {
        assert Flatten([s[0]]) == [s[0]];
      }
      ScanPanicsOnlyOnUnhashableLeaf(s[1..], target);
    }
  }

  /** With hashable targets and leaves, the search is true iff some leaf is a target. */
  lemma SearchNestedHashable(nested: seq<Value>, target: seq<Value>)
    requires !SomeUnhashable(target)
    requires forall x :: x in Flatten(nested) ==> !Uncomparable(x)
    ensures SearchNested(nested, target) == Ret(exists x :: x in Flatten(nested) && x in target)
  {
    ScanPanicsOnlyOnUnhashableLeaf(nested, target);
    ScanFindsLeaf(nested, target);
  }

  /** utils.SearchDeeplyNestedSlice. */
  method SearchDeeplyNestedSlice(nested: seq<Value>, target: seq<Value>) returns (r: Run<bool>)
    ensures r == SearchNested(nested, target)
    decreases nested
  {
    for i := 0 to |target|
      invariant forall j :: 0 <= j < i ==> !Uncomparable(target[j])
    {
      if Uncomparable(target[i]) {
        return Panic;
      }
    }
    var i := 0;
    while i < |nested|
      invariant 0 <= i <= |nested|
      invariant Scan(nested, target) == Scan(nested[i..], target)
    {
      var rest := nested[i..];
      assert rest[0] == nested[i] && rest[1..] == nested[i + 1..];
      match nested[i] {
        case List(inner) =>
          var found := SearchDeeplyNestedSlice(inner, target);
          if found != Ret(false) {
            return found;
          }
        case leaf =>
          if Uncomparable(leaf) {
            return Panic;
          }
          if leaf in target {
            return Ret(true);
          }
      }
      i := i + 1;
    }
    return Ret(false);
  }

  /** The int elements of a slice added up (the float64 branch is not modelled). */
  function SumInts(s: seq<Value>): int
  {
    if s == [] then 0 else SumInts(s[..|s| - 1]) + (if s[|s| - 1].Int? then s[|s| - 1].i else 0)
  }

  /** The sum of a concatenation is the sum of the parts; elements that are not ints
      contribute nothing. */
  lemma {:induction false} SumIntsAppend(a: seq<Value>, b: seq<Value>)
    ensures SumInts(a + b) == SumInts(a) + SumInts(b)
    decreases |b|
  {
    if b != [] {
      var ab := a + b;
      assert ab[..|ab| - 1] == a + b[..|b| - 1];
      assert ab[|ab| - 1] == b[|b| - 1];
      SumIntsAppend(a, b[..|b| - 1]);
    } else {
      assert a + b == a;
    }
  }

  lemma {:induction false} SumIntsNoInts(s: seq<Value>)
    requires forall i :: 0 <= i < |s| ==> !s[i].Int?
    ensures SumInts(s) == 0
    decreases |s|
  {
    if s != [] {
      SumIntsNoInts(s[..|s| - 1]);
    }
  }

  /** utils.SumIntSlice. */
  method SumIntSlice(slice: seq<Value>) returns (sum: int)
    ensures sum == SumInts(slice)
  {
    sum := 0;
    for i := 0 to |slice|
      invariant sum == SumInts(slice[..i])
    {
      assert slice[..i + 1][..i] == slice[..i];
      if slice[i].Int? {
        sum := sum + slice[i].i;
      }
    }
    assert slice[..|slice|] == slice;
  }

  /** utils.Contains over the reflected value `sl`: membership by deep equality for slices;
      false for a string (whose bytes equal no modelled value) and for an empty map;
      a panic on a non-empty map (Index) and on anything without a length. */
  function ContainsValue(sl: Value, data: Value): (r: Run<bool>)
    ensures (sl.List? || sl.StrList?) ==> r == Ret(data in Elements(sl).value)
  {
    match sl
    case List(items) => Ret(data in items)
    case StrList(strs) => Ret(data.Str? && data.s in strs)
    case Str(_) => Ret(false)
    case Map(m) => if |m| == 0 then Ret(false) else Panic
    case _ => Panic
  }

  /** utils.Contains for a slice-valued `sl`. */
  method Contains(sl: Value, data: Value) returns (r: Run<bool>)
    ensures r == ContainsValue(sl, data)
  {
    match sl {
      case Str(_) => return Ret(false);
      case Map(m) => return if |m| == 0 then Ret(false) else Panic;
      case List(_) =>
      case StrList(_) =>
      case _ => return Panic;
    }
    var items := Elements(sl).value;
    for i := 0 to |items|
      invariant data !in items[..i]
    {
      if DeepEqual(data, items[i]) {
        return Ret(true);
      }
    }
    assert items[..|items|] == items;
    return Ret(false);
  }
}
