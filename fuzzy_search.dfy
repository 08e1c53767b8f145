/** The search example of examples/cuckoo.go: Levenshtein distance filled into a
    table, a BK tree of terms for fuzzy look-up, an inverted index from tokens to
    document IDs, the tokenizer and the document filter. */
module FuzzySearch {
  import opened Wrappers
  import opened Values
  import opened Text
  import opened Seqs

  // ---- Levenshtein distance -----------------------------------------------------

  function Min(x: int, y: int): int
  {
    if x <= y then x else y
  }

  /** The substitution cost of two characters. */
  function Cost(x: char, y: char): nat
  {
    if x == y then 0 else 1
  }

  /** The Levenshtein distance, by the recurrence on prefixes that the table follows:
      delete the last character of `a`, insert the last of `b`, or substitute. */
  function Levenshtein(a: string, b: string): nat
    decreases |a| + |b|
  {
    if |a| == 0 then |b|
    else if |b| == 0 then |a|
    else
      var n, m := |a| - 1, |b| - 1;
      Min(Levenshtein(a[..n], b) + 1,
          Min(Levenshtein(a, b[..m]) + 1, Levenshtein(a[..n], b[..m]) + Cost(a[n], b[m])))
  }

  /** The value table cell (i, j) is to hold: the distance of the prefixes of length
      i and j. */
  function Cell(a: string, b: string, i: nat, j: nat): nat
    requires i <= |a| && j <= |b|
  {
    Levenshtein(a[..i], b[..j])
  }

  /** The recurrence at table cell (i, j). */
  lemma CellAt(a: string, b: string, i: nat, j: nat)
    requires 0 < i <= |a| && 0 < j <= |b|
    ensures Cell(a, b, i, j) ==
      Min(Cell(a, b, i - 1, j) + 1, Min(Cell(a, b, i, j - 1) + 1, Cell(a, b, i - 1, j - 1) + Cost(a[i - 1], b[j - 1])))
  {
    assert a[..i][..i - 1] == a[..i - 1];
    assert b[..j][..j - 1] == b[..j - 1];
  }

  /** The first column and the first row of the table. */
  lemma CellEdges(a: string, b: string, i: nat, j: nat)
    requires i <= |a| && j <= |b|
    ensures Cell(a, b, i, 0) == i
    ensures Cell(a, b, 0, j) == j
  {
  }

  /** The first `n` cells of row `p` hold their values. */
  ghost predicate RowDone(dp: array2<int>, a: string, b: string, p: nat, n: nat)
    reads dp
    requires dp.Length0 == |a| + 1 && dp.Length1 == |b| + 1 && p <= |a| && n <= |b| + 1
  {
    forall q :: 0 <= q < n ==> dp[p, q] == Cell(a, b, p, q)
  }

  /** One row of the table: cell (i, j) from (i-1, j), (i, j-1) and (i-1, j-1). */
  method FillRow(dp: array2<int>, a: string, b: string, i: nat)
    requires dp.Length0 == |a| + 1 && dp.Length1 == |b| + 1 && 0 < i <= |a|
    requires RowDone(dp, a, b, i - 1, |b| + 1)
    requires dp[i, 0] == i
    modifies dp
    ensures RowDone(dp, a, b, i, |b| + 1)
    ensures forall p, q :: 0 <= p < dp.Length0 && 0 <= q < dp.Length1 && p != i ==> dp[p, q] == old(dp[p, q])
  {
    CellEdges(a, b, i, 0);
    for j := 1 to |b| + 1
      invariant RowDone(dp, a, b, i, j)
      invariant forall p, q :: 0 <= p < dp.Length0 && 0 <= q < dp.Length1 && p != i ==> dp[p, q] == old(dp[p, q])
    {
      var cost := 0;
      if a[i - 1] != b[j - 1] {
        cost := 1;
      }
      CellAt(a, b, i, j);
      assert dp[i - 1, j] == Cell(a, b, i - 1, j) && dp[i - 1, j - 1] == Cell(a, b, i - 1, j - 1);
      dp[i, j] := Min(dp[i - 1, j] + 1, Min(dp[i, j - 1] + 1, dp[i - 1, j - 1] + cost));
    }
  }

  /** EditDistance: the table `dp[i][j]` holds the distance of the prefixes of length
      i and j; an empty side gives the other's length. */
  method EditDistance(a: string, b: string) returns (d: int)
    ensures d == Levenshtein(a, b)
  {
    if |a| == 0 {
      return |b|;
    }
    if |b| == 0 {
      return |a|;
    }
    var dp := new int[|a| + 1, |b| + 1];
    for i := 0 to |a| + 1
      invariant forall p :: 0 <= p < i ==> dp[p, 0] == p
    {
      dp[i, 0] := i;
    }
    for j := 0 to |b| + 1
      invariant forall p :: 0 <= p <= |a| ==> dp[p, 0] == p
      invariant forall q :: 0 <= q < j ==> dp[0, q] == q
    {
      dp[0, j] := j;
    }
    forall q | 0 <= q <= |b|
      ensures dp[0, q] == Cell(a, b, 0, q)
    {
      CellEdges(a, b, 0, q);
    }
    assert RowDone(dp, a, b, 0, |b| + 1);
    for i := 1 to |a| + 1
      invariant RowDone(dp, a, b, i - 1, |b| + 1)
      invariant forall p :: i <= p <= |a| ==> dp[p, 0] == p
    {
      FillRow(dp, a, b, i);
    }
    assert a[..|a|] == a && b[..|b|] == b;
    assert dp[|a|, |b|] == Cell(a, b, |a|, |b|);
    return dp[|a|, |b|];
  }

  /** The distance is at least the difference of the lengths and at most their sum. */
  lemma LengthBounds(a: string, b: string)
    ensures Levenshtein(a, b) >= |a| - |b| && Levenshtein(a, b) >= |b| - |a|
    ensures Levenshtein(a, b) <= |a| + |b|
  {
    LowerBound(a, b);
    UpperBound(a, b);
  }

  lemma {:induction false} LowerBound(a: string, b: string)
    ensures Levenshtein(a, b) >= |a| - |b| && Levenshtein(a, b) >= |b| - |a|
    decreases |a| + |b|
  {
    if |a| > 0 && |b| > 0 {
      var n, m := |a| - 1, |b| - 1;
      var del, ins, sub := Levenshtein(a[..n], b), Levenshtein(a, b[..m]), Levenshtein(a[..n], b[..m]);
      assert Levenshtein(a, b) == Min(del + 1, Min(ins + 1, sub + Cost(a[n], b[m])));
      LowerBound(a[..n], b);
      LowerBound(a, b[..m]);
      LowerBound(a[..n], b[..m]);
    }
  }

  lemma {:induction false} UpperBound(a: string, b: string)
    ensures Levenshtein(a, b) <= |a| + |b|
    decreases |a| + |b|
  {
    if |a| > 0 && |b| > 0 {
      var n := |a| - 1;
      assert Levenshtein(a, b) <= Levenshtein(a[..n], b) + 1;
      UpperBound(a[..n], b);
    }
  }

  /** A string is at distance 0 from itself. */
  lemma {:induction false} SelfZero(a: string)
    ensures Levenshtein(a, a) == 0
    decreases |a|
  {
    if |a| > 0 {
      SelfZero(a[..|a| - 1]);
    }
  }

  /** The distance is 0 exactly for equal strings. */
  lemma {:induction false} ZeroIffEqual(a: string, b: string)
    ensures Levenshtein(a, b) == 0 <==> a == b
    decreases |a| + |b|
  {
    if a == b {
      SelfZero(a);
    } else if |a| > 0 && |b| > 0 && Levenshtein(a, b) == 0 {
      var n, m := |a| - 1, |b| - 1;
      ZeroIffEqual(a[..n], b[..m]);
    }
  }

  /** The distance is symmetric. */
  lemma {:induction false} Symmetric(a: string, b: string)
    ensures Levenshtein(a, b) == Levenshtein(b, a)
    decreases |a| + |b|
  {
    if |a| > 0 && |b| > 0 {
      var n, m := |a| - 1, |b| - 1;
      Symmetric(a[..n], b);
      Symmetric(a, b[..m]);
      Symmetric(a[..n], b[..m]);
    }
  }

  /** The distance obeys the triangle inequality. */
  lemma {:induction false} Triangle(a: string, b: string, c: string)
    ensures Levenshtein(a, c) <= Levenshtein(a, b) + Levenshtein(b, c)
    decreases |a| + |b| + |c|
  {
    if |a| == 0 || |c| == 0 {
      LengthBounds(a, b);
      LengthBounds(b, c);
    } else if |b| == 0 {
      LengthBounds(a, c);
    } else {
      var a', b', c' := a[..|a| - 1], b[..|b| - 1], c[..|c| - 1];
      var x, y, z := a[|a| - 1], b[|b| - 1], c[|c| - 1];
      var ab, bc := Levenshtein(a, b), Levenshtein(b, c);
      if ab == Levenshtein(a', b) + 1 {
        Triangle(a', b, c);
      } else if bc == Levenshtein(b, c') + 1 {
        Triangle(a, b, c');
      } else if ab == Levenshtein(a, b') + 1 {
        if bc == Levenshtein(b', c) + 1 {
          Triangle(a, b', c);
        } else {
          Triangle(a, b', c');
        }
      } else {
        assert ab == Levenshtein(a', b') + Cost(x, y);
        if bc == Levenshtein(b', c) + 1 {
          Triangle(a', b', c);
        } else {
          assert bc == Levenshtein(b', c') + Cost(y, z);
          Triangle(a', b', c');
        }
      }
    }
  }

  // ---- BK tree ------------------------------------------------------------------

  /** A BK tree node: its term and its children, each under the distance of the child's
      term to this node's term. Go keeps the children in a map keyed by distance; here
      they are a list whose keys are kept distinct. */
  datatype BKNode = BKNode(term: string, children: seq<Child>)
  datatype Child = Child(distance: int, node: BKNode)

  function Leaf(term: string): BKNode
  {
    BKNode(term, [])
  }

  /** Where the child under key `d` is, or `|cs|` when there is none. */
  function SlotOf(cs: seq<Child>, d: int): (k: nat)
    ensures k <= |cs|
    ensures k < |cs| ==> cs[k].distance == d
    ensures k == |cs| ==> forall i :: 0 <= i < |cs| ==> cs[i].distance != d
  {
    if |cs| == 0 then 0
    else if cs[0].distance == d then 0
    else 1 + SlotOf(cs[1..], d)
  }

  /** The terms stored in the tree, with repetitions. */
  function Terms(n: BKNode): multiset<string>
    decreases n, 1
  {
    multiset{n.term} + TermsBelow(n, |n.children|)
  }

  /** The terms stored under the first `k` children. */
  function TermsBelow(n: BKNode, k: nat): multiset<string>
    requires k <= |n.children|
    decreases n, 0, k
  {
    if k == 0 then multiset{} else TermsBelow(n, k - 1) + Terms(n.children[k - 1].node)
  }

  /** The children's keys are distinct, as those of a map. */
  predicate DistinctKeys(cs: seq<Child>)
  {
    forall i, j :: 0 <= i < j < |cs| ==> cs[i].distance != cs[j].distance
  }

  /** The BK invariant: every term stored under the child with key `d` is at distance
      `d` from the node's term, at every node. */
  predicate BK(n: BKNode)
    decreases n
  {
    DistinctKeys(n.children) &&
    forall i :: 0 <= i < |n.children| ==> Keyed(n.children[i], n.term) && BK(n.children[i].node)
  }

  /** Every term under child `c` is at distance `c.distance` from `term`. */
  predicate Keyed(c: Child, term: string)
  {
    forall t :: t in Terms(c.node) ==> Levenshtein(t, term) == c.distance
  }

  /** AddTerm below an existing node: descend through the child keyed by the distance
      to each node's term, and add a leaf at the first free key. */
  function Insert(n: BKNode, term: string): BKNode
    decreases n
  {
    var d := Levenshtein(term, n.term);
    var k := SlotOf(n.children, d);
    if k == |n.children| then n.(children := n.children + [Child(d, Leaf(term))])
    else n.(children := n.children[k := Child(d, Insert(n.children[k].node, term))])
  }

  /** A term is stored under the first `k` children iff it is stored under one of them. */
  lemma {:induction false} TermsBelowMember(n: BKNode, k: nat, t: string)
    requires k <= |n.children|
    ensures t in TermsBelow(n, k) <==> exists i :: 0 <= i < k && t in Terms(n.children[i].node)
    decreases k
  {
    if k > 0 {
      TermsBelowMember(n, k - 1, t);
    }
  }

  /** Only the first `k` children count for TermsBelow(n, k). */
  lemma {:induction false} TermsBelowPrefix(n: BKNode, m: BKNode, k: nat)
    requires k <= |n.children| && k <= |m.children|
    requires forall i :: 0 <= i < k ==> n.children[i] == m.children[i]
    ensures TermsBelow(n, k) == TermsBelow(m, k)
    decreases k
  {
    if k > 0 {
      TermsBelowPrefix(n, m, k - 1);
    }
  }

  /** Replacing child `k` by one holding one more term `t` adds `t` to TermsBelow past
      index k. */
  lemma {:induction false} TermsBelowReplace(n: BKNode, k: nat, c: Child, t: string, j: nat)
    requires k < j <= |n.children|
    requires Terms(c.node) == Terms(n.children[k].node) + multiset{t}
    ensures TermsBelow(n.(children := n.children[k := c]), j) == TermsBelow(n, j) + multiset{t}
    decreases j
  {
    var m := n.(children := n.children[k := c]);
    if j - 1 == k {
      TermsBelowPrefix(n, m, k);
    } else {
      TermsBelowReplace(n, k, c, t, j - 1);
      assert m.children[j - 1] == n.children[j - 1];
    }
  }

  /** AddTerm stores exactly one more copy of the term. */
  lemma {:induction false} InsertTerms(n: BKNode, term: string)
    ensures Terms(Insert(n, term)) == Terms(n) + multiset{term}
    decreases n
  {
    var d := Levenshtein(term, n.term);
    var k := SlotOf(n.children, d);
    var m := Insert(n, term);
    var cs := n.children;
    if k == |cs| {
      TermsBelowPrefix(n, m, |cs|);
      assert Terms(Leaf(term)) == multiset{term};
    } else {
      InsertTerms(cs[k].node, term);
      TermsBelowReplace(n, k, m.children[k], term, |cs|);
    }
  }

  /** AddTerm keeps the BK invariant. */
  lemma {:induction false} InsertKeepsBK(n: BKNode, term: string)
    requires BK(n)
    ensures BK(Insert(n, term))
    decreases n
  {
    var d := Levenshtein(term, n.term);
    var k := SlotOf(n.children, d);
    var m := Insert(n, term);
    var cs := n.children;
    if k == |cs| {
      assert Terms(Leaf(term)) == multiset{term};
      AppendKeepsBK(n, Child(d, Leaf(term)));
    } else {
      var c := Child(d, Insert(cs[k].node, term));
      InsertTerms(cs[k].node, term);
      InsertKeepsBK(cs[k].node, term);
      assert Keyed(c, n.term) by {
        assert Keyed(cs[k], n.term);
      }
      ReplaceKeepsBK(n, k, c);
    }
  }

  /** A new child under a fresh key, keyed and BK itself, keeps the node BK. */
  lemma AppendKeepsBK(n: BKNode, c: Child)
    requires BK(n) && Keyed(c, n.term) && BK(c.node)
    requires forall i :: 0 <= i < |n.children| ==> n.children[i].distance != c.distance
    ensures BK(n.(children := n.children + [c]))
  {
    var m := n.(children := n.children + [c]);
    assert forall i :: 0 <= i < |n.children| ==> m.children[i] == n.children[i];
  }

  /** Replacing a child by one under the same key, keyed and BK itself, keeps the
      node BK. */
  lemma ReplaceKeepsBK(n: BKNode, k: nat, c: Child)
    requires BK(n) && k < |n.children| && c.distance == n.children[k].distance
    requires Keyed(c, n.term) && BK(c.node)
    ensures BK(n.(children := n.children[k := c]))
  {
    var m := n.(children := n.children[k := c]);
    assert forall i :: 0 <= i < |n.children| && i != k ==> m.children[i] == n.children[i];
  }

  /** SearchFuzzy from node `n`: the node's term when it is within `maxDistance` of the
      query, then the results of every child whose key lies in the window
      `[distance - maxDistance, distance + maxDistance]`. */
  function Search(n: BKNode, query: string, maxDistance: int): seq<string>
    decreases n, 1
  {
    (if Levenshtein(n.term, query) <= maxDistance then [n.term] else []) +
    SearchBelow(n, query, maxDistance, Levenshtein(n.term, query), |n.children|)
  }

  /** The results from the first `k` children of `n`, whose term is at `distance` from
      the query. */
  function SearchBelow(n: BKNode, query: string, maxDistance: int, distance: int, k: nat): seq<string>
    requires k <= |n.children|
    decreases n, 0, k
  {
    if k == 0 then []
    else
      var c := n.children[k - 1];
      SearchBelow(n, query, maxDistance, distance, k - 1) +
      (if distance - maxDistance <= c.distance <= distance + maxDistance then Search(c.node, query, maxDistance) else [])
  }

  /** Every result is a stored term within `maxDistance` of the query. */
  lemma {:induction false} SearchSound(n: BKNode, query: string, maxDistance: int, t: string)
    requires t in Search(n, query, maxDistance)
    ensures t in Terms(n) && Levenshtein(t, query) <= maxDistance
    decreases n, 1
  {
    if t !in (if Levenshtein(n.term, query) <= maxDistance then [n.term] else []) {
      SearchBelowSound(n, query, maxDistance, Levenshtein(n.term, query), |n.children|, t);
    }
  }

  lemma {:induction false} SearchBelowSound(n: BKNode, query: string, maxDistance: int, distance: int, k: nat, t: string)
    requires k <= |n.children| && t in SearchBelow(n, query, maxDistance, distance, k)
    ensures t in TermsBelow(n, k) && Levenshtein(t, query) <= maxDistance
    decreases n, 0, k
  {
    var c := n.children[k - 1];
    if t in SearchBelow(n, query, maxDistance, distance, k - 1) {
      SearchBelowSound(n, query, maxDistance, distance, k - 1, t);
    } else {
      SearchSound(c.node, query, maxDistance, t);
    }
  }

  /** Under the BK invariant every stored term within `maxDistance` of the query is
      found: the triangle inequality puts its key inside every window on its path. */
  lemma {:induction false} SearchComplete(n: BKNode, query: string, maxDistance: int, t: string)
    requires BK(n) && t in Terms(n) && Levenshtein(t, query) <= maxDistance
    ensures t in Search(n, query, maxDistance)
    decreases n
  {
    if t != n.term {
      TermsBelowMember(n, |n.children|, t);
      var i :| 0 <= i < |n.children| && t in Terms(n.children[i].node);
      var c := n.children[i];
      assert Keyed(c, n.term);
      Window(t, n.term, query, maxDistance);
      SearchComplete(c.node, query, maxDistance, t);
      SearchBelowHas(n, query, maxDistance, Levenshtein(n.term, query), i, |n.children|, t);
    }
  }

  /** A term within `maxDistance` of the query has its distance to any other term
      inside that term's search window. */
  lemma Window(t: string, term: string, query: string, maxDistance: int)
    requires Levenshtein(t, query) <= maxDistance
    ensures Levenshtein(term, query) - maxDistance <= Levenshtein(t, term) <= Levenshtein(term, query) + maxDistance
  {
    Symmetric(t, term);
    Symmetric(query, term);
    Triangle(term, t, query);
    Triangle(t, query, term);
  }

  /** A result of a child in the window is a result of SearchBelow past that child. */
  lemma {:induction false} SearchBelowHas(n: BKNode, query: string, maxDistance: int, distance: int, i: nat, k: nat, t: string)
    requires i < k <= |n.children|
    requires distance - maxDistance <= n.children[i].distance <= distance + maxDistance
    requires t in Search(n.children[i].node, query, maxDistance)
    ensures t in SearchBelow(n, query, maxDistance, distance, k)
    decreases k
  {
    if i < k - 1 {
      SearchBelowHas(n, query, maxDistance, distance, i, k - 1, t);
    }
  }

  /** AddTerm and SearchFuzzy on the node level, as the methods run them. */
  method InsertTerm(n: BKNode, term: string) returns (r: BKNode)
    ensures r == Insert(n, term)
    decreases n
  {
    var distance := EditDistance(term, n.term);
    var k := SlotOf(n.children, distance);
    if k == |n.children| {
      return n.(children := n.children + [Child(distance, Leaf(term))]);
    }
    var child := InsertTerm(n.children[k].node, term);
    return n.(children := n.children[k := Child(distance, child)]);
  }

  method SearchNode(n: BKNode, query: string, maxDistance: int) returns (results: seq<string>)
    ensures results == Search(n, query, maxDistance)
    decreases n, 1
  {
    var distance := EditDistance(n.term, query);
    results := [];
    if distance <= maxDistance {
      results := results + [n.term];
    }
    ghost var head := results;
    var k := 0;
    while k < |n.children|
      invariant 0 <= k <= |n.children|
      invariant results == head + SearchBelow(n, query, maxDistance, distance, k)
    {
      var c := n.children[k];
      var sub := [];
      if c.distance >= distance - maxDistance && c.distance <= distance + maxDistance {
        sub := SearchNode(c.node, query, maxDistance);
      }
      SearchBelowStep(n, query, maxDistance, distance, k, head, results, sub);
      results := results + sub;
      k := k + 1;
    }
  }

  /** One more child's results extend SearchBelow by one step. */
  lemma SearchBelowStep(n: BKNode, query: string, maxDistance: int, distance: int, k: nat,
                        head: seq<string>, results: seq<string>, sub: seq<string>)
    requires k < |n.children| && results == head + SearchBelow(n, query, maxDistance, distance, k)
    requires var c := n.children[k];
      sub == if distance - maxDistance <= c.distance <= distance + maxDistance then Search(c.node, query, maxDistance) else []
    ensures results + sub == head + SearchBelow(n, query, maxDistance, distance, k + 1)
  {
  }

  /** The tree itself: a possibly empty root. */
  class BKTree {
    var root: Option<BKNode>

    /** NewBKTree */
    constructor ()
      ensures root.None?
    {
      root := None;
    }

    /** AddTerm: the first term becomes the root; later terms are inserted below it. */
    method AddTerm(term: string)
      modifies this
      ensures old(root).None? ==> root == Some(Leaf(term))
      ensures old(root).Some? ==> root == Some(Insert(old(root).value, term))
    {
      if root.None? {
        root := Some(Leaf(term));
        return;
      }
      var r := InsertTerm(root.value, term);
      root := Some(r);
    }

    /** SearchFuzzy: nothing on an empty tree. */
    method SearchFuzzy(query: string, maxDistance: int) returns (results: seq<string>)
      ensures root.None? ==> results == []
      ensures root.Some? ==> results == Search(root.value, query, maxDistance)
    {
      if root.None? {
        return [];
      }
      results := SearchNode(root.value, query, maxDistance);
    }
  }

  /** The root a tree reaches by AddTerm of `terms` in order, from an empty tree. */
  function Built(terms: seq<string>): Option<BKNode>
    decreases |terms|
  {
    if |terms| == 0 then None
    else
      var t := terms[|terms| - 1];
      match Built(terms[..|terms| - 1])
      case None => Some(Leaf(t))
      case Some(r) => Some(Insert(r, t))
  }

  /** A tree built by AddTerm holds exactly the added terms and satisfies the BK
      invariant, so SearchFuzzy returns exactly the added terms within `maxDistance`
      of the query. */
  lemma BuiltSearch(terms: seq<string>, query: string, maxDistance: int)
    requires |terms| > 0
    ensures Built(terms).Some? && BK(Built(terms).value) && Terms(Built(terms).value) == multiset(terms)
    ensures forall t :: t in Search(Built(terms).value, query, maxDistance) <==> t in terms && Levenshtein(t, query) <= maxDistance
  {
    BuiltShape(terms);
    var r := Built(terms).value;
    forall u
      ensures u in Search(r, query, maxDistance) <==> u in terms && Levenshtein(u, query) <= maxDistance
    {
      if u in Search(r, query, maxDistance) {
        SearchSound(r, query, maxDistance, u);
      }
      if u in terms && Levenshtein(u, query) <= maxDistance {
        assert u in multiset(terms);
        SearchComplete(r, query, maxDistance, u);
      }
    }
  }

  /** Building from a non-empty list gives a well-formed tree holding exactly the
      terms added. */
  lemma {:induction false} BuiltShape(terms: seq<string>)
    requires |terms| > 0
    ensures Built(terms).Some? && BK(Built(terms).value) && Terms(Built(terms).value) == multiset(terms)
    decreases |terms|
  {
    var init, t := terms[..|terms| - 1], terms[|terms| - 1];
    assert terms == init + [t];
    if |init| == 0 {
      assert Terms(Leaf(t)) == multiset{t};
    } else {
      BuiltShape(init);
      InsertTerms(Built(init).value, t);
      InsertKeepsBK(Built(init).value, t);
    }
  }

  // ---- Documents and the inverted index -------------------------------------------

  datatype Document = Document(id: int, data: map<string, string>)

  /** Tokenize: the white-space separated words of the lower-cased text. */
  function Tokenize(data: string): seq<string>
  {
    Fields(ToLower(data))
  }

  /** A token: non-empty, with no white space and no upper-case letter. */
  predicate IsToken(t: string)
  {
    t != [] && forall j :: 0 <= j < |t| ==> !IsSpace(t[j]) && !('A' <= t[j] <= 'Z')
  }

  /** Every character of a field occurs in the text it was split from. */
  lemma {:induction false} FieldsFrom(s: string)
    ensures forall i, j :: 0 <= i < |Fields(s)| && 0 <= j < |Fields(s)[i]| ==> Fields(s)[i][j] in s
    decreases |s|
  {
    if s != [] {
      if IsSpace(s[0]) {
        FieldsFrom(s[1..]);
        assert forall c :: c in s[1..] ==> c in s;
      } else {
        var k := WordEnd(s);
        FieldsFrom(s[k..]);
        assert forall c :: c in s[k..] ==> c in s;
        assert forall c :: c in s[..k] ==> c in s;
      }
    }
  }

  lemma TokenizeMeaning(data: string)
    ensures forall i :: 0 <= i < |Tokenize(data)| ==> IsToken(Tokenize(data)[i])
  {
    FieldsFrom(ToLower(data));
  }

  type Index = map<string, map<string, seq<int>>>

  /** Index[token][field], with a missing entry read as the empty list. */
  function Postings(index: Index, token: string, field: string): seq<int>
  {
    if token in index && field in index[token] then index[token][field] else []
  }

  function Repeat(id: int, n: nat): (r: seq<int>)
    ensures |r| == n && forall i :: 0 <= i < n ==> r[i] == id
  {
    if n == 0 then [] else Repeat(id, n - 1) + [id]
  }

  /** How often `token` occurs among the tokens of `field`. */
  function Occurrences(tokens: map<string, seq<string>>, field: string, token: string): nat
  {
    if field in tokens then multiset(tokens[field])[token] else 0
  }

  predicate Mentions(tokens: map<string, seq<string>>, token: string)
  {
    exists f :: f in tokens && token in tokens[f]
  }

  /** `index` is `before` with `id` appended to Index[token][field] once for every
      occurrence of `token` among `tokens[field]`, and with exactly the token and
      field keys that this creates. */
  ghost predicate Indexed(before: Index, index: Index, id: int, tokens: map<string, seq<string>>)
  {
    AppendedIds(before, index, id, tokens) && TokenKeys(before, index, tokens) && FieldKeys(before, index, tokens)
  }

  /** Each list gained the ID once per occurrence of its token in its field. */
  ghost predicate AppendedIds(before: Index, index: Index, id: int, tokens: map<string, seq<string>>)
  {
    forall t, f :: Postings(index, t, f) == Postings(before, t, f) + Repeat(id, Occurrences(tokens, f, t))
  }

  /** The tokens with an entry: the old ones and those of the document. */
  ghost predicate TokenKeys(before: Index, index: Index, tokens: map<string, seq<string>>)
  {
    forall t :: t in index <==> t in before || Mentions(tokens, t)
  }

  /** The fields under each token: the old ones and those the token occurs in. */
  ghost predicate FieldKeys(before: Index, index: Index, tokens: map<string, seq<string>>)
  {
    forall t, f :: t in index ==> (f in index[t] <==> (t in before && f in before[t]) || (f in tokens && t in tokens[f]))
  }

  /** The tokens of every field of a document. */
  function TokensOf(doc: Document): map<string, seq<string>>
  {
    map f | f in doc.data :: Tokenize(doc.data[f])
  }

  /** The index after one occurrence of `token` in `field`: an entry for the token
      is created when missing, and the ID is appended to its field's list (a missing
      list reads as empty). */
  function AddToken(index: Index, token: string, field: string, id: int): Index
  {
    var fields := if token in index then index[token] else map[];
    index[token := fields[field := Postings(index, token, field) + [id]]]
  }

  lemma IndexedNewField(before: Index, index: Index, id: int, tokens: map<string, seq<string>>, field: string)
    requires field !in tokens && Indexed(before, index, id, tokens)
    ensures Indexed(before, index, id, tokens[field := []])
  {
    var g := tokens[field := []];
    assert forall t, f :: Occurrences(g, f, t) == Occurrences(tokens, f, t);
    forall t
      ensures Mentions(g, t) <==> Mentions(tokens, t)
    {
      if Mentions(g, t) {
        var f :| f in g && t in g[f];
        assert f in tokens && t in tokens[f];
      }
      if Mentions(tokens, t) {
        var f :| f in tokens && t in tokens[f];
        assert f in g && t in g[f];
      }
    }
    assert forall t, f :: (f in g && t in g[f]) <==> (f in tokens && t in tokens[f]);
  }

  /** One more token of `field` appends the ID once to that token's list under the
      field and to no other list. */
  lemma IndexedStep(before: Index, index: Index, id: int, tokens: map<string, seq<string>>,
                    field: string, toks: seq<string>, j: nat)
    requires j < |toks| && Indexed(before, index, id, tokens[field := toks[..j]])
    ensures Indexed(before, AddToken(index, toks[j], field, id), id, tokens[field := toks[..j + 1]])
  {
    assert toks[..j + 1] == toks[..j] + [toks[j]];
    StepIds(before, index, id, tokens, field, toks, j);
    StepTokens(before, index, id, tokens, field, toks, j);
    StepFields(before, index, id, tokens, field, toks, j);
  }

  /** What AddToken changes in the postings: one more ID in one list. */
  lemma AddTokenPostings(index: Index, token: string, field: string, id: int, t: string, f: string)
    ensures Postings(AddToken(index, token, field, id), t, f) == Postings(index, t, f) + (if t == token && f == field then [id] else [])
  {
  }

  /** The keys AddToken leaves: the old tokens and fields, and the one token and field
      it appended to, creating them when they were missing. */
  lemma AddTokenEffect(index: Index, token: string, field: string, id: int)
    ensures forall t :: t in AddToken(index, token, field, id) <==> t in index || t == token
    ensures forall t, f :: t in AddToken(index, token, field, id) ==>
      (f in AddToken(index, token, field, id)[t] <==> (t in index && f in index[t]) || (t == token && f == field))
  {
  }

  lemma StepIds(before: Index, index: Index, id: int, tokens: map<string, seq<string>>,
                field: string, toks: seq<string>, j: nat)
    requires j < |toks| && toks[..j + 1] == toks[..j] + [toks[j]]
    requires AppendedIds(before, index, id, tokens[field := toks[..j]])
    ensures AppendedIds(before, AddToken(index, toks[j], field, id), id, tokens[field := toks[..j + 1]])
  {
    forall t, f
      ensures Postings(AddToken(index, toks[j], field, id), t, f) ==
        Postings(before, t, f) + Repeat(id, Occurrences(tokens[field := toks[..j + 1]], f, t))
    {
      StepIdsAt(before, index, id, tokens, field, toks, j, t, f);
    }
  }

  lemma StepIdsAt(before: Index, index: Index, id: int, tokens: map<string, seq<string>>,
                  field: string, toks: seq<string>, j: nat, t: string, f: string)
    requires j < |toks| && toks[..j + 1] == toks[..j] + [toks[j]]
    requires Postings(index, t, f) == Postings(before, t, f) + Repeat(id, Occurrences(tokens[field := toks[..j]], f, t))
    ensures Postings(AddToken(index, toks[j], field, id), t, f) ==
      Postings(before, t, f) + Repeat(id, Occurrences(tokens[field := toks[..j + 1]], f, t))
  {
    var hit := t == toks[j] && f == field;
    var n := Occurrences(tokens[field := toks[..j]], f, t);
    var was, now := Postings(before, t, f), Postings(AddToken(index, toks[j], field, id), t, f);
    assert now == (was + Repeat(id, n)) + (if hit then [id] else []) by {
      AddTokenPostings(index, toks[j], field, id, t, f);
    }
    assert Occurrences(tokens[field := toks[..j + 1]], f, t) == n + (if hit then 1 else 0) by {
      OccurrencesStep(tokens, field, toks, j, t, f);
    }
    RepeatAppend(was, id, n, hit, now);
  }

  /** Appending `id` once more to postings that end with `n` copies of it. */
  lemma RepeatAppend(was: seq<int>, id: int, n: nat, hit: bool, now: seq<int>)
    requires now == (was + Repeat(id, n)) + (if hit then [id] else [])
    ensures now == was + Repeat(id, n + (if hit then 1 else 0))
  {
    if hit {
      assert Repeat(id, n + 1) == Repeat(id, n) + [id];
      SeqAssoc(was, Repeat(id, n), [id]);
    } else {
      assert (was + Repeat(id, n)) + [] == was + Repeat(id, n);
    }
  }

  lemma OccurrencesStep(tokens: map<string, seq<string>>, field: string, toks: seq<string>, j: nat, t: string, f: string)
    requires j < |toks| && toks[..j + 1] == toks[..j] + [toks[j]]
    ensures Occurrences(tokens[field := toks[..j + 1]], f, t) ==
      Occurrences(tokens[field := toks[..j]], f, t) + (if t == toks[j] && f == field then 1 else 0)
  {
  }

  lemma StepTokens(before: Index, index: Index, id: int, tokens: map<string, seq<string>>,
                   field: string, toks: seq<string>, j: nat)
    requires j < |toks| && toks[..j + 1] == toks[..j] + [toks[j]]
    requires TokenKeys(before, index, tokens[field := toks[..j]])
    ensures TokenKeys(before, AddToken(index, toks[j], field, id), tokens[field := toks[..j + 1]])
  {
    var g, h := tokens[field := toks[..j]], tokens[field := toks[..j + 1]];
    AddTokenEffect(index, toks[j], field, id);
    forall t
      ensures Mentions(h, t) <==> Mentions(g, t) || t == toks[j]
    {
      if Mentions(h, t) {
        var f :| f in h && t in h[f];
        if f != field {
          assert f in g && t in g[f];
        } else if t != toks[j] {
          assert field in g && t in g[field];
        }
      }
      if Mentions(g, t) {
        var f :| f in g && t in g[f];
        assert f in h && t in h[f];
      }
      if t == toks[j] {
        assert field in h && t in h[field];
      }
    }
  }

  lemma StepFields(before: Index, index: Index, id: int, tokens: map<string, seq<string>>,
                   field: string, toks: seq<string>, j: nat)
    requires j < |toks| && toks[..j + 1] == toks[..j] + [toks[j]]
    requires TokenKeys(before, index, tokens[field := toks[..j]])
    requires FieldKeys(before, index, tokens[field := toks[..j]])
    ensures FieldKeys(before, AddToken(index, toks[j], field, id), tokens[field := toks[..j + 1]])
  {
    var g, h := tokens[field := toks[..j]], tokens[field := toks[..j + 1]];
    var next := AddToken(index, toks[j], field, id);
    AddTokenEffect(index, toks[j], field, id);
    forall t, f | t in next
      ensures f in next[t] <==> (t in before && f in before[t]) || (f in h && t in h[f])
    {
      assert (f in h && t in h[f]) <==> (f in g && t in g[f]) || (f == field && t == toks[j]);
      if t in index {
        assert f in index[t] <==> (t in before && f in before[t]) || (f in g && t in g[f]);
      }
    }
  }

  /** Indexed pins the index down: the order in which the fields are visited does not
      matter. */
  lemma IndexedUnique(before: Index, x: Index, y: Index, id: int, tokens: map<string, seq<string>>)
    requires Indexed(before, x, id, tokens) && Indexed(before, y, id, tokens)
    ensures x == y
  {
    assert x.Keys == y.Keys;
    forall t | t in x
      ensures x[t] == y[t]
    {
      forall f
        ensures f in x[t] <==> f in y[t]
      {
        assert f in x[t] <==> (t in before && f in before[t]) || (f in tokens && t in tokens[f]);
        assert f in y[t] <==> (t in before && f in before[t]) || (f in tokens && t in tokens[f]);
      }
      forall f | f in x[t]
        ensures x[t][f] == y[t][f]
      {
        assert Postings(x, t, f) == Postings(y, t, f);
      }
    }
  }

  /** Every ID in the lists is an ID that was there before or the added one. */
  lemma IndexedIds(before: Index, index: Index, id: int, tokens: map<string, seq<string>>, t: string, f: string, x: int)
    requires Indexed(before, index, id, tokens) && x in Postings(index, t, f)
    ensures x in Postings(before, t, f) || x == id
  {
    assert Postings(index, t, f) == Postings(before, t, f) + Repeat(id, Occurrences(tokens, f, t));
  }

  /** Search over the index: is `f` among the allowed fields (none given allows all)? */
  predicate Allowed(fields: Option<seq<string>>, f: string)
  {
    fields.None? || f in fields.value
  }

  /** Some query token lists `id` under some allowed field. */
  ghost predicate Matched(index: Index, queryTokens: seq<string>, fields: Option<seq<string>>, id: int)
  {
    exists i, f :: 0 <= i < |queryTokens| && Allowed(fields, f) && id in Postings(index, queryTokens[i], f)
  }

  ghost predicate TokenMatched(index: Index, token: string, fields: Option<seq<string>>, id: int)
  {
    exists f :: Allowed(fields, f) && id in Postings(index, token, f)
  }

  lemma MatchedStep(index: Index, queryTokens: seq<string>, fields: Option<seq<string>>, i: nat, id: int)
    requires i < |queryTokens|
    ensures Matched(index, queryTokens[..i + 1], fields, id) <==>
            Matched(index, queryTokens[..i], fields, id) || TokenMatched(index, queryTokens[i], fields, id)
  {
    var q, p := queryTokens[..i + 1], queryTokens[..i];
    if Matched(index, q, fields, id) {
      var k, f :| 0 <= k < |q| && Allowed(fields, f) && id in Postings(index, q[k], f);
      if k < i {
        assert p[k] == q[k];
      }
    }
    if Matched(index, p, fields, id) {
      var k, f :| 0 <= k < |p| && Allowed(fields, f) && id in Postings(index, p[k], f);
      assert q[k] == p[k];
    }
    if TokenMatched(index, queryTokens[i], fields, id) {
      var f :| Allowed(fields, f) && id in Postings(index, queryTokens[i], f);
      assert q[i] == queryTokens[i];
    }
  }

  /** A document just added is found by searching all fields for any of its tokens. */
  lemma AddedIsFound(before: Index, index: Index, doc: Document, field: string, token: string)
    requires Indexed(before, index, doc.id, TokensOf(doc))
    requires field in doc.data && token in Tokenize(doc.data[field])
    ensures Matched(index, [token], None, doc.id)
  {
    var tokens := TokensOf(doc);
    var n := Occurrences(tokens, field, token);
    assert n > 0;
    var ids := Postings(index, token, field);
    assert ids == Postings(before, token, field) + Repeat(doc.id, n);
    assert ids[|Postings(before, token, field)|] == doc.id;
    assert [token][0] == token;
    assert 0 <= 0 < |[token]| && Allowed(None, field) && doc.id in Postings(index, [token][0], field);
  }

  predicate Distinct<T(==)>(ids: seq<T>)
  {
    forall i, j :: 0 <= i < j < |ids| ==> ids[i] != ids[j]
  }

  /** results[docID] = true for every ID of a list. */
  method MarkAll(results: set<int>, ids: seq<int>) returns (marked: set<int>)
    ensures forall x :: x in marked <==> x in results || x in ids
  {
    marked := results;
    var k := 0;
    while k < |ids|
      invariant 0 <= k <= |ids|
      invariant forall x :: x in marked <==> x in results || x in ids[..k]
    {
      assert ids[..k + 1] == ids[..k] + [ids[k]];
      marked := marked + {ids[k]};
      k := k + 1;
    }
    assert ids[..k] == ids;
  }

  /** The keys of a result set as a list without repetitions, in no particular order. */
  method Keys<T>(results: set<T>) returns (ids: seq<T>)
    ensures Distinct(ids) && forall x :: x in ids <==> x in results
  {
    ids := [];
    var rest := results;
    while rest != {}
      invariant rest <= results && Distinct(ids)
      invariant forall x :: x in ids <==> x in results && x !in rest
      decreases rest
    {
      var x :| x in rest;
      ids := ids + [x];
      rest := rest - {x};
    }
  }

  class InvertedIndex {
    var index: Index
    var docs: map<int, Document>

    /** NewInvertedIndex */
    constructor ()
      ensures index == map[] && docs == map[]
    {
      index := map[];
      docs := map[];
    }

    /** AddDocument: store the document under its ID and index every token of every
        field, in whichever order the fields come. */
    method AddDocument(doc: Document)
      modifies this
      ensures docs == old(docs)[doc.id := doc]
      ensures Indexed(old(index), index, doc.id, TokensOf(doc))
    {
      docs := docs[doc.id := doc];
      ghost var before := index;
      ghost var done: map<string, seq<string>> := map[];
      var remaining := doc.data.Keys;
      while remaining != {}
        invariant remaining <= doc.data.Keys && done.Keys == doc.data.Keys - remaining
        invariant forall f :: f in done ==> done[f] == Tokenize(doc.data[f])
        invariant Indexed(before, index, doc.id, done)
        invariant docs == old(docs)[doc.id := doc]
        decreases remaining
      {
        var field :| field in remaining;
        var tokens := Tokenize(doc.data[field]);
        IndexedNewField(before, index, doc.id, done, field);
        assert tokens[..0] == [];
        var j := 0;
        while j < |tokens|
          invariant 0 <= j <= |tokens|
          invariant Indexed(before, index, doc.id, done[field := tokens[..j]])
          invariant docs == old(docs)[doc.id := doc]
        {
          IndexedStep(before, index, doc.id, done, field, tokens, j);
          index := AddToken(index, tokens[j], field, doc.id);
          j := j + 1;
        }
        assert tokens[..j] == tokens;
        done := done[field := tokens];
        remaining := remaining - {field};
      }
      assert done == TokensOf(doc);
    }

    /** SearchExact: the IDs listed under any query token in an allowed field, each
        once. */
    method SearchExact(queryTokens: seq<string>, fields: Option<seq<string>>) returns (resultIDs: seq<int>)
      ensures Distinct(resultIDs)
      ensures forall id :: id in resultIDs <==> Matched(index, queryTokens, fields, id)
    {
      var results: set<int> := {};
      var i := 0;
      while i < |queryTokens|
        invariant 0 <= i <= |queryTokens|
        invariant forall id :: id in results <==> Matched(index, queryTokens[..i], fields, id)
      {
        var token := queryTokens[i];
        if token in index {
          results := FieldIds(results, index, token, fields);
        }
        forall id
          ensures id in results <==> Matched(index, queryTokens[..i + 1], fields, id)
        {
          MatchedStep(index, queryTokens, fields, i, id);
        }
        i := i + 1;
      }
      assert queryTokens[..i] == queryTokens;
      resultIDs := Keys(results);
    }
  }

  /** The IDs under one token: from every field when no field list is given, else from
      each listed field the token has. */
  method FieldIds(results: set<int>, index: Index, token: string, fields: Option<seq<string>>) returns (found: set<int>)
    requires token in index
    ensures forall id :: id in found <==> id in results || TokenMatched(index, token, fields, id)
  {
    var tokenFields := index[token];
    found := results;
    if fields.None? {
      var remaining := tokenFields.Keys;
      while remaining != {}
        invariant remaining <= tokenFields.Keys
        invariant forall id :: id in found <==>
          (id in results || exists f :: f in tokenFields && f !in remaining && id in tokenFields[f])
        decreases remaining
      {
        var field :| field in remaining;
        found := MarkAll(found, tokenFields[field]);
        remaining := remaining - {field};
      }
      forall id
        ensures id in found <==> id in results || TokenMatched(index, token, fields, id)
      {
        if TokenMatched(index, token, fields, id) {
          var f :| Allowed(fields, f) && id in Postings(index, token, f);
          assert f in tokenFields && id in tokenFields[f];
        }
        if id in found && id !in results {
          var f :| f in tokenFields && id in tokenFields[f];
          assert Allowed(fields, f) && id in Postings(index, token, f);
        }
      }
    } else {
      var list := fields.value;
      var k := 0;
      while k < |list|
        invariant 0 <= k <= |list|
        invariant forall id :: id in found <==>
          (id in results || exists f :: f in list[..k] && id in Postings(index, token, f))
      {
        ghost var prev := found;
        if list[k] in tokenFields {
          found := MarkAll(found, tokenFields[list[k]]);
        }
        assert list[..k + 1] == list[..k] + [list[k]];
        forall id
          ensures id in found <==> id in results || exists f :: f in list[..k + 1] && id in Postings(index, token, f)
        {
          if id in found && id !in prev {
            assert list[k] in list[..k + 1] && id in Postings(index, token, list[k]);
          }
        }
        k := k + 1;
      }
      assert list[..k] == list;
      forall id
        ensures id in found <==> id in results || TokenMatched(index, token, fields, id)
      {
        if TokenMatched(index, token, fields, id) {
          var f :| Allowed(fields, f) && id in Postings(index, token, f);
          assert f in list;
        }
      }
    }
  }

  // ---- Document filters ------------------------------------------------------------

  /** A filter on one field of a document. */
  datatype Filter = Filter(field: string, operator: string, value: Value)

  /** applyFilter: a missing field fails; `=` and `!=` compare the field's string with
      the value; every other operator, and `>`/`<` on a value that is not a float
      (no Value is one), fails. */
  function ApplyFilter(doc: Document, filter: Filter): bool
  {
    if filter.field !in doc.data then false
    else
      var fieldValue := doc.data[filter.field];
      match filter.operator
      case "=" => filter.value == Str(fieldValue)
      case "!=" => filter.value != Str(fieldValue)
      case _ => false
  }

  /** `=` and `!=` are complementary on a present field and both fail on a missing one;
      no other operator passes. */
  lemma ApplyFilterMeaning(doc: Document, field: string, operator: string, value: Value)
    ensures field !in doc.data ==> !ApplyFilter(doc, Filter(field, operator, value))
    ensures field in doc.data ==>
      ApplyFilter(doc, Filter(field, "=", value)) == !ApplyFilter(doc, Filter(field, "!=", value))
    ensures ApplyFilter(doc, Filter(field, "=", value)) <==> field in doc.data && value == Str(doc.data[field])
    ensures operator != "=" && operator != "!=" ==> !ApplyFilter(doc, Filter(field, operator, value))
  {
  }

  /** contains */
  method Contains(slice: seq<string>, item: string) returns (found: bool)
    ensures found <==> item in slice
  {
    var k := 0;
    while k < |slice|
      invariant 0 <= k <= |slice| && item !in slice[..k]
    {
      if slice[k] == item {
        return true;
      }
      assert slice[..k + 1] == slice[..k] + [slice[k]];
      k := k + 1;
    }
    assert slice[..k] == slice;
    return false;
  }
}
