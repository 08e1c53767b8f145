/** splitByWhere: the clause after the first whole-word WHERE of an SQL text. The
    regular expression `(?i)\bWHERE\b` is modelled as a direct search. */
module Where {
  import opened Wrappers
  import opened Text

  /** A byte the regular expression class `\w` matches. */
  predicate WordByte(c: char)
  {
    'a' <= c <= 'z' || 'A' <= c <= 'Z' || '0' <= c <= '9' || c == '_'
  }

  /** `(?i)\bWHERE\b` matches at `k`: the five letters in any case, with no word byte
      just before or just after them. */
  predicate WhereAt(s: string, k: nat)
  {
    k + 5 <= |s| && EqualFold(s[k..k + 5], "WHERE")
    && (k == 0 || !WordByte(s[k - 1])) && (k + 5 == |s| || !WordByte(s[k + 5]))
  }

  /** The leftmost match of `(?i)\bWHERE\b` at or after `k`. */
  function FindWhere(s: string, k: nat): (r: Option<nat>)
    requires k <= |s|
    ensures r.Some? ==> k <= r.value && WhereAt(s, r.value)
    ensures r.Some? ==> forall j :: k <= j < r.value ==> !WhereAt(s, j)
    ensures r.None? ==> forall j :: k <= j <= |s| ==> !WhereAt(s, j)
    decreases |s| - k
  {
    if k + 5 > |s| then None
    else if WhereAt(s, k) then Some(k)
    else FindWhere(s, k + 1)
  }

  /** splitByWhere: the trimmed text after the first whole-word WHERE, or the trimmed
      text before it when nothing follows, or the input itself when there is no WHERE. */
  function SplitByWhere(sql: string): (r: string)
  {
    match FindWhere(sql, 0)
    case None => sql
    case Some(k) => AroundWhere(sql, k)
  }

  /** The part of `sql` kept around a WHERE at `k`. */
  function AroundWhere(sql: string, k: nat): string
    requires k + 5 <= |sql|
  {
    var after := TrimSpace(sql[k + 5..]);
    if after != "" then after else TrimSpace(sql[..k])
  }

  /** Without a whole-word WHERE the text is returned as it is. */
  lemma SplitByWhereNoMatch(sql: string)
    requires forall j :: 0 <= j <= |sql| ==> !WhereAt(sql, j)
    ensures SplitByWhere(sql) == sql
  {
  }

  /** With the first whole-word WHERE at `k`, the trimmed text after it is returned,
      or the trimmed text before it when nothing but spaces follows. */
  lemma SplitByWhereFirstMatch(sql: string, k: nat)
    requires WhereAt(sql, k) && forall j :: 0 <= j < k ==> !WhereAt(sql, j)
    ensures SplitByWhere(sql) ==
      if TrimSpace(sql[k + 5..]) != "" then TrimSpace(sql[k + 5..]) else TrimSpace(sql[..k])
  {
    FirstWhereFound(sql, 0, k);
    assert SplitByWhere(sql) == AroundWhere(sql, k);
  }

  /** The search from `m` stops at the first match at or after `m`. */
  lemma {:induction false} FirstWhereFound(s: string, m: nat, k: nat)
    requires m <= k && WhereAt(s, k) && forall j :: m <= j < k ==> !WhereAt(s, j)
    ensures FindWhere(s, m) == Some(k)
    decreases k - m
  {
    if m < k {
      assert !WhereAt(s, m);
      FirstWhereFound(s, m + 1, k);
    }
  }

  /** No match where the first letter is not a `w` in some case. */
  lemma NotWhereAt(s: string, k: nat)
    requires k + 5 <= |s| && LowerChar(s[k]) != 'w'
    ensures !WhereAt(s, k)
  {
    assert ToLower(s[k..k + 5])[0] == LowerChar(s[k]);
    assert ToLower("WHERE")[0] == 'w';
  }

  /** WHERE inside a longer word is not a match, so the text is left as it is. */
  lemma SplitByWhereInsideWord()
    ensures SplitByWhere("xwhere") == "xwhere"
  {
    NotWhereAt("xwhere", 0);
    assert "xwhere"[0] == 'x';
    assert !WhereAt("xwhere", 1);
    assert FindWhere("xwhere", 2) == None;
  }

  /** A whole-word `where` in lower case splits the text; what follows is kept. */
  lemma SplitByWhereAfter()
    ensures SplitByWhere("t where a") == "a"
  {
    var after := "t where a"[7..];
    assert after == " a";
    TrimOneSpace(after);
    assert after[1..] == "a";
    LowerWhereFound();
  }

  /** Trimming a text that starts with one space and has none at its ends otherwise. */
  lemma TrimOneSpace(s: string)
    requires |s| >= 2 && s[0] == ' ' && !IsSpace(s[1]) && !IsSpace(s[|s| - 1])
    ensures TrimSpace(s) == s[1..]
  {
    assert TrimLeftSpace(s) == TrimLeftSpace(s[1..]) == s[1..];
  }


  /** The lower-case `where` of "t where a" is found, at index 2. */
  lemma LowerWhereFound()
    ensures FindWhere("t where a", 0) == Some(2)
  {
    var s := "t where a";
    NotWhereAt(s, 0);
    NotWhereAt(s, 1);
    assert s[2..7] == "where";
    assert EqualFold("where", "WHERE") by {
      assert ToLower("where") == "where" == ToLower("WHERE");
    }
    assert WhereAt(s, 2);
  }


  /** The upper-case WHERE of "t WHERE " is found, at index 2. */
  lemma UpperWhereFound()
    ensures FindWhere("t WHERE ", 0) == Some(2)
  {
    var s := "t WHERE ";
    NotWhereAt(s, 0);
    NotWhereAt(s, 1);
    assert s[2..7] == "WHERE";
    assert EqualFold("WHERE", "WHERE");
    assert WhereAt(s, 2);
  }

  /** With nothing after WHERE, what comes before it is kept. */
  lemma SplitByWhereBefore()
    ensures SplitByWhere("t WHERE ") == "t"
  {
    var s := "t WHERE ";
    UpperWhereFound();
    assert TrimSpace(s[7..]) == "" by {
      assert s[7..] == " ";
      TrimBlank();
    }
    assert TrimSpace(s[..2]) == "t" by {
      assert s[..2] == "t ";
      TrimTrailing();
    }
  }

  lemma TrimBlank()
    ensures TrimSpace(" ") == ""
  {
    assert TrimLeftSpace(" ") == "";
  }

  lemma TrimTrailing()
    ensures TrimSpace("t ") == "t"
  {
    assert TrimLeftSpace("t ") == "t ";
    assert TrimRightSpace("t ") == "t";
  }
}
