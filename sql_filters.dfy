/** The older SQL front end: a tokenizer with an in-place pass that splices IS NULL and
    IS NOT NULL into single operator tokens, a cursor-based parser of comparisons and
    parenthesised groups, and FromSQL, which keeps the tokens of the WHERE clause. */
module SqlFilters {
  import opened Wrappers
  import opened Text
  import opened Seqs
  import Lexer
  import Operators

  datatype TokenType =
    | TokenIdentifier | TokenOperator | TokenValue | TokenBoolean | TokenLParen
    | TokenRParen | TokenKeyword | TokenComma
    /** the type of Go's zero token */
    | NoTokenType

  datatype Token = Token(typ: TokenType, value: string)

  /** The zero token `token{}`. */
  const ZeroToken := Token(NoTokenType, "")

  const KeywordWords: set<string> := {
    "SELECT", "FROM", "WHERE", "AND", "OR", "IS", "NULL", "NOT", "BETWEEN", "LIKE"}

  const OperatorWords: set<string> := {
    "=", "!=", ">", "<", ">=", "<=", "LIKE", "NOT LIKE", "BETWEEN", "IN"}

  predicate IsKeyword(s: string) { ToUpper(s) in KeywordWords }
  predicate IsOperator(s: string) { ToUpper(s) in OperatorWords }
  predicate IsBooleanWord(s: string) { ToUpper(s) == "TRUE" || ToUpper(s) == "FALSE" }

  /** The one-character strings isOperator accepts are `=`, `>` and `<`, so the
      character tests of tokenize are Lexer.IsOperatorStart. */
  lemma OperatorStarts(c: char)
    ensures IsOperator([c]) <==> Lexer.IsOperatorStart(c)
  {
    assert ToUpper([c]) == [UpperChar(c)];
    if IsOperator([c]) {
      assert |[UpperChar(c)]| == 1;
    }
  }

  // ---- tokenize ------------------------------------------------------------------

  /** The token for a word of the default case. */
  function WordToken(value: string): (t: Token)
  {
    if IsKeyword(value) then Token(TokenKeyword, ToUpper(value))
    else if IsBooleanWord(value) then Token(TokenValue, ToUpper(value))
    else Token(TokenIdentifier, value)
  }

  /** Keywords, TRUE and FALSE come out upper-cased; every other word is an identifier
      holding its text. `IN` and `in` are such identifiers. */
  lemma WordTokenKinds(value: string)
    ensures WordToken(value).typ == TokenKeyword <==> IsKeyword(value)
    ensures WordToken(value).typ == TokenIdentifier <==> !IsKeyword(value) && !IsBooleanWord(value)
    ensures WordToken(value).typ != TokenIdentifier ==> WordToken(value).value == ToUpper(value)
    ensures ToUpper(value) == "IN" ==> WordToken(value) == Token(TokenIdentifier, value)
  {
  }

  /** What tokenize's switch does at index `i`: the tokens it appends and the index it
      continues at, which is always further on. */
  function Step(input: string, i: nat): (r: Result<(seq<Token>, nat)>)
    requires i < |input|
    ensures r.Ok? ==> i < r.value.1 <= |input|
  {
    var c := input[i];
    if Lexer.IsWhitespace(c) then Ok(([], i + 1))
    else if c == '(' then Ok(([Token(TokenLParen, "(")], i + 1))
    else if c == ')' then Ok(([Token(TokenRParen, ")")], i + 1))
    else if c == ',' then Ok(([Token(TokenComma, ",")], i + 1))
    else if c == '\'' then
      var k := Lexer.ScanEnd(input, i + 1, Lexer.NotQuote);
      if k < |input| then Ok(([Token(TokenValue, input[i + 1..k])], k + 1))
      else Err("unclosed string literal")
    else if IsDigit(c) then
      var k := Lexer.ScanEnd(input, i, IsDigit);
      Ok(([Token(TokenValue, input[i..k])], k))
    else if Lexer.IsOperatorStart(c) then
      var k := Lexer.ScanEnd(input, i, Lexer.IsOperatorStart);
      Ok(([Token(TokenOperator, input[i..k])], k))
    else
      var k := Lexer.ScanEnd(input, i, Lexer.IdentChar);
      Ok(([WordToken(input[i..k])], k))
  }

  /** The tokens of `input` from index `i` on, before the compound pass. */
  function LexFrom(input: string, i: nat): Result<seq<Token>>
    requires i <= |input|
    decreases |input| - i
  {
    if i == |input| then Ok([])
    else
      var (ts, j) :- Step(input, i);
      var rest :- LexFrom(input, j);
      Ok(ts + rest)
  }

  /** Tokens already appended, followed by what the rest of the input gives. */
  function Then(ts: seq<Token>, rest: Result<seq<Token>>): Result<seq<Token>>
  {
    if rest.Ok? then Ok(ts + rest.value) else rest
  }

  /** One pass of tokenize's loop body. */
  method LexStep(input: string, i: nat) returns (r: Result<(seq<Token>, nat)>)
    requires i < |input|
    ensures r == Step(input, i)
  {
    var c := input[i];
    if Lexer.IsWhitespace(c) {
      return Ok(([], i + 1));
    } else if c == '(' || c == ')' || c == ',' {
      var typ := if c == '(' then TokenLParen else if c == ')' then TokenRParen else TokenComma;
      return Ok(([Token(typ, [c])], i + 1));
    } else if c == '\'' {
      var lit := Lexer.ParseStringLiteral(input, i);
      if lit.Err? {
        return Err(lit.msg);
      }
      return Ok(([Token(TokenValue, lit.value.0)], lit.value.1));
    } else if IsDigit(c) {
      var value, next := Lexer.ScanRun(input, i, IsDigit);
      return Ok(([Token(TokenValue, value)], next));
    } else if Lexer.IsOperatorStart(c) {
      var value, next := Lexer.ScanRun(input, i, Lexer.IsOperatorStart);
      return Ok(([Token(TokenOperator, value)], next));
    } else {
      var value, next := Lexer.ScanRun(input, i, Lexer.IdentChar);
      return Ok(([WordToken(value)], next));
    }
  }

  /** The scanning loop of tokenize: one step at a time, stopping at the first error. */
  method LexAll(input: string) returns (r: Result<seq<Token>>)
    ensures r == LexFrom(input, 0)
  {
    var tokens: seq<Token> := [];
    var i := 0;
    assert LexFrom(input, 0).Ok? ==> [] + LexFrom(input, 0).value == LexFrom(input, 0).value;
    while i < |input|
      invariant i <= |input|
      invariant LexFrom(input, 0) == Then(tokens, LexFrom(input, i))
      decreases |input| - i
    {
      var step := LexStep(input, i);
      if step.Err? {
        return Err(step.msg);
      }
      ThenStep(input, i, tokens);
      tokens := tokens + step.value.0;
      i := step.value.1;
    }
    assert tokens + [] == tokens;
    return Ok(tokens);
  }

  lemma ThenStep(input: string, i: nat, tokens: seq<Token>)
    requires i < |input| && Step(input, i).Ok?
    ensures Then(tokens, LexFrom(input, i))
      == Then(tokens + Step(input, i).value.0, LexFrom(input, Step(input, i).value.1))
  {
    var (ts, j) := Step(input, i).value;
    var rest := LexFrom(input, j);
    if rest.Ok? {
      assert tokens + (ts + rest.value) == tokens + ts + rest.value;
    }
  }

  // ---- the compound pass ---------------------------------------------------------

  /** The keyword `word`, in any case. */
  predicate IsWordKeyword(t: Token, word: string)
  {
    t.typ == TokenKeyword && ToUpper(t.value) == word
  }

  /** How many tokens the compound starting at the front of `ts` spans: two for the
      keywords IS NULL, three for the keywords IS NOT followed by any token reading
      NULL, zero when no compound starts there. */
  function Width(ts: seq<Token>): (w: nat)
    ensures w == 0 || w == 2 || w == 3
    ensures w <= |ts|
  {
    if |ts| >= 2 && IsWordKeyword(ts[0], "IS") && IsWordKeyword(ts[1], "NULL") then 2
    else if |ts| >= 3 && IsWordKeyword(ts[0], "IS") && IsWordKeyword(ts[1], "NOT") && ToUpper(ts[2].value) == "NULL" then 3
    else 0
  }

  /** The operator token a compound of width `w` becomes. */
  function CompoundToken(w: nat): Token
  {
    Token(TokenOperator, if w == 2 then "IS NULL" else "IS NOT NULL")
  }

  /** The compound pass as a function: each compound becomes one operator token and
      every other token is kept. */
  function Compounds(ts: seq<Token>): (r: seq<Token>)
    ensures |r| <= |ts|
    decreases |ts|
  {
    if Width(ts) > 0 then [CompoundToken(Width(ts))] + Compounds(ts[Width(ts)..])
    else if ts == [] then []
    else [ts[0]] + Compounds(ts[1..])
  }

  /** The compound pass on the slice `a[..n]`: the first token of a compound is
      overwritten and the rest are spliced out in place, so the slice shrinks. */
  method CombineInPlace(a: array<Token>) returns (n: nat)
    modifies a
    ensures n <= a.Length
    ensures a[..n] == Compounds(old(a[..]))
  {
    ghost var original := a[..];
    n := a.Length;
    var i := 0;
    ghost var s := a[..n];
    assert s[..0] + Compounds(s[0..]) == Compounds(original) by {
      assert s[0..] == original;
    }
    while i + 1 < n
      invariant i <= n <= a.Length
      invariant s == a[..n]
      invariant s[..i] + Compounds(s[i..]) == Compounds(original)
      decreases n - i
    {
      n := PassStep(a, n, i, s, original);
      s := a[..n];
      i := i + 1;
    }
    Unchanged(s, i);
  }

  /** One pass of the loop body at index `i`: the token there is kept or becomes the
      operator of the compound it starts. */
  method PassStep(a: array<Token>, n: nat, i: nat, ghost s: seq<Token>, ghost original: seq<Token>) returns (m: nat)
    requires i + 1 < n <= a.Length && s == a[..n]
    requires s[..i] + Compounds(s[i..]) == Compounds(original)
    modifies a
    ensures i + 1 <= m <= n
    ensures a[..m][..i + 1] + Compounds(a[..m][i + 1..]) == Compounds(original)
  {
    var w := WidthAt(a, n, i);
    if w > 0 {
      m := Splice(a, n, i, w - 1, CompoundToken(w));
      assert a[..m] == s[..i] + [CompoundToken(w)] + s[i + w..];
      MergedAt(s, a[..m], i, w);
    } else {
      m := n;
      KeptAt(s, i);
    }
  }

  /** The last token of the pass stands alone. */
  lemma Unchanged(s: seq<Token>, i: nat)
    requires i <= |s| <= i + 1
    ensures s[..i] + Compounds(s[i..]) == s
  {
    if i < |s| {
      assert s[i..] == [s[i]];
      assert s[i..][1..] == [];
    }
  }

  /** The tests of the pass's loop body at index `i`, as Width states them. */
  method WidthAt(a: array<Token>, n: nat, i: nat) returns (w: nat)
    requires i + 1 < n <= a.Length
    ensures w == Width(a[i..n])
  {
    var s := a[i..n];
    assert s[0] == a[i] && s[1] == a[i + 1];
    if i + 2 < n {
      assert s[2] == a[i + 2];
    }
    if a[i].typ == TokenKeyword && ToUpper(a[i].value) == "IS" {
      if i + 1 < n && a[i + 1].typ == TokenKeyword {
        if ToUpper(a[i + 1].value) == "NULL" {
          return 2;
        } else if ToUpper(a[i + 1].value) == "NOT" && i + 2 < n && ToUpper(a[i + 2].value) == "NULL" {
          return 3;
        }
      }
    }
    return 0;
  }

  /** A token at `i` that starts no compound is kept as it is. */
  lemma KeptAt(s: seq<Token>, i: nat)
    requires i < |s| && Width(s[i..]) == 0
    ensures s[..i] + Compounds(s[i..]) == s[..i + 1] + Compounds(s[i + 1..])
  {
    var tail := s[i..];
    assert tail[0] == s[i] && tail[1..] == s[i + 1..];
    var rest := Compounds(s[i + 1..]);
    assert Compounds(tail) == [s[i]] + rest;
    assert s[..i + 1] == s[..i] + [s[i]];
    SeqAssoc(s[..i], [s[i]], rest);
  }

  /** A compound at `i`, replaced by its operator token, leaves the pass's invariant
      true at the next index. */
  lemma MergedAt(s: seq<Token>, t: seq<Token>, i: nat, w: nat)
    requires i < |s| && w == Width(s[i..]) && w > 0
    requires t == s[..i] + [CompoundToken(w)] + s[i + w..]
    ensures t[..i + 1] + Compounds(t[i + 1..]) == s[..i] + Compounds(s[i..])
  {
    var tail := s[i..];
    assert tail[w..] == s[i + w..];
    var rest := Compounds(s[i + w..]);
    assert Compounds(tail) == [CompoundToken(w)] + rest;
    assert t[..i + 1] == s[..i] + [CompoundToken(w)];
    assert t[i + 1..] == s[i + w..];
    SeqAssoc(s[..i], [CompoundToken(w)], rest);
  }

  /** One merge of the compound pass: the token at `i` becomes `tok` and the `w` tokens
      after it are spliced out. */
  method Splice(a: array<Token>, n: nat, i: nat, w: nat, tok: Token) returns (m: nat)
    requires i + w < n <= a.Length
    modifies a
    ensures m == n - w && i < m
    ensures a[..m] == old(a[..n])[..i] + [tok] + old(a[..n])[i + 1 + w..]
  {
    ghost var pre := a[..n];
    a[i] := tok;
    ghost var written := a[..n];
    assert written[..i + 1] == pre[..i] + [tok];
    assert written[i + 1 + w..n] == pre[i + 1 + w..];
    ShiftDown(a, n, i + 1, w);
    m := n - w;
    assert a[..m] == written[..i + 1] + written[i + 1 + w..n];
  }

  /** The compound pass never lengthens the stream, and a stream without an IS keyword
      passes through unchanged. */
  lemma {:induction false} CompoundsWithoutIs(ts: seq<Token>)
    requires forall j :: 0 <= j < |ts| ==> !IsWordKeyword(ts[j], "IS")
    ensures Compounds(ts) == ts
    decreases |ts|
  {
    if ts != [] {
      CompoundsWithoutIs(ts[1..]);
    }
  }

  /** The merges, including IS NOT followed by a quoted 'null', which is a value token. */
  lemma CompoundsMerge(rest: seq<Token>)
    ensures Compounds([Token(TokenKeyword, "IS"), Token(TokenKeyword, "NULL")] + rest)
      == [Token(TokenOperator, "IS NULL")] + Compounds(rest)
    ensures Compounds([Token(TokenKeyword, "IS"), Token(TokenKeyword, "NOT"), Token(TokenKeyword, "NULL")] + rest)
      == [Token(TokenOperator, "IS NOT NULL")] + Compounds(rest)
    ensures Compounds([Token(TokenKeyword, "IS"), Token(TokenKeyword, "NOT"), Token(TokenValue, "null")] + rest)
      == [Token(TokenOperator, "IS NOT NULL")] + Compounds(rest)
  {
    Lexer.UpperFixed("IS");
    Lexer.UpperFixed("NOT");
    Lexer.UpperFixed("NULL");
    assert ToUpper("null") == "NULL";
    var t := [Token(TokenKeyword, "IS"), Token(TokenKeyword, "NULL")] + rest;
    assert t[0] == Token(TokenKeyword, "IS") && t[1] == Token(TokenKeyword, "NULL") && t[2..] == rest;
    var u := [Token(TokenKeyword, "IS"), Token(TokenKeyword, "NOT"), Token(TokenKeyword, "NULL")] + rest;
    assert u[0] == Token(TokenKeyword, "IS") && u[1] == Token(TokenKeyword, "NOT") && u[2].value == "NULL" && u[3..] == rest;
    var v := [Token(TokenKeyword, "IS"), Token(TokenKeyword, "NOT"), Token(TokenValue, "null")] + rest;
    assert v[0] == Token(TokenKeyword, "IS") && v[1] == Token(TokenKeyword, "NOT") && v[2].value == "null" && v[3..] == rest;
  }

  /** What tokenize returns: the compound pass over the tokens of the trimmed input, or
      the first scanner error. */
  function TokensOf(sql: string): Result<seq<Token>>
  {
    var raw := LexFrom(TrimSpace(sql), 0);
    if raw.Ok? then Ok(Compounds(raw.value)) else Err(raw.msg)
  }

  /** tokenize: the scanning loop, then the compound pass over the collected slice. */
  method Tokenize(sql: string) returns (r: Result<seq<Token>>)
    ensures r == TokensOf(sql)
  {
    var raw := LexAll(TrimSpace(sql));
    if raw.Err? {
      return Err(raw.msg);
    }
    var tokens := raw.value;
    var a := ToArray(tokens);
    var n := CombineInPlace(a);
    return Ok(a[..n]);
  }

  /** A fresh array holding the tokens, standing for the slice tokenize appended to. */
  method ToArray(tokens: seq<Token>) returns (a: array<Token>)
    ensures fresh(a) && a[..] == tokens
  {
    a := new Token[|tokens|](j requires 0 <= j < |tokens| => tokens[j]);
  }

  // ---- the shape of the tokens ---------------------------------------------------

  /** What tokenize promises about each token: keywords are upper-cased keywords,
      identifiers are neither keywords nor TRUE/FALSE, operator tokens are runs of
      `=`, `<` and `>` or one of the two compounds, and no token is BOOLEAN. */
  predicate Shaped(t: Token)
  {
    match t.typ
    case TokenKeyword => t.value in KeywordWords
    case TokenIdentifier => t.value != [] && !IsKeyword(t.value) && !IsBooleanWord(t.value)
    case TokenOperator =>
      t.value in {"IS NULL", "IS NOT NULL"} ||
      (t.value != [] && forall j :: 0 <= j < |t.value| ==> Lexer.IsOperatorStart(t.value[j]))
    case TokenLParen => t.value == "("
    case TokenRParen => t.value == ")"
    case TokenComma => t.value == ","
    case TokenValue => true
    case TokenBoolean => false
    case NoTokenType => false
  }

  lemma StepShaped(input: string, i: nat)
    requires i < |input| && Step(input, i).Ok?
    ensures forall t :: t in Step(input, i).value.0 ==> Shaped(t)
  {
    var c := input[i];
    if !Lexer.IsWhitespace(c) && c != '(' && c != ')' && c != ',' && c != '\'' && !IsDigit(c) {
      if Lexer.IsOperatorStart(c) {
        var k := Lexer.ScanEnd(input, i, Lexer.IsOperatorStart);
        assert input[i..k] != [] && forall j :: 0 <= j < k - i ==> input[i..k][j] == input[i + j];
      } else {
        var k := Lexer.ScanEnd(input, i, Lexer.IdentChar);
        assert input[i..k] != [];
      }
    }
  }

  lemma {:induction false} LexShaped(input: string, i: nat)
    requires i <= |input| && LexFrom(input, i).Ok?
    ensures forall t :: t in LexFrom(input, i).value ==> Shaped(t)
    decreases |input| - i
  {
    if i < |input| {
      StepShaped(input, i);
      LexShaped(input, Step(input, i).value.1);
    }
  }

  lemma {:induction false} CompoundsShaped(ts: seq<Token>)
    requires forall t :: t in ts ==> Shaped(t)
    ensures forall t :: t in Compounds(ts) ==> Shaped(t)
    decreases |ts|
  {
    if Width(ts) > 0 {
      CompoundsShaped(ts[Width(ts)..]);
    } else if ts != [] {
      CompoundsShaped(ts[1..]);
    }
  }

  /** Every token tokenize returns is shaped; in particular none is BOOLEAN. */
  lemma TokensShaped(sql: string)
    requires TokensOf(sql).Ok?
    ensures forall t :: t in TokensOf(sql).value ==> Shaped(t) && t.typ != TokenBoolean
  {
    LexShaped(TrimSpace(sql), 0);
    CompoundsShaped(LexFrom(TrimSpace(sql), 0).value);
  }

  // ---- the parser ----------------------------------------------------------------

  /** The parser's cursor over a token slice. */
  class Cursor {
    var tokens: seq<Token>
    var pos: nat

    constructor (ts: seq<Token>)
      ensures tokens == ts && pos == 0
    {
      tokens := ts;
      pos := 0;
    }

    /** nextToken: the token at the cursor, which then moves on; the zero token and
        false at the end. */
    method NextToken() returns (t: Token, ok: bool)
      modifies this
      ensures tokens == old(tokens)
      ensures old(pos) < |tokens| ==> ok && t == tokens[old(pos)] && pos == old(pos) + 1
      ensures old(pos) >= |tokens| ==> !ok && t == ZeroToken && pos == old(pos)
    {
      if pos >= |tokens| {
        return ZeroToken, false;
      }
      t := tokens[pos];
      pos := pos + 1;
      return t, true;
    }

    /** peekToken: the token at the cursor, which stays. */
    method PeekToken() returns (t: Token, ok: bool)
      ensures pos < |tokens| ==> ok && t == tokens[pos]
      ensures pos >= |tokens| ==> !ok && t == ZeroToken
    {
      if pos >= |tokens| {
        return ZeroToken, false;
      }
      return tokens[pos], true;
    }
  }

  /** mapSQLOperatorToGoOperator. */
  function MapOperator(sqlOperator: string): string
  {
    var op := ToUpper(sqlOperator);
    if op == "=" then Operators.Equal
    else if op == "!=" then Operators.NotEqual
    else if op == ">" then Operators.GreaterThan
    else if op == "<" then Operators.LessThan
    else if op == ">=" then Operators.GreaterThanEqual
    else if op == "<=" then Operators.LessThanEqual
    else if op == "LIKE" then Operators.Contains
    else if op == "NOT LIKE" then Operators.NotContains
    else if op == "BETWEEN" then Operators.Between
    else if op == "IN" then Operators.In
    else if op == "IS NULL" then Operators.IsNull
    else if op == "IS NOT NULL" then Operators.NotNull
    else ""
  }

  /** The operator tokens tokenize can produce map only to the five comparisons, the
      two null tests or the empty operator: `!=`, LIKE, NOT LIKE, BETWEEN and IN are
      listed but unreachable. */
  lemma ReachableOperators(t: Token)
    requires Shaped(t) && t.typ == TokenOperator
    ensures MapOperator(t.value) in {Operators.Equal, Operators.GreaterThan, Operators.LessThan,
      Operators.GreaterThanEqual, Operators.LessThanEqual, Operators.IsNull, Operators.NotNull, ""}
  {
    if t.value !in {"IS NULL", "IS NOT NULL"} {
      Lexer.UpperFixed(t.value);
      assert t.value[0] != '!' && t.value[0] != 'L' && t.value[0] != 'N' && t.value[0] != 'B' && t.value[0] != 'I';
    } else {
      Lexer.UpperFixed(t.value);
    }
  }

  /** A value a parsed filter carries: none, a token's text, or a nested group. */
  datatype SqlValue = Nil | Text(s: string) | Sub(group: SqlGroup)

  /** A filter with only its field, operator and value set. */
  datatype SqlFilter = SqlFilter(field: string, operator: string, value: SqlValue)

  datatype SqlGroup = SqlGroup(operator: string, filters: seq<SqlFilter>)

  /** parseFilter as a function: a field name, an operator token and, unless the
      operator is a null test, a value or identifier token; the filter and the number
      of tokens it used. */
  function ParseFilter(ts: seq<Token>): (r: Result<(SqlFilter, nat)>)
  {
    if |ts| == 0 || ts[0].typ != TokenIdentifier then Err("expected field name")
    else if |ts| == 1 || ts[1].typ != TokenOperator then Err("expected operator")
    else
      var op := MapOperator(ts[1].value);
      if op != Operators.IsNull && op != Operators.NotNull then
        if |ts| == 2 || (ts[2].typ != TokenValue && ts[2].typ != TokenIdentifier) then Err("expected value")
        else Ok((SqlFilter(ts[0].value, op, Text(ts[2].value)), 3))
      else Ok((SqlFilter(ts[0].value, op, Nil), 2))
  }

  /** A filter parses iff an identifier is followed by an operator token and, except
      after IS NULL and IS NOT NULL, by a value or identifier; it uses two or three
      tokens, and each failure has its own message. */
  lemma ParseFilterMeaning(ts: seq<Token>)
    ensures ParseFilter(ts).Ok? <==> (|ts| >= 2 && ts[0].typ == TokenIdentifier && ts[1].typ == TokenOperator &&
      (MapOperator(ts[1].value) !in {Operators.IsNull, Operators.NotNull} ==>
         |ts| >= 3 && ts[2].typ in {TokenValue, TokenIdentifier}))
    ensures ParseFilter(ts).Ok? ==> (2 <= ParseFilter(ts).value.1 <= |ts| &&
      ParseFilter(ts).value.0.field == ts[0].value && ParseFilter(ts).value.0.operator == MapOperator(ts[1].value))
    ensures |ts| > 0 && ts[0].typ != TokenIdentifier ==> ParseFilter(ts) == Err("expected field name")
  {
  }

  /** parseFilter: three reads through a fresh cursor. */
  method ParseFilterOf(ts: seq<Token>) returns (r: Result<(SqlFilter, nat)>)
    ensures r == ParseFilter(ts)
  {
    var p := new Cursor(ts);
    var tok, ok := p.NextToken();
    if !ok || tok.typ != TokenIdentifier {
      return Err("expected field name");
    }
    var field := tok.value;
    tok, ok := p.NextToken();
    if !ok || tok.typ != TokenOperator {
      return Err("expected operator");
    }
    var operator := MapOperator(tok.value);
    var value := Nil;
    if operator != Operators.IsNull && operator != Operators.NotNull {
      tok, ok := p.NextToken();
      if !ok || (tok.typ != TokenValue && tok.typ != TokenIdentifier) {
        return Err("expected value");
      }
      value := Text(tok.value);
    }
    return Ok((SqlFilter(field, operator, value), p.pos));
  }

  /** parseFilterGroup as a function: the group of the tokens and how many it used. */
  function GroupFrom(ts: seq<Token>): (r: Result<(SqlGroup, nat)>)
    ensures r.Ok? ==> r.value.1 <= |ts|
    decreases |ts|, 1
  {
    GroupLoop(ts, 0, "", [])
  }

  /** The loop of parseFilterGroup from index `pos`, with the operator and filters so
      far: a BOOLEAN token sets the operator, `(` parses a nested group that becomes a
      filter with empty field and operator, `)` ends the group after consuming it, and
      anything else must be a filter. */
  function GroupLoop(ts: seq<Token>, pos: nat, op: string, acc: seq<SqlFilter>): (r: Result<(SqlGroup, nat)>)
    requires pos <= |ts|
    ensures r.Ok? ==> pos <= r.value.1 <= |ts|
    decreases |ts|, 0, |ts| - pos
  {
    if pos == |ts| then Ok((SqlGroup(op, acc), pos))
    else
      var t := ts[pos];
      if t.typ == TokenBoolean then GroupLoop(ts, pos + 1, ToUpper(t.value), acc)
      else if t.typ == TokenLParen then
        match GroupFrom(ts[pos + 1..])
        case Err(m) => Err(m)
        case Ok((g, consumed)) => GroupLoop(ts, pos + 1 + consumed, op, acc + [SqlFilter("", "", Sub(g))])
      else if t.typ == TokenRParen then Ok((SqlGroup(op, acc), pos + 1))
      else
        match ParseFilter(ts[pos..])
        case Err(m) => Err(m)
        case Ok((f, consumed)) =>
          ParseFilterMeaning(ts[pos..]);
          GroupLoop(ts, pos + consumed, op, acc + [f])
  }

  /** What one pass of parseFilterGroup's loop decides: go on from a new position with
      a new operator and filters, or stop with a result. */
  datatype Next = Continue(pos: nat, op: string, filters: seq<SqlFilter>) | Stop(r: Result<(SqlGroup, nat)>)

  /** parseFilterGroup. */
  method ParseFilterGroup(ts: seq<Token>) returns (r: Result<(SqlGroup, nat)>)
    ensures r == GroupFrom(ts)
    decreases |ts|, 1
  {
    var p := new Cursor(ts);
    var filters: seq<SqlFilter> := [];
    var operator := "";
    while true
      invariant p.tokens == ts && p.pos <= |ts|
      invariant GroupFrom(ts) == GroupLoop(ts, p.pos, operator, filters)
      decreases |ts| - p.pos
    {
      var next := GroupStep(ts, p, operator, filters);
      if next.Stop? {
        return next.r;
      }
      operator, filters := next.op, next.filters;
    }
  }

  /** One pass of parseFilterGroup's loop body through the cursor `p`. */
  method GroupStep(ts: seq<Token>, p: Cursor, operator: string, filters: seq<SqlFilter>) returns (next: Next)
    requires p.tokens == ts && p.pos <= |ts|
    modifies p
    ensures p.tokens == ts
    ensures next.Continue? ==> (old(p.pos) < p.pos <= |ts| && next.pos == p.pos &&
      GroupLoop(ts, old(p.pos), operator, filters) == GroupLoop(ts, p.pos, next.op, next.filters))
    ensures next.Stop? ==> GroupLoop(ts, old(p.pos), operator, filters) == next.r
    decreases |ts|, 0
  {
    var tok, ok := p.PeekToken();
    if !ok {
      return Stop(Ok((SqlGroup(operator, filters), p.pos)));
    }
    var pos := p.pos;
    assert tok == ts[pos];
    if tok.typ == TokenBoolean {
      var _, _ := p.NextToken();
      LoopBoolean(ts, pos, operator, filters);
      return Continue(p.pos, ToUpper(tok.value), filters);
    }
    if tok.typ == TokenLParen {
      var _, _ := p.NextToken();
      var sub := ParseFilterGroup(ts[pos + 1..]);
      LoopParen(ts, pos, operator, filters);
      if sub.Err? {
        return Stop(Err(sub.msg));
      }
      p.pos := p.pos + sub.value.1;
      return Continue(p.pos, operator, filters + [SqlFilter("", "", Sub(sub.value.0))]);
    }
    if tok.typ == TokenRParen {
      var _, _ := p.NextToken();
      LoopClose(ts, pos, operator, filters);
      return Stop(Ok((SqlGroup(operator, filters), p.pos)));
    }
    var f := ParseFilterOf(ts[pos..]);
    if f.Err? {
      return Stop(Err(f.msg));
    }
    LoopFilter(ts, pos, operator, filters);
    p.pos := p.pos + f.value.1;
    return Continue(p.pos, operator, filters + [f.value.0]);
  }

  /** The loop at a token that starts a filter. */
  lemma LoopFilter(ts: seq<Token>, pos: nat, op: string, acc: seq<SqlFilter>)
    requires pos < |ts| && ts[pos].typ !in {TokenBoolean, TokenLParen, TokenRParen}
    requires ParseFilter(ts[pos..]).Ok?
    ensures pos < pos + ParseFilter(ts[pos..]).value.1 <= |ts|
    ensures GroupLoop(ts, pos, op, acc) ==
      GroupLoop(ts, pos + ParseFilter(ts[pos..]).value.1, op, acc + [ParseFilter(ts[pos..]).value.0])
  {
    ParseFilterMeaning(ts[pos..]);
  }

  /** The loop at a BOOLEAN token. */
  lemma LoopBoolean(ts: seq<Token>, pos: nat, op: string, acc: seq<SqlFilter>)
    requires pos < |ts| && ts[pos].typ == TokenBoolean
    ensures GroupLoop(ts, pos, op, acc) == GroupLoop(ts, pos + 1, ToUpper(ts[pos].value), acc)
  {
  }

  /** The loop at a closing parenthesis. */
  lemma LoopClose(ts: seq<Token>, pos: nat, op: string, acc: seq<SqlFilter>)
    requires pos < |ts| && ts[pos].typ == TokenRParen
    ensures GroupLoop(ts, pos, op, acc) == Ok((SqlGroup(op, acc), pos + 1))
  {
  }

  /** The loop at an opening parenthesis. */
  lemma LoopParen(ts: seq<Token>, pos: nat, op: string, acc: seq<SqlFilter>)
    requires pos < |ts| && ts[pos].typ == TokenLParen
    ensures GroupFrom(ts[pos + 1..]).Err? ==> GroupLoop(ts, pos, op, acc) == Err(GroupFrom(ts[pos + 1..]).msg)
    ensures GroupFrom(ts[pos + 1..]).Ok? ==> (GroupLoop(ts, pos, op, acc) ==
      GroupLoop(ts, pos + 1 + GroupFrom(ts[pos + 1..]).value.1, op, acc + [SqlFilter("", "", Sub(GroupFrom(ts[pos + 1..]).value.0))]))
  {
  }

  /** Without BOOLEAN tokens the group keeps the operator it started with. */
  lemma {:induction false} LoopKeepsOperator(ts: seq<Token>, pos: nat, op: string, acc: seq<SqlFilter>)
    requires pos <= |ts|
    requires forall j :: pos <= j < |ts| ==> ts[j].typ != TokenBoolean
    requires GroupLoop(ts, pos, op, acc).Ok?
    ensures GroupLoop(ts, pos, op, acc).value.0.operator == op
    decreases |ts| - pos
  {
    if pos < |ts| {
      var t := ts[pos];
      if t.typ == TokenLParen {
        var (g, consumed) := GroupFrom(ts[pos + 1..]).value;
        LoopKeepsOperator(ts, pos + 1 + consumed, op, acc + [SqlFilter("", "", Sub(g))]);
      } else if t.typ != TokenRParen {
        ParseFilterMeaning(ts[pos..]);
        var (f, consumed) := ParseFilter(ts[pos..]).value;
        LoopKeepsOperator(ts, pos + consumed, op, acc + [f]);
      }
    }
  }

  /** A keyword where a filter should start, such as AND or OR after a comparison,
      fails the whole group with "expected field name". */
  lemma KeywordRejected(ts: seq<Token>, pos: nat, op: string, acc: seq<SqlFilter>)
    requires pos < |ts| && ts[pos].typ == TokenKeyword
    ensures GroupLoop(ts, pos, op, acc) == Err("expected field name")
  {
    assert ts[pos..][0] == ts[pos];
  }

  /** `a = 1 AND b = 2` after WHERE: the first comparison parses, then AND fails. */
  lemma ConjunctionRejected(a: string, one: string, rest: seq<Token>)
    ensures GroupFrom([Token(TokenIdentifier, a), Token(TokenOperator, "="), Token(TokenValue, one),
      Token(TokenKeyword, "AND")] + rest) == Err("expected field name")
  {
    var ts := [Token(TokenIdentifier, a), Token(TokenOperator, "="), Token(TokenValue, one),
      Token(TokenKeyword, "AND")] + rest;
    var f := SqlFilter(a, Operators.Equal, Text(one));
    EqualsStep(ts, 0, "", []);
    assert [] + [f] == [f];
    KeywordRejected(ts, 3, "", [f]);
  }

  /** A comparison `field = value` at `pos` adds its filter and moves three tokens on. */
  lemma EqualsStep(ts: seq<Token>, pos: nat, op: string, acc: seq<SqlFilter>)
    requires pos + 2 < |ts|
    requires ts[pos].typ == TokenIdentifier && ts[pos + 1] == Token(TokenOperator, "=") && ts[pos + 2].typ == TokenValue
    ensures GroupLoop(ts, pos, op, acc) ==
      GroupLoop(ts, pos + 3, op, acc + [SqlFilter(ts[pos].value, Operators.Equal, Text(ts[pos + 2].value))])
  {
    var rest := ts[pos..];
    assert rest[0] == ts[pos] && rest[1] == ts[pos + 1] && rest[2] == ts[pos + 2];
    assert ToUpper("=") == "=";
    assert ParseFilter(rest) == Ok((SqlFilter(ts[pos].value, Operators.Equal, Text(ts[pos + 2].value)), 3));
  }

  /** A parenthesised comparison is one filter with empty field and operator whose
      value is the nested group. */
  lemma ParenthesisedGroup(field: string, v: string)
    ensures GroupFrom([Token(TokenLParen, "("), Token(TokenIdentifier, field), Token(TokenOperator, "="),
      Token(TokenValue, v), Token(TokenRParen, ")")]) ==
      Ok((SqlGroup("", [SqlFilter("", "", Sub(SqlGroup("", [SqlFilter(field, Operators.Equal, Text(v))])))]), 5))
  {
    var ts := [Token(TokenLParen, "("), Token(TokenIdentifier, field), Token(TokenOperator, "="),
      Token(TokenValue, v), Token(TokenRParen, ")")];
    var inner := ts[1..];
    var f := SqlFilter(field, Operators.Equal, Text(v));
    EqualsStep(inner, 0, "", []);
    assert [] + [f] == [f];
    assert GroupLoop(inner, 3, "", [f]) == Ok((SqlGroup("", [f]), 4));
    var g := SqlGroup("", [f]);
    assert GroupFrom(inner) == Ok((g, 4));
    assert [] + [SqlFilter("", "", Sub(g))] == [SqlFilter("", "", Sub(g))];
    assert GroupLoop(ts, 0, "", []) == GroupLoop(ts, 5, "", [SqlFilter("", "", Sub(g))]);
  }

  // ---- FromSQL -------------------------------------------------------------------

  predicate IsWhere(t: Token)
  {
    t.typ == TokenKeyword && ToUpper(t.value) == "WHERE"
  }

  /** The tokens FromSQL keeps: before a WHERE only non-keywords, after one every token
      except further WHEREs. */
  function Select(ts: seq<Token>, seen: bool): seq<Token>
  {
    if ts == [] then []
    else if IsWhere(ts[0]) then Select(ts[1..], true)
    else (if seen || ts[0].typ != TokenKeyword then [ts[0]] else []) + Select(ts[1..], seen)
  }

  function NotKeyword(t: Token): bool { t.typ != TokenKeyword }
  function NotWhere(t: Token): bool { !IsWhere(t) }

  /** Select after the first WHERE keeps every token but WHERE. */
  lemma {:induction false} SelectSeen(ts: seq<Token>)
    ensures Select(ts, true) == Where(ts, NotWhere)
    decreases |ts|
  {
    if ts != [] {
      SelectSeen(ts[1..]);
    }
  }

  /** Without a WHERE, Select keeps the non-keyword tokens. */
  lemma {:induction false} SelectWithoutWhere(ts: seq<Token>)
    requires forall j :: 0 <= j < |ts| ==> !IsWhere(ts[j])
    ensures Select(ts, false) == Where(ts, NotKeyword)
    decreases |ts|
  {
    if ts != [] {
      assert !IsWhere(ts[0]);
      SelectWithoutWhere(ts[1..]);
    }
  }

  /** Before the first WHERE, Select keeps the non-keyword tokens; after it, every
      token but WHERE. */
  lemma {:induction false} SelectAtWhere(ts: seq<Token>, w: nat)
    requires w < |ts| && IsWhere(ts[w])
    requires forall j :: 0 <= j < w ==> !IsWhere(ts[j])
    ensures Select(ts, false) == Where(ts[..w], NotKeyword) + Where(ts[w + 1..], NotWhere)
    decreases w
  {
    if w == 0 {
      SelectSeen(ts[1..]);
      assert ts[..0] == [];
    } else {
      assert !IsWhere(ts[0]);
      SelectAtWhere(ts[1..], w - 1);
      assert ts[1..][..w - 1] == ts[..w][1..];
      assert ts[1..][w - 1 + 1..] == ts[w + 1..];
      assert ts[..w][0] == ts[0];
    }
  }

  /** Every token Select keeps is one of the input tokens. */
  lemma {:induction false} SelectMembers(ts: seq<Token>, seen: bool)
    ensures forall t :: t in Select(ts, seen) ==> t in ts
    decreases |ts|
  {
    if ts != [] {
      SelectMembers(ts[1..], true);
      SelectMembers(ts[1..], seen);
    }
  }

  /** FromSQL as a function. */
  function FromSql(sql: string): Result<SqlGroup>
  {
    match TokensOf(sql)
    case Err(m) => Err(m)
    case Ok(ts) =>
      var kept := Select(ts, false);
      if kept == [] then Err("no WHERE clause found")
      else
        match GroupFrom(kept)
        case Err(m) => Err(m)
        case Ok((g, _)) => Ok(g)
  }

  /** The group FromSQL returns always has the empty operator, because no token is
      BOOLEAN. */
  lemma FromSqlOperatorEmpty(sql: string)
    requires FromSql(sql).Ok?
    ensures FromSql(sql).value.operator == ""
  {
    FromSqlGroup(sql);
    var kept := Select(TokensOf(sql).value, false);
    SelectedNotBoolean(sql);
    LoopKeepsOperator(kept, 0, "", []);
  }

  /** A successful FromSQL returns the group parsed from the tokens after WHERE. */
  lemma FromSqlGroup(sql: string)
    requires FromSql(sql).Ok?
    ensures TokensOf(sql).Ok?
    ensures var g := GroupFrom(Select(TokensOf(sql).value, false));
      g.Ok? && FromSql(sql).value == g.value.0
  {
  }

  /** The tokens FromSQL keeps after WHERE hold no BOOLEAN token. */
  lemma SelectedNotBoolean(sql: string)
    requires TokensOf(sql).Ok?
    ensures var kept := Select(TokensOf(sql).value, false);
      forall j :: 0 <= j < |kept| ==> kept[j].typ != TokenBoolean
  {
    TokensShaped(sql);
    var kept := Select(TokensOf(sql).value, false);
    SelectMembers(TokensOf(sql).value, false);
    assert forall j :: 0 <= j < |kept| ==> kept[j] in kept;
  }

  /** FromSQL. */
  method FromSQL(sql: string) returns (r: Result<SqlGroup>)
    ensures r == FromSql(sql)
  {
    var tokens := Tokenize(sql);
    if tokens.Err? {
      return Err(tokens.msg);
    }
    var whereTokens := WhereTokens(tokens.value);
    if |whereTokens| == 0 {
      return Err("no WHERE clause found");
    }
    var group := ParseFilterGroup(whereTokens);
    if group.Err? {
      return Err(group.msg);
    }
    return Ok(group.value.0);
  }

  /** The selection loop of FromSQL. */
  method WhereTokens(tokens: seq<Token>) returns (whereTokens: seq<Token>)
    ensures whereTokens == Select(tokens, false)
  {
    whereTokens := [];
    var whereClause := false;
    for i := 0 to |tokens|
      invariant Select(tokens, false) == whereTokens + Select(tokens[i..], whereClause)
    {
      var tok := tokens[i];
      SelectStep(tokens, i, whereClause);
      if IsWhere(tok) {
        whereClause := true;
        continue;
      }
      if whereClause || tok.typ != TokenKeyword {
        SeqAssoc(whereTokens, [tok], Select(tokens[i + 1..], whereClause));
        whereTokens := whereTokens + [tok];
      }
    }
    assert whereTokens + [] == whereTokens;
  }

  /** Select at index `i` of the tokens. */
  lemma SelectStep(ts: seq<Token>, i: nat, seen: bool)
    requires i < |ts|
    ensures IsWhere(ts[i]) ==> Select(ts[i..], seen) == Select(ts[i + 1..], true)
    ensures !IsWhere(ts[i]) && (seen || ts[i].typ != TokenKeyword) ==> Select(ts[i..], seen) == [ts[i]] + Select(ts[i + 1..], seen)
    ensures !IsWhere(ts[i]) && !(seen || ts[i].typ != TokenKeyword) ==> Select(ts[i..], seen) == Select(ts[i + 1..], seen)
  {
    assert ts[i..][0] == ts[i] && ts[i..][1..] == ts[i + 1..];
  }
}
