/** The byte-level tokenizer of the SQL front end (`tokenize` and its scanners) and the
    pass that merges compound operators. Date recognition is the abstract
    `Utils.Lib.isValidDateTime`. */
module Lexer {
  import opened Wrappers
  import opened Text
  import Utils

  datatype TokenType =
    | TokenIdentifier | TokenOperator | TokenValue | TokenBoolean | TokenLParen
    | TokenRParen | TokenKeyword | TokenComma | TokenVariable
    /** the type of Go's zero token */
    | NoTokenType

  datatype Token = Token(typ: TokenType, value: string)

  /** The zero token `token{}`. */
  const ZeroToken := Token(NoTokenType, "")

  const KeywordWords: set<string> := {
    "SELECT", "FROM", "WHERE", "AND", "OR", "IS", "NULL", "NOT LIKE", "NOT", "BETWEEN",
    "NOT BETWEEN", "LIKE", "IN"}

  const OperatorWords: set<string> := {
    "=", "!=", "<>", ">", "<", ">=", "<=", "LIKE", "NOT LIKE", "BETWEEN", "NOT BETWEEN",
    "IN", "NOT IN", "IS NULL", "IS NOT NULL"}

  predicate IsKeyword(s: string) { ToUpper(s) in KeywordWords }
  predicate IsOperator(s: string) { ToUpper(s) in OperatorWords }
  predicate IsBoolean(s: string) { ToUpper(s) == "TRUE" || ToUpper(s) == "FALSE" }
  predicate IsWhitespace(c: char) { c == ' ' || c == '\t' || c == '\n' }

  /** isOperatorStart(c), which asks isOperator(string(c)); OperatorStarts shows that
      only `=`, `<` and `>` pass that test. */
  predicate IsOperatorStart(c: char) { c == '=' || c == '<' || c == '>' }

  /** The one-character operators are exactly `=`, `<` and `>`, so `!` does not start
      an operator. */
  lemma OperatorStarts(c: char)
    ensures IsOperator([c]) <==> IsOperatorStart(c)
  {
    assert ToUpper([c]) == [UpperChar(c)];
    if IsOperator([c]) {
      assert |[UpperChar(c)]| == 1;
    }
  }

  /** A character that may continue an identifier or keyword. */
  predicate IdentChar(c: char)
  {
    !IsWhitespace(c) && !IsOperatorStart(c) && c != '(' && c != ')' && c != ','
  }

  /** The end of the run of characters satisfying `p` that starts at `start`. */
  function ScanEnd(input: string, start: nat, p: char -> bool): (k: nat)
    requires start <= |input|
    ensures start <= k <= |input|
    ensures forall j :: start <= j < k ==> p(input[j])
    ensures k == |input| || !p(input[k])
    decreases |input| - start
  {
    if start == |input| || !p(input[start]) then start else ScanEnd(input, start + 1, p)
  }

  /** The index of the first `}}` at or after `start`, or |input| when there is none. */
  function CloseBraces(input: string, start: nat): (k: nat)
    requires start <= |input|
    ensures start <= k <= |input|
    ensures forall j :: start <= j < k ==> !(input[j] == '}' && j + 1 < |input| && input[j + 1] == '}')
    ensures k < |input| ==> input[k] == '}' && k + 1 < |input| && input[k + 1] == '}'
    decreases |input| - start
  {
    if start == |input| || (input[start] == '}' && start + 1 < |input| && input[start + 1] == '}') then start
    else CloseBraces(input, start + 1)
  }

  // ---- scanners ----------------------------------------------------------------

  /** parseStringLiteral: the text between the opening quote at `start` and the next
      quote, verbatim, with the index just past the closing quote. */
  method ParseStringLiteral(input: string, start: nat) returns (r: Result<(string, nat)>)
    requires start < |input|
    ensures var k := ScanEnd(input, start + 1, NotQuote);
      if k < |input| then r == Ok((input[start + 1..k], k + 1)) else r == Err("unclosed string literal")
  {
    var i := start + 1;
    while i < |input| && input[i] != '\''
      invariant start + 1 <= i <= |input|
      invariant ScanEnd(input, start + 1, NotQuote) == ScanEnd(input, i, NotQuote)
      decreases |input| - i
    {
      i := i + 1;
    }
    if i < |input| && input[i] == '\'' {
      return Ok((input[start + 1..i], i + 1));
    }
    return Err("unclosed string literal");
  }

  /** parseVariable: the text from after the `{{` at `start` up to the first `}}`, with
      the index just past it. */
  method ParseVariable(input: string, start: nat) returns (r: Result<(string, nat)>)
    requires start + 2 <= |input|
    ensures var k := CloseBraces(input, start + 2);
      if k < |input| then r == Ok((input[start + 2..k], k + 2)) else r == Err("unclosed variable")
  {
    var i := start + 2;
    while i < |input| && !(input[i] == '}' && i + 1 < |input| && input[i + 1] == '}')
      invariant start + 2 <= i <= |input|
      invariant CloseBraces(input, start + 2) == CloseBraces(input, i)
      decreases |input| - i
    {
      i := i + 1;
    }
    if i < |input| && input[i] == '}' && i + 1 < |input| && input[i + 1] == '}' {
      return Ok((input[start + 2..i], i + 2));
    }
    return Err("unclosed variable");
  }

  /** The three run scanners: parseNumber (digits), parseOperator (operator starts) and
      parseIdentifierOrKeyword (identifier characters). */
  method ScanRun(input: string, start: nat, p: char -> bool) returns (value: string, next: nat)
    requires start <= |input|
    ensures next == ScanEnd(input, start, p) && value == input[start..next]
  {
    var i := start;
    while i < |input| && p(input[i])
      invariant start <= i <= |input|
      invariant ScanEnd(input, start, p) == ScanEnd(input, i, p)
      decreases |input| - i
    {
      i := i + 1;
    }
    return input[start..i], i;
  }

  // ---- one step of tokenize -------------------------------------------------------

  /** The token for a word read by parseIdentifierOrKeyword in the default case. */
  function WordToken(lib: Utils.Lib, value: string): (t: Token)
    ensures t.typ == TokenKeyword ==> t.value in KeywordWords
    ensures t.typ == TokenIdentifier ==> t.value == value && !IsKeyword(value) && !IsBoolean(value)
    ensures t.typ == TokenKeyword || t.typ == TokenIdentifier || t.typ == TokenValue
    ensures t.typ != TokenIdentifier ==> t.value == ToUpper(value)
  {
    if IsKeyword(value) then Token(TokenKeyword, ToUpper(value))
    else if lib.isValidDateTime(value) then Token(TokenValue, ToUpper(value))
    else if IsBoolean(value) then Token(TokenValue, ToUpper(value))
    else Token(TokenIdentifier, value)
  }

  predicate NotQuote(c: char) { c != '\'' }

  /** A quoted literal starting at `i`. */
  function LiteralStep(input: string, i: nat): (r: Result<(seq<Token>, nat)>)
    requires i < |input|
    ensures r.Ok? ==> i < r.value.1 <= |input|
  {
    var k := ScanEnd(input, i + 1, NotQuote);
    if k < |input| then Ok(([Token(TokenValue, input[i + 1..k])], k + 1))
    else Err("unclosed string literal")
  }

  /** A `{{...}}` variable starting at `i`. */
  function VariableStep(input: string, i: nat): (r: Result<(seq<Token>, nat)>)
    requires i + 2 <= |input|
    ensures r.Ok? ==> i < r.value.1 <= |input|
  {
    var k := CloseBraces(input, i + 2);
    if k < |input| then Ok(([Token(TokenVariable, "{{" + input[i + 2..k] + "}}")], k + 2))
    else Err("unclosed variable")
  }

  /** A digit at `i`: a date if the whole word is one, else the maximal run of digits. */
  function DigitStep(lib: Utils.Lib, input: string, i: nat): (r: (seq<Token>, nat))
    requires i < |input| && IsDigit(input[i])
    ensures i < r.1 <= |input|
    ensures !lib.isValidDateTime(input[i..ScanEnd(input, i, IdentChar)]) ==>
      r == ([Token(TokenValue, input[i..ScanEnd(input, i, IsDigit)])], ScanEnd(input, i, IsDigit))
  {
    var k := ScanEnd(input, i, IdentChar);
    if lib.isValidDateTime(input[i..k]) then ([Token(TokenValue, ToUpper(input[i..k]))], k)
    else
      var n := ScanEnd(input, i, IsDigit);
      ([Token(TokenValue, input[i..n])], n)
  }

  /** An operator start at `i`: the run of operator characters, followed by a value
      token when the word right after it is a date. */
  function OperatorStep(lib: Utils.Lib, input: string, i: nat): (r: (seq<Token>, nat))
    requires i < |input| && IsOperatorStart(input[i])
    ensures i < r.1 <= |input|
  {
    var k := ScanEnd(input, i, IsOperatorStart);
    var w := ScanEnd(input, k, IdentChar);
    if lib.isValidDateTime(input[k..w]) then
      ([Token(TokenOperator, input[i..k]), Token(TokenValue, ToUpper(input[k..w]))], w)
    else ([Token(TokenOperator, input[i..k])], k)
  }

  /** Any other character at `i` starts a word. */
  function WordStep(lib: Utils.Lib, input: string, i: nat): (r: (seq<Token>, nat))
    requires i < |input| && IdentChar(input[i])
    ensures i < r.1 <= |input|
  {
    var k := ScanEnd(input, i, IdentChar);
    ([WordToken(lib, input[i..k])], k)
  }

  /** What tokenize's switch does at index `i`: the tokens it appends and the index it
      continues at, which is always further on. */
  function Step(lib: Utils.Lib, input: string, i: nat): (r: Result<(seq<Token>, nat)>)
    requires i < |input|
    ensures r.Ok? ==> i < r.value.1 <= |input|
  {
    var c := input[i];
    if IsWhitespace(c) then Ok(([], i + 1))
    else if c == '(' then Ok(([Token(TokenLParen, "(")], i + 1))
    else if c == ')' then Ok(([Token(TokenRParen, ")")], i + 1))
    else if c == ',' then Ok(([Token(TokenComma, ",")], i + 1))
    else if c == '\'' then LiteralStep(input, i)
    else if c == '{' && i + 1 < |input| && input[i + 1] == '{' then VariableStep(input, i)
    else if IsDigit(c) then Ok(DigitStep(lib, input, i))
    else if IsOperatorStart(c) then Ok(OperatorStep(lib, input, i))
    else Ok(WordStep(lib, input, i))
  }

  /** The tokens of `input` from index `i` on, before compound operators are merged. */
  function LexFrom(lib: Utils.Lib, input: string, i: nat): Result<seq<Token>>
    requires i <= |input|
    decreases |input| - i
  {
    if i == |input| then Ok([])
    else
      var (ts, j) :- Step(lib, input, i);
      var rest :- LexFrom(lib, input, j);
      Ok(ts + rest)
  }

  /** Tokens already appended, followed by what the rest of the input gives. */
  function Then(ts: seq<Token>, rest: Result<seq<Token>>): Result<seq<Token>>
  {
    if rest.Ok? then Ok(ts + rest.value) else rest
  }

  /** One pass of tokenize's loop body. */
  method LexStep(lib: Utils.Lib, input: string, i: nat) returns (r: Result<(seq<Token>, nat)>)
    requires i < |input|
    ensures r == Step(lib, input, i)
  {
    var c := input[i];
    if IsWhitespace(c) {
      return Ok(([], i + 1));
    } else if c == '(' || c == ')' || c == ',' {
      var typ := if c == '(' then TokenLParen else if c == ')' then TokenRParen else TokenComma;
      return Ok(([Token(typ, [c])], i + 1));
    } else if c == '\'' {
      r := LexLiteral(input, i);
    } else if c == '{' && i + 1 < |input| && input[i + 1] == '{' {
      r := LexVariable(input, i);
    } else if IsDigit(c) {
      var step := LexNumber(lib, input, i);
      return Ok(step);
    } else if IsOperatorStart(c) {
      var step := LexOperator(lib, input, i);
      return Ok(step);
    } else {
      var value, next := ScanRun(input, i, IdentChar);
      return Ok(([WordToken(lib, value)], next));
    }
  }

  /** The quote case of tokenize. */
  method LexLiteral(input: string, i: nat) returns (r: Result<(seq<Token>, nat)>)
    requires i < |input|
    ensures r == LiteralStep(input, i)
  {
    var lit := ParseStringLiteral(input, i);
    if lit.Err? {
      return Err(lit.msg);
    }
    return Ok(([Token(TokenValue, lit.value.0)], lit.value.1));
  }

  /** The `{{` case of tokenize. */
  method LexVariable(input: string, i: nat) returns (r: Result<(seq<Token>, nat)>)
    requires i + 2 <= |input|
    ensures r == VariableStep(input, i)
  {
    var v := ParseVariable(input, i);
    if v.Err? {
      return Err(v.msg);
    }
    return Ok(([Token(TokenVariable, "{{" + v.value.0 + "}}")], v.value.1));
  }

  /** The digit case of tokenize. */
  method LexNumber(lib: Utils.Lib, input: string, i: nat) returns (r: (seq<Token>, nat))
    requires i < |input| && IsDigit(input[i])
    ensures r == DigitStep(lib, input, i)
  {
    var value, next := ScanRun(input, i, IdentChar);
    if lib.isValidDateTime(value) {
      return ([Token(TokenValue, ToUpper(value))], next);
    }
    value, next := ScanRun(input, i, IsDigit);
    return ([Token(TokenValue, value)], next);
  }

  /** The operator case of tokenize. */
  method LexOperator(lib: Utils.Lib, input: string, i: nat) returns (r: (seq<Token>, nat))
    requires i < |input| && IsOperatorStart(input[i])
    ensures r == OperatorStep(lib, input, i)
  {
    var value, next := ScanRun(input, i, IsOperatorStart);
    var word, after := ScanRun(input, next, IdentChar);
    if lib.isValidDateTime(word) {
      return ([Token(TokenOperator, value), Token(TokenValue, ToUpper(word))], after);
    }
    return ([Token(TokenOperator, value)], next);
  }

  /** What tokenize returns: the merged token stream of the trimmed input, or the
      first scanner error. */
  function TokensOf(lib: Utils.Lib, source: string): Result<seq<Token>>
  {
    var raw := LexFrom(lib, TrimSpace(source), 0);
    if raw.Ok? then Ok(Combine(raw.value)) else Err(raw.msg)
  }

  /** tokenize: trims the input, appends tokens until the end or the first error, then
      merges compound operators. */
  method Tokenize(lib: Utils.Lib, source: string) returns (r: Result<seq<Token>>)
    ensures r == TokensOf(lib, source)
  {
    var raw := LexAll(lib, TrimSpace(source));
    if raw.Err? {
      return Err(raw.msg);
    }
    var merged := CombineCompoundOperators(raw.value);
    return Ok(merged);
  }

  /** The loop of tokenize: one step at a time from the start of the trimmed input,
      stopping at the first error. */
  method LexAll(lib: Utils.Lib, input: string) returns (r: Result<seq<Token>>)
    ensures r == LexFrom(lib, input, 0)
  {
    var tokens: seq<Token> := [];
    var i := 0;
    assert LexFrom(lib, input, 0).Ok? ==> [] + LexFrom(lib, input, 0).value == LexFrom(lib, input, 0).value;
    while i < |input|
      invariant i <= |input|
      invariant LexFrom(lib, input, 0) == Then(tokens, LexFrom(lib, input, i))
      decreases |input| - i
    {
      var step := LexStep(lib, input, i);
      if step.Err? {
        return Err(step.msg);
      }
      ThenStep(lib, input, i, tokens);
      tokens := tokens + step.value.0;
      i := step.value.1;
    }
    assert tokens + [] == tokens;
    return Ok(tokens);
  }

  lemma ThenStep(lib: Utils.Lib, input: string, i: nat, tokens: seq<Token>)
    requires i < |input| && Step(lib, input, i).Ok?
    ensures Then(tokens, LexFrom(lib, input, i))
      == Then(tokens + Step(lib, input, i).value.0, LexFrom(lib, input, Step(lib, input, i).value.1))
  {
    var (ts, j) := Step(lib, input, i).value;
    var rest := LexFrom(lib, input, j);
    if rest.Ok? {
      assert tokens + (ts + rest.value) == tokens + ts + rest.value;
    }
  }

  // ---- the shape of the tokens --------------------------------------------------

  /** What tokenize promises about each token before merging: keyword tokens hold an
      upper-cased keyword, identifiers keep their text and are neither keywords nor
      booleans, operator tokens are runs of `=`, `<` and `>`, and variables keep their
      braces. */
  predicate Shaped(t: Token)
  {
    match t.typ
    case TokenKeyword => t.value in KeywordWords
    case TokenIdentifier => t.value != [] && !IsKeyword(t.value) && !IsBoolean(t.value)
      && forall j :: 0 <= j < |t.value| ==> IdentChar(t.value[j])
    case TokenOperator => t.value != [] && forall j :: 0 <= j < |t.value| ==> IsOperatorStart(t.value[j])
    case TokenVariable => HasPrefix(t.value, "{{") && HasSuffix(t.value, "}}")
    case TokenLParen => t.value == "("
    case TokenRParen => t.value == ")"
    case TokenComma => t.value == ","
    case TokenValue => true
    case TokenBoolean => false
    case NoTokenType => false
  }

  lemma {:induction false} StepShaped(lib: Utils.Lib, input: string, i: nat)
    requires i < |input| && Step(lib, input, i).Ok?
    ensures forall t :: t in Step(lib, input, i).value.0 ==> Shaped(t)
  {
    var c := input[i];
    if !IsWhitespace(c) && c != '(' && c != ')' && c != ',' && c != '\''
      && !(c == '{' && i + 1 < |input| && input[i + 1] == '{') && !IsDigit(c) {
      if IsOperatorStart(c) {
        var k := ScanEnd(input, i, IsOperatorStart);
        assert input[i..k] != [] && forall j :: 0 <= j < k - i ==> input[i..k][j] == input[i + j];
      } else {
        var k := ScanEnd(input, i, IdentChar);
        assert input[i..k] != [] && forall j :: 0 <= j < k - i ==> input[i..k][j] == input[i + j];
      }
    } else if c == '{' && i + 1 < |input| && input[i + 1] == '{' {
      var k := CloseBraces(input, i + 2);
      var v := "{{" + input[i + 2..k] + "}}";
      assert v[..2] == "{{" && v[|v| - 2..] == "}}";
    }
  }

  /** Every token tokenize produces before merging is shaped; in particular no
      operator token contains `!`, so `!=` is never one operator token. */
  lemma {:induction false} LexShaped(lib: Utils.Lib, input: string, i: nat)
    requires i <= |input| && LexFrom(lib, input, i).Ok?
    ensures forall t :: t in LexFrom(lib, input, i).value ==> Shaped(t)
    decreases |input| - i
  {
    if i < |input| {
      StepShaped(lib, input, i);
      LexShaped(lib, input, Step(lib, input, i).value.1);
    }
  }

  // ---- combineCompoundOperators ---------------------------------------------------

  /** The operator that a NOT or IS keyword forms with the following keyword, if any. */
  function Pair(a: Token, b: Token): Option<string>
  {
    if a.typ == TokenKeyword && b.typ == TokenKeyword
      && (ToUpper(a.value) == "NOT" || ToUpper(a.value) == "IS")
      && IsOperator(ToUpper(a.value + " " + b.value))
    then Some(ToUpper(a.value + " " + b.value))
    else None
  }

  /** The IS NOT <keyword> operator three keywords form, if any. */
  function Triple(a: Token, b: Token, c: Token): Option<string>
  {
    if a.typ == TokenKeyword && ToUpper(a.value) == "IS" && b.typ == TokenKeyword
      && ToUpper(b.value) == "NOT" && c.typ == TokenKeyword
      && IsOperator(ToUpper(a.value + " " + b.value + " " + c.value))
    then Some(ToUpper(a.value + " " + b.value + " " + c.value))
    else None
  }

  /** combineCompoundOperators as a function: a NOT or IS keyword and the keyword after
      it become one operator token when together they name an operator; IS NOT and a
      third keyword likewise; every other token passes through. */
  function Combine(ts: seq<Token>): (r: seq<Token>)
    ensures |r| <= |ts|
    decreases |ts|
  {
    if |ts| >= 2 && Pair(ts[0], ts[1]).Some? then
      [Token(TokenOperator, Pair(ts[0], ts[1]).value)] + Combine(ts[2..])
    else if |ts| >= 3 && Triple(ts[0], ts[1], ts[2]).Some? then
      [Token(TokenOperator, Triple(ts[0], ts[1], ts[2]).value)] + Combine(ts[3..])
    else if ts == [] then []
    else [ts[0]] + Combine(ts[1..])
  }

  /** combineCompoundOperators: the index loop; the body's `i++; continue` jumps are
      the width CompoundAt reports. */
  method CombineCompoundOperators(tokens: seq<Token>) returns (result: seq<Token>)
    ensures result == Combine(tokens)
  {
    result := [];
    var i := 0;
    while i < |tokens|
      invariant i <= |tokens|
      invariant Combine(tokens) == result + Combine(tokens[i..])
      decreases |tokens| - i
    {
      var merged, width := CompoundAt(tokens, i);
      result := result + [merged];
      i := i + width;
    }
  }

  /** One pass of the loop body at index `i`: the token appended and how many input
      tokens it stands for. */
  method CompoundAt(tokens: seq<Token>, i: nat) returns (merged: Token, width: nat)
    requires i < |tokens|
    ensures 1 <= width <= |tokens| - i
    ensures Combine(tokens[i..]) == [merged] + Combine(tokens[i + width..])
  {
    var rest := tokens[i..];
    assert rest[0] == tokens[i];
    if tokens[i].typ == TokenKeyword && ToUpper(tokens[i].value) == "NOT"
      && i + 1 < |tokens| && tokens[i + 1].typ == TokenKeyword {
      var compound := ToUpper(tokens[i].value + " " + tokens[i + 1].value);
      if IsOperator(compound) {
        assert rest[1] == tokens[i + 1] && rest[2..] == tokens[i + 2..];
        return Token(TokenOperator, compound), 2;
      }
    }
    if tokens[i].typ == TokenKeyword && ToUpper(tokens[i].value) == "IS"
      && i + 1 < |tokens| && tokens[i + 1].typ == TokenKeyword {
      var compound := ToUpper(tokens[i].value + " " + tokens[i + 1].value);
      if IsOperator(compound) {
        assert rest[1] == tokens[i + 1] && rest[2..] == tokens[i + 2..];
        return Token(TokenOperator, compound), 2;
      }
      if ToUpper(tokens[i + 1].value) == "NOT" && i + 2 < |tokens| && tokens[i + 2].typ == TokenKeyword {
        compound := ToUpper(tokens[i].value + " " + tokens[i + 1].value + " " + tokens[i + 2].value);
        if IsOperator(compound) {
          assert rest[1] == tokens[i + 1] && rest[2] == tokens[i + 2] && rest[3..] == tokens[i + 3..];
          return Token(TokenOperator, compound), 3;
        }
      }
    }
    assert rest[1..] == tokens[i + 1..];
    if |rest| >= 2 {
      assert rest[1] == tokens[i + 1];
    }
    if |rest| >= 3 {
      assert rest[2] == tokens[i + 2];
    }
    return tokens[i], 1;
  }

  /** A stream with no keyword token passes through unchanged. */
  lemma {:induction false} CombineWithoutKeywords(ts: seq<Token>)
    requires forall j :: 0 <= j < |ts| ==> ts[j].typ != TokenKeyword
    ensures Combine(ts) == ts
    decreases |ts|
  {
    if ts != [] {
      CombineWithoutKeywords(ts[1..]);
    }
  }

  /** NOT followed by the keyword LIKE, IN or BETWEEN becomes one operator token. */
  lemma CombineMergesNot(second: string, rest: seq<Token>)
    requires second == "LIKE" || second == "IN" || second == "BETWEEN"
    ensures Combine([Token(TokenKeyword, "NOT"), Token(TokenKeyword, second)] + rest)
      == [Token(TokenOperator, "NOT " + second)] + Combine(rest)
  {
    if second == "LIKE" {
      PairNames("NOT", "LIKE", "NOT LIKE");
      assert "NOT " + second == "NOT LIKE";
    } else if second == "IN" {
      PairNames("NOT", "IN", "NOT IN");
      assert "NOT " + second == "NOT IN";
    } else {
      PairNames("NOT", "BETWEEN", "NOT BETWEEN");
      assert "NOT " + second == "NOT BETWEEN";
    }
    MergeTwo(Token(TokenKeyword, "NOT"), Token(TokenKeyword, second), rest);
  }

  /** IS NULL and IS NOT NULL become one operator token each. */
  lemma CombineMergesIs(rest: seq<Token>)
    ensures Combine([Token(TokenKeyword, "IS"), Token(TokenKeyword, "NULL")] + rest)
      == [Token(TokenOperator, "IS NULL")] + Combine(rest)
    ensures Combine([Token(TokenKeyword, "IS"), Token(TokenKeyword, "NOT"), Token(TokenKeyword, "NULL")] + rest)
      == [Token(TokenOperator, "IS NOT NULL")] + Combine(rest)
  {
    PairNames("IS", "NULL", "IS NULL");
    MergeTwo(Token(TokenKeyword, "IS"), Token(TokenKeyword, "NULL"), rest);
    CombineMergesIsNot(rest);
  }

  lemma CombineMergesIsNot(rest: seq<Token>)
    ensures Combine([Token(TokenKeyword, "IS"), Token(TokenKeyword, "NOT"), Token(TokenKeyword, "NULL")] + rest)
      == [Token(TokenOperator, "IS NOT NULL")] + Combine(rest)
  {
    UpperFixed("IS NOT");
    assert "IS" + " " + "NOT" == "IS NOT";
    assert !IsOperator("IS NOT");
    UpperFixed("IS NOT NULL");
    assert "IS" + " " + "NOT" + " " + "NULL" == "IS NOT NULL";
    var t := [Token(TokenKeyword, "IS"), Token(TokenKeyword, "NOT"), Token(TokenKeyword, "NULL")] + rest;
    assert t[0] == Token(TokenKeyword, "IS") && t[1] == Token(TokenKeyword, "NOT") && t[2] == Token(TokenKeyword, "NULL");
    assert t[3..] == rest;
  }

  /** Two keyword tokens whose joined upper-case text is `op`. */
  lemma PairNames(a: string, b: string, op: string)
    requires a == "NOT" || a == "IS"
    requires a + " " + b == op && op in OperatorWords
    requires forall j :: 0 <= j < |op| ==> !('a' <= op[j] <= 'z')
    ensures Pair(Token(TokenKeyword, a), Token(TokenKeyword, b)) == Some(op)
  {
    UpperFixed(a);
    UpperFixed(op);
  }

  /** A pair that merges is replaced by its operator token. */
  lemma MergeTwo(x: Token, y: Token, rest: seq<Token>)
    requires Pair(x, y).Some?
    ensures Combine([x, y] + rest) == [Token(TokenOperator, Pair(x, y).value)] + Combine(rest)
  {
    var t := [x, y] + rest;
    assert t[0] == x && t[1] == y && t[2..] == rest;
  }

  /** A string with no lower-case letter is its own upper-case form. */
  lemma UpperFixed(s: string)
    requires forall j :: 0 <= j < |s| ==> !('a' <= s[j] <= 'z')
    ensures ToUpper(s) == s
  {
  }

  /** A quoted 'IN' is a value token, so it is never merged with a preceding NOT. */
  lemma QuotedInNotMerged(rest: seq<Token>)
    ensures Combine([Token(TokenKeyword, "NOT"), Token(TokenValue, "IN")] + rest)
      == [Token(TokenKeyword, "NOT")] + Combine([Token(TokenValue, "IN")] + rest)
  {
    var t := [Token(TokenKeyword, "NOT"), Token(TokenValue, "IN")] + rest;
    assert t[1..] == [Token(TokenValue, "IN")] + rest;
  }
}
