/** The recursive-descent parser of the SQL front end: the `parser` cursor over a token
    stream, `parseFilter` and the keyword sub-parsers, `parseFilterGroup` and
    `ParseSQL`. Each method is proved against a function on the token stream. */
module Parser {
  import opened Wrappers
  import opened Values
  import opened Text
  import opened Operators
  import opened Conditions
  import opened Tree
  import opened Lexer
  import opened Where
  import Utils

  /** What a parse step does: a value, an error, or, where the Go loop would spin for
      ever on the zero token, divergence. */
  datatype Outcome<+T> = Done(value: T) | Fail(msg: string) | Diverge

  /** The first three results of parseFilter and its sub-parsers: the filter, the
      boolean combinator it met instead, and the parser position it stopped at. */
  datatype Parsed = Parsed(filter: Option<Filter>, ops: string, consumed: nat)

  /** The `parser` struct: a token slice and a cursor. */
  class Parser {
    const tokens: seq<Token>
    var pos: nat

    constructor (tokens: seq<Token>)
      ensures this.tokens == tokens && pos == 0
    {
      this.tokens := tokens;
      pos := 0;
    }

    /** nextToken: the token at the cursor, advancing past it; the zero token and
        false at the end, where the cursor stays. */
    method NextToken() returns (tok: Token, ok: bool)
      modifies this
      ensures ok <==> old(pos) < |tokens|
      ensures ok ==> tok == tokens[old(pos)] && pos == old(pos) + 1
      ensures !ok ==> tok == ZeroToken && pos == old(pos)
    {
      if pos >= |tokens| {
        return ZeroToken, false;
      }
      tok := tokens[pos];
      pos := pos + 1;
      ok := true;
    }

    /** peekToken: nextToken without moving the cursor. */
    function PeekToken(): (r: (Token, bool))
      reads this
      ensures r.1 <==> pos < |tokens|
      ensures r.1 ==> r.0 == tokens[pos]
      ensures !r.1 ==> r.0 == ZeroToken
    {
      if pos >= |tokens| then (ZeroToken, false) else (tokens[pos], true)
    }
  }

  // ---- operators and operands --------------------------------------------------

  /** toOperator: the filter operator an SQL operator names, case-insensitively, or ""
      for any other text. */
  function ToOperator(sqlOperator: string): string
  {
    var u := ToUpper(sqlOperator);
    if u == "=" then Equal
    else if u == "!=" || u == "<>" then NotEqual
    else if u == ">" then GreaterThan
    else if u == "<" then LessThan
    else if u == ">=" then GreaterThanEqual
    else if u == "<=" then LessThanEqual
    else if u == "LIKE" then Contains
    else if u == "NOT LIKE" then NotContains
    else if u == "BETWEEN" then Between
    else if u == "IN" then In
    else if u == "NOT IN" then NotIn
    else if u == "IS NULL" then IsNull
    else if u == "IS NOT NULL" then NotNull
    else ""
  }

  /** toOperator yields one of the engine's operator codes or nothing. */
  lemma ToOperatorCodes(sqlOperator: string)
    ensures ToOperator(sqlOperator) == "" || ToOperator(sqlOperator) in AllOperators
  {
  }

  /** The lexer merges NOT BETWEEN into one operator token, but toOperator has no case
      for it, so such a filter gets the empty operator. */
  lemma NotBetweenHasNoOperator()
    ensures ToOperator("NOT BETWEEN") == ""
  {
    assert ToUpper("NOT BETWEEN") == "NOT BETWEEN";
  }

  /** A token that may stand where a value is expected. */
  predicate IsOperand(t: Token)
  {
    t.typ == TokenIdentifier || t.typ == TokenValue || t.typ == TokenVariable
  }

  // ---- LIKE patterns -------------------------------------------------------------

  /** The pattern switch of parseLike and parseNotLike: `%x%`, `%x` and `x%` choose
      the first, second and third operator, the value is stored with every leading
      and trailing `%` removed, and a pattern with `%` at neither end is refused. */
  function LikePattern(field: string, raw: string, both: string, leading: string, trailing: string): (r: Option<Filter>)
    ensures r.Some? <==> HasPrefix(raw, "%") || HasSuffix(raw, "%")
    ensures r.Some? ==> r.value.field == field && r.value.value == Str(TrimChar(raw, '%'))
    ensures r.Some? && HasPrefix(raw, "%") && HasSuffix(raw, "%") ==> r.value.operator == both
    ensures r.Some? && HasPrefix(raw, "%") && !HasSuffix(raw, "%") ==> r.value.operator == leading
    ensures r.Some? && !HasPrefix(raw, "%") ==> r.value.operator == trailing
  {
    var val := TrimChar(raw, '%');
    if HasPrefix(raw, "%") && HasSuffix(raw, "%") then Some(NewFilter(field, both, Str(val)))
    else if HasPrefix(raw, "%") then Some(NewFilter(field, leading, Str(val)))
    else if HasSuffix(raw, "%") then Some(NewFilter(field, trailing, Str(val)))
    else None
  }

  /** The NOT LIKE branch of parseFilter as written: the switch inspects the value
      after `%` was trimmed from both ends, so none of its cases can match and the
      filter keeps the untrimmed value. */
  function NotLikeAsWritten(field: string, raw: string): Filter
  {
    var val := TrimChar(raw, '%');
    match LikePattern(field, val, NotContains, NotEndsWith, NotStartsWith)
    case Some(f) => f
    case None => NewFilter(field, NotContains, Str(raw))
  }

  /** The NOT LIKE branch as evidently intended: the switch inspects the raw pattern,
      as parseLike and parseNotLike do. */
  function NotLikeIntended(field: string, raw: string): Filter
  {
    match LikePattern(field, raw, NotContains, NotEndsWith, NotStartsWith)
    case Some(f) => f
    case None => NewFilter(field, NotContains, Str(raw))
  }

  /** As written, a NOT LIKE filter is always NotContains on the untrimmed pattern. */
  lemma NotLikeKeepsPattern(field: string, raw: string)
    ensures NotLikeAsWritten(field, raw) == NewFilter(field, NotContains, Str(raw))
  {
    var val := TrimChar(raw, '%');
    assert !HasPrefix(val, "%") && !HasSuffix(val, "%") by {
      if val != [] {
        assert val[..1] == [val[0]];
        assert val[|val| - 1..] == [val[|val| - 1]];
      }
    }
  }

  /** The discrepancy on `x NOT LIKE '%ab%'`: as written the filter looks for the text
      `%ab%` literally, as intended it is NotContains "ab". */
  lemma NotLikeWithPercents()
    ensures NotLikeAsWritten("x", "%ab%") == NewFilter("x", NotContains, Str("%ab%"))
    ensures NotLikeIntended("x", "%ab%") == NewFilter("x", NotContains, Str("ab"))
  {
    NotLikeKeepsPattern("x", "%ab%");
    var raw := "%ab%";
    assert HasPrefix(raw, "%") && HasSuffix(raw, "%") by {
      assert raw[..1] == "%" && raw[3..] == "%";
    }
    TrimPercents();
  }

  /** `%` trimmed from both ends of `%ab%` leaves `ab`. */
  lemma TrimPercents()
    ensures TrimChar("%ab%", '%') == "ab"
  {
    var raw := "%ab%";
    assert raw[1..] == "ab%";
    assert "ab%"[..2] == "ab";
    assert TrimChar("ab", '%') == "ab";
    assert TrimChar("ab%", '%') == "ab";
  }

  /** The intended NOT LIKE is the negation of LIKE: the same value, and each positive
      string operator replaced by its negated form. */
  lemma NotLikeIntendedNegatesLike(field: string, raw: string)
    requires HasPrefix(raw, "%") || HasSuffix(raw, "%")
    ensures var pos := LikePattern(field, raw, Contains, EndsWith, StartsWith).value;
      var neg := NotLikeIntended(field, raw);
      neg.field == pos.field && neg.value == pos.value
      && (pos.operator == Contains <==> neg.operator == NotContains)
      && (pos.operator == EndsWith <==> neg.operator == NotEndsWith)
      && (pos.operator == StartsWith <==> neg.operator == NotStartsWith)
  {
  }

  // ---- the sub-parsers as functions of the token stream --------------------------

  /** The operator branch of parseFilter, the operator token being already consumed
      and the cursor at `pos`. */
  function OperatorSpec(ts: seq<Token>, pos: nat, field: string, op: string): (r: Outcome<Parsed>)
    ensures r.Done? ==> pos <= r.value.consumed <= pos + 1 && r.value.filter.Some? && r.value.ops == ""
  {
    if op == IsNull || op == NotNull then Done(Parsed(Some(NewFilter(field, op, Null)), "", pos))
    else if pos >= |ts| || !IsOperand(ts[pos]) then Fail("expected value")
    else if op == NotContains then Done(Parsed(Some(NotLikeAsWritten(field, ts[pos].value)), "", pos + 1))
    else Done(Parsed(Some(NewFilter(field, op, Str(ts[pos].value))), "", pos + 1))
  }

  /** parseBetween from `pos`. */
  function BetweenSpec(ts: seq<Token>, pos: nat, field: string): (r: Outcome<Parsed>)
    ensures r.Done? ==> r.value.consumed == pos + 3 <= |ts| && r.value.filter.Some? && r.value.ops == ""
  {
    if pos >= |ts| || !IsOperand(ts[pos]) then Fail("expected value")
    else if pos + 1 >= |ts| || ts[pos + 1].value != "AND" then Fail("expected AND operator")
    else if pos + 2 >= |ts| || !IsOperand(ts[pos + 2]) then Fail("expected value")
    else Done(Parsed(Some(NewFilter(field, Between, List([Str(ts[pos].value), Str(ts[pos + 2].value)]))), "", pos + 3))
  }

  /** parseLike from `pos`. */
  function LikeSpec(ts: seq<Token>, pos: nat, field: string): (r: Outcome<Parsed>)
    ensures r.Done? ==> r.value.consumed == pos + 1 <= |ts| && r.value.filter.Some? && r.value.ops == ""
  {
    if pos >= |ts| || !IsOperand(ts[pos]) then Fail("expected value")
    else match LikePattern(field, ts[pos].value, Contains, EndsWith, StartsWith)
      case Some(f) => Done(Parsed(Some(f), "", pos + 1))
      case None => Fail("unexpected LIKE pattern")
  }

  /** parseNotLike from `pos`: only an identifier token is accepted. */
  function NotLikeSpec(ts: seq<Token>, pos: nat, field: string): (r: Outcome<Parsed>)
    ensures r.Done? ==> r.value.consumed == pos + 1 <= |ts| && r.value.filter.Some? && r.value.ops == ""
  {
    if pos >= |ts| || ts[pos].typ != TokenIdentifier then Fail("expected value")
    else match LikePattern(field, ts[pos].value, NotContains, NotEndsWith, NotStartsWith)
      case Some(f) => Done(Parsed(Some(f), "", pos + 1))
      case None => Fail("unexpected LIKE pattern")
  }

  /** The index of the first `)` at or after `k`, or |ts| when there is none. */
  function CloseAt(ts: seq<Token>, k: nat): (j: nat)
    requires k <= |ts|
    ensures k <= j <= |ts|
    ensures forall i :: k <= i < j ==> ts[i].typ != TokenRParen
    ensures j < |ts| ==> ts[j].typ == TokenRParen
    decreases |ts| - k
  {
    if k == |ts| || ts[k].typ == TokenRParen then k else CloseAt(ts, k + 1)
  }

  /** The values of the operand tokens of `s`, in order. */
  function OperandValues(s: seq<Token>): (vs: seq<Value>)
    ensures |vs| <= |s|
  {
    if s == [] then []
    else (if IsOperand(s[0]) then [Str(s[0].value)] else []) + OperandValues(s[1..])
  }

  /** The loop of parseIn and parseNotIn from `k`: one token at a time up to `)`,
      keeping the operands. Past the end nextToken keeps returning the zero token,
      which is not `)`, so the loop never ends. */
  function ListFrom(ts: seq<Token>, k: nat): (r: Outcome<(seq<Value>, nat)>)
    ensures !r.Fail?
    ensures r.Done? ==> k < r.value.1 <= |ts|
    decreases |ts| - k
  {
    if k >= |ts| then Diverge
    else if ts[k].typ == TokenRParen then Done(([], k + 1))
    else
      var rest := ListFrom(ts, k + 1);
      if rest.Done? && IsOperand(ts[k]) then Done(([Str(ts[k].value)] + rest.value.0, rest.value.1))
      else rest
  }

  /** The values collected so far, followed by what the rest of the loop collects. */
  function Prepend(vs: seq<Value>, rest: Outcome<(seq<Value>, nat)>): Outcome<(seq<Value>, nat)>
  {
    if rest.Done? then Done((vs + rest.value.0, rest.value.1)) else rest
  }

  /** The list loop stops just past the first `)`, holding the operands before it in
      order, and diverges exactly when no `)` follows. */
  lemma {:induction false} ListFromMeaning(ts: seq<Token>, k: nat)
    requires k <= |ts|
    ensures var j := CloseAt(ts, k);
      if j < |ts| then ListFrom(ts, k) == Done((OperandValues(ts[k..j]), j + 1))
      else ListFrom(ts, k) == Diverge
    decreases |ts| - k
  {
    var j := CloseAt(ts, k);
    if k < |ts| && ts[k].typ != TokenRParen {
      ListFromMeaning(ts, k + 1);
      assert j == CloseAt(ts, k + 1);
      if j < |ts| {
        assert k < j;
        var s := ts[k..j];
        assert s[0] == ts[k] && s[1..] == ts[k + 1..j];
        var head := if IsOperand(ts[k]) then [Str(ts[k].value)] else [];
        assert OperandValues(s) == head + OperandValues(ts[k + 1..j]);
        if head == [] {
          assert head + OperandValues(ts[k + 1..j]) == OperandValues(ts[k + 1..j]);
        }
        assert ListFrom(ts, k) == Done((head + OperandValues(ts[k + 1..j]), j + 1));
      }
    } else if k < |ts| {
      assert ts[k..j] == [];
    }
  }

  /** parseIn (with `op` = In) and parseNotIn (with `op` = NotIn) from `pos`. */
  function InSpec(ts: seq<Token>, pos: nat, field: string, op: string): (r: Outcome<Parsed>)
    ensures r.Done? ==> pos < r.value.consumed <= |ts| && r.value.filter.Some? && r.value.ops == ""
  {
    if pos >= |ts| || ts[pos].typ != TokenLParen then Fail("expected '('")
    else
      ListFromMeaning(ts, pos + 1);
      var l := ListFrom(ts, pos + 1);
      if l.Done? then Done(Parsed(Some(NewFilter(field, op, List(l.value.0))), "", l.value.1))
      else Diverge
  }

  /** parseNot from `pos`: the token's text, whatever its type, selects NOT IN or
      NOT LIKE. */
  function NotSpec(ts: seq<Token>, pos: nat, field: string): (r: Outcome<Parsed>)
    ensures r.Done? ==> pos < r.value.consumed <= |ts| && r.value.filter.Some? && r.value.ops == ""
  {
    if pos >= |ts| then Fail("unexpected error")
    else if ts[pos].value == "IN" then InSpec(ts, pos + 1, field, NotIn)
    else if ts[pos].value == "LIKE" then NotLikeSpec(ts, pos + 1, field)
    else Fail("unexpected NOT token")
  }

  /** parseFilter on a token stream: an AND/OR keyword yields only the combinator; a
      filter is a field name followed by an operator token or one of the keywords
      BETWEEN, LIKE, IN and NOT. */
  function FilterSpec(ts: seq<Token>): (r: Outcome<Parsed>)
    ensures r.Done? ==> r.value.consumed <= |ts|
    ensures r.Done? && ts != [] ==> 1 <= r.value.consumed && (r.value.filter.None? <==> r.value.ops != "")
  {
    if ts == [] then Done(Parsed(None, "", 0))
    else if ts[0].typ == TokenKeyword && (ts[0].value == AND || ts[0].value == OR) then
      Done(Parsed(None, ts[0].value, 1))
    else if ts[0].typ != TokenIdentifier then Fail("expected field name")
    else if |ts| == 1 then Fail("unexpected error")
    else KeywordSpec(ts, ts[0].value, ts[1])
  }

  /** The part of parseFilter after the field name, `second` being the token at 1. */
  function KeywordSpec(ts: seq<Token>, field: string, second: Token): (r: Outcome<Parsed>)
    requires |ts| >= 2
    ensures r.Done? ==> 2 <= r.value.consumed <= |ts| && r.value.filter.Some? && r.value.ops == ""
  {
    if second.typ == TokenOperator then OperatorSpec(ts, 2, field, ToOperator(second.value))
    else if second.typ == TokenKeyword && second.value == "BETWEEN" then BetweenSpec(ts, 2, field)
    else if second.typ == TokenKeyword && second.value == "LIKE" then LikeSpec(ts, 2, field)
    else if second.typ == TokenKeyword && second.value == "IN" then InSpec(ts, 2, field, In)
    else if second.typ == TokenKeyword && second.value == "NOT" then NotSpec(ts, 2, field)
    else Fail("unexpected token")
  }

  // ---- the sub-parsers as methods on the shared cursor --------------------------

  /** parseBetween. */
  method ParseBetween(p: Parser, field: string) returns (r: Outcome<Parsed>)
    modifies p
    ensures r == BetweenSpec(p.tokens, old(p.pos), field)
  {
    var tok, ok := p.NextToken();
    if !ok || !IsOperand(tok) {
      return Fail("expected value");
    }
    var first := tok.value;
    tok, ok := p.NextToken();
    if !ok || tok.value != "AND" {
      return Fail("expected AND operator");
    }
    tok, ok := p.NextToken();
    if !ok || !IsOperand(tok) {
      return Fail("expected value");
    }
    return Done(Parsed(Some(NewFilter(field, Between, List([Str(first), Str(tok.value)]))), "", p.pos));
  }

  /** parseLike. */
  method ParseLike(p: Parser, field: string) returns (r: Outcome<Parsed>)
    modifies p
    ensures r == LikeSpec(p.tokens, old(p.pos), field)
  {
    var tok, ok := p.NextToken();
    if !ok || !IsOperand(tok) {
      return Fail("expected value");
    }
    var f := LikePattern(field, tok.value, Contains, EndsWith, StartsWith);
    if f.None? {
      return Fail("unexpected LIKE pattern");
    }
    return Done(Parsed(f, "", p.pos));
  }

  /** parseNotLike. */
  method ParseNotLike(p: Parser, field: string) returns (r: Outcome<Parsed>)
    modifies p
    ensures r == NotLikeSpec(p.tokens, old(p.pos), field)
  {
    var tok, ok := p.NextToken();
    if !ok || tok.typ != TokenIdentifier {
      return Fail("expected value");
    }
    var f := LikePattern(field, tok.value, NotContains, NotEndsWith, NotStartsWith);
    if f.None? {
      return Fail("unexpected LIKE pattern");
    }
    return Done(Parsed(f, "", p.pos));
  }

  /** The `for` loop of parseIn and parseNotIn: the operands up to `)`, and the cursor
      just past it. */
  method CollectList(p: Parser) returns (r: Outcome<(seq<Value>, nat)>)
    modifies p
    ensures r == ListFrom(p.tokens, old(p.pos))
    ensures r.Done? ==> p.pos == r.value.1
  {
    var items: seq<Value> := [];
    assert ListFrom(p.tokens, p.pos).Done? ==> [] + ListFrom(p.tokens, p.pos).value.0 == ListFrom(p.tokens, p.pos).value.0;
    while p.pos < |p.tokens|
      invariant old(p.pos) <= p.pos
      invariant ListFrom(p.tokens, old(p.pos)) == Prepend(items, ListFrom(p.tokens, p.pos))
      decreases |p.tokens| - p.pos
    {
      var tok, _ := p.NextToken();
      if tok.typ == TokenRParen {
        assert items + [] == items;
        return Done((items, p.pos));
      }
      if IsOperand(tok) {
        var rest := ListFrom(p.tokens, p.pos);
        if rest.Done? {
          assert items + ([Str(tok.value)] + rest.value.0) == (items + [Str(tok.value)]) + rest.value.0;
        }
        items := items + [Str(tok.value)];
      }
    }
    // Every further nextToken returns the zero token, which is not `)`.
    return Diverge;
  }

  /** parseIn (`op` = In) and parseNotIn (`op` = NotIn), which differ only in the
      operator they store. */
  method ParseIn(p: Parser, field: string, op: string) returns (r: Outcome<Parsed>)
    modifies p
    ensures r == InSpec(p.tokens, old(p.pos), field, op)
  {
    var tok, ok := p.NextToken();
    if !ok || tok.typ != TokenLParen {
      return Fail("expected '('");
    }
    var l := CollectList(p);
    if l.Diverge? {
      return Diverge;
    }
    assert l.Done?;
    return Done(Parsed(Some(NewFilter(field, op, List(l.value.0))), "", p.pos));
  }

  /** parseNot. */
  method ParseNot(p: Parser, field: string) returns (r: Outcome<Parsed>)
    modifies p
    ensures r == NotSpec(p.tokens, old(p.pos), field)
  {
    var tok, ok := p.NextToken();
    if !ok {
      return Fail("unexpected error");
    }
    if tok.value == "IN" {
      r := ParseIn(p, field, NotIn);
    } else if tok.value == "LIKE" {
      r := ParseNotLike(p, field);
    } else {
      r := Fail("unexpected NOT token");
    }
  }

  /** The operator branch of parseFilter. */
  method ParseOperand(p: Parser, field: string, operator: string) returns (r: Outcome<Parsed>)
    modifies p
    ensures r == OperatorSpec(p.tokens, old(p.pos), field, operator)
  {
    var value := Null;
    if operator != IsNull && operator != NotNull {
      var tok, ok := p.NextToken();
      if !ok || !IsOperand(tok) {
        return Fail("expected value");
      }
      if operator == NotContains {
        return Done(Parsed(Some(NotLikeAsWritten(field, tok.value)), "", p.pos));
      }
      value := Str(tok.value);
    }
    return Done(Parsed(Some(NewFilter(field, operator, value)), "", p.pos));
  }

  /** parseFilter: a fresh cursor over `tokens`. */
  method ParseFilter(tokens: seq<Token>) returns (r: Outcome<Parsed>)
    ensures r == FilterSpec(tokens)
  {
    var p := new Parser(tokens);
    var tok, ok := p.NextToken();
    if !ok || (tok.typ == TokenKeyword && (tok.value == AND || tok.value == OR)) {
      return Done(Parsed(None, tok.value, p.pos));
    }
    if tok.typ != TokenIdentifier {
      return Fail("expected field name");
    }
    var field := tok.value;
    tok, ok := p.NextToken();
    if !ok {
      return Fail("unexpected error");
    }
    if tok.typ == TokenOperator {
      r := ParseOperand(p, field, ToOperator(tok.value));
    } else if tok.typ == TokenKeyword && tok.value == "BETWEEN" {
      r := ParseBetween(p, field);
    } else if tok.typ == TokenKeyword && tok.value == "LIKE" {
      r := ParseLike(p, field);
    } else if tok.typ == TokenKeyword && tok.value == "IN" {
      r := ParseIn(p, field, In);
    } else if tok.typ == TokenKeyword && tok.value == "NOT" {
      r := ParseNot(p, field);
    } else {
      r := Fail("unexpected token");
    }
  }

  /** A quoted 'IN' is not merged with NOT by the lexer, so parseNot is reached and
      builds a NOT IN filter. */
  lemma QuotedInReachesParseNot()
    ensures FilterSpec([Token(TokenIdentifier, "x"), Token(TokenKeyword, "NOT"), Token(TokenValue, "IN"),
      Token(TokenLParen, "("), Token(TokenValue, "a"), Token(TokenRParen, ")")])
      == Done(Parsed(Some(NewFilter("x", NotIn, List([Str("a")]))), "", 6))
  {
    var ts := [Token(TokenIdentifier, "x"), Token(TokenKeyword, "NOT"), Token(TokenValue, "IN"),
      Token(TokenLParen, "("), Token(TokenValue, "a"), Token(TokenRParen, ")")];
    assert ListFrom(ts, 5) == Done(([], 6));
    assert [Str("a")] + [] == [Str("a")];
    assert ListFrom(ts, 4) == Done(([Str("a")], 6));
  }

  // ---- parseFilterGroup ------------------------------------------------------------

  /** The `&Rule{}` parseFilterGroup starts from. */
  const EmptyRule := RuleNode(None, "", None, false, "")

  /** Where parseFilterGroup puts a parsed condition: into Node when that is empty,
      else into Next, replacing what was there. */
  function Attach(rule: RuleNode, c: Condition): (r: RuleNode)
    ensures r.node.Some? && (r.node == Some(c) || r.next == Some(c))
    ensures rule.node.Some? ==> r.node == rule.node && r.next == Some(c)
    ensures rule.node.None? ==> r.next == rule.next
    ensures r.operator == rule.operator && r.reverse == rule.reverse && r.condition == rule.condition
  {
    if rule.node.None? then rule.(node := Some(c)) else rule.(next := Some(c))
  }

  /** The loop of parseFilterGroup from `pos` with the rule built so far. */
  function GroupFrom(ts: seq<Token>, pos: nat, rule: RuleNode): (r: Outcome<(RuleNode, nat)>)
    requires pos <= |ts|
    ensures r.Done? ==> pos <= r.value.1 <= |ts|
    decreases |ts| - pos, 1
  {
    if pos == |ts| then Done((rule, pos))
    else
      var t := ts[pos];
      if t.typ == TokenBoolean then GroupFrom(ts, pos + 1, rule.(operator := ToUpper(t.value)))
      else if t.typ == TokenLParen then
        match Group(ts[pos + 1..])
        case Done((g, c)) => GroupFrom(ts, pos + 1 + c, Attach(rule, Chain(g)))
        case Fail(m) => Fail(m)
        case Diverge => Diverge
      else if t.typ == TokenRParen then Done((rule, pos + 1))
      else GroupStep(ts, pos, rule, FilterSpec(ts[pos..]))
  }

  /** One parseFilter call inside the loop of parseFilterGroup. */
  function GroupStep(ts: seq<Token>, pos: nat, rule: RuleNode, f: Outcome<Parsed>): (r: Outcome<(RuleNode, nat)>)
    requires pos < |ts| && Consumes(f, |ts| - pos)
    ensures r.Done? ==> pos <= r.value.1 <= |ts|
    decreases |ts| - pos, 0
  {
    match f
    case Done(p) => GroupFrom(ts, pos + p.consumed, AfterFilter(rule, p))
    case Fail(m) => Fail(m)
    case Diverge => Diverge
  }

  /** What parseFilter guarantees of a result on `n` tokens: it read at least one and
      at most `n` of them, and it holds either a combinator or a filter. */
  predicate Consumes(f: Outcome<Parsed>, n: nat)
  {
    f.Done? ==> 1 <= f.value.consumed <= n && (f.value.filter.None? <==> f.value.ops != "")
  }

  /** The rule after one parseFilter result: a combinator is recorded as the
      operator, a filter is attached. */
  function AfterFilter(rule: RuleNode, p: Parsed): RuleNode
    requires p.ops != "" || p.filter.Some?
  {
    if p.ops != "" then rule.(operator := p.ops) else Attach(rule, Leaf(p.filter.value))
  }

  /** parseFilterGroup on a token stream: the rule and the number of tokens consumed,
      the closing `)` of the frame included. */
  function Group(ts: seq<Token>): (r: Outcome<(RuleNode, nat)>)
    ensures r.Done? ==> r.value.1 <= |ts|
    decreases |ts|, 2
  {
    GroupFrom(ts, 0, EmptyRule)
  }

  /** parseFilterGroup never replaces Node once it is set: the first condition of a
      frame stays its Node. */
  lemma {:induction false} GroupKeepsNode(ts: seq<Token>, pos: nat, rule: RuleNode)
    requires pos <= |ts| && rule.node.Some? && GroupFrom(ts, pos, rule).Done?
    ensures GroupFrom(ts, pos, rule).value.0.node == rule.node
    decreases |ts| - pos, 1
  {
    if pos < |ts| {
      var t := ts[pos];
      if t.typ == TokenBoolean {
        GroupKeepsNode(ts, pos + 1, rule.(operator := ToUpper(t.value)));
      } else if t.typ == TokenLParen {
        var g := Group(ts[pos + 1..]);
        GroupKeepsNode(ts, pos + 1 + g.value.1, Attach(rule, Chain(g.value.0)));
      } else if t.typ != TokenRParen {
        StepKeepsNode(ts, pos, rule, FilterSpec(ts[pos..]));
      }
    }
  }

  /** The parseFilter step of the loop keeps Node too. */
  lemma {:induction false} StepKeepsNode(ts: seq<Token>, pos: nat, rule: RuleNode, f: Outcome<Parsed>)
    requires pos < |ts| && Consumes(f, |ts| - pos) && rule.node.Some? && GroupStep(ts, pos, rule, f).Done?
    ensures GroupStep(ts, pos, rule, f).value.0.node == rule.node
    decreases |ts| - pos, 0
  {
    GroupKeepsNode(ts, pos + f.value.consumed, AfterFilter(rule, f.value));
  }

  /** `field = value` at the front of a stream is one Equal filter of three tokens. */
  lemma EqualFilter(ts: seq<Token>)
    requires |ts| >= 3 && ts[0].typ == TokenIdentifier && ts[1] == Token(TokenOperator, "=") && IsOperand(ts[2])
    ensures FilterSpec(ts) == Done(Parsed(Some(NewFilter(ts[0].value, Equal, Str(ts[2].value))), "", 3))
  {
    assert ToUpper("=") == "=";
  }

  /** One `field = value` step of parseFilterGroup's loop. */
  lemma GroupEqualStep(ts: seq<Token>, pos: nat, rule: RuleNode)
    requires pos + 3 <= |ts| && ts[pos].typ == TokenIdentifier && ts[pos + 1] == Token(TokenOperator, "=")
    requires IsOperand(ts[pos + 2])
    ensures GroupFrom(ts, pos, rule)
      == GroupFrom(ts, pos + 3, Attach(rule, Leaf(NewFilter(ts[pos].value, Equal, Str(ts[pos + 2].value)))))
  {
    var rest := ts[pos..];
    assert rest[0] == ts[pos] && rest[1] == ts[pos + 1] && rest[2] == ts[pos + 2];
    EqualFilter(rest);
  }

  /** One AND keyword step of parseFilterGroup's loop. */
  lemma GroupAndStep(ts: seq<Token>, pos: nat, rule: RuleNode)
    requires pos < |ts| && ts[pos] == Token(TokenKeyword, "AND")
    ensures GroupFrom(ts, pos, rule) == GroupFrom(ts, pos + 1, rule.(operator := "AND"))
  {
    assert ts[pos..][0] == ts[pos];
  }

  /** The tokens of `a = x AND b = y AND c = z`. */
  function FlatChain(a: string, b: string, c: string, x: string, y: string, z: string): (ts: seq<Token>)
    ensures |ts| == 11
  {
    var eq, and := Token(TokenOperator, "="), Token(TokenKeyword, "AND");
    [Token(TokenIdentifier, a), eq, Token(TokenValue, x), and,
     Token(TokenIdentifier, b), eq, Token(TokenValue, y), and,
     Token(TokenIdentifier, c), eq, Token(TokenValue, z)]
  }

  /** A flat chain `a = x AND b = y AND c = z` keeps only its first and last filters:
      the middle one is written into Next and then overwritten. */
  lemma FlatChainKeepsFirstAndLast(a: string, b: string, c: string, x: string, y: string, z: string)
    ensures Group(FlatChain(a, b, c, x, y, z))
      == Done((RuleNode(Some(Leaf(NewFilter(a, Equal, Str(x)))), "AND",
                        Some(Leaf(NewFilter(c, Equal, Str(z)))), false, ""), 11))
  {
    var ts := FlatChain(a, b, c, x, y, z);
    var r1 := Attach(EmptyRule, Leaf(NewFilter(a, Equal, Str(x))));
    FlatChainHead(ts, a, x);
    FlatChainTail(ts, r1.(operator := "AND"));
  }

  /** The first filter and AND of a flat chain set Node and the operator. */
  lemma FlatChainHead(ts: seq<Token>, a: string, x: string)
    requires |ts| == 11 && ts[0] == Token(TokenIdentifier, a) && ts[1] == Token(TokenOperator, "=")
    requires ts[2] == Token(TokenValue, x) && ts[3] == Token(TokenKeyword, "AND")
    ensures GroupFrom(ts, 0, EmptyRule)
      == GroupFrom(ts, 4, Attach(EmptyRule, Leaf(NewFilter(a, Equal, Str(x)))).(operator := "AND"))
  {
    GroupEqualStep(ts, 0, EmptyRule);
    GroupAndStep(ts, 3, Attach(EmptyRule, Leaf(NewFilter(a, Equal, Str(x)))));
  }

  /** The last two filters of a flat chain, after the first set Node. */
  lemma FlatChainTail(ts: seq<Token>, rule: RuleNode)
    requires |ts| == 11 && rule.node.Some?
    requires ts[4].typ == TokenIdentifier && ts[5] == Token(TokenOperator, "=") && IsOperand(ts[6])
    requires ts[7] == Token(TokenKeyword, "AND")
    requires ts[8].typ == TokenIdentifier && ts[9] == Token(TokenOperator, "=") && IsOperand(ts[10])
    ensures GroupFrom(ts, 4, rule)
      == Done((rule.(next := Some(Leaf(NewFilter(ts[8].value, Equal, Str(ts[10].value))))).(operator := "AND"), 11))
  {
    var r3 := Attach(rule, Leaf(NewFilter(ts[4].value, Equal, Str(ts[6].value))));
    var r4 := r3.(operator := "AND");
    GroupEqualStep(ts, 4, rule);
    GroupAndStep(ts, 7, r3);
    GroupEqualStep(ts, 8, r4);
  }

  /** parseFilterGroup, one frame: `(` recurses on the rest of the stream, `)` ends the
      frame, anything else goes through parseFilter. */
  method ParseFilterGroup(tokens: seq<Token>) returns (r: Outcome<(RuleNode, nat)>)
    ensures r == Group(tokens)
    decreases |tokens|, 1
  {
    var p := new Parser(tokens);
    var rule := EmptyRule;
    while p.pos < |tokens|
      invariant fresh(p) && p.tokens == tokens && p.pos <= |tokens|
      invariant Group(tokens) == GroupFrom(tokens, p.pos, rule)
      decreases |tokens| - p.pos
    {
      var stop;
      stop, rule := GroupIteration(p, rule);
      if stop.Some? {
        return stop.value;
      }
    }
    return Done((rule, p.pos));
  }

  /** One pass of parseFilterGroup's loop on the token the cursor points at. The frame
      ends (`stop`) at `)` or on an error; otherwise the loop goes on with `after`. */
  method GroupIteration(p: Parser, rule: RuleNode) returns (stop: Option<Outcome<(RuleNode, nat)>>, after: RuleNode)
    requires p.pos < |p.tokens|
    modifies p
    ensures old(p.pos) < p.pos <= |p.tokens|
    ensures stop.Some? ==> stop.value == GroupFrom(p.tokens, old(p.pos), rule)
    ensures stop.None? ==> GroupFrom(p.tokens, old(p.pos), rule) == GroupFrom(p.tokens, p.pos, after)
    decreases |p.tokens| - p.pos, 0
  {
    var (tok, _) := p.PeekToken();
    if tok.typ == TokenBoolean {
      var _, _ := p.NextToken();
      return None, rule.(operator := ToUpper(tok.value));
    } else if tok.typ == TokenLParen {
      var _, _ := p.NextToken();
      var sub := ParseFilterGroup(p.tokens[p.pos..]);
      if sub.Fail? {
        return Some(Fail(sub.msg)), rule;
      } else if sub.Diverge? {
        return Some(Diverge), rule;
      }
      p.pos := p.pos + sub.value.1;
      return None, Attach(rule, Chain(sub.value.0));
    } else if tok.typ == TokenRParen {
      var _, _ := p.NextToken();
      return Some(Done((rule, p.pos))), rule;
    }
    var next;
    stop, next, after := FilterCase(p.tokens, p.pos, rule);
    p.pos := if stop.Some? then p.pos + 1 else next;
  }

  /** The last branch of parseFilterGroup's loop: parseFilter on the rest of the
      stream, then either the combinator is recorded or the filter is attached. An
      error ends the frame (`stop`); otherwise the loop goes on from `next`. */
  method FilterCase(tokens: seq<Token>, pos: nat, rule: RuleNode)
    returns (stop: Option<Outcome<(RuleNode, nat)>>, next: nat, after: RuleNode)
    requires pos < |tokens|
    ensures stop.Some? ==> stop.value == GroupStep(tokens, pos, rule, FilterSpec(tokens[pos..]))
    ensures stop.None? ==> (pos < next <= |tokens|
      && GroupStep(tokens, pos, rule, FilterSpec(tokens[pos..])) == GroupFrom(tokens, next, after))
  {
    var f := ParseFilter(tokens[pos..]);
    stop, next, after := StepOn(tokens, pos, rule, f);
  }

  /** What the loop does with one parseFilter result `f`. */
  method StepOn(tokens: seq<Token>, pos: nat, rule: RuleNode, f: Outcome<Parsed>)
    returns (stop: Option<Outcome<(RuleNode, nat)>>, next: nat, after: RuleNode)
    requires pos < |tokens| && Consumes(f, |tokens| - pos)
    ensures stop.Some? ==> stop.value == GroupStep(tokens, pos, rule, f)
    ensures stop.None? ==> (pos < next <= |tokens|
      && GroupStep(tokens, pos, rule, f) == GroupFrom(tokens, next, after))
  {
    if f.Fail? {
      return Some(Fail(f.msg)), pos, rule;
    } else if f.Diverge? {
      return Some(Diverge), pos, rule;
    }
    next := pos + f.value.consumed;
    after := AfterFilter(rule, f.value);
    StepDone(tokens, pos, rule, f);
    stop := None;
  }

  /** A parseFilter result that is not an error lets the loop go on after it. */
  lemma StepDone(ts: seq<Token>, pos: nat, rule: RuleNode, f: Outcome<Parsed>)
    requires pos < |ts| && Consumes(f, |ts| - pos) && f.Done?
    ensures GroupStep(ts, pos, rule, f) == GroupFrom(ts, pos + f.value.consumed, AfterFilter(rule, f.value))
  {
  }

  // ---- ParseSQL -----------------------------------------------------------------------

  /** ParseSQL: the rule parseFilterGroup builds from the tokens of the clause
      splitByWhere selects, with that clause as its condition text. */
  function SqlSpec(lib: Utils.Lib, sql: string): Outcome<RuleNode>
  {
    var s := SplitByWhere(sql);
    match TokensOf(lib, s)
    case Err(m) => Fail(m)
    case Ok(ts) =>
      match Group(ts)
      case Done((rule, _)) => Done(rule.(condition := s))
      case Fail(m) => Fail(m)
      case Diverge => Diverge
  }

  /** ParseSQL. */
  method ParseSQL(lib: Utils.Lib, sql: string) returns (r: Outcome<RuleNode>)
    ensures r == SqlSpec(lib, sql)
    ensures r.Done? ==> r.value.condition == SplitByWhere(sql)
  {
    var s := SplitByWhere(sql);
    var tokens := Tokenize(lib, s);
    if tokens.Err? {
      return Fail(tokens.msg);
    }
    var group := ParseFilterGroup(tokens.value);
    match group
    case Done((rule, _)) => return Done(rule.(condition := s));
    case Fail(m) => return Fail(m);
    case Diverge => return Diverge;
  }
}
