# filters — a Dafny model

This project models the core of `github.com/oarkflow/filters`, a query-to-predicate
engine written in Go. The engine turns a SQL-like `WHERE` clause or a URL query string
into a tree of conditions and evaluates that tree against records. The model covers
both generations of the package:

- **the current engine**: operator codes, leaf filters, filter groups, joins, the
  linear `Rule` chain, the SQL front end, rule requests and the URL-query front end;
- **the legacy engine** of `filters.go` and `sql.go`;
- **the stand-alone cores**: the conjunction rule engine of `rule/rule.go`, the
  case/default pattern matcher of `pattern/pattern.go`, and the search example of
  `examples/cuckoo.go` and `examples/intersect.go`.

Go's `any` is the datatype `Values.Value`. Code that can panic at run time returns
`Values.Run<T>`, which is `Ret(value)` or `Panic`. Go's `(value, error)` and
`(value, ok)` returns are `Wrappers.Result` and `Wrappers.Option`.

Calls into code the model does not contain are fields of the parameter records
`Conditions.Env` and `Utils.Lib`. These are `expr.Eval`, `dipper.Get`, `convert.*`,
`utils.FilterSlice`, `IsSlice`, `GetSliceLength`, the date regular expression,
`time.Parse`, `fmt.Sprint`, `reflect` zero and nil tests, and `Filter.Validate`.
They are treated as uninterpreted functions.

Code that loops or updates state is modelled as methods with loop invariants. Each
method is proved equal to a specification function, and the properties are proved
about that function. Objects whose fields the source updates are classes:
`Rules.Rule`, `Requests.RuleRequest`, the SQL parser cursors, `Patterns.Matcher`,
`FuzzySearch.BKTree` and `FuzzySearch.InvertedIndex`. Algorithms that work in place
on a slice keep an `array`:
- `FilterGroups.ApplyGroup` and `Joins.FilterJoin`;
- `Legacy.RemoveFilter`;
- the compound pass `SqlFilters.CombineInPlace`.

Modules, in dependency order:

| module | models |
|---|---|
| Wrappers, Values, Text, Seqs | shared: Option/Result, Go values and panics, the `strings`/`strconv` functions used, order-preserving filtering |
| Operators | operator.go |
| Utils | utils/utils.go |
| Conditions | condition.go |
| Tree | the Condition interface: filter, group and rule evaluation (condition.go, filter_group.go, rule.go) |
| FilterGroups | filter_group.go |
| Joins | join.go |
| Rules | rule.go (Rule, AddCondition, FilterCondition) and rule_apply.go |
| Lexer, Where, Parser | rule.go (tokenize, combineCompoundOperators, splitByWhere, parser, ParseSQL) and sql_parser.go |
| Requests | request.go |
| Queries | query.go |
| Legacy | filters.go |
| SqlFilters | sql.go |
| RuleEngine | rule/rule.go |
| Patterns | pattern/pattern.go |
| FuzzySearch | examples/cuckoo.go |
| Intersect | examples/intersect.go |

## Model

| member | source | states |
|---|---|---|
| Operators.CodesDistinct | operator.go:12-44 | there are 33 operator codes and they are pairwise distinct, so the code names its operator |
| Operators.CountOperators | operator.go:18-23 | the cardinality operators are exactly the codes `eqc`, `nec`, `gtc`, `ltc`, `gec`, `lec`, i.e. the three-letter codes ending in `c` |
| Operators.CaseSensitiveSuffix | operator.go:24-33 | each case-sensitive string operator's code is its case-insensitive counterpart's code followed by `_cs` |
| Operators.NegatedPrefix | operator.go:24-34 | `ncontains`, `nstartswith`, `nendswith` and `nin` are the positive codes prefixed with `n` |
| Utils.LayoutFor | utils/utils.go:119-132 | a layout is chosen exactly for date strings of length 8, 10, 13, 16, 19 or 20, and it has the input's length (25 for the RFC 3339 layout) |
| Utils.AdjustLayout | utils/utils.go:145-153 | character by character: when the input holds a `T` every space of the layout is replaced by `T`, when it holds a `/` every `-` is replaced by `/`, and every other character is kept |
| Utils.ParseTime | utils/utils.go:108-157 | a time is returned as is, an int `n` is `n` seconds, a string of a recognised length is parsed with its adjusted layout, and anything else is the error "invalid params" |
| Utils.ParseTimeAsWritten | utils/utils.go:110-112 | with a custom layout the string handed to `time.Parse` is always empty |
| Utils.ParseTimeIgnoresInput | utils/utils.go:110-112 | with a custom layout two different inputs parse alike |
| Utils.ParseTimeLayout | utils/utils.go:108-157 | the intended custom-layout parse: an empty layout is "invalid params", otherwise the input itself is parsed with the adjusted layout |
| Utils.Order | utils/utils.go:62-69 | the three-way order of two instants is -1, 0 or 1 and agrees with `<` and `==` |
| Utils.Compare | utils/utils.go:29-101 | the result is -1, 0 or 1, and Compare panics exactly when an int meets a non-int (`b.(int)`) |
| Utils.CompareInts | utils/utils.go:31-41 | on two ints the result is the sign of their difference |
| Utils.CompareStrings | utils/utils.go:42-51 | a non-date string compares byte-wise with a string and with `fmt.Sprint` of anything else; swapping two non-date strings negates the result |
| Utils.CompareDates | utils/utils.go:52-80 | a date string compares chronologically with a string or time that parses, and gives 0 when either side fails to parse or `b` is of another kind |
| Utils.CompareOtherKinds | utils/utils.go:98-99 | any value that is not an int, string or time compares 0 with everything, so Compare is not a total order |
| Utils.KeysOf | utils/utils.go:161-166 | the set of serialised keys holds exactly the keys of the slice's elements |
| Utils.Intersection | utils/utils.go:160-175 | the two loops compute IntersectionOf: the elements of `b`, in order and with duplicates, whose key occurs in `a` |
| Utils.Union | utils/utils.go:177-193 | the two loops compute UnionOf: all of `a`, then the elements of `b` whose key is not among `a`'s |
| Utils.IntersectionUnionMembers | utils/utils.go:160-193 | `x` is in the intersection iff it is in `b` with a key among `a`'s, and in the union iff it is in `a` or in `b` with a key not among `a`'s |
| Utils.Flatten | utils/utils.go:243-254 | the flattening holds no nested `[]any` |
| Utils.FlattenAppend | utils/utils.go:245-252 | flattening distributes over concatenation, so leaves stay in left-to-right order |
| Utils.FlattenFlat | utils/utils.go:245-252 | a slice with no nested slice is its own flattening |
| Utils.FlattenIdempotent | utils/utils.go:243-254 | flattening twice is flattening once |
| Utils.FlattenSlice | utils/utils.go:243-254 | the loop with its recursive call computes Flatten |
| Utils.ScanFindsLeaf | utils/utils.go:221-240 | when the search completes it is true iff some leaf of the nested slice is a target |
| Utils.ScanPanicsOnlyOnUnhashableLeaf | utils/utils.go:234 | the search can panic only on a leaf that Go cannot hash (a `[]string` or a map) |
| Utils.SearchNestedHashable | utils/utils.go:221-240 | with hashable targets and leaves the search returns whether some leaf is a target |
| Utils.SearchDeeplyNestedSlice | utils/utils.go:221-240 | the method, with its early returns, computes SearchNested |
| Utils.SumIntsAppend | utils/utils.go:257-268 | the sum of a concatenation is the sum of its parts |
| Utils.SumIntsNoInts | utils/utils.go:259-266 | elements that are not ints contribute nothing |
| Utils.SumIntSlice | utils/utils.go:257-268 | the accumulating loop computes SumInts |
| Utils.ContainsValue | utils/utils.go:270-281 | on a slice `Contains` is membership by deep equality |
| Utils.Contains | utils/utils.go:270-281 | the index loop computes ContainsValue |
| Conditions.EqualityChecks | condition.go:281-309 | Equal on a string field is ASCII case-insensitive equality with the converted literal; a literal that does not convert makes both Equal and NotEqual false; otherwise NotEqual is the negation of Equal |
| Conditions.EqualIgnoresCase | condition.go:284-289 | a string field equals a literal that differs from it only in letter case |
| Conditions.CheckBetween | condition.go:327-335 | a literal that is not a `[]string` or `[]any` gives false, and an empty one panics on `values[0]` |
| Conditions.BetweenInts | condition.go:327-335 | between two int bounds an int field is in range exactly when `lo <= x <= hi` |
| Conditions.BetweenInclusive | condition.go:330-332 | with both bounds comparable, Between is exactly `Compare(x, lo) >= 0 && Compare(x, hi) <= 0`, inclusive at both ends |
| Conditions.StringOperation | condition.go:338-345 | true only for two string operands, and then exactly the operation on their lower-cased forms |
| Conditions.StringChecks | condition.go:362-376 | Contains, StartsWith and EndsWith are false and NotContains true for a non-string operand; StartsWith ignores letter case |
| Conditions.CheckIn | condition.go:347-356 | a nil field panics; a slice field holds the literal as an element; otherwise the literal converted to a slice must hold the field, and false when it does not convert |
| Conditions.CheckNotIn | condition.go:358-360 | NotIn panics exactly when In does and is otherwise its negation |
| Conditions.ResolveString | condition.go:232-238 | a `{{ … }}` template is evaluated against the item; any other string resolves to itself |
| Conditions.ResolveAllMeaning | condition.go:253-262 | the strings are resolved element by element: success iff every string resolves, the i-th value being that of the i-th string; otherwise the error of the first string that does not resolve |
| Conditions.StringsOfMembers | condition.go:265-267 | the strings resolved from an `[]any` are exactly its string elements |
| Conditions.ResolveValue | condition.go:249-279 | a string is resolved by resolveString; a `[]string` is its strings resolved, and an `[]any` its string elements resolved, each as an `[]any` or the error; any other value passes through unchanged |
| Conditions.ResolveValueMeaning | condition.go:249-279 | a `[]string` or `[]any` value resolves iff each of its strings does, to an `[]any` holding their values in order, and otherwise fails with the error of its first string that does not |
| Conditions.ResolveAllPlain | condition.go:232-262 | strings that are not templates resolve to themselves, element by element |
| Conditions.ResolvePlainLists | condition.go:249-279 | with no templates, a `[]string` resolves to its strings as an `[]any`, and an `[]any` to its string elements alone |
| Conditions.ResolveFilterValue | condition.go:249-279 | the method with its appending loops computes ResolveValue |
| Conditions.ResolveStrings | condition.go:253-262 | the `[]string` loop, which returns at the first error, computes ResolveAll |
| Conditions.ResolveStringElements | condition.go:263-275 | the `[]any` loop, which skips non-strings and returns at the first error, computes ResolveAll of the string elements |
| Conditions.ValidateCountSpec | condition.go:73-89 | a field that is not a slice fails the count check |
| Conditions.ValidateCount | condition.go:73-89 | the method with its early return computes ValidateCountSpec |
| Conditions.EveryInnerPasses | condition.go:77-83 | the loop over inner slices is true iff every inner slice passes |
| Conditions.LookupShortCircuit | condition.go:137-149 | the slice-length tests decide nothing unless the lookup data is a non-nil slice |
| Conditions.Operand | condition.go:150-152 | lookup data replaces the literal exactly when it is present and the operator is not a cardinality operator |
| Conditions.HandledCodes | condition.go:153-228 | every operator code other than the six case-sensitive ones has a case in match's switch |
| Conditions.CaseSensitiveUnhandled | condition.go:153-229 | the six `_cs` codes have no case in the switch, so match falls through to false for them |
| Conditions.FilterMatch | condition.go:91-230 | the exported match panics exactly when match does and otherwise is match's result negated when the filter is reversed |
| Conditions.LookupRules | condition.go:137-152 | with slice lookup data: an empty field slice (a field whose length cannot be taken counting as empty) fails; otherwise a lookup whose length cannot be taken fails and an empty lookup passes, whether or not the field is a slice; past those rules the operator compares the field with the lookup data |
| Conditions.ExpressionRule | condition.go:180-189 | an Expression filter matches iff its value is a string whose evaluation succeeds with a non-nil result, even `false`; an evaluation error, a nil result or a non-string expression gives false |
| Conditions.UnhandledOperator | condition.go:229 | an operator without a case never matches |
| Conditions.NegatedStringRule | condition.go:210-219 | NotContains, NotStartsWith and NotEndsWith hold for a field that is not a string |
| Conditions.Match | condition.go:91-230 | the method, reassigning its locals as match does, computes MatchSpec |
| Conditions.ResolveLookup | condition.go:117-136 | the lookup step computes LookupData: literal data first, then the handler, then the lookup condition over `{data, lookup}` |
| Conditions.ApplyLookupLengths | condition.go:137-149 | the method computes LookupShortCircuit |
| Conditions.NewFilter | condition.go:91-230 | the filters the parsers build carry only field, operator and value, with no reverse flag and no lookup |
| Tree.NewFilterGroup | filter_group.go:9-11 | the group holds the operator, the reverse flag and the conditions as given |
| Tree.NewRuleNode | rule.go:31-33 | the rule holds only the node and its combinator, with no next and no reversal |
| Tree.AllOfMeaning | filter_group.go:38-53 | when no member panics, the AND fold is true iff every visited member matches |
| Tree.AnyOfMeaning | filter_group.go:58-73 | when no member panics, the OR fold is true iff some visited member matches |
| Tree.PanicSpreads | filter_group.go:40-72 | the `break`s leave only the type switch, so every member is evaluated and a panicking member makes the group panic |
| Tree.AndGroup | filter_group.go:38-57 | an AND group is true iff every filter and group member matches (true with none), negated when reversed |
| Tree.OrGroup | filter_group.go:58-77 | an OR group is true iff some filter or group member matches (false with none), negated when reversed |
| Tree.EmptyGroups | filter_group.go:36-77 | an empty AND group is true and an empty OR group false, before reversal |
| Tree.UnknownGroupOperator | filter_group.go:78-79 | any other combinator gives false, whatever the reverse flag |
| Tree.RuleMembersIgnored | filter_group.go:41-52 | a member that is a `*Rule` is skipped by the type switch and never changes the group's result |
| Tree.RuleRules | rule.go:35-58 | AND with a false node is false without looking at next; with no next the node decides; OR evaluates next even after a true node; another combinator takes next's result alone; all negated when reversed |
| Tree.NilNodePanics | rule.go:44 | matching a rule with a nil node panics |
| FilterGroups.MatchFilter | condition.go:91-230 | matching a filter member is match, negated when the filter is reversed |
| FilterGroups.MatchGroup | filter_group.go:36-81 | the method with its two loops computes EvalGroup |
| FilterGroups.MatchAll | filter_group.go:39-53 | the AND loop, whose flag starts true and is cleared by a failing member, computes the AND fold |
| FilterGroups.MatchAny | filter_group.go:59-73 | the OR loop, whose flag starts false and is set by a matching member, computes the OR fold |
| FilterGroups.MatchMember | filter_group.go:41-52 | one iteration's type switch matches a group or a filter and leaves the flag alone for anything else |
| FilterGroups.MatchesEveryGroup | filter_group.go:20-26 | the inner loop with its `break` is true iff the item passes every group |
| FilterGroups.ApplyGroup | filter_group.go:17-34 | unless an item panics, the returned prefix holds exactly the items that pass every group, in their original order, and every position after it is untouched |
| FilterGroups.ApplyNoGroups | filter_group.go:17-34 | with no groups every item is kept |
| FilterGroups.KeepMeaning | filter_group.go:20-27 | an item is kept iff it passes every group |
| Joins.Combine | join.go:23-30 | AND intersects, OR unites, and any other combinator is the error "unsupported boolean operator" |
| Joins.FilterJoin | join.go:16-31 | a missing side fails before the data is touched; with both sides present the join returns exactly when the left pass meets no panic on the data and the right pass none on what the left compacted, and a panic propagates; otherwise the result is the join computed on the shared slice, the second pass running on what the first compacted, and the array is left as the two compactions made it |
| Joins.JoinAsWrittenSound | join.go:16-31 | every element the join returns comes from the input, and with AND it was kept by the right group |
| Joins.JoinIntendedMembers | join.go:16-31 | the intended join, with a key that tells items apart: AND keeps exactly the input items both groups keep, OR exactly those either group keeps |
| Joins.JoinAliasingLosesItem | join.go:21-27 | two map records `{id: 1}` and `{id: 2}`, left keeping the second and right the first, under OR: the as-written join returns only `{id: 2}`, the intended one both records |
| Joins.JoinAliasingAddsItem | join.go:21-25 | the same two records, left keeping the first and right the second, under AND: the as-written join returns `{id: 2}`, which the left group rejects; the intended one returns nothing |
| Joins.MatchJoin | join.go:33-53 | a missing side is false; otherwise both groups are matched and combined with AND or OR, negated when reversed; any other combinator is never true |
| Joins.MatchJoinReverse | join.go:41-48 | with both sides present and AND or OR, the reversed join panics exactly when the unreversed one does and otherwise returns its negation; on a missing side or another combinator the reverse flag changes nothing |
| Joins.MatchJoinAgreesWithJoin | join.go:16-53 | an item of the data matches an unreversed AND/OR join exactly when the intended FilterJoin over the same groups returns it |
| Joins.KeepSingle | filter_group.go:20-27 | keeping by one group is matching that group |
| Rules.Wrap | rule.go:62-69 | one condition is filed as it is, several as one group carrying the operator and reverse flag, none as a nil condition |
| Rules.AddAppends | rule.go:61-87 | on a chain whose links all have nodes, the new condition is appended at the tail, the tail carries the new operator, and the root keeps its node and reverse flag |
| Rules.AddWraps | rule.go:79-85 | a plain condition in `Next` is first wrapped into a rule, and the new condition follows it |
| Rules.AddToEmpty | rule.go:71-76 | on an empty rule the condition becomes the node with the operator, and the reverse flag is set only when the conditions were not grouped |
| Rules.Rule.constructor | rule.go:27-29 | a new rule has every field at its zero value |
| Rules.Rule.AddCondition | rule.go:61-87 | the rule becomes AddTo of its old state and nothing else changes |
| Rules.Rule.SetCallback | rule_apply.go:19-21 | only the callback changes |
| Rules.Rule.SetErrorResponse | rule_apply.go:23-25 | only the error response changes |
| Rules.Rule.Apply | rule_apply.go:27-46 | the chosen callback's result for the data is always returned, with the stored error response exactly when the rule does not match |
| Rules.ChooseCallbackCases | rule_apply.go:28-39 | a given callback wins over the stored one, an explicit nil given one is the identity, and with none given the stored one or else the identity is used |
| Rules.FilterCondition | rule.go:104-111 | the items that match, in order; a panic in matching propagates |
| Rules.FilterConditionMembers | rule.go:104-111 | an item is in the result iff it is in the data and matches |
| Rules.FirstEqual | rule.go:499-518 | the first filter of a list whose operator is Equal, and none iff there is none |
| Rules.FirstEqualPosition | rule.go:499-518 | the filter found sits at a position of the list before which no filter has the Equal operator |
| Rules.FirstEqualAppend | rule.go:505-515 | searching a concatenation searches the first part, then the second |
| Rules.TraverseFindsFirstEqual | rule.go:498-518 | the traversal finds the first Equal filter among the filters reachable through nested rules, node before next |
| Rules.FirstTermFilter | rule.go:492-529 | a nil rule is the error "sequence is nil"; otherwise the result is the first Equal filter among the filters reachable from the node and then from next, or the error "no equal filter found" when there is none |
| Values.KeepMatching | rule.go:104-111 | the loop keeps, in order, the items the matcher accepts, and panics iff some item's matching panics |
| Lexer.OperatorStarts | rule.go:236-238 | a character starts an operator iff it is one of `=`, `<`, `>`; in particular `!` does not, so `!=` is never read as one operator |
| Lexer.ScanEnd | rule.go:262-284 | the end of a run: every character before it satisfies the test and the one at it, if any, does not |
| Lexer.CloseBraces | rule.go:252-255 | the index of the first `}}` at or after the start, or the end of the input |
| Lexer.ParseStringLiteral | rule.go:240-249 | the text between the opening quote and the next quote, verbatim, with the index just past the closing quote; no closing quote is the error "unclosed string literal" |
| Lexer.ParseVariable | rule.go:251-260 | the text between `{{` and the first `}}`, with the index just past it; no `}}` is the error "unclosed variable" |
| Lexer.ScanRun | rule.go:262-284 | parseNumber, parseOperator and parseIdentifierOrKeyword return the maximal run of their characters and its end |
| Lexer.WordToken | rule.go:196-206 | a word is a keyword (upper-cased) when it is one, else a date or boolean value (upper-cased), else an identifier kept as written |
| Lexer.DigitStep | rule.go:178-186 | at a digit, a word that is not a date yields the maximal run of digits as a value token |
| Lexer.Step | rule.go:158-208 | every case of tokenize's switch moves the index forward, so the loop terminates |
| Lexer.LexStep | rule.go:158-208 | the method for one pass of the loop body computes Step |
| Lexer.LexLiteral | rule.go:164-170 | the quote case computes LiteralStep |
| Lexer.LexVariable | rule.go:171-177 | the `{{` case computes VariableStep |
| Lexer.LexNumber | rule.go:178-186 | the digit case computes DigitStep |
| Lexer.LexOperator | rule.go:187-195 | the operator case computes OperatorStep |
| Lexer.Tokenize | rule.go:153-213 | tokenize computes TokensOf: the trimmed input lexed to the end or the first error, then compound operators merged |
| Lexer.LexAll | rule.go:157-209 | the loop computes LexFrom from index 0 |
| Lexer.LexShaped | rule.go:157-209 | every token before merging is well formed; no operator token contains `!` |
| Lexer.Combine | rule.go:290-324 | merging never lengthens the token stream |
| Lexer.CombineCompoundOperators | rule.go:290-324 | the index loop with its `i++; continue` jumps computes Combine |
| Lexer.CompoundAt | rule.go:292-321 | each pass of the body emits one token standing for 1 to 3 input tokens, and the rest is merged independently |
| Lexer.CombineWithoutKeywords | rule.go:290-324 | a stream with no keyword token passes through unchanged |
| Lexer.CombineMergesNot | rule.go:293-301 | the keyword NOT followed by the keyword LIKE, IN or BETWEEN becomes one operator token |
| Lexer.CombineMergesIs | rule.go:303-319 | IS NULL and IS NOT NULL become one operator token each |
| Lexer.QuotedInNotMerged | rule.go:293-301 | a quoted `'IN'` is a value token, so it is never merged with a preceding NOT |
| Where.FindWhere | rule.go:531-536 | the leftmost whole-word, case-insensitive `WHERE` at or after the start, or none when there is none |
| Where.FirstWhereFound | rule.go:531-536 | the search from any start stops exactly at the first match at or after it |
| Where.SplitByWhereNoMatch | rule.go:537-539 | without a whole-word WHERE the text is returned unchanged |
| Where.SplitByWhereFirstMatch | rule.go:541-546 | with the first match at `k`, the trimmed text after it is returned, or the trimmed text before it when nothing but spaces follows |
| Where.SplitByWhereInsideWord | rule.go:532-539 | `xwhere` holds no whole-word WHERE and is returned as it is |
| Where.SplitByWhereAfter | rule.go:541-545 | `t where a` gives `a` |
| Where.SplitByWhereBefore | rule.go:541-546 | `t WHERE ` gives `t` |
| Parser.Parser.constructor | rule.go:326-329 | a cursor over the tokens at position 0 |
| Parser.Parser.NextToken | rule.go:331-338 | the token at the cursor, advancing past it; at the end the zero token and false, the cursor staying |
| Parser.Parser.PeekToken | rule.go:340-345 | nextToken without moving the cursor |
| Parser.ToOperatorCodes | rule.go:347-378 | toOperator yields one of the engine's operator codes or the empty operator |
| Parser.NotBetweenHasNoOperator | rule.go:347-378 | NOT BETWEEN is a lexer operator but toOperator has no case for it, so such a filter gets the empty operator |
| Parser.LikePattern | sql_parser.go:32-47 | `%x%`, `%x` and `x%` choose the first, second and third operator, the value has every leading and trailing `%` removed, and a pattern with `%` at neither end is refused |
| Parser.NotLikeKeepsPattern | rule.go:406-418 | as written, a NOT LIKE operator token always yields NotContains on the untrimmed pattern |
| Parser.NotLikeWithPercents | rule.go:406-418 | `x NOT LIKE '%ab%'` as written searches for the text `%ab%`; as intended it is NotContains `ab` |
| Parser.NotLikeIntendedNegatesLike | rule.go:406-417 | the intended NOT LIKE keeps LIKE's field and value and replaces each positive string operator by its negation |
| Parser.OperatorSpec | rule.go:396-419 | the operator branch consumes the value token unless the operator is IS NULL or IS NOT NULL, and yields a filter |
| Parser.BetweenSpec | sql_parser.go:9-30 | parseBetween consumes exactly three tokens (low, AND, high) and yields a filter |
| Parser.LikeSpec | sql_parser.go:32-47 | parseLike consumes one token and yields a filter |
| Parser.NotLikeSpec | sql_parser.go:99-114 | parseNotLike consumes one identifier token and yields a filter |
| Parser.CloseAt | sql_parser.go:55-63 | the index of the first `)` at or after the start, or the end |
| Parser.ListFromMeaning | sql_parser.go:55-63 | the list loop stops just past the first `)` holding the operands before it in order, and never ends when no `)` follows |
| Parser.InSpec | sql_parser.go:49-65 | parseIn and parseNotIn consume at least the `(` and yield a filter |
| Parser.NotSpec | sql_parser.go:67-79 | parseNot selects NOT IN or NOT LIKE by the next token's text, whatever its type |
| Parser.FilterSpec | rule.go:380-435 | parseFilter consumes at least one token of a non-empty stream and yields either a combinator or a filter, never both |
| Parser.KeywordSpec | rule.go:396-434 | after the field name, a filter consumes at least two tokens |
| Parser.ParseBetween | sql_parser.go:9-30 | the method computes BetweenSpec |
| Parser.ParseLike | sql_parser.go:32-47 | the method computes LikeSpec |
| Parser.ParseNotLike | sql_parser.go:99-114 | the method computes NotLikeSpec |
| Parser.CollectList | sql_parser.go:55-63 | the `for` loop computes ListFrom and leaves the cursor just past `)` |
| Parser.ParseIn | sql_parser.go:81-97 | parseNotIn, and parseIn which differs only in the operator: without `(` it fails, otherwise it stores the operands before the first `)` and continues after it; with no `)` the loop never ends |
| Parser.ParseNot | sql_parser.go:67-79 | the method computes NotSpec |
| Parser.ParseOperand | rule.go:396-419 | the method computes OperatorSpec |
| Parser.ParseFilter | rule.go:380-435 | the method computes FilterSpec |
| Parser.QuotedInReachesParseNot | sql_parser.go:67-97 | `x NOT 'IN' ( 'a' )` reaches parseNot and builds a NOT IN filter on `["a"]` |
| Parser.Attach | rule.go:462-486 | afterwards the rule always has a Node, and the condition is its Node or its Next; a Node already set is never changed, the condition then replacing Next; operator, reversal and condition text are untouched |
| Parser.GroupFrom | rule.go:442-489 | the loop never moves backwards and stays within the stream |
| Parser.GroupKeepsNode | rule.go:437-490 | once Node is set, the loop never replaces it |
| Parser.StepKeepsNode | rule.go:474-487 | the parseFilter step keeps Node too |
| Parser.EqualFilter | rule.go:383-418 | `field = value` is one Equal filter of three tokens |
| Parser.GroupEqualStep | rule.go:474-487 | a `field = value` step attaches that filter and moves three tokens on |
| Parser.GroupAndStep | rule.go:474-481 | an AND keyword step only records the combinator |
| Parser.FlatChainKeepsFirstAndLast | rule.go:437-490 | `a = x AND b = y AND c = z` keeps only its first and last filters: the middle one goes into Next and is then overwritten |
| Parser.ParseFilterGroup | rule.go:437-490 | the method, with its recursion on `(`, computes Group |
| Parser.GroupIteration | rule.go:443-487 | one pass of the loop moves the cursor forward and either ends the frame with the loop's result or continues it unchanged |
| Parser.FilterCase | rule.go:474-487 | the parseFilter branch either ends the frame with an error or continues from just past the consumed tokens |
| Parser.ParseSQL | rule.go:89-102 | ParseSQL computes SqlSpec, and the rule it returns carries the clause splitByWhere selected as its condition text |
| Requests.HandledAppend | request.go:66-78 | handleConditions keeps the filters' order: the conditions of a concatenation are those of each part, one after the other |
| Requests.HandledWithoutResolver | request.go:66-78 | without a resolver every filter is kept in place as a leaf |
| Requests.HandledMembers | request.go:66-78 | a condition is produced iff it comes from some filter: the filter itself when it has no key or there is no resolver, else what the resolver returns for its key |
| Requests.ResolvedCases | request.go:68-75 | a keyed filter with a resolver becomes what the resolver returns, or nothing when that is nil; any other filter is kept |
| Requests.HandleConditions | request.go:66-78 | the loop computes Handled |
| Requests.GroupOfMeaning | request.go:80-89 | a group comes out iff the request is present and one of its filters survives resolution, and it carries the request's operator and reverse flag |
| Requests.HandleGroupRequest | request.go:80-89 | the method computes GroupOf |
| Requests.AccumulatedPrefix | request.go:102-111 | the shared list after fewer entries is a prefix of the list after more |
| Requests.GroupCallsAccumulate | request.go:101-116 | as written each group call passes a prefix of the next call's list, and the last call passes the groups of every entry |
| Requests.GroupCallsIntendedPartition | request.go:101-116 | the intended calls pass each entry's own groups, which together are the accumulated list |
| Requests.LeftOnlyPieces | request.go:104-111 | an entry whose only group is a left one of one unkeyed filter contributes exactly that group |
| Requests.GroupsAccumulateTwice | request.go:101-116 | two entries with one group each: as written the second call passes both groups, so the first is filed twice; as intended it passes its own |
| Requests.ReplayChain | request.go:92-99 | calls on an empty rule give one chain link per call holding what AddCondition filed; the root takes the first call's operator, and its reverse flag unless that call grouped several conditions |
| Requests.ConditionCallsShape | request.go:93-100 | there are never more condition calls than entries, and none passes an empty list |
| Requests.GroupCallsShape | request.go:101-116 | there are never more group calls than entries, and none passes an empty list |
| Requests.ReplayAppend | request.go:92-116 | replaying two runs of calls is replaying them one after the other |
| Requests.AddIfAny | request.go:96-114 | conditions are added exactly when there are any, and nothing else in the rule changes |
| Requests.AddConditionEntries | request.go:93-100 | the first loop replays the condition calls on the rule |
| Requests.AddGroupEntries | request.go:101-116 | the second loop replays the as-written group calls on the rule |
| Requests.AppendPieces | request.go:104-111 | the entry's left group, then its right group, are appended to the shared list when present |
| Requests.BuiltChain | request.go:91-119 | the built rule has one link per call, condition entries first and group entries after, each holding what that call filed |
| Requests.RuleRequest.constructor | request.go:22-30 | a request holds its id, error message and action, conditions and groups, and no rule |
| Requests.RuleRequest.SetRule | request.go:39-41 | only the rule changes |
| Requests.RuleRequest.Validate | request.go:43-48 | without a rule the error "rule not provided", else the rule's own validation of the data |
| Requests.ApplicationRule.constructor | request.go:32-37 | an application rule holds its request, key, level and parent key |
| Requests.ApplicationRule.BuildRuleFromRequest | request.go:91-119 | the request gets a new rule built from the condition calls and then the as-written group calls, carrying the request's error response; nothing else in the request changes |
| Queries.NoValueOperatorsInvalid | query.go:26-32 | IS NULL, NOT NULL, IS ZERO and NOT ZERO are not valid query operators, so the nil-operand branches are never taken |
| Queries.Trimmed | query.go:57-60 | every comma-separated part is trimmed in place |
| Queries.KeyFiltersFields | query.go:17-119 | a parameter gives at most one filter, on the part of the key before the first colon, and never on an excepted field |
| Queries.TwoPartKey | query.go:20-35 | `field:op` gives one filter unless the field is excepted: a valid operator (lower-cased) with the empty operand, anything else an equality test against `op` |
| Queries.ThreePartKey | query.go:36-67 | `field:op:value` fails exactly when the operator is invalid or it is `between` with a comma list of other than two parts; otherwise the filter keeps the operator as written |
| Queries.OperandMeaning | query.go:48-65 | a value with commas becomes its trimmed parts, two for `between`; one without commas is kept as it is; the only error is a `between` with other than two parts |
| Queries.ManyValues | query.go:115-117 | a plain key with several values is an In test over them |
| Queries.OneValue | query.go:72-114 | a plain key with one value: an operator name gives that operator, as written, with the empty operand; a value without a colon gives an equality test |
| Queries.IgnoredKeys | query.go:17-119 | a key with more than three colon-separated parts, or a plain key with no values, gives nothing |
| Queries.CollectOk | query.go:17-120 | the loop over parameters succeeds iff every parameter does |
| Queries.CollectMembers | query.go:17-120 | on success a filter is in the result iff some parameter gives it |
| Queries.CollectFirstError | query.go:45-94 | on failure the error is that of the first parameter that fails |
| Queries.QueryAvoidsExcept | query.go:22-71 | no excepted field ever gets a filter |
| Queries.TrimAll | query.go:57-60 | the in-place loop computes Trimmed |
| Queries.OperandOf | query.go:48-65 | the method computes Operand |
| Queries.ParamFilters | query.go:18-118 | the method computes KeyFilters |
| Queries.OperatorFilterOf | query.go:40-108 | the method computes the filter of an `op:value` form |
| Queries.ParseQuery | query.go:11-121 | ParseQuery on the decoded parameters computes QueryAsWritten, which ignores the decoding error |
| Queries.QueryIntended | query.go:12-16 | as intended, a decoding error is returned and otherwise the parameters are processed |
| Queries.DecodeErrorDropped | query.go:12-16 | a query whose only parameter fails to decode: as written the caller gets no filters and no error; as intended it gets the error |
| Legacy.Validation | filters.go:91-107 | one filter fails on an empty field, an unknown operator, a `between` without a two-element slice or an `in` without a slice; asking for the type kind of a nil `between` or `in` value panics |
| Legacy.FirstFailureMeaning | filters.go:90-111 | ValidateFilters passes iff every filter does, and a failure is the message of a filter all of whose predecessors pass |
| Legacy.ValidateFilters | filters.go:90-111 | the loop with its early returns computes FirstFailure |
| Legacy.MatchesEquality | filters.go:244-283 | a missing field or a nil value never matches; on a present value equality is deep equality and not-equal its exact negation |
| Legacy.MatchesIn | filters.go:292-307 | `in` holds iff the field value deeply equals an element of the `[]string` or `[]any` operand, and is false for any other operand |
| Legacy.MatchesBetween | filters.go:308-315 | `between` is inclusive at both ends by utils.Compare |
| Legacy.Among | filters.go:300-305 | the loop over an `[]any` operand finds the value iff it is an element |
| Legacy.AmongStrings | filters.go:294-299 | the loop over a `[]string` operand finds the value iff it is a string element |
| Legacy.Match | filters.go:244-319 | the method computes Matches: a panic looking the field up, a missing field or nil value giving false, otherwise the operator's test |
| Legacy.MatchesLookupPanic | filters.go:244-262 | a nil item, or a non-map item whose field lookup panics, makes Match panic whatever the operator; a map item's lookup never panics |
| Legacy.EveryAnyMeaning | filters.go:218-238 | without panics the early-return loops compute the conjunction and the disjunction, and a decided result comes from an item that decides it |
| Legacy.GroupMatchesMeaning | filters.go:216-242 | without panics a group is the conjunction (AND), disjunction (OR) or negated disjunction (NOT) of its filters, and false for any other operator |
| Legacy.MatchAll | filters.go:218-224 | the AND loop computes Every |
| Legacy.MatchAny | filters.go:225-238 | the OR and NOT loops, which stop at the first match, compute Any |
| Legacy.MatchGroup | filters.go:216-242 | the method computes GroupMatches |
| Legacy.ApplyGroup | filters.go:198-214 | the items that match every group, in order, with no error; a panic in matching propagates |
| Legacy.MatchEvery | filters.go:201-207 | the inner loop, which stops at the first failing group, computes Passes |
| Legacy.ApplyGroupMembers | filters.go:198-214 | an item is kept iff it is in the data and matches every group |
| Legacy.ApplyBinaryFilter | filters.go:119-142 | a missing side is an error; each side filters the data on its own, and AND intersects, OR unites, anything else is an error |
| Legacy.FilterToQueryShapes | filters.go:144-177 | a filter has a clause iff its operator is one of the twelve and, for `between`, its value is a two-element `[]any`; the wildcard clauses put the operand between the fixed `*` marks and `between` is a `gte`/`lte` range |
| Legacy.ValidWithoutClause | filters.go:168-172 | a filter that passes validation loses its clause only as a `between` over a `[]string` |
| Legacy.ClausesMembers | filters.go:184-190 | there is one clause per filter that has one, in the filters' order |
| Legacy.FiltersToQuery | filters.go:179-196 | the validation error, or a query whose `must` list holds the filters' clauses |
| Legacy.RemoveFirstAbsent | filters.go:394-401 | without an equal filter nothing is removed |
| Legacy.RemoveFirstAt | filters.go:395-398 | only the first equal filter goes; the others stay, in order, so the result is the input minus one occurrence |
| Legacy.RemoveFilter | filters.go:394-401 | on an array-backed slice the result is the first `n` cells; on removal the later filters shift one place down in the same array, so its last cell is repeated |
| Legacy.FindFilter | filters.go:395-399 | the position of the first equal filter, or the length when there is none |
| Legacy.KeyFiltersMeaning | filters.go:348-389 | `field:x` is an equality test against `x`; `field:op:value` fails exactly when the operator is unknown or a `between` lacks two parts; a plain key never fails and gives an In test for several values |
| Legacy.ParseQuery | filters.go:344-391 | the loop over the decoded parameters collects each one's filters, stopping at the first error |
| Legacy.ParamFilters | filters.go:349-388 | the method computes KeyFilters |
| SqlFilters.OperatorStarts | sql.go:36-43 | the one-character operators are `=`, `>` and `<`, so `!` starts no operator |
| SqlFilters.WordTokenKinds | sql.go:95-107 | keywords and TRUE/FALSE are upper-cased; every other word is an identifier holding its text, `IN` among them |
| SqlFilters.Step | sql.go:58-108 | every case of the scanning switch moves the index forward |
| SqlFilters.LexStep | sql.go:58-108 | the method for one pass of the loop body computes Step |
| SqlFilters.LexAll | sql.go:56-109 | the scanning loop computes LexFrom from index 0, stopping at the first error |
| SqlFilters.Width | sql.go:113-122 | a compound spans two tokens (IS NULL), three (IS NOT followed by any token reading NULL) or none |
| SqlFilters.Compounds | sql.go:111-124 | the compound pass never lengthens the stream |
| SqlFilters.CombineInPlace | sql.go:111-124 | the in-place pass over the array leaves in its first `n` cells exactly Compounds of the tokens |
| SqlFilters.PassStep | sql.go:113-123 | one pass of the body at `i` keeps the loop invariant: the prefix is final and the rest still to be merged |
| SqlFilters.KeptAt | sql.go:113-123 | a token that starts no compound is kept as it is |
| SqlFilters.MergedAt | sql.go:115-121 | a compound replaced by its operator token keeps the invariant at the next index |
| SqlFilters.Splice | sql.go:116-120 | `tokens[i]` becomes the operator and the `w` tokens after it are spliced out, the rest shifting down |
| SqlFilters.CompoundsWithoutIs | sql.go:111-124 | a stream without an IS keyword passes through unchanged |
| SqlFilters.CompoundsMerge | sql.go:115-121 | IS NULL and IS NOT NULL merge, and so does IS NOT followed by a quoted `'null'` |
| SqlFilters.Tokenize | sql.go:45-127 | tokenize computes TokensOf: the scan, then the compound pass |
| SqlFilters.TokensShaped | sql.go:45-127 | every token tokenize returns is well formed, and none is BOOLEAN |
| SqlFilters.Cursor.constructor | sql.go:129-132 | a cursor over the tokens at position 0 |
| SqlFilters.Cursor.NextToken | sql.go:134-141 | the token at the cursor, which then moves on; at the end the zero token and false |
| SqlFilters.Cursor.PeekToken | sql.go:143-148 | the token at the cursor, which stays |
| SqlFilters.ReachableOperators | sql.go:150-179 | the operator tokens tokenize produces map only to the five comparisons, the two null tests or the empty operator: `!=`, LIKE, NOT LIKE, BETWEEN and IN are unreachable |
| SqlFilters.ParseFilterMeaning | sql.go:181-213 | a filter parses iff an identifier is followed by an operator token and, except for the null tests, a value or identifier; it uses two or three tokens; a non-identifier start is "expected field name" |
| SqlFilters.ParseFilterOf | sql.go:181-213 | the method with its cursor computes ParseFilter |
| SqlFilters.GroupFrom | sql.go:215-266 | the group uses no more tokens than there are |
| SqlFilters.GroupLoop | sql.go:220-260 | the loop never moves backwards and stays within the stream |
| SqlFilters.ParseFilterGroup | sql.go:215-266 | the method computes GroupFrom |
| SqlFilters.GroupStep | sql.go:221-259 | one pass of the loop either continues from a later position with the same outcome or stops with the loop's result |
| SqlFilters.LoopFilter | sql.go:253-259 | a token that starts a filter appends that filter and moves past it |
| SqlFilters.LoopBoolean | sql.go:226-230 | a BOOLEAN token sets the operator, upper-cased |
| SqlFilters.LoopClose | sql.go:248-251 | `)` ends the group after consuming it |
| SqlFilters.LoopParen | sql.go:232-246 | `(` parses a nested group, which becomes a filter with empty field and operator, or fails the group with its error |
| SqlFilters.LoopKeepsOperator | sql.go:218-230 | without BOOLEAN tokens the group keeps the operator it started with |
| SqlFilters.KeywordRejected | sql.go:185-187 | a keyword where a filter should start, such as AND, fails the group with "expected field name" |
| SqlFilters.ConjunctionRejected | sql.go:215-266 | `a = 1 AND b = 2` fails at the AND with "expected field name" |
| SqlFilters.EqualsStep | sql.go:253-259 | `field = value` adds its Equal filter and moves three tokens on |
| SqlFilters.ParenthesisedGroup | sql.go:232-246 | `( field = v )` is one filter with empty field and operator whose value is the nested group |
| SqlFilters.SelectSeen | sql.go:277-285 | after the first WHERE every token but WHERE is kept |
| SqlFilters.SelectWithoutWhere | sql.go:277-285 | without a WHERE only the non-keyword tokens are kept |
| SqlFilters.SelectAtWhere | sql.go:277-285 | before the first WHERE the non-keyword tokens are kept, after it every token but WHERE |
| SqlFilters.SelectMembers | sql.go:277-285 | every kept token is an input token |
| SqlFilters.FromSqlOperatorEmpty | sql.go:262-296 | the group FromSQL returns always has the empty operator, because no token is BOOLEAN |
| SqlFilters.FromSQL | sql.go:268-296 | the method computes FromSql: tokenize, select, "no WHERE clause found" when nothing is selected, then parse |
| SqlFilters.WhereTokens | sql.go:274-285 | the selection loop computes Select |
| RuleEngine.FieldValue | rule/rule.go:45-66 | the map entry or exported struct field of that name, nil whenever there is none, and a panic exactly when the struct field exists but is unexported |
| RuleEngine.Compare | rule/rule.go:69-90 | `==`/`!=` are interface equality; the ordering operators panic unless both sides are ints and otherwise compare them; `&&`/`||` assert to bool with Go's short circuit; any other operator is false |
| RuleEngine.CompareDuals | rule/rule.go:71-82 | `!=` is the negation of `==`, `>` and `>=` are `<` and `<=` with the sides swapped, and on ints `<=` is `<` or `==` |
| RuleEngine.MatchCondition | rule/rule.go:39-42 | a present map entry or exported struct field is compared with the literal; an unexported struct field panics; a missing field, or data that is neither a map nor a struct, compares as nil, so it equals only a nil literal and an ordering on it panics |
| RuleEngine.Combine | rule/rule.go:136-143 | after the first condition AND and OR short-circuit, NOT replaces the result by the negated condition, and any other conjunction keeps the result without evaluating the condition |
| RuleEngine.EvaluateRule | rule/rule.go:129-148 | the loop computes Fold |
| RuleEngine.PanicStays | rule/rule.go:132-145 | once evaluation panics on a prefix, the whole rule panics |
| RuleEngine.ShortCircuit | rule/rule.go:132-145 | for AND (deciding value false) and OR (deciding value true), a non-empty rule gives the non-deciding value iff every condition does, and the deciding value iff some condition gives it after all before it did not |
| RuleEngine.FoldAnd | rule/rule.go:129-148 | with AND a rule holds iff it has conditions and all hold, and fails iff it has none or some condition fails after all before it held |
| RuleEngine.FoldOr | rule/rule.go:129-148 | with OR a rule fails iff every condition fails (so also with none), and holds iff some condition holds after all before it failed |
| RuleEngine.FoldNot | rule/rule.go:133-143 | with NOT every condition is evaluated, a panic in any propagates, and otherwise the result is the negation of the last condition alone |
| RuleEngine.FoldOther | rule/rule.go:133-145 | any other conjunction leaves the first condition's result and never evaluates the rest |
| RuleEngine.ValidationsPanicStays | rule/rule.go:111-123 | once a prefix of the rules panics, validating them all panics |
| RuleEngine.ValidateData | rule/rule.go:108-126 | the loop, appending an entry and then overwriting its message and action, computes Validations |
| RuleEngine.ValidationsMeaning | rule/rule.go:108-126 | it panics iff some rule's evaluation does; otherwise one entry per rule, whose status is true iff the rule is broken, with an empty message and ALLOW for a kept rule and the rule's message and action otherwise |
| Patterns.NewCase | pattern/pattern.go:150-163 | addCase records a case not yet matched, without an error or result |
| Patterns.FieldNamesDistinct | pattern/pattern.go:132-135 | different positions get different field names |
| Patterns.KeyedMeaning | pattern/pattern.go:132-135 | under an injective key the map holds exactly one entry per value |
| Patterns.ValuesMapMeaning | pattern/pattern.go:126-138 | value `i` is stored under the `i`-th field name, and there are no other keys |
| Patterns.FillValues | pattern/pattern.go:132-135 | the loop computes ValuesMap |
| Patterns.CheckOf | pattern/pattern.go:48-78 | EXISTS asks for a non-zero value, NOTEXISTS for a zero value, ANY asks nothing, and every other argument (NONE and non-strings included) asks for equality |
| Patterns.CheckList | pattern/pattern.go:50-77 | one argument contributes its filter, or nothing for ANY |
| Patterns.ChecksMembers | pattern/pattern.go:48-78 | every collected filter is the filter of some argument, and every argument other than ANY contributes its filter |
| Patterns.CaseGroupMeaning | pattern/pattern.go:79-83 | a case's AND group holds iff every argument other than ANY has its filter met by the value at the same position |
| Patterns.BuildChecks | pattern/pattern.go:46-78 | the loop computes Checks |
| Patterns.MatchCaseMeaning | pattern/pattern.go:25-94 | only the found flag, error and result change, a failure or match is never undone, the first failing check (no arguments or values, a count mismatch, a nil handler) sets its error, and a match calls the handler with the case's arguments |
| Patterns.MatchCaseStep | pattern/pattern.go:25-94 | the method computes MatchCase |
| Patterns.DefaultNeverPasses | pattern/pattern.go:96-111 | a fresh default case is always found and calls its handler with one nil argument, so it decides Result; a nil handler panics |
| Patterns.Matcher.Match | pattern/pattern.go:126-138 | no values give a matcher carrying NoValueError; otherwise each value is keyed by its position, and there are no cases |
| Patterns.Matcher.AddCase | pattern/pattern.go:150-163 | a fresh case is appended unless the matcher carries an error; nothing else changes |
| Patterns.Matcher.Case | pattern/pattern.go:140-143 | appends a non-default case over the given arguments |
| Patterns.Matcher.Default | pattern/pattern.go:145-148 | appends a default case without arguments |
| Patterns.FirstDecides | pattern/pattern.go:169-182 | the first case that fails or matches decides Result |
| Patterns.NoneDecides | pattern/pattern.go:169-183 | when no case fails or matches, Result is `(nil, nil)` |
| Patterns.Result | pattern/pattern.go:165-184 | a nil matcher gives NoMatcherError; otherwise the cases are run on copies, in order, as ResultOf says |
| FuzzySearch.CellAt | examples/cuckoo.go:302-311 | an inner cell of the table is the minimum of deletion, insertion and substitution, the last costing 1 only for different bytes |
| FuzzySearch.CellEdges | examples/cuckoo.go:296-301 | the first column holds `i` and the first row `j` |
| FuzzySearch.FillRow | examples/cuckoo.go:303-310 | the inner loop fills row `i` from the row above and changes no other row |
| FuzzySearch.EditDistance | examples/cuckoo.go:285-313 | the table method returns the Levenshtein distance, an empty side giving the other's length |
| FuzzySearch.LengthBounds | examples/cuckoo.go:285-313 | the distance is at least the difference of the lengths and at most their sum |
| FuzzySearch.SelfZero | examples/cuckoo.go:285-313 | a string is at distance 0 from itself |
| FuzzySearch.ZeroIffEqual | examples/cuckoo.go:285-313 | the distance is 0 exactly for equal strings |
| FuzzySearch.Symmetric | examples/cuckoo.go:285-313 | the distance is symmetric |
| FuzzySearch.Triangle | examples/cuckoo.go:285-313 | the distance obeys the triangle inequality, which the BK tree relies on |
| FuzzySearch.SlotOf | examples/cuckoo.go:192 | the index of the child under key `d`, or the number of children when no child has that key |
| FuzzySearch.TermsBelowMember | examples/cuckoo.go:47-50 | a term is stored below the first `k` children iff it is stored under one of them |
| FuzzySearch.InsertTerms | examples/cuckoo.go:189-198 | AddTerm stores exactly one more copy of the term |
| FuzzySearch.InsertKeepsBK | examples/cuckoo.go:189-198 | AddTerm keeps the BK invariant: every child is keyed by its distance to its parent's term, and keys are distinct |
| FuzzySearch.AppendKeepsBK | examples/cuckoo.go:195 | a new child under a fresh key keeps the node BK |
| FuzzySearch.ReplaceKeepsBK | examples/cuckoo.go:192-193 | replacing a child by one under the same key keeps the node BK |
| FuzzySearch.SearchSound | examples/cuckoo.go:204-214 | every result is a stored term within `maxDistance` of the query |
| FuzzySearch.SearchComplete | examples/cuckoo.go:204-214 | under the BK invariant every stored term within `maxDistance` is found, because the triangle inequality puts its key inside every window on its path |
| FuzzySearch.Window | examples/cuckoo.go:210 | a term within `maxDistance` of the query is at a distance from any other term inside that term's search window |
| FuzzySearch.InsertTerm | examples/cuckoo.go:189-198 | the descending loop computes Insert |
| FuzzySearch.SearchNode | examples/cuckoo.go:204-214 | the recursive search computes Search |
| FuzzySearch.BKTree.constructor | examples/cuckoo.go:322-324 | a new tree is empty |
| FuzzySearch.BKTree.AddTerm | examples/cuckoo.go:184-199 | the first term becomes the root; later terms are inserted below it |
| FuzzySearch.BKTree.SearchFuzzy | examples/cuckoo.go:201-219 | nothing on an empty tree, else Search from the root |
| FuzzySearch.BuiltSearch | examples/cuckoo.go:184-219 | a tree built by AddTerm holds exactly the added terms and is BK, so SearchFuzzy returns exactly the added terms within `maxDistance` of the query |
| FuzzySearch.FieldsFrom | examples/cuckoo.go:105-107 | every character of a field comes from the text it was split from |
| FuzzySearch.TokenizeMeaning | examples/cuckoo.go:105-107 | every token is non-empty, lower-case and free of white space |
| FuzzySearch.IndexedStep | examples/cuckoo.go:113-118 | one more token appends the ID once to that token's list under the field and to no other list |
| FuzzySearch.AddTokenPostings | examples/cuckoo.go:114-117 | AddToken adds the ID to the list of its token and field, and every other list is unchanged |
| FuzzySearch.AddTokenEffect | examples/cuckoo.go:114-117 | after AddToken the tokens are the old ones plus its token, and a token's fields are its old ones plus the appended field for that token; no other key is created |
| FuzzySearch.IndexedUnique | examples/cuckoo.go:111-119 | the index AddDocument leaves does not depend on the order in which the fields are visited |
| FuzzySearch.IndexedIds | examples/cuckoo.go:109-120 | every ID in the lists was there before or is the added one |
| FuzzySearch.AddedIsFound | examples/cuckoo.go:109-148 | a document just added is found by searching all fields for any of its tokens |
| FuzzySearch.MarkAll | examples/cuckoo.go:128-137 | marking a list sets exactly the IDs of the list, keeping the earlier ones |
| FuzzySearch.Keys | examples/cuckoo.go:143-146 | the keys of the result set, each once |
| FuzzySearch.InvertedIndex.constructor | examples/cuckoo.go:315-320 | a new index has no postings and no documents |
| FuzzySearch.InvertedIndex.AddDocument | examples/cuckoo.go:109-120 | the document is stored under its ID and every token of every field gets the ID appended once per occurrence |
| FuzzySearch.InvertedIndex.SearchExact | examples/cuckoo.go:122-148 | the IDs listed under any query token in an allowed field (any field when none are given), each once |
| FuzzySearch.FieldIds | examples/cuckoo.go:126-140 | the IDs under one token, from every field or from each listed field the token has |
| FuzzySearch.ApplyFilterMeaning | examples/cuckoo.go:73-103 | a missing field fails; `=` and `!=` are complementary on a present field; no other operator passes |
| FuzzySearch.Contains | examples/cuckoo.go:276-283 | the loop finds the item iff it is in the slice |
| Intersect.KeptMeaning | examples/intersect.go:24-35 | every element of the first slice that occurs in all the others is kept, as often as in the first slice, and nothing else |
| Intersect.IntersectedMeaning | examples/intersect.go:12-37 | for two or more slices the result holds exactly the common elements |
| Intersect.Intersection | examples/intersect.go:12-37 | the loops compute Intersected; no slice gives nothing and one slice gives itself |

## Left out

- I/O, JSON encoding and decoding, and the `Scan`/`Value` database methods of request.go (52-64): they only move bytes between the program and its environment.
- Regular expressions: the date-time pattern of `IsValidDateTime` is an uninterpreted predicate of `Utils.Lib`; `splitByWhere`'s whole-word search is modelled as a direct scan for a `WHERE` bounded by non-word characters.
- `time.Parse`, `fmt.Sprint`, `expr.Eval`, `dipper.Get`, the `convert` package and reflection (`IsZero`, `IsNil`): they are fields of `Conditions.Env` and `Utils.Lib`, so the model holds for every implementation of them.
- Utils.Intersection, Utils.Union and Joins.FilterJoin: the key `Serialize` builds is a total function parameter, so the model assumes `Serialize` succeeds; on an item that is neither a map nor a struct, such as an int, Go panics at `v.NumField()` (utils/utils.go:211), which the model does not capture.
- Floating point: `Values.Value` has no float case, so `float64` comparisons, BM25 scoring and the `Search`/`ComputeBM25` engine of examples/cuckoo.go (150-182, 221-274) are not modelled.
- FuzzySearch.ApplyFilterMeaning: `>` and `<` on a present field compare floats in the source; with no float values they never pass in the model.
- Integer width: `int` is unbounded, so 64-bit wrap-around in comparisons and sums is not modelled.
- URL decoding: `url.ParseQuery` is a parameter that delivers the decoded pairs or an error.
- Map iteration order: loops over Go maps visit keys in a list the caller supplies. Where the result depends on that order, the lemmas hold for every order, or state the order used.
- Text.TrimSpace, Text.ToLower, Text.ToUpper, Text.Fields and Text.EqualFold: ASCII white space and ASCII case mapping only, so `strings.Fields` splits at ASCII white space and `strings.EqualFold` folds ASCII letters only; no Unicode tables. RuleEngine.Exported likewise takes only ASCII upper-case letters as the start of an exported name.
- FuzzySearch.EditDistance: strings are read as byte sequences, as Go's indexing of `string` does; no UTF-8 decoding.
- FuzzySearch.BKTree: the tree is a value rather than a graph of pointers. Children are an ordered list, not a map, so the order of SearchFuzzy's results follows insertion order, where Go's follows map order.
- Intersect.Intersection: elements are any type with equality; Go's panic when `==` meets two uncomparable dynamic values is not modelled.
- Requests.BuildRuleFromRequest: `nil` entries in a group request are not modelled; `Rule.Validate` is defined in a file of the library not modelled here and is a parameter.
- Rules.Rule.AddCondition: the recursion into a nested `*Rule` works on a value copy, so aliasing between rules that share a nested rule is not modelled.
- Rules.Rule.Apply: an explicit `nil` callback argument overrides the stored callback and gives the identity callback, as the source does.
- Conditions.NewFilter: `Filter.Match` and `NewFilter` are defined in a file of the library not modelled here; they are modelled as the match of condition.go XOR the filter's `Reverse` flag, with `NewFilter` setting field, operator and value only.
- SqlFilters: the legacy `Filter` of sql.go is modelled with its field, operator and value only.
- RuleEngine.FieldValue: a struct's fields are named values, so fields promoted from embedded structs are not looked up; map keys that are not strings are out of scope.
- Patterns: pattern/pattern.go matches neither generation of the filter API exactly; it is modelled against the current `Filter`/`MatchGroup` semantics. Error values are their names.
- Patterns: the `xid` generator behind `Patterns.RandomField` (pattern/pattern.go:11) is a fixed string.
- Parser.ParseIn: when no `)` follows, the source's loop never ends; the model reports that as the outcome `Diverge` instead of looping.
- Legacy.Match: the values of this model have no struct case, so which non-map items are structs, and what their fields hold, is the host's `fieldOf`; it stands for the reflection of utils/utils.go:18-27 and may panic, as `NumField` does on an int, a string, a bool or a slice; only the panic on a nil item is fixed by the model.
- Legacy.ApplyGroup: the outer loop is the generic `Values.KeepMatching`.
- The lazily built validation cache, the WASM bridge and the demo `main` programs: they wrap the core and add nothing to its logic.
- Concurrency: the core has none.

## Findings

| source | as written | input that shows it | evidently intended | confidence | as-written member | corrected member |
|---|---|---|---|---|---|---|
| utils/utils.go:110-112 | with a custom layout `str` is never assigned, so `time.Parse` always parses the empty string | `ParseTime("2024-01-02", "2006-01-02")` | parse the given value with the given layout | high; not executed | Utils.ParseTimeAsWritten | Utils.ParseTimeLayout |
| join.go:21-22 | both groups run `ApplyGroup` on the same backing array, and the first compacts it in place before the second runs | data `[{id: 1}, {id: 2}]` of two map records, left keeps `{id: 2}`, right keeps `{id: 1}`, operator OR (lemma `Joins.JoinAliasingLosesItem`) | both groups see the original data | high; not executed | Joins.JoinAsWritten | Joins.JoinIntended |
| rule.go:406-417 | the `%` tests run on the value after `%` was trimmed, so they never hold and the untrimmed value is kept with NotContains | `x NOT LIKE '%ab%'` (lemma `Parser.NotLikeWithPercents`) | test the untrimmed value and keep the trimmed one | medium; not executed | Parser.NotLikeAsWritten | Parser.NotLikeIntended |
| request.go:101-116 | `groups` is declared outside the loop, so each entry's call also passes every earlier entry's groups | two group entries with one group each (lemma `Requests.GroupsAccumulateTwice`) | each entry adds only its own groups | medium; not executed | Requests.GroupCalls | Requests.GroupCallsIntended |
| query.go:12-16 | the decoding error is tested as `err`, which is still nil, so a decoding failure is ignored | a query whose only parameter fails to decode (lemma `Queries.DecodeErrorDropped`) | test `err1` and return the error | high; not executed | Queries.QueryAsWritten | Queries.QueryIntended |
