/** The Boolean combinators and the operator codes of the current engine. Go declares
    both as string types, so a filter may carry any string as its operator; these
    constants are the codes the engine recognises. */
module Operators {

  const AND: string := "AND"
  const OR: string := "OR"

  const Equal: string := "eq"
  const LessThan: string := "lt"
  const LessThanEqual: string := "le"
  const GreaterThan: string := "gt"
  const GreaterThanEqual: string := "ge"
  const NotEqual: string := "ne"
  const EqualCount: string := "eqc"
  const NotEqualCount: string := "nec"
  const GreaterThanCount: string := "gtc"
  const LesserThanCount: string := "ltc"
  const GreaterThanEqualCount: string := "gec"
  const LesserThanEqualCount: string := "lec"
  const Contains: string := "contains"
  const NotContains: string := "ncontains"
  const Between: string := "between"
  const Expression: string := "expr"
  const Pattern: string := "pattern"
  const In: string := "in"
  const StartsWith: string := "startswith"
  const NotStartsWith: string := "nstartswith"
  const EndsWith: string := "endswith"
  const NotEndsWith: string := "nendswith"
  const NotIn: string := "nin"
  const NotZero: string := "nzero"
  const IsZero: string := "izero"
  const IsNull: string := "null"
  const NotNull: string := "nnull"
  const ContainsCS: string := "contains_cs"
  const NotContainsCS: string := "ncontains_cs"
  const StartsWithCS: string := "startswith_cs"
  const NotStartsWithCS: string := "nstartswith_cs"
  const EndsWithCS: string := "endswith_cs"
  const NotEndsWithCS: string := "nendswith_cs"

  /** Every operator code, in declaration order. */
  const AllOperators: seq<string> := [
    Equal, LessThan, LessThanEqual, GreaterThan, GreaterThanEqual, NotEqual,
    EqualCount, NotEqualCount, GreaterThanCount, LesserThanCount,
    GreaterThanEqualCount, LesserThanEqualCount,
    Contains, NotContains, Between, Expression, Pattern, In,
    StartsWith, NotStartsWith, EndsWith, NotEndsWith, NotIn,
    NotZero, IsZero, IsNull, NotNull,
    ContainsCS, NotContainsCS, StartsWithCS, NotStartsWithCS, EndsWithCS, NotEndsWithCS]

  /** The cardinality operators, which compare the length of a slice field. */
  predicate IsCountOperator(op: string)
  {
    op == EqualCount || op == NotEqualCount || op == GreaterThanCount ||
    op == LesserThanCount || op == GreaterThanEqualCount || op == LesserThanEqualCount
  }

  /** There are 33 codes and they are pairwise distinct. */
  lemma CodesDistinct()
    ensures |AllOperators| == 33
    ensures forall i, j :: 0 <= i < j < |AllOperators| ==> AllOperators[i] != AllOperators[j]
  {
    forall i, j | 0 <= i < j < |AllOperators|
      ensures AllOperators[i] != AllOperators[j]
    {
      if j < 11 {
        FirstOccurrencesLow(j);
      } else if j < 22 {
        FirstOccurrencesMiddle(j);
      } else {
        FirstOccurrencesHigh(j);
      }
      assert AllOperators[0..j][i] == AllOperators[i];
    }
  }

  /** Each code occurs for the first time at its own position (three ranges of positions). */
  lemma FirstOccurrencesLow(j: nat)
    requires j < 11
    ensures AllOperators[j] !in AllOperators[0..j]
  {
    var code, prefix := AllOperators[j], AllOperators[0..j];
    forall i | 0 <= i < j ensures prefix[i] != code {
    }
  }

  lemma FirstOccurrencesMiddle(j: nat)
    requires 11 <= j < 22
    ensures AllOperators[j] !in AllOperators[0..j]
  {
    var code, prefix := AllOperators[j], AllOperators[0..j];
    forall i | 0 <= i < j ensures prefix[i] != code {
    }
  }

  lemma FirstOccurrencesHigh(j: nat)
    requires 22 <= j < |AllOperators|
    ensures AllOperators[j] !in AllOperators[0..j]
  {
    var code, prefix := AllOperators[j], AllOperators[0..j];
    forall i | 0 <= i < j ensures prefix[i] != code {
    }
  }

  /** The cardinality operators are exactly the three-letter codes ending in 'c'. */
  lemma CountOperators(op: string)
    ensures IsCountOperator(op) <==> op in AllOperators && |op| == 3 && op[2] == 'c'
  {
  }

  /** Each case-sensitive string operator's code is its case-insensitive counterpart's
      code followed by "_cs". */
  lemma CaseSensitiveSuffix()
    ensures ContainsCS == Contains + "_cs" && NotContainsCS == NotContains + "_cs"
    ensures StartsWithCS == StartsWith + "_cs" && NotStartsWithCS == NotStartsWith + "_cs"
    ensures EndsWithCS == EndsWith + "_cs" && NotEndsWithCS == NotEndsWith + "_cs"
  {
  }

  /** The negated membership and string operators are the positive code prefixed by "n". */
  lemma NegatedPrefix()
    ensures NotContains == "n" + Contains && NotStartsWith == "n" + StartsWith
    ensures NotEndsWith == "n" + EndsWith && NotIn == "n" + In
  {
  }
}
