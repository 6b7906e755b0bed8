/** The operator and keyword tables shared by the tokeniser, the adjacency
    checker and the expression type checker.
 */
module Tokens {

  /** Operators that need an operand on both sides. */
  const BinaryOperators: set<string> :=
    {"+", "-", "*", "/", "&&", "||", "==", "!=", ">", "<", "<=", ">="}

  const NumericOperators: set<string> := {"+", "-", "*", "/"}

  const ComparativeOperators: set<string> := {"==", "!=", ">", "<", "<=", ">="}

  const BooleanOperators: set<string> := {"&&", "||"}

  /** Operators that take a single operand on their right. */
  const UnaryOperators: set<string> := {"!", "-"}

  const ConditionalKeywords: set<string> := {"if", "else if", "else"}

  const TypeKeywords: set<string> :=
    {"int", "float", "bool", "byte", "string", "function", "arr", "vec"}

  const AssignmentKeywords: set<string> := {"let", "mut"}

  const IterationKeywords: set<string> := {"loop"}

  const Numbers: set<string> := {"0", "1", "2", "3", "4", "5", "6", "7", "8", "9"}

  const AllKeywords: set<string> :=
    ConditionalKeywords + TypeKeywords + AssignmentKeywords + IterationKeywords

  predicate IsBinary(s: string) {
    s in BinaryOperators
  }

  predicate IsUnary(s: string) {
    s in UnaryOperators
  }

  /** True for either kind of operator. */
  predicate IsOperator(s: string) {
    IsBinary(s) || IsUnary(s)
  }

  /** A one-character string made of a decimal digit. */
  predicate IsDigitChar(c: char) {
    '0' <= c <= '9'
  }

  /** The binary table is the disjoint union of the numeric, comparative and
      boolean tables. */
  lemma BinaryOperatorsPartition()
    ensures BinaryOperators == NumericOperators + ComparativeOperators + BooleanOperators
    ensures NumericOperators !! ComparativeOperators
    ensures NumericOperators !! BooleanOperators
    ensures ComparativeOperators !! BooleanOperators
  {
    assert NumericOperators !! ComparativeOperators by {
      forall x | x in NumericOperators ensures x !in ComparativeOperators {
        assert |x| == 1;
      }
    }
    assert NumericOperators !! BooleanOperators by {
      forall x | x in NumericOperators ensures x !in BooleanOperators {
        assert |x| == 1;
      }
    }
  }

  /** The binary table has twelve entries. */
  lemma BinaryOperatorCount()
    ensures |BinaryOperators| == 12
  {
    BinaryOperatorsPartition();
    assert |NumericOperators| == 4;
    assert |ComparativeOperators| == 6;
    assert |BooleanOperators| == 2;
    assert |NumericOperators + ComparativeOperators| == 10;
  }

  /** `-` is the one operator that is both unary and binary. */
  lemma UnaryBinaryOverlap()
    ensures UnaryOperators * BinaryOperators == {"-"}
    ensures forall s :: IsUnary(s) <==> s == "!" || s == "-"
  {
  }

  /** The digit table holds exactly the ten one-character digit strings. */
  lemma NumbersAreDigits(s: string)
    ensures s in Numbers <==> |s| == 1 && IsDigitChar(s[0])
  {
    if |s| == 1 && IsDigitChar(s[0]) {
      var c := s[0];
      assert s == [c];
      if c == '0' { assert s == "0"; }
      else if c == '1' { assert s == "1"; }
      else if c == '2' { assert s == "2"; }
      else if c == '3' { assert s == "3"; }
      else if c == '4' { assert s == "4"; }
      else if c == '5' { assert s == "5"; }
      else if c == '6' { assert s == "6"; }
      else if c == '7' { assert s == "7"; }
      else if c == '8' { assert s == "8"; }
      else { assert s == "9"; }
    }
  }

  /** No keyword is in two of the four keyword tables. */
  lemma KeywordTablesDisjoint()
    ensures ConditionalKeywords !! TypeKeywords
    ensures ConditionalKeywords !! AssignmentKeywords
    ensures TypeKeywords !! AssignmentKeywords
    ensures IterationKeywords !! ConditionalKeywords + TypeKeywords + AssignmentKeywords
  {
    forall x | x in TypeKeywords ensures x !in ConditionalKeywords && x !in AssignmentKeywords && x != "loop" {
      assert x[0] != 'i' || x == "int";
    }
  }

  /** There are fourteen keywords. */
  lemma KeywordCount()
    ensures |AllKeywords| == 14
  {
    KeywordTablesDisjoint();
    assert |ConditionalKeywords| == 3;
    assert |TypeKeywords| == 8 by { TypeKeywordCount(); }
    assert |AssignmentKeywords| == 2;
    assert |ConditionalKeywords + TypeKeywords| == 11;
    assert |ConditionalKeywords + TypeKeywords + AssignmentKeywords| == 13;
  }

  lemma TypeKeywordCount()
    ensures |TypeKeywords| == 8
  {
    var a: set<string> := {"int", "float", "bool", "byte"};
    var b: set<string> := {"string", "function", "arr", "vec"};
    assert TypeKeywords == a + b;
    assert |a| == 4 && |b| == 4;
    assert a !! b;
  }
}
