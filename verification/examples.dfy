/** Concrete runs of the engine on the expressions its test suite uses, as the code
    behaves; where the code and the tests part ways, the comment says so.

    Each scenario takes its input as a parameter fixed by `requires text == "..."`
    rather than applying `Run` to a string literal: the verifier unfolds functions
    applied to literal arguments eagerly, and on a whole pipeline that unfolding does
    not finish. For the same reason the token sequence of each input is produced once,
    by a `...Tokens` lemma that returns it together with its text, and the parse of
    that sequence is proved in a separate `...Parse` lemma. */
module Scenarios {
  import opened Results
  import opened Tokens
  import opened Ast
  import opened Lexer
  import opened Parsing
  import opened Evaluation
  import opened ParserProperties
  import opened Engine

  /** The tokens of `2+3*4`. */
  lemma PrecedenceTokens() returns (ts: seq<Token>)
    ensures ts == [Number("2"), Operator(Add), Number("3"), Operator(Mul), Number("4")]
    ensures Concat(ts) == "2+3*4" && Separated(ts)
  {
    ts := [Number("2"), Operator(Add), Number("3"), Operator(Mul), Number("4")];
  }

  /** The tree the parser builds from the tokens of `2+3*4`, and its value. */
  lemma PrecedenceParse()
    ensures ParseExpr([Number("2"), Operator(Add), Number("3"), Operator(Mul), Number("4")], 0)
         == Ok((BinaryExpression(Literal(2), Add, BinaryExpression(Literal(3), Mul, Literal(4))), []))
    ensures Evaluate(BinaryExpression(Literal(2), Add, BinaryExpression(Literal(3), Mul, Literal(4)))) == Ok(14.0)
  {
    var n := BinaryExpression(Literal(2), Add, BinaryExpression(Literal(3), Mul, Literal(4)));
    assert Unparse(n) == [Number("2"), Operator(Add), Number("3"), Operator(Mul), Number("4")];
    UnparseRoundTrip(n);
  }

  /** Multiplication binds tighter than addition. */
  lemma PrecedenceScenario(text: string)
    requires text == "2+3*4"
    ensures Run(text) == Ok(14.0)
  {
    var ts := PrecedenceTokens();
    PrecedenceParse();
    RunOfText(ts);
  }

  /** The tokens of `8-6/2`. */
  lemma DivisionPrecedenceTokens() returns (ts: seq<Token>)
    ensures ts == [Number("8"), Operator(Sub), Number("6"), Operator(Div), Number("2")]
    ensures Concat(ts) == "8-6/2" && Separated(ts)
  {
    ts := [Number("8"), Operator(Sub), Number("6"), Operator(Div), Number("2")];
  }

  /** The tree the parser builds from the tokens of `8-6/2`, and its value. */
  lemma DivisionPrecedenceParse()
    ensures ParseExpr([Number("8"), Operator(Sub), Number("6"), Operator(Div), Number("2")], 0)
         == Ok((BinaryExpression(Literal(8), Sub, BinaryExpression(Literal(6), Div, Literal(2))), []))
    ensures Evaluate(BinaryExpression(Literal(8), Sub, BinaryExpression(Literal(6), Div, Literal(2)))) == Ok(5.0)
  {
    var n := BinaryExpression(Literal(8), Sub, BinaryExpression(Literal(6), Div, Literal(2)));
    assert Unparse(n) == [Number("8"), Operator(Sub), Number("6"), Operator(Div), Number("2")];
    UnparseRoundTrip(n);
  }

  /** Division binds tighter than subtraction. */
  lemma DivisionPrecedenceScenario(text: string)
    requires text == "8-6/2"
    ensures Run(text) == Ok(5.0)
  {
    var ts := DivisionPrecedenceTokens();
    DivisionPrecedenceParse();
    RunOfText(ts);
  }

  /** The tokens of `10-3-2`. */
  lemma LeftAssociativityTokens() returns (ts: seq<Token>)
    ensures ts == [Number("10"), Operator(Sub), Number("3"), Operator(Sub), Number("2")]
    ensures Concat(ts) == "10-3-2" && Separated(ts)
  {
    ts := [Number("10"), Operator(Sub), Number("3"), Operator(Sub), Number("2")];
  }

  /** The tree the parser builds from the tokens of `10-3-2`, and its value. */
  lemma LeftAssociativityParse()
    ensures ParseExpr([Number("10"), Operator(Sub), Number("3"), Operator(Sub), Number("2")], 0)
         == Ok((BinaryExpression(BinaryExpression(Literal(10), Sub, Literal(3)), Sub, Literal(2)), []))
    ensures Evaluate(BinaryExpression(BinaryExpression(Literal(10), Sub, Literal(3)), Sub, Literal(2))) == Ok(5.0)
  {
    var n := BinaryExpression(BinaryExpression(Literal(10), Sub, Literal(3)), Sub, Literal(2));
    assert Numeral(10) == "10";
    assert Unparse(n) == [Number("10"), Operator(Sub), Number("3"), Operator(Sub), Number("2")];
    UnparseRoundTrip(n);
  }

  /** Subtraction chains group to the left. */
  lemma LeftAssociativityScenario(text: string)
    requires text == "10-3-2"
    ensures Run(text) == Ok(5.0)
  {
    var ts := LeftAssociativityTokens();
    LeftAssociativityParse();
    RunOfText(ts);
  }

  /** The tokens of `(2+3)*4`. */
  lemma GroupingTokens() returns (ts: seq<Token>)
    ensures ts == [Parenthesis(Open), Number("2"), Operator(Add), Number("3"), Parenthesis(Close),
                   Operator(Mul), Number("4")]
    ensures Concat(ts) == "(2+3)*4" && Separated(ts)
  {
    ts := [Parenthesis(Open), Number("2"), Operator(Add), Number("3"), Parenthesis(Close),
                   Operator(Mul), Number("4")];
    assert Concat([Parenthesis(Close), Operator(Mul), Number("4")]) == ")*4";
  }

  /** The tree the parser builds from the tokens of `(2+3)*4`, and its value. */
  lemma GroupingParse()
    ensures ParseExpr([Parenthesis(Open), Number("2"), Operator(Add), Number("3"), Parenthesis(Close),
                       Operator(Mul), Number("4")], 0)
         == Ok((BinaryExpression(BinaryExpression(Literal(2), Add, Literal(3)), Mul, Literal(4)), []))
    ensures Evaluate(BinaryExpression(BinaryExpression(Literal(2), Add, Literal(3)), Mul, Literal(4))) == Ok(20.0)
  {
    var n := BinaryExpression(BinaryExpression(Literal(2), Add, Literal(3)), Mul, Literal(4));
    assert Evaluate(n.left) == Ok(5.0);
    assert Unparse(n) == [Parenthesis(Open), Number("2"), Operator(Add), Number("3"), Parenthesis(Close),
                       Operator(Mul), Number("4")];
    UnparseRoundTrip(n);
  }

  /** Parentheses override precedence. */
  lemma GroupingScenario(text: string)
    requires text == "(2+3)*4"
    ensures Run(text) == Ok(20.0)
  {
    var ts := GroupingTokens();
    GroupingParse();
    RunOfText(ts);
  }

  /** The tokens of `5/0`. */
  lemma DivisionByZeroTokens() returns (ts: seq<Token>)
    ensures ts == [Number("5"), Operator(Div), Number("0")]
    ensures Concat(ts) == "5/0" && Separated(ts)
  {
    ts := [Number("5"), Operator(Div), Number("0")];
  }

  /** The tree the parser builds from the tokens of `5/0`, and its value. */
  lemma DivisionByZeroParse()
    ensures ParseExpr([Number("5"), Operator(Div), Number("0")], 0)
         == Ok((BinaryExpression(Literal(5), Div, Literal(0)), []))
    ensures Evaluate(BinaryExpression(Literal(5), Div, Literal(0))) == Err(EvaluateError)
  {
    var n := BinaryExpression(Literal(5), Div, Literal(0));
    assert Unparse(n) == [Number("5"), Operator(Div), Number("0")];
    UnparseRoundTrip(n);
  }

  /** Dividing by zero fails in the evaluator. */
  lemma DivisionByZeroScenario(text: string)
    requires text == "5/0"
    ensures Run(text) == Err(EvaluateError)
  {
    var ts := DivisionByZeroTokens();
    DivisionByZeroParse();
    RunOfText(ts);
  }

  /** A missing right operand reads past the last token: a TypeError, not `ParseError`. */
  lemma MissingOperandScenario(text: string)
    requires text == "2+"
    ensures Run(text) == Err(UndefinedToken)
  {
    var ts := [Number("2"), Operator(Add)];
    assert Concat(ts) == text;
    assert Separated(ts);
    assert ParseExpr(ts, 0) == Err(UndefinedToken);
    RunOfText(ts);
  }

  /** An unclosed parenthesis also reads past the last token (the tests expect
      `ParseError`). */
  lemma UnclosedParenthesisScenario(text: string)
    requires text == "(2"
    ensures Run(text) == Err(UndefinedToken)
  {
    var ts := [Parenthesis(Open), Number("2")];
    assert Concat(ts) == text;
    assert Separated(ts);
    assert ParseExpr(ts, 0) == Err(UndefinedToken);
    RunOfText(ts);
  }

  /** The empty expression has no first token. */
  lemma EmptyScenario(text: string)
    requires text == ""
    ensures Run(text) == Err(UndefinedToken)
  {
    assert Trim(text) == text;
  }

  /** Letters are not in the alphabet. */
  lemma LettersScenario(text: string)
    requires text == "abc"
    ensures Run(text) == Err(TokenizationError)
  {
    TrimKeeps(text);
    assert !IsLexChar(text[0]);
    RunTokenizationErrorIff(text);
  }

  /** Only the ends are trimmed: a space inside the expression is rejected (the tests
      write their expressions with spaces and expect values). */
  lemma InteriorSpaceScenario(text: string)
    requires text == "2 + 3"
    ensures Run(text) == Err(TokenizationError)
  {
    TrimKeeps(text);
    assert !IsLexChar(text[1]);
    RunTokenizationErrorIff(text);
  }

  /** The tokens of `7` and the tree the parser builds from them. */
  lemma SevenParse()
    ensures Lex("7") == Ok([Number("7")])
    ensures ParseExpr([Number("7")], 0) == Ok((Literal(7), []))
  {
    var ts := [Number("7")];
    assert Concat(ts) == "7" && Separated(ts);
    ConcatThenLex(ts);
  }

  /** Spaces around the expression are trimmed away. */
  lemma SurroundingSpaceScenario(text: string)
    requires text == "  7 "
    ensures Run(text) == Ok(7.0)
  {
    assert text == "  " + "7" + " ";
    TrimPadded("  ", "7", " ");
    SevenParse();
  }

  /** A leading minus has no prefix handler (the tests expect `-5` to be -5). */
  lemma LeadingMinusScenario(text: string)
    requires text == "-5"
    ensures Run(text) == Err(ParseError)
  {
    var ts := [Operator(Sub), Number("5")];
    assert Concat(ts) == text;
    assert Separated(ts);
    assert ParseExpr(ts, 0) == Err(ParseError);
    RunOfText(ts);
  }

  /** A minus after an operator has no prefix handler either (the tests expect -6). */
  lemma MinusAfterOperatorScenario(text: string)
    requires text == "2*-3"
    ensures Run(text) == Err(ParseError)
  {
    var ts := [Number("2"), Operator(Mul), Operator(Sub), Number("3")];
    assert Concat(ts) == text;
    assert Separated(ts);
    assert ParseExpr(ts[2..], 2) == Err(ParseError);
    assert ParseExpr(ts, 0) == Err(ParseError);
    RunOfText(ts);
  }

  /** Tokens after a complete expression are ignored. */
  lemma TrailingTokensScenario(text: string)
    requires text == "2)5"
    ensures Run(text) == Ok(2.0)
  {
    var ts := [Number("2"), Parenthesis(Close), Number("5")];
    assert Concat(ts) == text;
    assert Separated(ts);
    assert ParseExpr(ts, 0) == Ok((Literal(2), ts[1..]));
    RunOfText(ts);
  }

  /** A group right after an operand replaces it instead of multiplying. */
  lemma JuxtapositionScenario(text: string)
    requires text == "2(3)"
    ensures Run(text) == Ok(3.0)
  {
    var ts := [Number("2"), Parenthesis(Open), Number("3"), Parenthesis(Close)];
    assert Concat(ts) == text;
    assert Separated(ts);
    assert ParseGroup(ts[1..]) == Ok((Literal(3), []));
    assert ParseExpr(ts, 0) == Ok((Literal(3), []));
    RunOfText(ts);
  }
}
