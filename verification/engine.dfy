/** The top-level `evaluate`: tokenize, parse at binding power 0, evaluate. */
module Engine {
  import opened Results
  import opened Tokens
  import opened Ast
  import opened Lexer
  import opened Parsing
  import opened Evaluation
  import opened ParserProperties

  /** What `evaluate(expression)` returns or throws. Tokens left after the top-level
      parse are not looked at. */
  function Run(expression: string): Result<real> {
    match Tokenization(expression)
    case Err(e) => Err(e)
    case Ok(ts) =>
      match ParseExpr(ts, 0)
      case Err(e) => Err(e)
      case Ok((ast, _)) => Evaluate(ast)
  }

  /** `evaluate`: a fresh tokenizer, a fresh parser, then the evaluator; nothing is kept
      between calls. */
  method EvaluateExpression(expression: string) returns (r: Result<real>)
    ensures r == Run(expression)
  {
    var tokenizer := new Tokenizer(expression);
    var tokens := tokenizer.Tokenize();
    assert tokenizer.expression[0..] == tokenizer.expression;
    if tokens.Err? {
      return Err(tokens.error);
    }
    var parser := new Parser(tokens.value);
    var ast := parser.ParseExpression(0);
    assert parser.tokens[0..] == tokens.value;
    if ast.Err? {
      return Err(ast.error);
    }
    return Evaluate(ast.value);
  }

  /** The text of a well-formed tree with the fewest parentheses and no spaces. */
  function Render(n: Node): string
    requires WellFormed(n)
  {
    Concat(Unparse(n))
  }

  lemma SeparatedJoin(a: seq<Token>, b: seq<Token>)
    requires Separated(a) && Separated(b)
    requires a == [] || b == [] || !a[|a| - 1].Number? || !b[0].Number?
    ensures Separated(a + b)
  {
    var ab := a + b;
    forall i | 0 <= i < |ab| - 1
      ensures !(ab[i].Number? && ab[i + 1].Number?)
    {
      if i + 1 < |a| {
        assert ab[i] == a[i] && ab[i + 1] == a[i + 1];
      } else if i >= |a| {
        assert ab[i] == b[i - |a|] && ab[i + 1] == b[i + 1 - |a|];
      }
    }
  }

  /** Printed trees never put two numbers side by side. */
  lemma {:induction false} UnparseSeparated(n: Node)
    requires WellFormed(n)
    ensures Separated(Unparse(n))
    decreases n, 0
  {
    match n
    case Literal(_) =>
    case BinaryExpression(l, o, r) =>
      OperandSeparated(l, Precedence(o) - 1);
      OperandSeparated(r, Precedence(o));
      SeparatedJoin(Operand(l, Precedence(o) - 1), [Operator(o)]);
      SeparatedJoin(Operand(l, Precedence(o) - 1) + [Operator(o)], Operand(r, Precedence(o)));
  }

  lemma {:induction false} OperandSeparated(n: Node, level: nat)
    requires WellFormed(n)
    ensures Separated(Operand(n, level))
    decreases n, 1
  {
    UnparseSeparated(n);
    if NeedsParens(n, level) {
      SeparatedJoin([Parenthesis(Open)], Unparse(n));
      SeparatedJoin([Parenthesis(Open)] + Unparse(n), [Parenthesis(Close)]);
    }
  }

  /** Evaluating the printed text of any well-formed tree gives the tree's value: the
      whole pipeline respects precedence, left grouping and parentheses. */
  lemma RunRendered(n: Node)
    requires WellFormed(n)
    ensures Run(Render(n)) == Evaluate(n)
  {
    UnparseSeparated(n);
    TokenizationOfText(Unparse(n));
    UnparseRoundTrip(n);
  }

  /** `evaluate` on the text of a separated token sequence is the value of the tree the
      parser builds from those tokens. */
  lemma RunOfText(ts: seq<Token>)
    requires ts != [] && Separated(ts)
    ensures Run(Concat(ts)) == match ParseExpr(ts, 0)
                               case Err(e) => Err(e)
                               case Ok((ast, _)) => Evaluate(ast)
  {
    TokenizationOfText(ts);
  }

  /** A numeral evaluates to its value. */
  lemma RunNumeral(v: nat)
    ensures Run(Numeral(v)) == Ok(v as real)
  {
    var n := Literal(v);
    var ts := [Number(Numeral(v))];
    assert Unparse(n) == ts;
    assert ts[1..] == [];
    assert Concat(ts) == Numeral(v) + Concat([]);
    assert Render(n) == Numeral(v);
    RunRendered(n);
    assert Evaluate(n) == Ok(v as real);
  }

  /** `evaluate` fails with `TokenizationError` exactly when the trimmed input holds a
      character other than a digit, `+ - * /`, `(` or `)`; spaces inside the
      expression count as such characters. */
  lemma RunTokenizationErrorIff(expression: string)
    ensures Run(expression) == Err(TokenizationError)
        <==> exists i | 0 <= i < |Trim(expression)| :: !IsLexChar(Trim(expression)[i])
  {
    LexFailsIff(Trim(expression));
  }
}
