/** What the parser does with well-formed and malformed token sequences. */
module ParserProperties {
  import opened Results
  import opened Tokens
  import opened Ast
  import opened Parsing

  /** The trees the parser can build: non-negative literals joined by binary operators. */
  predicate WellFormed(n: Node) {
    match n
    case Literal(v) => v >= 0
    case PrefixExpression(_, _) => false
    case BinaryExpression(l, _, r) => WellFormed(l) && WellFormed(r)
  }

  // The parser never builds a prefix node: the `-` prefix handler is unreachable.

  lemma {:induction false} ExprWellFormed(ts: seq<Token>, precedence: nat)
    ensures ParseExpr(ts, precedence).Ok? ==> WellFormed(ParseExpr(ts, precedence).value.0)
    decreases |ts|, 3
  {
    PrefixWellFormed(ts);
    match ParsePrefix(ts)
    case Err(_) =>
    case Ok((left, rest)) =>
      LoopWellFormed(left, rest, precedence);
  }

  lemma {:induction false} LoopWellFormed(left: Node, ts: seq<Token>, precedence: nat)
    requires WellFormed(left)
    ensures ParseLoop(left, ts, precedence).Ok? ==> WellFormed(ParseLoop(left, ts, precedence).value.0)
    decreases |ts|, 3
  {
    if Continues(ts, precedence) {
      var step := if ts[0] == Parenthesis(Open) then ParseParen(ts) else ParseInfix(left, ts);
      if ts[0] == Parenthesis(Open) {
        ParenWellFormed(ts);
      } else {
        InfixWellFormed(left, ts);
      }
      match step
      case Err(_) =>
      case Ok((next, rest)) =>
        LoopWellFormed(next, rest, precedence);
    }
  }

  lemma {:induction false} PrefixWellFormed(ts: seq<Token>)
    ensures ParsePrefix(ts).Ok? ==> WellFormed(ParsePrefix(ts).value.0)
    decreases |ts|, 2
  {
    if ts != [] && ts[0].Parenthesis? {
      ParenWellFormed(ts);
    }
  }

  lemma {:induction false} ParenWellFormed(ts: seq<Token>)
    requires ts != [] && ts[0].Parenthesis?
    ensures ParseParen(ts).Ok? ==> WellFormed(ParseParen(ts).value.0)
    decreases |ts|, 1
  {
    if ts[0].paren == Open {
      GroupWellFormed(ts);
    }
  }

  lemma {:induction false} GroupWellFormed(ts: seq<Token>)
    requires ts != [] && ts[0] == Parenthesis(Open)
    ensures ParseGroup(ts).Ok? ==> WellFormed(ParseGroup(ts).value.0)
    decreases |ts|, 0
  {
    ExprWellFormed(ts[1..], 0);
  }

  lemma {:induction false} InfixWellFormed(left: Node, ts: seq<Token>)
    requires WellFormed(left) && ts != [] && ts[0].Operator?
    ensures ParseInfix(left, ts).Ok? ==> WellFormed(ParseInfix(left, ts).value.0)
    decreases |ts|, 2
  {
    ExprWellFormed(ts[1..], Precedence(ts[0].op));
  }

  // Malformed starts

  /** With no token left, reading the next token's kind is a TypeError. */
  lemma NoTokensIsUndefined(precedence: nat)
    ensures ParseExpr([], precedence) == Err(UndefinedToken)
  {
  }

  /** An expression that starts with an operator (`-` included) or with `)` is
      rejected with `ParseError`. */
  lemma LeadingOperatorOrCloseFails(ts: seq<Token>, precedence: nat)
    requires ts != [] && (ts[0].Operator? || ts[0] == Parenthesis(Close))
    ensures ParseExpr(ts, precedence) == Err(ParseError)
  {
    if ts[0].Parenthesis? {
      assert ParseParen(ts) == Err(ParseError);
    }
    assert ParsePrefix(ts) == Err(ParseError);
  }

  /** A NUMBER token becomes a literal holding the decimal value of its digits. */
  lemma NumberParsesToLiteral(d: Digits, rest: seq<Token>)
    ensures ParsePrefix([Number(d)] + rest) == Ok((Literal(DecimalValue(d)), rest))
  {
    assert ([Number(d)] + rest)[1..] == rest;
  }

  // Printing a tree with the fewest parentheses and parsing it back

  /** An operand is printed in parentheses when its own operator binds at most `level`. */
  predicate NeedsParens(n: Node, level: nat) {
    n.BinaryExpression? && Precedence(n.op) <= level
  }

  /** The tokens of a well-formed tree with the fewest parentheses: a left operand is
      parenthesised when it binds more loosely than its parent, a right operand when
      it binds no tighter. */
  function Unparse(n: Node): (ts: seq<Token>)
    requires WellFormed(n)
    ensures ts != []
    decreases n, 0
  {
    match n
    case Literal(v) => [Number(Numeral(v))]
    case BinaryExpression(l, o, r) =>
      Operand(l, Precedence(o) - 1) + [Operator(o)] + Operand(r, Precedence(o))
  }

  function Operand(n: Node, level: nat): (ts: seq<Token>)
    requires WellFormed(n)
    ensures ts != []
    decreases n, 1
  {
    if NeedsParens(n, level) then [Parenthesis(Open)] + Unparse(n) + [Parenthesis(Close)]
    else Unparse(n)
  }

  /** Parsing the printed tokens of `n` at a binding power its operator exceeds, followed
      by anything that ends an operand of that operator, leaves the loop of
      `parseExpression` holding exactly `n`. */
  lemma {:induction false} ParsesUnparsed(n: Node, precedence: nat, tail: seq<Token>)
    requires WellFormed(n)
    requires n.BinaryExpression? ==> Precedence(n.op) > precedence && !Continues(tail, Precedence(n.op))
    ensures ParseExpr(Unparse(n) + tail, precedence) == ParseLoop(n, tail, precedence)
    decreases n, 0
  {
    match n
    case Literal(v) =>
      assert (Unparse(n) + tail)[1..] == tail;
    case BinaryExpression(l, o, r) =>
      var po := Precedence(o);
      var x := Operand(r, po) + tail;
      var y := [Operator(o)] + x;
      assert Unparse(n) + tail == Operand(l, po - 1) + y;
      ParsesOperand(l, po - 1, precedence, y);
      ParsesOperand(r, po, po, tail);
      assert y[1..] == x;
      assert ParseInfix(l, y) == Ok((n, tail));
  }

  lemma {:induction false} ParsesOperand(k: Node, level: nat, precedence: nat, tail: seq<Token>)
    requires WellFormed(k) && precedence <= level
    requires k.BinaryExpression? && Precedence(k.op) > level ==> !Continues(tail, Precedence(k.op))
    ensures ParseExpr(Operand(k, level) + tail, precedence) == ParseLoop(k, tail, precedence)
    decreases k, 2
  {
    if NeedsParens(k, level) {
      ParsesGroup(k, tail);
      assert Operand(k, level) + tail
          == [Parenthesis(Open)] + Unparse(k) + [Parenthesis(Close)] + tail;
    } else {
      ParsesUnparsed(k, precedence, tail);
    }
  }

  /** A parenthesised group yields the inner tree itself and consumes both parentheses. */
  lemma {:induction false} ParsesGroup(k: Node, tail: seq<Token>)
    requires WellFormed(k)
    ensures ParsePrefix([Parenthesis(Open)] + Unparse(k) + [Parenthesis(Close)] + tail) == Ok((k, tail))
    decreases k, 1
  {
    var ts := [Parenthesis(Open)] + Unparse(k) + [Parenthesis(Close)] + tail;
    var closing := [Parenthesis(Close)] + tail;
    ParsesUnparsed(k, 0, closing);
    assert ts[1..] == Unparse(k) + closing;
    assert ParseLoop(k, closing, 0) == Ok((k, closing));
    assert ParseExpr(ts[1..], 0) == Ok((k, closing));
    assert closing[1..] == tail;
    assert ParseGroup(ts) == Ok((k, tail));
    assert ParseParen(ts) == ParseGroup(ts);
  }

  /** Any group, whatever its contents: when the tokens after `(` parse at binding
      power 0 to `k` and stop at a `)`, the group yields `k` itself, with no wrapper
      node, and consumes both parentheses. Nested groups such as `((2))` follow. */
  lemma GroupYieldsInner(ts: seq<Token>, k: Node, tail: seq<Token>)
    requires ParseExpr(ts, 0) == Ok((k, [Parenthesis(Close)] + tail))
    ensures ParsePrefix([Parenthesis(Open)] + ts) == Ok((k, tail))
  {
    var g := [Parenthesis(Open)] + ts;
    assert g[1..] == ts;
    assert ([Parenthesis(Close)] + tail)[1..] == tail;
    assert ParseGroup(g) == Ok((k, tail));
    assert ParseParen(g) == ParseGroup(g);
  }

  /** Every well-formed tree is what the parser builds from its printed tokens, using
      all of them: `*` and `/` bind tighter than `+` and `-`, operators of equal
      binding power group to the left, and parentheses group. */
  lemma UnparseRoundTrip(n: Node)
    requires WellFormed(n)
    ensures ParseExpr(Unparse(n), 0) == Ok((n, []))
  {
    ParsesUnparsed(n, 0, []);
    assert Unparse(n) + [] == Unparse(n);
  }

  /** Top-level parsing stops at a NUMBER or a `)` where an operator could follow and
      leaves those tokens unread: nothing checks that all tokens were used. */
  lemma TrailingTokensIgnored(n: Node, tail: seq<Token>)
    requires WellFormed(n)
    requires tail == [] || tail[0].Number? || tail[0] == Parenthesis(Close)
    ensures ParseExpr(Unparse(n) + tail, 0) == Ok((n, tail))
  {
    ParsesUnparsed(n, 0, tail);
  }

  /** An opening parenthesis where an operator is expected does not multiply: the
      group it starts replaces the left operand, which is dropped. */
  lemma GroupReplacesLeftOperand(left: Node, k: Node, tail: seq<Token>, precedence: nat)
    requires WellFormed(k)
    ensures ParseLoop(left, [Parenthesis(Open)] + Unparse(k) + [Parenthesis(Close)] + tail, precedence)
         == ParseLoop(k, tail, precedence)
  {
    ParsesGroup(k, tail);
  }

  /** A NUMBER token alone parses to its literal at any binding power. */
  lemma LastNumber(d: Digits, precedence: nat)
    ensures ParseExpr([Number(d)], precedence) == Ok((Literal(DecimalValue(d)), []))
  {
    NumberParsesToLiteral(d, []);
    assert [Number(d)] + [] == [Number(d)];
  }

  /** `b o2 c` read at a binding power below that of `o2` is one binary node. */
  lemma TighterTail(b: Digits, o2: Op, c: Digits, precedence: nat)
    requires Precedence(o2) > precedence
    ensures ParseExpr([Number(b), Operator(o2), Number(c)], precedence)
         == Ok((BinaryExpression(Literal(DecimalValue(b)), o2, Literal(DecimalValue(c))), []))
  {
    var ts := [Number(b), Operator(o2), Number(c)];
    var lb, lc := Literal(DecimalValue(b)), Literal(DecimalValue(c));
    var right := BinaryExpression(lb, o2, lc);
    LastNumber(c, Precedence(o2));
    assert ts[2..] == [Number(c)];
    assert ParseInfix(lb, ts[1..]) == Ok((right, []));
    assert ParseLoop(right, [], precedence) == Ok((right, []));
    NumberParsesToLiteral(b, ts[1..]);
    assert ts == [Number(b)] + ts[1..];
  }

  /** `a o1 b o2 c` when `o2` binds tighter: `b o2 c` is the right operand of `o1`. */
  lemma TighterSecondOperator(a: Digits, o1: Op, b: Digits, o2: Op, c: Digits)
    requires Precedence(o2) > Precedence(o1)
    ensures ParseExpr([Number(a), Operator(o1), Number(b), Operator(o2), Number(c)], 0)
         == Ok((BinaryExpression(Literal(DecimalValue(a)), o1,
                  BinaryExpression(Literal(DecimalValue(b)), o2, Literal(DecimalValue(c)))), []))
  {
    var ts := [Number(a), Operator(o1), Number(b), Operator(o2), Number(c)];
    var la := Literal(DecimalValue(a));
    var right := BinaryExpression(Literal(DecimalValue(b)), o2, Literal(DecimalValue(c)));
    var n := BinaryExpression(la, o1, right);
    TighterTail(b, o2, c, Precedence(o1));
    assert ts[2..] == [Number(b), Operator(o2), Number(c)];
    assert ParseInfix(la, ts[1..]) == Ok((n, []));
    assert ParseLoop(n, [], 0) == Ok((n, []));
    NumberParsesToLiteral(a, ts[1..]);
    assert ts == [Number(a)] + ts[1..];
  }

  /** `a o1 b` followed by tokens that do not continue an operand of `o1` leaves the
      loop holding the binary node. */
  lemma LeftPair(a: Digits, o1: Op, b: Digits, tail: seq<Token>)
    requires !Continues(tail, Precedence(o1))
    ensures ParseExpr([Number(a), Operator(o1), Number(b)] + tail, 0)
         == ParseLoop(BinaryExpression(Literal(DecimalValue(a)), o1, Literal(DecimalValue(b))), tail, 0)
  {
    var ts := [Number(a), Operator(o1), Number(b)] + tail;
    var la, lb := Literal(DecimalValue(a)), Literal(DecimalValue(b));
    NumberParsesToLiteral(b, tail);
    assert ts[2..] == [Number(b)] + tail;
    assert ParseLoop(lb, tail, Precedence(o1)) == Ok((lb, tail));
    assert ParseInfix(la, ts[1..]) == Ok((BinaryExpression(la, o1, lb), tail));
    NumberParsesToLiteral(a, ts[1..]);
    assert ts == [Number(a)] + ts[1..];
  }

  /** `a o1 b o2 c` when `o2` binds no tighter: `a o1 b` is the left operand of `o2`. */
  lemma LooserSecondOperator(a: Digits, o1: Op, b: Digits, o2: Op, c: Digits)
    requires Precedence(o2) <= Precedence(o1)
    ensures ParseExpr([Number(a), Operator(o1), Number(b), Operator(o2), Number(c)], 0)
         == Ok((BinaryExpression(BinaryExpression(Literal(DecimalValue(a)), o1, Literal(DecimalValue(b))),
                  o2, Literal(DecimalValue(c))), []))
  {
    var tail := [Operator(o2), Number(c)];
    var left := BinaryExpression(Literal(DecimalValue(a)), o1, Literal(DecimalValue(b)));
    var n := BinaryExpression(left, o2, Literal(DecimalValue(c)));
    assert [Number(a), Operator(o1), Number(b), Operator(o2), Number(c)]
        == [Number(a), Operator(o1), Number(b)] + tail;
    LeftPair(a, o1, b, tail);
    LastNumber(c, Precedence(o2));
    assert tail[1..] == [Number(c)];
    assert ParseInfix(left, tail) == Ok((n, []));
    assert ParseLoop(n, [], 0) == Ok((n, []));
  }

  /** Three numbers and two operators: the second operator takes the middle number
      only when it binds strictly tighter; otherwise the chain groups to the left. */
  lemma PrecedenceAndAssociativity(a: Digits, o1: Op, b: Digits, o2: Op, c: Digits)
    ensures ParseExpr([Number(a), Operator(o1), Number(b), Operator(o2), Number(c)], 0)
         == Ok((var x, y, z := Literal(DecimalValue(a)), Literal(DecimalValue(b)), Literal(DecimalValue(c));
                if Precedence(o2) > Precedence(o1)
                then BinaryExpression(x, o1, BinaryExpression(y, o2, z))
                else BinaryExpression(BinaryExpression(x, o1, y), o2, z), []))
  {
    if Precedence(o2) > Precedence(o1) {
      TighterSecondOperator(a, o1, b, o2, c);
    } else {
      LooserSecondOperator(a, o1, b, o2, c);
    }
  }

  /** A parenthesised group on its own parses to the tree inside at any binding power. */
  lemma GroupAlone(k: Node, precedence: nat)
    requires WellFormed(k)
    ensures ParseExpr([Parenthesis(Open)] + Unparse(k) + [Parenthesis(Close)], precedence) == Ok((k, []))
  {
    var x := [Parenthesis(Open)] + Unparse(k) + [Parenthesis(Close)];
    ParsesGroup(k, []);
    assert x + [] == x;
    assert ParseLoop(k, [], precedence) == Ok((k, []));
  }

  /** An operator followed by a parenthesised group joins the current left operand
      with the tree inside the group. */
  lemma OperatorThenGroup(l: Node, o: Op, r: Node)
    requires WellFormed(r)
    ensures ParseLoop(l, [Operator(o)] + ([Parenthesis(Open)] + Unparse(r) + [Parenthesis(Close)]), 0)
         == Ok((BinaryExpression(l, o, r), []))
  {
    var x := [Parenthesis(Open)] + Unparse(r) + [Parenthesis(Close)];
    var y := [Operator(o)] + x;
    var n := BinaryExpression(l, o, r);
    GroupAlone(r, Precedence(o));
    assert y[1..] == x;
    assert ParseInfix(l, y) == Ok((n, []));
    assert ParseLoop(n, [], 0) == Ok((n, []));
  }

  /** Parenthesising a right operand that needs no parentheses builds the same tree:
      `2+(3*4)` and `2+3*4` parse alike. */
  lemma RedundantParenthesesKeepTree(l: Node, o: Op, r: Node)
    requires WellFormed(l) && WellFormed(r)
    ensures ParseExpr(Operand(l, Precedence(o) - 1)
                      + ([Operator(o)] + ([Parenthesis(Open)] + Unparse(r) + [Parenthesis(Close)])), 0)
         == Ok((BinaryExpression(l, o, r), []))
  {
    ParsesOperand(l, Precedence(o) - 1, 0, [Operator(o)] + ([Parenthesis(Open)] + Unparse(r) + [Parenthesis(Close)]));
    OperatorThenGroup(l, o, r);
  }

  /** A group whose closing parenthesis never comes runs off the end of the tokens. */
  lemma UnclosedGroupIsUndefined(k: Node)
    requires WellFormed(k)
    ensures ParsePrefix([Parenthesis(Open)] + Unparse(k)) == Err(UndefinedToken)
  {
    var ts := [Parenthesis(Open)] + Unparse(k);
    ParsesUnparsed(k, 0, []);
    assert ts[1..] == Unparse(k) + [];
    assert ParseExpr(ts[1..], 0) == Ok((k, []));
    assert ParseGroup(ts) == Err(UndefinedToken);
    assert ParseParen(ts) == ParseGroup(ts);
  }

  /** The `-` prefix handler, were it reached, would parse its operand at binding power
      0 and so negate the whole rest of the expression: `-2*3` would be `-(2*3)`. */
  lemma NegationTakesWholeExpression(n: Node)
    requires WellFormed(n)
    ensures ParseNegation([Operator(Sub)] + Unparse(n)) == Ok((PrefixExpression(Sub, n), []))
  {
    UnparseRoundTrip(n);
    assert ([Operator(Sub)] + Unparse(n))[1..] == Unparse(n);
  }
}
