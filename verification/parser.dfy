/** The Pratt parser: a functional statement of what each parse routine does with the
    tokens that remain, and the `Parser` class with its shared cursor, proved against it. */
module Parsing {
  import opened Results
  import opened Tokens
  import opened Ast

  /** Binding power of each binary operator. */
  function Precedence(o: Op): (p: nat)
    ensures 1 <= p <= 2
  {
    match o
    case Add => 1
    case Sub => 1
    case Mul => 2
    case Div => 2
  }

  /** A parse result: the node built and the tokens left after it. */
  type Parsed = Result<(Node, seq<Token>)>

  /** Whether the loop of `parseExpression` at binding power `precedence` takes another
      step on the remaining tokens `ts`: an operator binding tighter, or an opening
      parenthesis whatever the binding power. */
  predicate Continues(ts: seq<Token>, precedence: nat) {
    ts != [] &&
    (ts[0] == Parenthesis(Open) || (ts[0].Operator? && Precedence(ts[0].op) > precedence))
  }

  /** `parseNumberLiteral`: the NUMBER token in front becomes a literal. */
  function ParseNumber(ts: seq<Token>): (r: Parsed)
    requires ts != [] && ts[0].Number?
    ensures r.Ok? && |r.value.1| < |ts|
  {
    Ok((Literal(DecimalValue(ts[0].digits)), ts[1..]))
  }

  /** The prefix dispatch of `parseExpression`, keyed by the token's kind: NUMBER and
      PARENTHESIS have handlers, OPERATOR has none, and a missing token is undefined. */
  function ParsePrefix(ts: seq<Token>): (r: Parsed)
    ensures r.Ok? ==> |r.value.1| < |ts|
    ensures r.Err? ==> r.error == ParseError || r.error == UndefinedToken
    decreases |ts|, 2
  {
    if ts == [] then Err(UndefinedToken)
    else
      match ts[0]
      case Number(_) => ParseNumber(ts)
      case Operator(_) => Err(ParseError)
      case Parenthesis(_) => ParseParen(ts)
  }

  /** `parseParenthesis`: an opening parenthesis starts a group, a closing one fails. */
  function ParseParen(ts: seq<Token>): (r: Parsed)
    requires ts != [] && ts[0].Parenthesis?
    ensures r.Ok? ==> |r.value.1| < |ts|
    ensures r.Err? ==> r.error == ParseError || r.error == UndefinedToken
    decreases |ts|, 1
  {
    if ts[0].paren == Open then ParseGroup(ts) else Err(ParseError)
  }

  /** `parseGroupedExpression`: skip `(`, parse at binding power 0, demand `)`. */
  function ParseGroup(ts: seq<Token>): (r: Parsed)
    requires ts != [] && ts[0] == Parenthesis(Open)
    ensures r.Ok? ==> |r.value.1| < |ts|
    ensures r.Err? ==> r.error == ParseError || r.error == UndefinedToken
    decreases |ts|, 0
  {
    match ParseExpr(ts[1..], 0)
    case Err(e) => Err(e)
    case Ok((inner, rest)) =>
      if rest == [] then Err(UndefinedToken)
      else if rest[0] != Parenthesis(Close) then Err(ParseError)
      else Ok((inner, rest[1..]))
  }

  /** `parseInfixExpression`: the operator in front joins `left` with the operand
      parsed at the operator's own binding power. */
  function ParseInfix(left: Node, ts: seq<Token>): (r: Parsed)
    requires ts != [] && ts[0].Operator?
    ensures r.Ok? ==> |r.value.1| < |ts|
    ensures r.Err? ==> r.error == ParseError || r.error == UndefinedToken
    decreases |ts|, 2
  {
    match ParseExpr(ts[1..], Precedence(ts[0].op))
    case Err(e) => Err(e)
    case Ok((right, rest)) => Ok((BinaryExpression(left, ts[0].op, right), rest))
  }

  /** `parsePrefixExpression`: the operator in front applied to the operand parsed at
      binding power 0. No token kind dispatches to it. */
  function ParseNegation(ts: seq<Token>): (r: Parsed)
    requires ts != [] && ts[0].Operator?
    ensures r.Ok? ==> |r.value.1| < |ts|
    ensures r.Err? ==> r.error == ParseError || r.error == UndefinedToken
    decreases |ts|, 2
  {
    match ParseExpr(ts[1..], 0)
    case Err(e) => Err(e)
    case Ok((right, rest)) => Ok((PrefixExpression(ts[0].op, right), rest))
  }

  /** `parseExpression(precedence)`: a prefix, then the loop. */
  function ParseExpr(ts: seq<Token>, precedence: nat): (r: Parsed)
    ensures r.Ok? ==> |r.value.1| < |ts|
    ensures r.Err? ==> r.error == ParseError || r.error == UndefinedToken
    decreases |ts|, 3
  {
    match ParsePrefix(ts)
    case Err(e) => Err(e)
    case Ok((left, rest)) => ParseLoop(left, rest, precedence)
  }

  /** The loop of `parseExpression`: while it continues, an opening parenthesis
      replaces `left` by the group it starts, and an operator extends `left`. */
  function ParseLoop(left: Node, ts: seq<Token>, precedence: nat): (r: Parsed)
    ensures r.Ok? ==> |r.value.1| <= |ts|
    ensures r.Err? ==> r.error == ParseError || r.error == UndefinedToken
    decreases |ts|, 3
  {
    if !Continues(ts, precedence) then Ok((left, ts))
    else
      var step := if ts[0] == Parenthesis(Open) then ParseParen(ts) else ParseInfix(left, ts);
      match step
      case Err(e) => Err(e)
      case Ok((next, rest)) => ParseLoop(next, rest, precedence)
  }

  /** A method's node result paired with the tokens it left, as the spec functions
      return them. */
  function Attach(r: Result<Node>, rest: seq<Token>): Parsed {
    match r
    case Ok(n) => Ok((n, rest))
    case Err(e) => Err(e)
  }

  class Parser {
    const tokens: seq<Token>
    var pos: nat

    ghost predicate Valid()
      reads this
    {
      pos <= |tokens|
    }

    constructor (ts: seq<Token>)
      ensures Valid()
      ensures tokens == ts && pos == 0
    {
      tokens := ts;
      pos := 0;
    }

    method ParseNumberLiteral() returns (n: Node)
      requires Valid() && pos < |tokens| && tokens[pos].Number?
      modifies this
      ensures Valid()
      ensures ParseNumber(tokens[old(pos)..]) == Ok((n, tokens[pos..]))
    {
      var token := tokens[pos];
      assert tokens[pos..][1..] == tokens[pos + 1..];
      pos := pos + 1;
      n := Literal(DecimalValue(token.digits));
    }

    method ParsePrefixExpression() returns (r: Result<Node>)
      requires Valid() && pos < |tokens| && tokens[pos].Operator?
      modifies this
      ensures Valid()
      ensures Attach(r, tokens[pos..]) == ParseNegation(tokens[old(pos)..])
      decreases |tokens| - pos, 1
    {
      var token := tokens[pos];
      assert tokens[pos..][1..] == tokens[pos + 1..];
      pos := pos + 1;
      var right := ParseExpression(0);
      if right.Err? {
        return right;
      }
      return Ok(PrefixExpression(token.op, right.value));
    }

    method ParseInfixExpression(left: Node) returns (r: Result<Node>)
      requires Valid() && pos < |tokens| && tokens[pos].Operator?
      modifies this
      ensures Valid()
      ensures Attach(r, tokens[pos..]) == ParseInfix(left, tokens[old(pos)..])
      decreases |tokens| - pos, 1
    {
      var token := tokens[pos];
      assert tokens[pos..][1..] == tokens[pos + 1..];
      pos := pos + 1;
      var precedence := Precedence(token.op);
      var right := ParseExpression(precedence);
      if right.Err? {
        return right;
      }
      return Ok(BinaryExpression(left, token.op, right.value));
    }

    method ParseExpression(precedence: nat) returns (r: Result<Node>)
      requires Valid()
      modifies this
      ensures Valid()
      ensures Attach(r, tokens[pos..]) == ParseExpr(tokens[old(pos)..], precedence)
      decreases |tokens| - pos, 3
    {
      if pos == |tokens| {
        return Err(UndefinedToken);
      }
      var left: Node;
      match tokens[pos] {
        case Number(_) =>
          left := ParseNumberLiteral();
        case Operator(_) =>
          return Err(ParseError);
        case Parenthesis(_) =>
          var first := ParseParenthesis();
          if first.Err? {
            return first;
          }
          left := first.value;
      }

      while pos < |tokens| &&
            ((tokens[pos].Operator? && Precedence(tokens[pos].op) > precedence) ||
             tokens[pos] == Parenthesis(Open))
        invariant Valid() && old(pos) < pos
        invariant ParseExpr(tokens[old(pos)..], precedence) == ParseLoop(left, tokens[pos..], precedence)
        decreases |tokens| - pos
      {
        var next: Result<Node>;
        if tokens[pos] == Parenthesis(Open) {
          next := ParseParenthesis();
        } else {
          next := ParseInfixExpression(left);
        }
        if next.Err? {
          return next;
        }
        left := next.value;
      }
      return Ok(left);
    }

    method ParseParenthesis() returns (r: Result<Node>)
      requires Valid() && pos < |tokens| && tokens[pos].Parenthesis?
      modifies this
      ensures Valid()
      ensures Attach(r, tokens[pos..]) == ParseParen(tokens[old(pos)..])
      decreases |tokens| - pos, 1
    {
      if tokens[pos].paren == Open {
        r := ParseGroupedExpression();
      } else {
        r := Err(ParseError);
      }
    }

    method ParseGroupedExpression() returns (r: Result<Node>)
      requires Valid() && pos < |tokens| && tokens[pos] == Parenthesis(Open)
      modifies this
      ensures Valid()
      ensures Attach(r, tokens[pos..]) == ParseGroup(tokens[old(pos)..])
      decreases |tokens| - pos, 0
    {
      assert tokens[pos..][1..] == tokens[pos + 1..];
      pos := pos + 1;
      var inner := ParseExpression(0);
      if inner.Err? {
        return inner;
      }
      if pos == |tokens| {
        return Err(UndefinedToken);
      }
      if tokens[pos] != Parenthesis(Close) {
        return Err(ParseError);
      }
      assert tokens[pos..][1..] == tokens[pos + 1..];
      pos := pos + 1;
      return inner;
    }
  }
}
