/** The evaluator: a recursive reduction of the tree to a number, exact over `real`. */
module Evaluation {
  import opened Results
  import opened Tokens
  import opened Ast

  /** `Evaluator.evaluate`: dispatch on the node's shape. The only failure is
      `EvaluateError`. */
  function Evaluate(node: Node): (r: Result<real>)
    ensures r.Err? ==> r.error == EvaluateError
    decreases node, 1
  {
    match node
    case BinaryExpression(_, _, _) => EvaluateBinary(node)
    case PrefixExpression(_, _) => EvaluatePrefix(node)
    case Literal(v) => Ok(v as real)
  }

  /** `evaluateBinaryExpression`: left operand, then right operand, then the operator;
      dividing by zero fails. */
  function EvaluateBinary(node: Node): (r: Result<real>)
    requires node.BinaryExpression?
    ensures r.Err? ==> r.error == EvaluateError
    decreases node, 0
  {
    match Evaluate(node.left)
    case Err(e) => Err(e)
    case Ok(x) =>
      match Evaluate(node.right)
      case Err(e) => Err(e)
      case Ok(y) => Operate(node.op, x, y)
  }

  /** The operator switch of `evaluateBinaryExpression`, applied to the operand values. */
  function Operate(op: Op, x: real, y: real): (r: Result<real>)
    ensures r.Err? <==> op == Div && y == 0.0
    ensures r.Err? ==> r.error == EvaluateError
  {
    match op
    case Add => Ok(x + y)
    case Sub => Ok(x - y)
    case Mul => Ok(x * y)
    case Div => if y == 0.0 then Err(EvaluateError) else Ok(x / y)
  }

  /** `evaluatePrefixExpression`: the operand first, then negation; any prefix operator
      other than `-` fails. */
  function EvaluatePrefix(node: Node): (r: Result<real>)
    requires node.PrefixExpression?
    ensures r.Err? ==> r.error == EvaluateError
    decreases node, 0
  {
    match Evaluate(node.right)
    case Err(e) => Err(e)
    case Ok(v) => if node.op == Sub then Ok(-v) else Err(EvaluateError)
  }

  // A reference semantics: the arithmetic value of a tree, and when it is defined.

  function Apply(o: Op, x: real, y: real): real {
    match o
    case Add => x + y
    case Sub => x - y
    case Mul => x * y
    case Div => if y == 0.0 then 0.0 else x / y
  }

  /** The arithmetic value of a tree, read as ordinary arithmetic (meaningful where
      `Defined` holds). */
  function Denote(n: Node): real {
    match n
    case Literal(v) => v as real
    case PrefixExpression(_, e) => -Denote(e)
    case BinaryExpression(l, o, r) => Apply(o, Denote(l), Denote(r))
  }

  /** No division by a zero divisor and no prefix operator other than `-` anywhere. */
  predicate Defined(n: Node) {
    match n
    case Literal(_) => true
    case PrefixExpression(o, e) => o == Sub && Defined(e)
    case BinaryExpression(l, o, r) => Defined(l) && Defined(r) && (o == Div ==> Denote(r) != 0.0)
  }

  /** The evaluator computes exactly the arithmetic value of a defined tree, and fails
      with `EvaluateError` on every other tree. */
  lemma {:induction false} EvaluateMatchesDenotation(n: Node)
    ensures Evaluate(n) == if Defined(n) then Ok(Denote(n)) else Err(EvaluateError)
  {
    match n
    case Literal(_) =>
    case PrefixExpression(_, e) =>
      EvaluateMatchesDenotation(e);
    case BinaryExpression(l, o, r) =>
      EvaluateMatchesDenotation(l);
      EvaluateMatchesDenotation(r);
      assert Evaluate(n) == EvaluateBinary(n);
      if Evaluate(l).Ok? && Evaluate(r).Ok? {
        OperateIsApply(o, Evaluate(l).value, Evaluate(r).value);
      }
  }

  /** On defined operands the operator switch agrees with ordinary arithmetic. */
  lemma OperateIsApply(op: Op, x: real, y: real)
    ensures Operate(op, x, y) == if op == Div && y == 0.0 then Err(EvaluateError) else Ok(Apply(op, x, y))
  {
  }

  /** `m` occurs somewhere in `n` (or is `n`). */
  predicate Contains(n: Node, m: Node) {
    n == m ||
    match n
    case Literal(_) => false
    case PrefixExpression(_, e) => Contains(e, m)
    case BinaryExpression(l, _, r) => Contains(l, m) || Contains(r, m)
  }

  /** A failure anywhere in the tree aborts the whole evaluation: no partial result. */
  lemma {:induction false} FailurePropagates(n: Node, m: Node)
    requires Contains(n, m) && Evaluate(m).Err?
    ensures Evaluate(n) == Err(EvaluateError)
  {
    if n != m {
      match n
      case Literal(_) =>
      case PrefixExpression(_, e) =>
        FailurePropagates(e, m);
      case BinaryExpression(l, _, r) =>
        if Contains(l, m) {
          FailurePropagates(l, m);
        } else {
          FailurePropagates(r, m);
        }
    }
  }

  /** A division whose right operand evaluates to zero, anywhere in the tree, makes the
      evaluation fail with `EvaluateError`. */
  lemma DivisionByZeroFails(n: Node, l: Node, r: Node)
    requires Contains(n, BinaryExpression(l, Div, r))
    requires Evaluate(r) == Ok(0.0)
    ensures Evaluate(n) == Err(EvaluateError)
  {
    FailurePropagates(n, BinaryExpression(l, Div, r));
  }
}
