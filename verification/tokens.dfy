/** Tokens of the expression language, the character classes the tokenizer uses, and
    the decimal value of a digit run. */
module Tokens {
  import opened Results

  /** The four operators, written `+ - * /`. */
  datatype Op = Add | Sub | Mul | Div

  datatype Paren = Open | Close

  predicate IsDigit(c: char) {
    '0' <= c <= '9'
  }

  predicate IsDigitString(s: string) {
    forall i | 0 <= i < |s| :: IsDigit(s[i])
  }

  /** The text of a NUMBER token: a non-empty run of decimal digits. */
  type Digits = s: string | |s| > 0 && IsDigitString(s) witness "0"

  /** A token: its kind (NUMBER, OPERATOR or PARENTHESIS) and what it stands for. */
  datatype Token =
    | Number(digits: Digits)
    | Operator(op: Op)
    | Parenthesis(paren: Paren)

  function OpChar(o: Op): char {
    match o
    case Add => '+'
    case Sub => '-'
    case Mul => '*'
    case Div => '/'
  }

  function ParenChar(p: Paren): char {
    match p
    case Open => '('
    case Close => ')'
  }

  predicate IsOperator(c: char) {
    c == '+' || c == '-' || c == '*' || c == '/'
  }

  predicate IsParenthesis(c: char) {
    c == '(' || c == ')'
  }

  /** A character the tokenizer accepts. */
  predicate IsLexChar(c: char) {
    IsDigit(c) || IsOperator(c) || IsParenthesis(c)
  }

  /** The operator a character spells, if any: the inverse of `OpChar`. */
  function OperatorOf(c: char): (r: Option<Op>)
    ensures r.Some? <==> IsOperator(c)
    ensures r.Some? ==> OpChar(r.value) == c
    ensures forall o :: OpChar(o) == c ==> r == Some(o)
  {
    match c
    case '+' => Some(Add)
    case '-' => Some(Sub)
    case '*' => Some(Mul)
    case '/' => Some(Div)
    case _ => None
  }

  /** The parenthesis a character spells, if any: the inverse of `ParenChar`. */
  function ParenthesisOf(c: char): (r: Option<Paren>)
    ensures r.Some? <==> IsParenthesis(c)
    ensures r.Some? ==> ParenChar(r.value) == c
    ensures forall p :: ParenChar(p) == c ==> r == Some(p)
  {
    if c == '(' then Some(Open) else if c == ')' then Some(Close) else None
  }

  /** The source text of a token (its `value` field). */
  function Text(t: Token): string {
    match t
    case Number(d) => d
    case Operator(o) => [OpChar(o)]
    case Parenthesis(p) => [ParenChar(p)]
  }

  /** The token texts laid end to end. */
  function Concat(ts: seq<Token>): string {
    if ts == [] then [] else Text(ts[0]) + Concat(ts[1..])
  }

  /** No NUMBER token directly follows another one. */
  predicate Separated(ts: seq<Token>) {
    forall i | 0 <= i < |ts| - 1 :: !(ts[i].Number? && ts[i + 1].Number?)
  }

  function DigitValue(c: char): nat
    requires IsDigit(c)
  {
    (c as int) - ('0' as int)
  }

  function DigitChar(v: nat): (c: char)
    requires v < 10
    ensures IsDigit(c) && DigitValue(c) == v
  {
    (('0' as int) + v) as char
  }

  /** The number a digit string denotes in base ten (what `Number(text)` gives for it). */
  function DecimalValue(s: string): nat
    requires IsDigitString(s)
  {
    if s == [] then 0 else 10 * DecimalValue(s[..|s| - 1]) + DigitValue(s[|s| - 1])
  }

  /** The shortest decimal numeral of `v`; `DecimalValue` inverts it. */
  function Numeral(v: nat): (s: Digits)
    ensures DecimalValue(s) == v
    ensures s[0] == '0' ==> v == 0 && |s| == 1
  {
    if v < 10 then [DigitChar(v)]
    else
      var prefix := Numeral(v / 10);
      var s := prefix + [DigitChar(v % 10)];
      assert s[..|s| - 1] == prefix;
      s
  }
}
