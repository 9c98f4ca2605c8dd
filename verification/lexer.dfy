/** The tokenizer: trims the input, then turns it into tokens in one left-to-right pass. */
module Lexer {
  import opened Results
  import opened Tokens

  /** The characters JavaScript's `String.prototype.trim` removes: white space and line
      terminators. */
  predicate IsWhitespace(c: char) {
    c == '\t' || c == '\n' || c == '\U{000B}' || c == '\U{000C}' || c == '\r' || c == ' '
    || c == '\U{00A0}' || c == '\U{1680}' || ('\U{2000}' <= c <= '\U{200A}')
    || c == '\U{2028}' || c == '\U{2029}' || c == '\U{202F}' || c == '\U{205F}'
    || c == '\U{3000}' || c == '\U{FEFF}'
  }

  /** `s` without its leading white space. */
  function TrimStart(s: string): (r: string)
    ensures |r| <= |s| && r == s[|s| - |r|..]
    ensures forall i | 0 <= i < |s| - |r| :: IsWhitespace(s[i])
    ensures r != [] ==> !IsWhitespace(r[0])
  {
    if s != [] && IsWhitespace(s[0]) then TrimStart(s[1..]) else s
  }

  /** `s` without its trailing white space. */
  function TrimEnd(s: string): (r: string)
    ensures |r| <= |s| && r == s[..|r|]
    ensures forall i | |r| <= i < |s| :: IsWhitespace(s[i])
    ensures r != [] ==> !IsWhitespace(r[|r| - 1])
  {
    if s != [] && IsWhitespace(s[|s| - 1]) then TrimEnd(s[..|s| - 1]) else s
  }

  function Trim(s: string): string {
    TrimEnd(TrimStart(s))
  }

  lemma LexCharIsNotWhitespace(c: char)
    requires IsLexChar(c)
    ensures !IsWhitespace(c)
  {
  }

  /** Trimming removes exactly the white space around the first non-white-space
      character. */
  lemma {:induction false} TrimStartSkips(pre: string, s: string)
    requires forall i | 0 <= i < |pre| :: IsWhitespace(pre[i])
    requires s != [] && !IsWhitespace(s[0])
    ensures TrimStart(pre + s) == s
    decreases |pre|
  {
    if pre == [] {
      assert pre + s == s;
    } else {
      assert (pre + s)[0] == pre[0] && IsWhitespace(pre[0]);
      assert (pre + s)[1..] == pre[1..] + s;
      forall i | 0 <= i < |pre| - 1
        ensures IsWhitespace(pre[1..][i])
      {
        assert pre[1..][i] == pre[i + 1];
      }
      TrimStartSkips(pre[1..], s);
    }
  }

  /** Trimming removes exactly the white space after the last non-white-space
      character. */
  lemma {:induction false} TrimEndSkips(s: string, post: string)
    requires forall i | 0 <= i < |post| :: IsWhitespace(post[i])
    requires s != [] && !IsWhitespace(s[|s| - 1])
    ensures TrimEnd(s + post) == s
    decreases |post|
  {
    if post == [] {
      assert s + post == s;
    } else {
      var t, front := s + post, post[..|post| - 1];
      assert t[|t| - 1] == post[|post| - 1] && IsWhitespace(post[|post| - 1]);
      assert t[..|t| - 1] == s + front;
      forall i | 0 <= i < |front|
        ensures IsWhitespace(front[i])
      {
        assert front[i] == post[i];
      }
      TrimEndSkips(s, front);
    }
  }

  /** `trim` gives back the text between white-space padding on either side. */
  lemma TrimPadded(pre: string, core: string, post: string)
    requires forall i | 0 <= i < |pre| :: IsWhitespace(pre[i])
    requires forall i | 0 <= i < |post| :: IsWhitespace(post[i])
    requires core != [] && !IsWhitespace(core[0]) && !IsWhitespace(core[|core| - 1])
    ensures Trim(pre + core + post) == core
  {
    assert pre + core + post == pre + (core + post);
    TrimStartSkips(pre, core + post);
    TrimEndSkips(core, post);
  }

  /** Trimming leaves a string alone when it starts and ends with something other than
      white space. */
  lemma TrimKeeps(s: string)
    requires s != [] && !IsWhitespace(s[0]) && !IsWhitespace(s[|s| - 1])
    ensures Trim(s) == s
  {
    assert TrimStart(s) == s;
  }

  /** Length of the run of digits at the front of `s` (what `matchNumber` consumes). */
  function DigitRun(s: string): (k: nat)
    ensures k <= |s| && IsDigitString(s[..k])
    ensures k < |s| ==> !IsDigit(s[k])
    ensures s != [] && IsDigit(s[0]) ==> k > 0
  {
    if s != [] && IsDigit(s[0]) then 1 + DigitRun(s[1..]) else 0
  }

  /** Puts one token in front of a tokenization result; failures pass through. */
  function Cons(t: Token, r: Result<seq<Token>>): Result<seq<Token>> {
    match r
    case Ok(ts) => Ok([t] + ts)
    case Err(e) => Err(e)
  }

  /** Puts tokens in front of a tokenization result; failures pass through. */
  function Prepend(done: seq<Token>, r: Result<seq<Token>>): Result<seq<Token>> {
    match r
    case Ok(ts) => Ok(done + ts)
    case Err(e) => Err(e)
  }

  /** The tokens of the (already trimmed) text `s`: a maximal digit run becomes one
      NUMBER, each operator and each parenthesis its own token, anything else fails. */
  function Lex(s: string): Result<seq<Token>>
    decreases |s|
  {
    if s == [] then Ok([])
    else if IsDigit(s[0]) then
      var k := DigitRun(s);
      Cons(Number(s[..k]), Lex(s[k..]))
    else if IsOperator(s[0]) then
      Cons(Operator(OperatorOf(s[0]).value), Lex(s[1..]))
    else if IsParenthesis(s[0]) then
      Cons(Parenthesis(ParenthesisOf(s[0]).value), Lex(s[1..]))
    else
      Err(TokenizationError)
  }

  /** What `new Tokenizer(expression).tokenize()` returns. */
  function Tokenization(expression: string): Result<seq<Token>> {
    Lex(Trim(expression))
  }

  class Tokenizer {
    const expression: string
    var pos: nat

    ghost predicate Valid()
      reads this
    {
      pos <= |expression|
    }

    constructor (input: string)
      ensures Valid()
      ensures expression == Trim(input) && pos == 0
    {
      expression := Trim(input);
      pos := 0;
    }

    /** Consumes the run of digits at the cursor and returns it, or nothing when the
        cursor is not on a digit. */
    method MatchNumber() returns (num: Option<Digits>)
      requires Valid()
      modifies this
      ensures Valid()
      ensures pos == old(pos) + DigitRun(expression[old(pos)..])
      ensures num == if pos == old(pos) then None else Some(expression[old(pos)..pos])
    {
      var start := pos;
      while pos < |expression| && IsDigit(expression[pos])
        invariant start <= pos <= |expression|
        invariant forall i | start <= i < pos :: IsDigit(expression[i])
        invariant DigitRun(expression[start..]) == (pos - start) + DigitRun(expression[pos..])
      {
        assert expression[pos..][1..] == expression[pos + 1..];
        assert DigitRun(expression[pos..]) == 1 + DigitRun(expression[pos + 1..]);
        pos := pos + 1;
      }
      assert DigitRun(expression[pos..]) == 0;
      assert IsDigitString(expression[start..pos]) by {
        forall i | 0 <= i < pos - start
          ensures IsDigit(expression[start..pos][i])
        {
          assert expression[start..pos][i] == expression[start + i];
        }
      }
      if start != pos {
        num := Some(expression[start..pos]);
      } else {
        num := None;
      }
    }

    /** Tokenizes the rest of the expression from the cursor. */
    method Tokenize() returns (r: Result<seq<Token>>)
      requires Valid()
      modifies this
      ensures Valid()
      ensures r == Lex(expression[old(pos)..])
      ensures r.Ok? ==> pos == |expression|
    {
      var tokens: seq<Token> := [];
      PrependNothing(Lex(expression[pos..]));
      while pos < |expression|
        invariant Valid() && old(pos) <= pos
        invariant Lex(expression[old(pos)..]) == Prepend(tokens, Lex(expression[pos..]))
        decreases |expression| - pos
      {
        ghost var rest := expression[pos..];
        var num := MatchNumber();
        if num.Some? {
          assert rest[DigitRun(rest)..] == expression[pos..];
          assert rest[..DigitRun(rest)] == num.value;
          assert Lex(rest) == Cons(Number(num.value), Lex(expression[pos..]));
          PrependCons(tokens, Number(num.value), Lex(expression[pos..]));
          tokens := tokens + [Number(num.value)];
          continue;
        }
        var c := expression[pos];
        assert rest[0] == c && !IsDigit(c);
        assert rest[1..] == expression[pos + 1..];
        if IsOperator(c) {
          PrependCons(tokens, Operator(OperatorOf(c).value), Lex(expression[pos + 1..]));
          tokens := tokens + [Operator(OperatorOf(c).value)];
          pos := pos + 1;
          continue;
        }
        if IsParenthesis(c) {
          PrependCons(tokens, Parenthesis(ParenthesisOf(c).value), Lex(expression[pos + 1..]));
          tokens := tokens + [Parenthesis(ParenthesisOf(c).value)];
          pos := pos + 1;
          continue;
        }
        return Err(TokenizationError);
      }
      assert tokens + [] == tokens;
      return Ok(tokens);
    }
  }

  lemma PrependNothing(r: Result<seq<Token>>)
    ensures Prepend([], r) == r
  {
    if r.Ok? {
      assert [] + r.value == r.value;
    }
  }

  lemma PrependCons(done: seq<Token>, t: Token, r: Result<seq<Token>>)
    ensures Prepend(done, Cons(t, r)) == Prepend(done + [t], r)
  {
    if r.Ok? {
      assert done + ([t] + r.value) == (done + [t]) + r.value;
    }
  }

  // Properties of the tokenizer

  /** Tokenizing fails exactly when some character is outside the accepted alphabet,
      and then always with `TokenizationError`. */
  lemma {:induction false} LexFailsIff(s: string)
    ensures Lex(s).Err? <==> exists i | 0 <= i < |s| :: !IsLexChar(s[i])
    ensures Lex(s).Err? ==> Lex(s).error == TokenizationError
    decreases |s|
  {
    if s != [] {
      var k := if IsDigit(s[0]) then DigitRun(s) else 1;
      LexFailsIff(s[k..]);
      if IsLexChar(s[0]) {
        if exists i | 0 <= i < |s| :: !IsLexChar(s[i]) {
          var i :| 0 <= i < |s| && !IsLexChar(s[i]);
          assert i >= k;
          assert s[k..][i - k] == s[i];
        }
        if exists j | 0 <= j < |s[k..]| :: !IsLexChar(s[k..][j]) {
          var j :| 0 <= j < |s[k..]| && !IsLexChar(s[k..][j]);
          assert s[k + j] == s[k..][j];
        }
      }
    }
  }

  /** Laying the tokens' texts end to end gives back the text that was tokenized. */
  lemma {:induction false} LexThenConcat(s: string)
    requires Lex(s).Ok?
    ensures Concat(Lex(s).value) == s
    decreases |s|
  {
    if s != [] {
      var k := if IsDigit(s[0]) then DigitRun(s) else 1;
      LexThenConcat(s[k..]);
      assert s == s[..k] + s[k..];
    }
  }

  /** Every digit run becomes one maximal NUMBER token: no two NUMBER tokens touch. */
  lemma {:induction false} LexSeparatesNumbers(s: string)
    requires Lex(s).Ok?
    ensures Separated(Lex(s).value)
    decreases |s|
  {
    if s != [] {
      var k := if IsDigit(s[0]) then DigitRun(s) else 1;
      LexSeparatesNumbers(s[k..]);
      var tail := Lex(s[k..]).value;
      if IsDigit(s[0]) && tail != [] {
        assert !IsDigit(s[k..][0]);
        assert !tail[0].Number?;
      }
      var ts := Lex(s).value;
      assert ts[1..] == tail;
      forall i | 0 <= i < |ts| - 1
        ensures !(ts[i].Number? && ts[i + 1].Number?)
      {
        if i > 0 {
          assert ts[i] == tail[i - 1] && ts[i + 1] == tail[i];
        }
      }
    }
  }

  lemma DigitRunOfDigits(d: string, rest: string)
    requires IsDigitString(d)
    requires rest == [] || !IsDigit(rest[0])
    ensures DigitRun(d + rest) == |d|
    decreases |d|
  {
    if d != [] {
      assert (d + rest)[1..] == d[1..] + rest;
      DigitRunOfDigits(d[1..], rest);
    }
  }

  lemma ConcatFirst(ts: seq<Token>)
    requires ts != []
    ensures Concat(ts) != [] && Concat(ts)[0] == Text(ts[0])[0]
  {
  }

  /** The tail of a separated sequence is separated. */
  lemma SeparatedTail(ts: seq<Token>)
    requires ts != [] && Separated(ts)
    ensures Separated(ts[1..])
  {
    forall i | 0 <= i < |ts[1..]| - 1
      ensures !(ts[1..][i].Number? && ts[1..][i + 1].Number?)
    {
      assert ts[1..][i] == ts[i + 1] && ts[1..][i + 1] == ts[i + 2];
    }
  }

  /** A digit string followed by something other than a digit lexes as one NUMBER. */
  lemma LexNumberFirst(d: Digits, rest: string)
    requires rest == [] || !IsDigit(rest[0])
    ensures Lex(d + rest) == Cons(Number(d), Lex(rest))
  {
    var s := d + rest;
    DigitRunOfDigits(d, rest);
    assert s[..|d|] == d && s[|d|..] == rest;
  }

  /** An operator character lexes as its OPERATOR token. */
  lemma LexOperatorFirst(o: Op, rest: string)
    ensures Lex([OpChar(o)] + rest) == Cons(Operator(o), Lex(rest))
  {
    var s := [OpChar(o)] + rest;
    assert s[0] == OpChar(o) && s[1..] == rest;
  }

  /** A parenthesis character lexes as its PARENTHESIS token. */
  lemma LexParenthesisFirst(p: Paren, rest: string)
    ensures Lex([ParenChar(p)] + rest) == Cons(Parenthesis(p), Lex(rest))
  {
    var s := [ParenChar(p)] + rest;
    assert s[0] == ParenChar(p) && s[1..] == rest;
  }

  /** A token's text lexes back to that token, provided a NUMBER is not followed by a
      digit. */
  lemma LexFirstToken(t: Token, rest: string)
    requires t.Number? ==> rest == [] || !IsDigit(rest[0])
    ensures Lex(Text(t) + rest) == Cons(t, Lex(rest))
  {
    match t
    case Number(d) =>
      LexNumberFirst(d, rest);
    case Operator(o) =>
      LexOperatorFirst(o, rest);
    case Parenthesis(p) =>
      LexParenthesisFirst(p, rest);
  }

  /** The converse round trip: tokens whose NUMBER tokens are separated are exactly
      what their own text tokenizes to, so tokenizing is a bijection between accepted
      texts and separated token sequences. */
  lemma {:induction false} ConcatThenLex(ts: seq<Token>)
    requires Separated(ts)
    ensures Lex(Concat(ts)) == Ok(ts)
    decreases |ts|
  {
    if ts != [] {
      var rest := Concat(ts[1..]);
      SeparatedTail(ts);
      ConcatThenLex(ts[1..]);
      if ts[0].Number? && rest != [] {
        ConcatFirst(ts[1..]);
        assert !ts[1].Number?;
      }
      LexFirstToken(ts[0], rest);
      assert ts == [ts[0]] + ts[1..];
    }
  }

  /** A non-empty separated token sequence is what `tokenize` makes of its own text. */
  lemma TokenizationOfText(ts: seq<Token>)
    requires ts != [] && Separated(ts)
    ensures Tokenization(Concat(ts)) == Ok(ts)
  {
    var s := Concat(ts);
    ConcatThenLex(ts);
    ConcatFirst(ts);
    ConcatIsLexical(ts);
    assert IsLexChar(s[0]) && IsLexChar(s[|s| - 1]);
    LexCharIsNotWhitespace(s[0]);
    LexCharIsNotWhitespace(s[|s| - 1]);
    TrimKeeps(s);
  }

  /** Every character of a token sequence's text is one the tokenizer accepts. */
  lemma {:induction false} ConcatIsLexical(ts: seq<Token>)
    ensures forall i | 0 <= i < |Concat(ts)| :: IsLexChar(Concat(ts)[i])
    decreases |ts|
  {
    if ts != [] {
      ConcatIsLexical(ts[1..]);
      var t := Text(ts[0]);
      forall i | 0 <= i < |Concat(ts)|
        ensures IsLexChar(Concat(ts)[i])
      {
        if i >= |t| {
          assert Concat(ts)[i] == Concat(ts[1..])[i - |t|];
        }
      }
    }
  }
}
