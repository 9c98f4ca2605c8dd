# Arithmetic expression engine

This project models the arithmetic-expression engine of the service. The engine lives in
`src/app/utils/expressionEval.ts`. The top-level `evaluate(expression)` runs three
stages, each on a fresh object:

1. The **tokenizer** trims the input. It then walks it once with a cursor and emits
   NUMBER tokens (maximal digit runs), OPERATOR tokens (`+ - * /`) and PARENTHESIS
   tokens (`(` `)`). Any other character throws `TokenizationError`.
2. The **parser** is a Pratt parser with a cursor shared by its recursive routines. It
   builds a tree of `Literal`, `PrefixExpression` and `BinaryExpression` nodes. `+`
   and `-` have binding power 1; `*` and `/` have binding power 2.
3. The **evaluator** reduces the tree recursively. Division by zero throws
   `EvaluateError`.

The modules are:

- `Results`: the failure tags and the `Option`/`Result` types.
- `Tokens`: tokens, character classes and decimal values.
- `Lexer`: trimming, the functional tokenization `Lex`, and the `Tokenizer` class.
- `Ast`: the tree.
- `Parsing`: the parse routines as functions over the tokens that remain, and the
  `Parser` class with its `pos` cursor.
- `ParserProperties`: what the parser does with printed trees and malformed input.
- `Evaluation`: the evaluator and a reference arithmetic semantics.
- `Engine`: the top-level `evaluate`, end to end.
- `Scenarios`: concrete inputs run through the whole engine.

Each class method is proved against a function over the remaining input.

- `Tokenizer.Tokenize` returns `Lex` of the text from the cursor on.
- Each `Parser` routine leaves the cursor where its function says the unread tokens
  begin, and returns that function's node or error.
- The properties are proved about those functions: the tokenizer round trip in both
  directions, and printing a tree then parsing it back (which covers precedence,
  left grouping and parentheses).
- `Engine.RunRendered` chains these results: `evaluate` on the printed text of any tree
  the parser can build gives that tree's value.

Failures are tags of `Results.Error`:

- `TokenizationError`, `ParseError` and `EvaluateError` are the three error classes the
  engine throws.
- `UndefinedToken` is the JavaScript `TypeError` raised when the parser reads `.type`
  or `.value` of the token past the end of the list.

### Where the code and the tests disagree

The model follows the code. The repository's tests expect otherwise in these places:

- Only `trim()` removes white space (line 56). A space inside the expression is
  rejected with `TokenizationError`, so `"2 + 3"` fails. The end-to-end tests expect 5
  (`Scenarios.InteriorSpaceScenario`, `Engine.RunTokenizationErrorIff`).
- Prefix handlers are looked up by token kind (line 179), but the `-` handler is
  registered under the key `'-'` (line 135). Every leading operator, `-` included,
  therefore fails with `ParseError`. The tests expect `"-5"` to be -5
  (`Scenarios.LeadingMinusScenario`, `ParserProperties.LeadingOperatorOrCloseFails`,
  `ParserProperties.ExprWellFormed`).
- `parsePrefixExpression` itself would parse its operand at binding power 0, not at a
  higher prefix power (`ParserProperties.NegationTakesWholeExpression`).
- Running out of tokens is a `TypeError`, not `ParseError`. This affects `"2+"`,
  `"(2"` and `""` (`Scenarios.MissingOperandScenario`,
  `Scenarios.UnclosedParenthesisScenario`, `Scenarios.EmptyScenario`).
- Tokens left after the top-level parse are ignored, so `"2)5"` is 2
  (`ParserProperties.TrailingTokensIgnored`, `Scenarios.TrailingTokensScenario`).
- A `(` where an operator is expected replaces the left operand, so `"2(3)"` is 3
  (`ParserProperties.GroupReplacesLeftOperand`, `Scenarios.JuxtapositionScenario`).

## Model

| member | source | states |
|---|---|---|
| Tokens.OperatorOf | src/app/utils/expressionEval.ts:79-81 | a character is an operator exactly when it is one of `+ - * /`, and the operator found spells that character back |
| Tokens.ParenthesisOf | src/app/utils/expressionEval.ts:83-85 | a character is a parenthesis exactly when it is `(` or `)`, and the parenthesis found spells that character back |
| Tokens.IsDigit | src/app/utils/expressionEval.ts:75-77 | a digit is one of `0`-`9`, as `/\d/` matches; `Lexer.DigitRun`, `Lexer.LexNumberFirst` and `Lexer.LexSeparatesNumbers` state what the tokenizer does with runs of them |
| Tokens.DecimalValue | src/app/utils/expressionEval.ts:155 | the value `Number()` reads from a digit string; `Tokens.Numeral` shows every natural number is such a value, and `ParserProperties.NumberParsesToLiteral` that a NUMBER token's literal holds it |
| Tokens.Numeral | src/app/utils/expressionEval.ts:155 | every natural number has a digit string whose decimal value (what `Number()` reads) is that number, with no leading zero |
| Lexer.TrimStart | src/app/utils/expressionEval.ts:56 | the result is a suffix of the input, everything dropped is white space, and the result does not start with white space |
| Lexer.TrimEnd | src/app/utils/expressionEval.ts:56 | the result is a prefix of the input, everything dropped is white space, and the result does not end with white space |
| Lexer.TrimPadded | src/app/utils/expressionEval.ts:56 | `trim` of white space + text + white space gives back exactly the text, when the text starts and ends with non-white-space |
| Lexer.TrimKeeps | src/app/utils/expressionEval.ts:56 | `trim` leaves a text unchanged when it starts and ends with non-white-space |
| Lexer.Trim | src/app/utils/expressionEval.ts:56 | `trim()`: leading then trailing white space removed; `Lexer.TrimPadded` and `Lexer.TrimKeeps` state exactly what it returns |
| Lexer.DigitRun | src/app/utils/expressionEval.ts:67-73 | the count is the length of the longest all-digit prefix: every counted character is a digit and the next one is not |
| Lexer.Lex | src/app/utils/expressionEval.ts:87-113 | the tokens of a trimmed text; `Lexer.LexFailsIff` (fails exactly on a character outside the alphabet), `Lexer.LexThenConcat` and `Lexer.ConcatThenLex` (round trip in both directions) and `Lexer.LexSeparatesNumbers` describe it |
| Lexer.Tokenization | src/app/utils/expressionEval.ts:300 | `new Tokenizer(expression).tokenize()`: `Lex` of the trimmed input; `Lexer.TokenizationOfText` shows it gives back any separated token sequence from its text |
| Lexer.Tokenizer.constructor | src/app/utils/expressionEval.ts:55-57 | the tokenizer holds the trimmed expression with the cursor at 0 |
| Lexer.Tokenizer.MatchNumber | src/app/utils/expressionEval.ts:67-73 | the cursor advances over exactly the maximal digit run; the run is returned, or nothing when it is empty |
| Lexer.Tokenizer.Tokenize | src/app/utils/expressionEval.ts:87-113 | the result is `Lex` of the text from the starting cursor, and on success the cursor is at the end |
| Lexer.LexFailsIff | src/app/utils/expressionEval.ts:87-111 | tokenizing fails exactly when some character is not a digit, `+ - * /`, `(` or `)`, and then the failure is `TokenizationError` |
| Lexer.LexThenConcat | src/app/utils/expressionEval.ts:89-105 | the texts of the tokens produced, laid end to end, give back the tokenized text |
| Lexer.LexSeparatesNumbers | src/app/utils/expressionEval.ts:67-73 | every digit run becomes one maximal NUMBER token: no two NUMBER tokens are adjacent |
| Lexer.LexNumberFirst | src/app/utils/expressionEval.ts:90-94 | a digit run followed by a non-digit becomes one NUMBER token in front of the tokens of the rest |
| Lexer.LexOperatorFirst | src/app/utils/expressionEval.ts:96-100 | an operator character becomes its own OPERATOR token in front of the tokens of the rest |
| Lexer.LexParenthesisFirst | src/app/utils/expressionEval.ts:102-105 | a parenthesis character becomes its own PARENTHESIS token in front of the tokens of the rest |
| Lexer.ConcatThenLex | src/app/utils/expressionEval.ts:87-113 | any token sequence without adjacent NUMBER tokens is exactly what its own text tokenizes to (the converse round trip) |
| Lexer.ConcatIsLexical | src/app/utils/expressionEval.ts:75-85 | every character of a token sequence's text is one the tokenizer accepts |
| Lexer.TokenizationOfText | src/app/utils/expressionEval.ts:55-57 | a non-empty token sequence without adjacent NUMBER tokens is what trimming and then tokenizing its text produce |
| Parsing.Precedence | src/app/utils/expressionEval.ts:121-126 | every operator binds at power 1 or 2 |
| Parsing.Continues | src/app/utils/expressionEval.ts:188-193 | the loop condition: a token remains and it is `(` or an operator binding strictly tighter than the current power; `ParserProperties.PrecedenceAndAssociativity` and `ParserProperties.TrailingTokensIgnored` state its consequences |
| Parsing.ParseNumber | src/app/utils/expressionEval.ts:154-156 | a NUMBER token always parses and consumes at least one token |
| Parsing.ParsePrefix | src/app/utils/expressionEval.ts:179-186 | success consumes at least one token; failure is only `ParseError` or the end-of-tokens TypeError |
| Parsing.ParseParen | src/app/utils/expressionEval.ts:215-226 | success consumes at least one token; failure is only `ParseError` or the end-of-tokens TypeError |
| Parsing.ParseGroup | src/app/utils/expressionEval.ts:228-239 | success consumes at least one token; failure is only `ParseError` or the end-of-tokens TypeError |
| Parsing.ParseInfix | src/app/utils/expressionEval.ts:167-176 | success consumes at least one token; failure is only `ParseError` or the end-of-tokens TypeError |
| Parsing.ParseNegation | src/app/utils/expressionEval.ts:158-165 | success consumes at least one token; failure is only `ParseError` or the end-of-tokens TypeError |
| Parsing.ParseExpr | src/app/utils/expressionEval.ts:178-213 | success consumes at least one token; failure is only `ParseError` or the end-of-tokens TypeError |
| Parsing.ParseLoop | src/app/utils/expressionEval.ts:188-210 | the loop never un-reads tokens; failure is only `ParseError` or the end-of-tokens TypeError |
| Parsing.Parser.constructor | src/app/utils/expressionEval.ts:128-131 | the parser holds the given tokens with the cursor at 0 |
| Parsing.Parser.ParseNumberLiteral | src/app/utils/expressionEval.ts:154-156 | consumes the NUMBER token and returns the literal that `ParseNumber` gives, leaving the cursor on the next token |
| Parsing.Parser.ParsePrefixExpression | src/app/utils/expressionEval.ts:158-165 | returns the node or error `ParseNegation` gives and leaves the cursor where it says the unread tokens begin |
| Parsing.Parser.ParseInfixExpression | src/app/utils/expressionEval.ts:167-176 | returns the node or error `ParseInfix` gives and leaves the cursor where it says the unread tokens begin |
| Parsing.Parser.ParseExpression | src/app/utils/expressionEval.ts:178-213 | returns the node or error `ParseExpr` gives at that binding power and leaves the cursor where it says the unread tokens begin |
| Parsing.Parser.ParseParenthesis | src/app/utils/expressionEval.ts:215-226 | returns the node or error `ParseParen` gives and leaves the cursor where it says the unread tokens begin |
| Parsing.Parser.ParseGroupedExpression | src/app/utils/expressionEval.ts:228-239 | returns the node or error `ParseGroup` gives and leaves the cursor where it says the unread tokens begin |
| ParserProperties.ExprWellFormed | src/app/utils/expressionEval.ts:133-144 | every tree the parser builds is made of non-negative literals and binary nodes only: the `-` prefix handler is never reached |
| ParserProperties.NoTokensIsUndefined | src/app/utils/expressionEval.ts:179 | parsing with no token left fails with the end-of-tokens TypeError |
| ParserProperties.LeadingOperatorOrCloseFails | src/app/utils/expressionEval.ts:179-185 | an expression starting with any operator, `-` included, or with `)` fails with `ParseError` |
| ParserProperties.NumberParsesToLiteral | src/app/utils/expressionEval.ts:154-156 | a NUMBER token becomes a literal holding the decimal value of its digits and consumes exactly that token |
| ParserProperties.ParsesGroup | src/app/utils/expressionEval.ts:228-239 | a parenthesised group around the printed tokens of any tree yields that tree itself, with no wrapper node, and consumes both parentheses |
| ParserProperties.GroupYieldsInner | src/app/utils/expressionEval.ts:228-239 | any group whose contents parse at power 0 and stop at `)` yields the inner tree itself, with no wrapper node, and consumes both parentheses |
| ParserProperties.UnparseRoundTrip | src/app/utils/expressionEval.ts:178-213 | every tree the parser can build is what it parses back from the tree's printed tokens, using all of them |
| ParserProperties.TrailingTokensIgnored | src/app/utils/expressionEval.ts:188-193 | a NUMBER or `)` after a complete expression stops the top-level parse and is left unread |
| ParserProperties.GroupReplacesLeftOperand | src/app/utils/expressionEval.ts:205-206 | a `(` where an operator is expected replaces the left operand with the group's tree |
| ParserProperties.PrecedenceAndAssociativity | src/app/utils/expressionEval.ts:188-191 | in `a o1 b o2 c`, `o2` takes `b` only when it binds strictly tighter than `o1`; otherwise the chain groups to the left |
| ParserProperties.RedundantParenthesesKeepTree | src/app/utils/expressionEval.ts:167-176 | parenthesising a right operand gives the same tree as printing it bare: `2+(3*4)` and `2+3*4` agree |
| ParserProperties.UnclosedGroupIsUndefined | src/app/utils/expressionEval.ts:231 | a group whose `)` never comes runs off the end of the tokens |
| ParserProperties.NegationTakesWholeExpression | src/app/utils/expressionEval.ts:158-165 | the `-` prefix handler would negate the whole rest of the expression, parsed at binding power 0 |
| Evaluation.Evaluate | src/app/utils/expressionEval.ts:243-258 | evaluation fails only with `EvaluateError` |
| Evaluation.EvaluateBinary | src/app/utils/expressionEval.ts:260-285 | a binary node fails only with `EvaluateError` |
| Evaluation.Operate | src/app/utils/expressionEval.ts:263-284 | applying an operator fails exactly when it divides by zero, and then with `EvaluateError` |
| Evaluation.EvaluatePrefix | src/app/utils/expressionEval.ts:287-296 | a prefix node fails only with `EvaluateError` |
| Evaluation.EvaluateMatchesDenotation | src/app/utils/expressionEval.ts:243-296 | a tree without a zero divisor or a non-`-` prefix evaluates to its ordinary arithmetic value; every other tree fails with `EvaluateError` |
| Evaluation.OperateIsApply | src/app/utils/expressionEval.ts:263-277 | the operator switch agrees with ordinary arithmetic except for division by zero |
| Evaluation.FailurePropagates | src/app/utils/expressionEval.ts:260-262 | a failing subtree anywhere makes the whole evaluation fail with `EvaluateError` |
| Evaluation.DivisionByZeroFails | src/app/utils/expressionEval.ts:270-276 | a division whose right operand evaluates to 0, anywhere in the tree, makes evaluation fail with `EvaluateError` |
| Engine.EvaluateExpression | src/app/utils/expressionEval.ts:299-303 | the result is `Run(expression)`: a function of the input alone, with no state kept between calls |
| Engine.Run | src/app/utils/expressionEval.ts:299-303 | what `evaluate` returns or throws: tokenize, parse at power 0, evaluate; `Engine.RunRendered`, `Engine.RunOfText` and `Engine.RunTokenizationErrorIff` state its results |
| Engine.UnparseSeparated | src/app/utils/expressionEval.ts:67-73 | printed trees never put two numbers side by side, so their text tokenizes back to the same tokens |
| Engine.RunRendered | src/app/utils/expressionEval.ts:299-303 | `evaluate` on the printed text of any tree the parser can build gives the tree's value |
| Engine.RunOfText | src/app/utils/expressionEval.ts:299-303 | `evaluate` on the text of tokens without adjacent numbers is the value of the tree the parser builds from them |
| Engine.RunNumeral | src/app/utils/expressionEval.ts:154-156 | a numeral evaluates to its own value |
| Engine.RunTokenizationErrorIff | src/app/utils/expressionEval.ts:55-111 | `evaluate` fails with `TokenizationError` exactly when the trimmed input has a character other than a digit, `+ - * /`, `(` or `)` |
| Scenarios.PrecedenceScenario | src/app/utils/expressionEval.ts:121-126 | `2+3*4` is 14 |
| Scenarios.DivisionPrecedenceScenario | src/app/utils/expressionEval.ts:188-191 | `8-6/2` is 5 |
| Scenarios.LeftAssociativityScenario | src/app/utils/expressionEval.ts:167-176 | `10-3-2` is 5 |
| Scenarios.GroupingScenario | src/app/utils/expressionEval.ts:228-239 | `(2+3)*4` is 20 |
| Scenarios.DivisionByZeroScenario | src/app/utils/expressionEval.ts:270-276 | `5/0` fails with `EvaluateError` |
| Scenarios.MissingOperandScenario | src/app/utils/expressionEval.ts:179 | `2+` fails with the end-of-tokens TypeError |
| Scenarios.UnclosedParenthesisScenario | src/app/utils/expressionEval.ts:231 | `(2` fails with the end-of-tokens TypeError |
| Scenarios.EmptyScenario | src/app/utils/expressionEval.ts:179 | the empty expression fails with the end-of-tokens TypeError |
| Scenarios.LettersScenario | src/test/utils/expressionEval.test.ts:261 | `abc` fails with `TokenizationError` |
| Scenarios.InteriorSpaceScenario | src/app/utils/expressionEval.ts:107-110 | `2 + 3` fails with `TokenizationError` |
| Scenarios.SurroundingSpaceScenario | src/app/utils/expressionEval.ts:56 | `  7 ` is 7: only the surrounding white space is trimmed |
| Scenarios.LeadingMinusScenario | src/app/utils/expressionEval.ts:179-185 | `-5` fails with `ParseError` |
| Scenarios.MinusAfterOperatorScenario | src/app/utils/expressionEval.ts:179-185 | `2*-3` fails with `ParseError` |
| Scenarios.TrailingTokensScenario | src/app/utils/expressionEval.ts:301 | `2)5` is 2 |
| Scenarios.JuxtapositionScenario | src/app/utils/expressionEval.ts:205-206 | `2(3)` is 3 |

## Left out

- Floating point: the model evaluates over exact `real`. JavaScript's double rounding
  in `+ - * /` (lines 265-277) is not modelled.
- `Number()` precision: long digit runs (line 155) lose precision in JavaScript, but
  the model keeps the exact value. A run of more than about 309 digits becomes
  `Infinity` in JavaScript and can lead to `NaN` results; the model has no such values.
- Evaluation.Operate: the division-by-zero test (line 271) is made on exact values.
  With doubles a divisor that is zero in exact arithmetic can come out as a tiny
  non-zero number (`1/(1/49*49-1)` returns a number in JavaScript), and the model then
  fails with `EvaluateError` where the code returns a value.
- The JavaScript call-stack limit: deeply nested input makes the recursive
  `parseExpression` or `evaluate` throw `RangeError`. The model has no depth limit
  and returns a value.
- Strings are sequences of Unicode code points, not UTF-16 code units. This makes no
  difference to which characters the tokenizer accepts.
- Error messages, error codes and HTTP statuses: each failure is reduced to its tag.
- The `TypeError` raised on reading past the last token has a tag of its own,
  `UndefinedToken`. The model has no message for it.
- The "No infix parse function" branch (lines 195-203) is not modelled. The loop
  condition only admits an operator or `(`, and both have a handler, so it never fires.
- The "Unknown operator" branch (lines 278-283) and the "Unknown object" branch
  (lines 251-256) are not modelled. The operator and node datatypes are closed, so no
  other operator or node shape exists. An unknown prefix operator is modelled: any
  prefix operator other than `-` fails with `EvaluateError`.
- `peek` and `consume` (lines 59-65, 146-152) are not separate members. Each is
  inlined as a read of, or a step of, the `pos` cursor.
- The handler tables built by `init` (lines 133-144) are not modelled as maps. They
  become the fixed dispatch of `ParsePrefix` and `ParseLoop`: NUMBER and PARENTHESIS
  kinds have prefix handlers, OPERATOR has none, and every operator has an infix
  handler.
- The rest of the repository is not part of this model: the HTTP service, the
  database, the worker pool, validation and configuration.
