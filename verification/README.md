# tiny-interpreter in Dafny

A model of the arithmetic-expression interpreter in `main.cpp`. It has three parts.

- **Tokenizer (`Lexer`).** It reads the source through a cursor and returns one token per call. It skips whitespace, reads a maximal run of digits as a `NUMBER`, and reads a letter followed by letters and digits as an `IDENTIFIER`. The six punctuation characters `+ - * / ( )` are one token each. At the end of the text it returns `END_OF_LINE`. Any other character becomes an `INVALID` token.
- **Recursive-descent parser (`Parser`).** It keeps one token of lookahead. `expr` reads terms joined by `+`/`-`; `term` reads factors joined by `*`/`/`; `factor` reads a number or a parenthesised `expr`. `eat` consumes the lookahead when it has the expected kind.
- **Evaluator (`Interpreter`).** It walks the tree. It reads numbers with `std::stoi` and applies the operators with C++ integer division.

The model is purely functional.

- The tokenizer's only state is its cursor. The character under the cursor is `CurrentChar`, which reads as `'\0'` past the end. This is what `advance` and the constructor arrange.
- The parser's state is the cursor plus the lookahead (`Parser.State`). Each parsing function threads that state through.
- The `while` loops of `expr` and `term` become the tail-recursive `ExprLoop` and `TermLoop`.
- The C++ exceptions become `Result` values: `ParseError` for the parser and `EvalError` for the evaluator.
- `unique_ptr` trees become the `Node` datatype.

Modules:

- `wrappers.dfy`: `Option` and `Result`.
- `lexer.dfy`: the tokenizer, plus `Lexes`, a declarative description of one tokenizer call that is proved equivalent to it.
- `parser.dfy`: the parser.
- `interpreter.dfy`: truncating division, `stoi`, `visit` and `interpret`.
- `printer.dfy`: a printer for trees, and the proof that the parser reads every printed tree back as that tree.
- `endtoend.dfy`: the whole pipeline on printed trees and on concrete expressions.

The printer puts parentheses only where precedence and left associativity require them. The round trip `Parse(Show(n)) == Ok(n)` therefore states, for every tree, that the parser implements exactly that precedence and associativity. It holds with the same whitespace string around every operator, any whitespace before the expression, and any text after it whose first character is not a digit and whose first token is not an operator; that text is left unread. Text spaced unevenly, such as ` 1 +  2 `, is covered by a concrete example only. A second round trip, `ParseParenthesised`, covers redundant parentheses: a printed tree inside any number of extra pairs, such as `((1 + 2))` or `((7))`, parses back to the same tree.

The tokenizer's `INVALID` case does not move the cursor (main.cpp:95). A second call therefore returns the same token again.

A successful `eat` does not always move the tokenizer's cursor: the refreshed lookahead may be `END_OF_LINE` or an `INVALID` token, which do not move the cursor past themselves (only past the whitespace in front of them). The parser's termination measure (`Parser.Budget`) is therefore the characters left to read plus one while the lookahead is a token `eat` can consume. Every successful `eat` of a number, operator or parenthesis makes it smaller.

The parser never checks that the input was fully consumed. `1 2` and `1 )` both evaluate to `1`, and the model keeps that behaviour.

## Model

| member | source | states |
|---|---|---|
| Lexer.CurrentChar | main.cpp:106-117 | the character under the cursor is NUL exactly past the end of the text or at a NUL inside it, and otherwise is the text's character at the cursor, as the constructor and `advance` arrange |
| Lexer.RunEnd | main.cpp:120-141 | the digit or alphanumeric loop stops at a character outside the class, and every character it passed is in the class (a maximal run) |
| Lexer.RunEndUnique | main.cpp:123-127 | a run that cannot be extended is exactly the one the loop reads |
| Lexer.NextToken | main.cpp:39-98 | the cursor never moves backwards; it moves forward for every token except `END_OF_LINE` and `INVALID`; `ASSIGN` and `SEMICOLON` are never produced; the token's text fits its kind |
| Lexer.LexAt | main.cpp:43-95 | the loop body at a non-NUL character: the same cursor and token guarantees as `NextToken` |
| Lexer.SkipsSpaceRun | main.cpp:43-47 | skipping whitespace one character at a time gives the same token as starting after the whole whitespace run |
| Lexer.LexAtLexes | main.cpp:49-95 | the token the loop body returns at a non-space character satisfies the declarative rule for its kind |
| Lexer.SymbolLexes | main.cpp:59-93 | each punctuation character is its own one-character token, and the cursor moves by one |
| Lexer.RunLexes | main.cpp:49-57 | a digit starts a `NUMBER` and a letter starts an `IDENTIFIER`, each spanning the maximal run |
| Lexer.LexesAfterSpaces | main.cpp:43-47 | whitespace in front of a token does not change the token or where the cursor ends |
| Lexer.NextTokenLexes | main.cpp:39-98 | soundness: every call satisfies the declarative description `Lexes` |
| Lexer.LexesSkipsSpaces | main.cpp:41-47 | a described token starts where the whitespace run ends, on a character that is neither NUL nor whitespace |
| Lexer.LexesDeterminesToken | main.cpp:39-98 | completeness: whatever `Lexes` describes is what the tokenizer returns |
| Lexer.LexesIff | main.cpp:39-98 | `Lexes` holds exactly for the token and cursor that a call returns |
| Lexer.EndOfInputIsSticky | main.cpp:41-97 | at the end of the text, or at a NUL character inside it, the scanning loop does not run: the result is `END_OF_LINE` with the cursor unchanged |
| Lexer.EndOfLineRepeats | main.cpp:97 | once `END_OF_LINE` has been returned, every later call returns it again |
| Lexer.InvalidRepeats | main.cpp:95 | `INVALID` does not move the cursor, so the next call returns the same token and cursor |
| Lexer.NextTokenShift | main.cpp:39-98 | tokenizing is local: text before the cursor does not change the token, and the cursor is shifted by its length |
| Parser.Fetch | main.cpp:244 | a refreshed lookahead is a token the tokenizer can produce, and the cursor does not move back |
| Parser.Start | main.cpp:158 | the constructor's lookahead is the first token of the text as the declarative `Lexes` describes it, with the cursor where `Lexes` puts it: past a number, name or punctuation character, on an unrecognised character, or at the end |
| Parser.Eat | main.cpp:240-250 | succeeds exactly when the lookahead has the expected kind, then refreshes it from the tokenizer; otherwise fails with that kind and the lookahead |
| Parser.Expr | main.cpp:171-193 | on success the tree is well formed, some input was consumed, and the lookahead left behind is not an operator |
| Parser.ExprLoop | main.cpp:175-191 | the `+`/`-` loop ends only at a lookahead that is not an operator, and its tree is well formed |
| Parser.Term | main.cpp:196-218 | on success the tree is well formed, some input was consumed, and the lookahead is not `*` or `/` |
| Parser.TermLoop | main.cpp:200-216 | the `*`/`/` loop ends only at a lookahead that is not `*` or `/` |
| Parser.Factor | main.cpp:221-237 | a lookahead that is neither a number nor `(` is the syntax error; on success the tree is well formed and input was consumed |
| Parser.Parse | main.cpp:161-164 | every parsed tree has number leaves and binary operator nodes only |
| Parser.LoopsStop | main.cpp:175-216 | a lookahead that is not one of the loop's operators ends the loop without consuming it |
| Parser.FactorParenStep | main.cpp:229-234 | `( expr )` is read as the inner expression's tree |
| Parser.UnclosedParenthesis | main.cpp:229-234 | a parenthesised expression not followed by `)` fails in `eat`, and the failure propagates out of `expr` |
| Printer.FactorReads | main.cpp:221-237 | `factor` reads exactly a tree printed at factor strength, and stops right after it |
| Printer.TermReads | main.cpp:196-218 | `term` reads a tree printed at term strength and resumes its loop after it |
| Printer.ExprReads | main.cpp:171-193 | `expr` reads a tree printed at expression strength and resumes its loop after it |
| Printer.ParseShow | main.cpp:161-237 | round trip: any well-formed tree, printed with one whitespace string around every operator and any whitespace before it, parses back to itself; text after it whose first character is not a digit and whose first token is not an operator stays unread |
| Printer.ParsePrinted | main.cpp:161-164 | the printed tree alone parses back to itself |
| Printer.WrappedReads | main.cpp:229-234 | `expr` reads a printed tree inside any number of redundant parentheses as the tree itself, by induction on the number of pairs |
| Printer.ParseParenthesised | main.cpp:161-237 | round trip with redundant parentheses: a well-formed tree printed inside any number of extra pairs, a lone number included, parses back to itself |
| Interpreter.TruncDiv | main.cpp:291 | C++ `/`: the remainder is smaller in magnitude than the divisor and has the sign of the dividend |
| Interpreter.TruncDivUnique | main.cpp:291 | truncating division is the only quotient with that remainder |
| Interpreter.Stoi | main.cpp:274 | `std::stoi` fails exactly when no digit follows the leading whitespace and optional sign |
| Interpreter.StoiOfNumeral | main.cpp:274 | a digit run reads as its base-10 value |
| Interpreter.LeadingZeroIgnored | main.cpp:274 | a leading zero does not change the value of a digit run |
| Interpreter.Apply | main.cpp:277-292 | the four operators fail only on division by zero; otherwise `+`, `-`, `*` give the exact sum, difference and product, and `/` gives the truncating quotient `TruncDiv` |
| Interpreter.Visit | main.cpp:270-294 | on a parsed tree, division by zero is the only possible failure; the final throw of `visit` is unreachable |
| Interpreter.VisitLeaf | main.cpp:272-275 | a number leaf evaluates to the base-10 value of its digits |
| Interpreter.VisitOperator | main.cpp:277-292 | an operator node applies its operator to its operands' values |
| Interpreter.VisitFailsIffDividesByZero | main.cpp:270-294 | a parsed tree fails to evaluate exactly when some division in it has a right operand of value zero |
| Interpreter.Interpret | main.cpp:260-264 | the only evaluation error `interpret` reports is division by zero |
| EndToEnd.InterpretShow | main.cpp:260-264 | interpreting a printed tree gives the tree's value or its evaluation error |
| EndToEnd.InterpretPrinted | main.cpp:260-264 | the same for the printed tree alone |
| EndToEnd.InterpretNumeral | main.cpp:272-275 | a single non-negative integer literal, with any whitespace around it and any leading zeros, interprets as its base-10 value |
| EndToEnd.InterpretLeadingZero | main.cpp:274 | putting a `0` in front of a literal does not change what it interprets as |
| EndToEnd.InterpretDecimal | main.cpp:272-275 | a non-negative number written in decimal interprets as itself |
| EndToEnd.LeftAssociative | main.cpp:171-193 | `8 - 3 - 2` parses as `(8 - 3) - 2` and evaluates to 3 |
| EndToEnd.ProductFirst | main.cpp:196-218 | `2 + 3 * 4` parses as `2 + (3 * 4)` and evaluates to 14 |
| EndToEnd.ParenthesesFirst | main.cpp:221-237 | `(2 + 3) * 4` parses with the sum as the left operand and evaluates to 20 |
| EndToEnd.DivisionTruncates | main.cpp:289-292 | `7 / 2` evaluates to 3 |
| EndToEnd.DivisionTowardZero | main.cpp:289-292 | `(1 - 6) / 2` evaluates to -2, rounding toward zero |
| EndToEnd.WhitespaceIgnored | main.cpp:43-47 | `1+2`, ` 1 + 2 ` and the unevenly spaced ` 1 +  2 ` all evaluate to 3 |
| EndToEnd.RedundantParentheses | main.cpp:229-234 | `((1 + 2) * (3 + 4))` parses as the product of the two sums and evaluates to 21; `((7))` parses as the number 7 |
| EndToEnd.DivisionByZeroFails | main.cpp:291 | `1 / 0` is an evaluation error, not a syntax error |
| EndToEnd.TrailingTokensIgnored | main.cpp:161-164 | `1 2` and `1 )` evaluate to 1: tokens after the first expression are not examined |
| EndToEnd.EmptySourceFails | main.cpp:236 | the empty source is a syntax error: `factor` finds `END_OF_LINE` |
| EndToEnd.UnrecognisedFails | main.cpp:95 | `@` is an `INVALID` token, and `factor` rejects it as a syntax error |
| EndToEnd.UnclosedFails | main.cpp:233 | in `(1 + 2`, `eat` expects `)` and finds `END_OF_LINE` |
| EndToEnd.AssignAndSemicolonInvalid | main.cpp:59-95 | `=` and `;` are reported as `INVALID`, and the cursor does not move past them |

## Left out

- `main()` (main.cpp:298 onwards) is left out: it reads `main.x`, prints, and catches exceptions.
- The messages of the thrown exceptions are not modelled. Each throw site is a distinct `ParseError` or `EvalError` variant instead.
- Interpreter.Visit: values are unbounded integers, so the 32-bit overflow of `+`, `-`, `*` and of `INT_MIN / -1` (undefined in C++) is not modelled.
- Interpreter.Stoi: the `out_of_range` failure for numbers outside the `int` range is not modelled, because values are unbounded.
- Interpreter.Visit: division by zero is undefined behaviour in C++. The model reports it as `DivisionByZero`.
- Interpreter.Visit: an operator node without children would dereference null in C++. The model reports it as `MissingOperand`. Parsed trees never have one.
- Interpreter.Visit: C++ leaves the evaluation order of the two operands unspecified. The model evaluates the left operand first. This only decides which error is reported when both fail, and on parsed trees both can only fail with `DivisionByZero`.
- Printer.ParseShow: the printer puts the same whitespace string around every operator, so the round trip does not cover text whose gaps differ from one operator to the next. Such text parses the same way, which `EndToEnd.WhitespaceIgnored` shows for ` 1 +  2 `, but no lemma states it for all trees.
- Character classes are those of the C locale restricted to ASCII. Characters outside it, and the undefined behaviour of `isspace` and the others on negative `char` values, are not modelled.
- Lexer.NextToken: the cursor is an unbounded `nat`, not a `size_t`, which makes no difference for sources that fit in memory.
- The parser in main.cpp does not require the input to be fully consumed, so no such check is modelled either.
- `IDENTIFIER` tokens are produced by the tokenizer and rejected by `factor` as any other non-factor token; nothing else uses them.
