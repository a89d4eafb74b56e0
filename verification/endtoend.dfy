/** The whole pipeline, input text to value: `interpret` on printed trees
    and on the concrete expressions that show precedence, associativity,
    truncating division, redundant parentheses, uneven whitespace, the
    error paths and the unread trailing tokens.

    Each concrete example is split into a lemma about its text and one
    about its value. Those helpers take the tree, or the text, as a
    parameter fixed by a `requires` (`n == Op(..)`, `src == "1 2"`), and
    `LexesAfterSpace` takes one of two literal triples the same way. A
    literal written as a parameter's required value is unfolded by the
    verifier only inside the small lemma that needs it, which keeps every
    proof well within its resource budget; written into the caller's body,
    the same literal would be unfolded there as well. */
module EndToEnd {
  import opened Wrappers
  import opened Lexer
  import opened Parser
  import opened Interpreter
  import opened Printer

  /** Interpreting a printed tree, with any surrounding text `ParseShow`
      allows, evaluates the tree: every syntax-level decision of the
      pipeline is the printer's, inverted. */
  lemma {:induction false} InterpretShow(n: Node, lead: string, g: string, rest: string, src: string)
    requires WellFormed(n) && Blank(lead) && Blank(g)
    requires rest == [] || !IsDigit(rest[0])
    requires !IsOperator(NextToken(rest, 0).0.kind)
    requires src == lead + Show(n, 1, g) + rest
    ensures Visit(n).Ok? ==> Interpret(src) == Ok(Visit(n).value)
    ensures Visit(n).Err? ==> Interpret(src) == Err(Evaluation(Visit(n).error))
  {
    ParseShow(n, lead, g, rest);
  }

  /** The printed tree alone. */
  lemma {:induction false} InterpretPrinted(n: Node, g: string)
    requires WellFormed(n) && Blank(g)
    ensures Visit(n).Ok? ==> Interpret(Show(n, 1, g)) == Ok(Visit(n).value)
    ensures Visit(n).Err? ==> Interpret(Show(n, 1, g)) == Err(Evaluation(Visit(n).error))
  {
    ParsePrinted(n, g);
  }

  /** A single non-negative integer literal, with any whitespace around
      it and any leading zeros, interprets as its base-10 value. */
  lemma {:induction false} InterpretNumeral(lead: string, s: string, tail: string)
    requires IsNumeral(s) && Blank(lead) && Blank(tail)
    ensures Interpret(lead + s + tail) == Ok(DecimalValue(s))
  {
    var t := Token(Number, s);
    assert Show(Leaf(t), 1, "") == s;
    assert tail == [] || !IsDigit(tail[0]);
    RunEndUnique(tail, 0, Space, |tail|);
    SkipsSpaceRun(tail, 0);
    EndOfInputIsSticky(tail, |tail|);
    VisitLeaf(t);
    InterpretShow(Leaf(t), lead, "", tail, lead + s + tail);
  }

  /** A leading zero does not change what a literal interprets as. */
  lemma {:induction false} InterpretLeadingZero(s: string)
    requires IsNumeral(s)
    ensures Interpret("0" + s) == Interpret(s)
  {
    assert "" + ("0" + s) + "" == "0" + s && "" + s + "" == s;
    InterpretNumeral("", "0" + s, "");
    InterpretNumeral("", s, "");
    LeadingZeroIgnored(s);
  }

  /** A number in decimal interprets as itself. */
  lemma {:induction false} InterpretDecimal(v: nat)
    ensures Interpret(Decimal(v)) == Ok(v)
  {
    var s := Decimal(v);
    assert "" + s + "" == s;
    InterpretNumeral("", s, "");
    DecimalRoundTrip(v);
  }

  function Num(s: string): Node
  {
    Leaf(Token(Number, s))
  }

  function Op(k: TokenKind, l: Node, r: Node): Node
  {
    Bin(Token(k, Spelling(k)), l, r)
  }

  /** A concrete text that is the printing of `n`: it parses to `n` and
      interprets as `n`'s value. */
  lemma {:induction false} PrintedCase(n: Node, g: string, text: string, v: int)
    requires WellFormed(n) && Blank(g) && Show(n, 1, g) == text && Visit(n) == Ok(v)
    ensures Parse(text) == Ok(n) && Interpret(text) == Ok(v)
  {
    ParsePrinted(n, g);
    InterpretPrinted(n, g);
  }

  /** `8 - 3 - 2` groups to the left. */
  lemma LeftAssociative()
    ensures Parse("8 - 3 - 2") == Ok(Op(Minus, Op(Minus, Num("8"), Num("3")), Num("2")))
    ensures Interpret("8 - 3 - 2") == Ok(3)
  {
    var n := Op(Minus, Op(Minus, Num("8"), Num("3")), Num("2"));
    LeftAssociativeText(n);
    LeftAssociativeValue(n);
    PrintedCase(n, " ", "8 - 3 - 2", 3);
  }

  lemma {:induction false} LeftAssociativeText(n: Node)
    requires n == Op(Minus, Op(Minus, Num("8"), Num("3")), Num("2"))
    ensures WellFormed(n) && Show(n, 1, " ") == "8 - 3 - 2"
  {
  }

  lemma {:induction false} LeftAssociativeValue(n: Node)
    requires n == Op(Minus, Op(Minus, Num("8"), Num("3")), Num("2"))
    ensures Visit(n) == Ok(3)
  {
    VisitLeaf(n.left.left.token);
    VisitLeaf(n.left.right.token);
    VisitLeaf(n.right.token);
    VisitOperator(n.left.token, n.left.left, n.left.right, 8, 3);
    VisitOperator(n.token, n.left, n.right, 5, 2);
  }

  /** `*` binds tighter than `+`. */
  lemma ProductFirst()
    ensures Parse("2 + 3 * 4") == Ok(Op(Plus, Num("2"), Op(Multiply, Num("3"), Num("4"))))
    ensures Interpret("2 + 3 * 4") == Ok(14)
  {
    var n := Op(Plus, Num("2"), Op(Multiply, Num("3"), Num("4")));
    ProductFirstText(n);
    ProductFirstValue(n);
    PrintedCase(n, " ", "2 + 3 * 4", 14);
  }

  lemma {:induction false} ProductFirstText(n: Node)
    requires n == Op(Plus, Num("2"), Op(Multiply, Num("3"), Num("4")))
    ensures WellFormed(n) && Show(n, 1, " ") == "2 + 3 * 4"
  {
  }

  lemma {:induction false} ProductFirstValue(n: Node)
    requires n == Op(Plus, Num("2"), Op(Multiply, Num("3"), Num("4")))
    ensures Visit(n) == Ok(14)
  {
    VisitLeaf(n.left.token);
    VisitLeaf(n.right.left.token);
    VisitLeaf(n.right.right.token);
    VisitOperator(n.right.token, n.right.left, n.right.right, 3, 4);
    VisitOperator(n.token, n.left, n.right, 2, 12);
  }

  /** Parentheses override precedence. */
  lemma ParenthesesFirst()
    ensures Parse("(2 + 3) * 4") == Ok(Op(Multiply, Op(Plus, Num("2"), Num("3")), Num("4")))
    ensures Interpret("(2 + 3) * 4") == Ok(20)
  {
    var n := Op(Multiply, Op(Plus, Num("2"), Num("3")), Num("4"));
    ParenthesesFirstText(n);
    ParenthesesFirstValue(n);
    PrintedCase(n, " ", "(2 + 3) * 4", 20);
  }

  lemma {:induction false} ParenthesesFirstText(n: Node)
    requires n == Op(Multiply, Op(Plus, Num("2"), Num("3")), Num("4"))
    ensures WellFormed(n) && Show(n, 1, " ") == "(2 + 3) * 4"
  {
  }

  lemma {:induction false} ParenthesesFirstValue(n: Node)
    requires n == Op(Multiply, Op(Plus, Num("2"), Num("3")), Num("4"))
    ensures Visit(n) == Ok(20)
  {
    VisitLeaf(n.left.left.token);
    VisitLeaf(n.left.right.token);
    VisitLeaf(n.right.token);
    VisitOperator(n.left.token, n.left.left, n.left.right, 2, 3);
    VisitOperator(n.token, n.left, n.right, 5, 4);
  }

  /** Division discards the fraction. */
  lemma DivisionTruncates()
    ensures Interpret("7 / 2") == Ok(3)
  {
    var n := Op(Divide, Num("7"), Num("2"));
    DivisionTruncatesText(n);
    DivisionTruncatesValue(n);
    PrintedCase(n, " ", "7 / 2", 3);
  }

  lemma {:induction false} DivisionTruncatesText(n: Node)
    requires n == Op(Divide, Num("7"), Num("2"))
    ensures WellFormed(n) && Show(n, 1, " ") == "7 / 2"
  {
  }

  lemma {:induction false} DivisionTruncatesValue(n: Node)
    requires n == Op(Divide, Num("7"), Num("2"))
    ensures Visit(n) == Ok(3)
  {
    VisitLeaf(n.left.token);
    VisitLeaf(n.right.token);
    TruncDivUnique(7, 2, 3);
    VisitOperator(n.token, n.left, n.right, 7, 2);
  }

  /** Division rounds toward zero, not down, for a negative dividend. */
  lemma DivisionTowardZero()
    ensures Interpret("(1 - 6) / 2") == Ok(-2)
  {
    var n := Op(Divide, Op(Minus, Num("1"), Num("6")), Num("2"));
    DivisionTowardZeroText(n);
    DivisionTowardZeroValue(n);
    PrintedCase(n, " ", "(1 - 6) / 2", -2);
  }

  lemma {:induction false} DivisionTowardZeroText(n: Node)
    requires n == Op(Divide, Op(Minus, Num("1"), Num("6")), Num("2"))
    ensures WellFormed(n) && Show(n, 1, " ") == "(1 - 6) / 2"
  {
  }

  lemma {:induction false} DivisionTowardZeroValue(n: Node)
    requires n == Op(Divide, Op(Minus, Num("1"), Num("6")), Num("2"))
    ensures Visit(n) == Ok(-2)
  {
    VisitLeaf(n.left.left.token);
    VisitLeaf(n.left.right.token);
    VisitLeaf(n.right.token);
    VisitOperator(n.left.token, n.left.left, n.left.right, 1, 6);
    TruncDivUnique(-5, 2, -2);
    VisitOperator(n.token, n.left, n.right, -5, 2);
  }

  /** A concrete text that is the printing of `n` inside `d` extra pairs
      of parentheses: it parses to `n` and interprets as `n`'s value. */
  lemma {:induction false} WrappedCase(n: Node, d: nat, g: string, text: string, v: int)
    requires WellFormed(n) && Blank(g) && Wrap(d, Show(n, 1, g)) == text && Visit(n) == Ok(v)
    ensures Parse(text) == Ok(n) && Interpret(text) == Ok(v)
  {
    ParseParenthesised(n, d, g);
  }

  /** Parentheses the grammar does not need are read and dropped: around
      the whole expression, and around a single number. */
  lemma RedundantParentheses()
    ensures Parse("((1 + 2) * (3 + 4))") == Ok(Op(Multiply, Op(Plus, Num("1"), Num("2")), Op(Plus, Num("3"), Num("4"))))
    ensures Interpret("((1 + 2) * (3 + 4))") == Ok(21)
    ensures Parse("((7))") == Ok(Num("7"))
    ensures Interpret("((7))") == Ok(7)
  {
    NestedProduct(Op(Multiply, Op(Plus, Num("1"), Num("2")), Op(Plus, Num("3"), Num("4"))), "((1 + 2) * (3 + 4))");
    NestedNumber(Num("7"), "((7))");
  }

  lemma {:induction false} NestedProduct(n: Node, src: string)
    requires n == Op(Multiply, Op(Plus, Num("1"), Num("2")), Op(Plus, Num("3"), Num("4")))
    requires src == "((1 + 2) * (3 + 4))"
    ensures Parse(src) == Ok(n) && Interpret(src) == Ok(21)
  {
    RedundantText(n, src);
    RedundantValue(n);
    WrappedCase(n, 1, " ", src, 21);
  }

  lemma {:induction false} RedundantText(n: Node, src: string)
    requires n == Op(Multiply, Op(Plus, Num("1"), Num("2")), Op(Plus, Num("3"), Num("4")))
    requires src == "((1 + 2) * (3 + 4))"
    ensures WellFormed(n) && Wrap(1, Show(n, 1, " ")) == src
  {
    var s := ProductShown(n);
    assert Wrap(1, s) == "(" + s + ")";
  }

  lemma {:induction false} ProductShown(n: Node) returns (s: string)
    requires n == Op(Multiply, Op(Plus, Num("1"), Num("2")), Op(Plus, Num("3"), Num("4")))
    ensures s == "(1 + 2) * (3 + 4)" && Show(n, 1, " ") == s
  {
    var a := SumShown(n.left, "1", "2");
    var b := SumShown(n.right, "3", "4");
    s := a + " * " + b;
    assert Show(n, 1, " ") == Show(n.left, 2, " ") + " " + "*" + " " + Show(n.right, 3, " ");
  }

  /** A sum of two numbers, parenthesised wherever a term or factor is
      expected. */
  lemma {:induction false} SumShown(m: Node, a: string, b: string) returns (text: string)
    requires m == Op(Plus, Num(a), Num(b))
    ensures text == "(" + a + " + " + b + ")"
    ensures Show(m, 2, " ") == text && Show(m, 3, " ") == text
  {
    text := "(" + a + " + " + b + ")";
    assert Show(m, 1, " ") == a + " + " + b;
  }

  lemma {:induction false} RedundantValue(n: Node)
    requires n == Op(Multiply, Op(Plus, Num("1"), Num("2")), Op(Plus, Num("3"), Num("4")))
    ensures Visit(n) == Ok(21)
  {
    VisitLeaf(n.left.left.token);
    VisitLeaf(n.left.right.token);
    VisitLeaf(n.right.left.token);
    VisitLeaf(n.right.right.token);
    VisitOperator(n.left.token, n.left.left, n.left.right, 1, 2);
    VisitOperator(n.right.token, n.right.left, n.right.right, 3, 4);
    VisitOperator(n.token, n.left, n.right, 3, 7);
  }

  lemma {:induction false} NestedNumber(m: Node, src: string)
    requires m == Num("7") && src == "((7))"
    ensures Parse(src) == Ok(m) && Interpret(src) == Ok(7)
  {
    assert Wrap(1, "7") == "(7)";
    assert WellFormed(m) && Wrap(2, Show(m, 1, "")) == src;
    VisitLeaf(m.token);
    WrappedCase(m, 2, "", src, 7);
  }

  /** Whitespace between, before and after the tokens changes nothing. */
  lemma WhitespaceIgnored()
    ensures Interpret("1+2") == Ok(3)
    ensures Interpret(" 1 + 2 ") == Ok(3)
    ensures Interpret(" 1 +  2 ") == Ok(3)
  {
    var n := Op(Plus, Num("1"), Num("2"));
    WhitespaceValue(n);
    Compact(n, "1+2");
    Spaced(n, " 1 + 2 ");
    UnevenlySpaced(n, " 1 +  2 ");
  }

  lemma {:induction false} WhitespaceValue(n: Node)
    requires n == Op(Plus, Num("1"), Num("2"))
    ensures WellFormed(n) && Visit(n) == Ok(3)
  {
    VisitLeaf(n.left.token);
    VisitLeaf(n.right.token);
    VisitOperator(n.token, n.left, n.right, 1, 2);
  }

  lemma {:induction false} Compact(n: Node, src: string)
    requires n == Op(Plus, Num("1"), Num("2")) && src == "1+2"
    requires WellFormed(n) && Visit(n) == Ok(3)
    ensures Interpret(src) == Ok(3)
  {
    CompactText(n, src);
    EndOfInputIsSticky("", 0);
    InterpretShow(n, "", "", "", src);
  }

  lemma {:induction false} CompactText(n: Node, src: string)
    requires n == Op(Plus, Num("1"), Num("2")) && src == "1+2"
    ensures src == "" + Show(n, 1, "") + ""
  {
    assert Show(n, 1, "") == "1+2";
  }

  lemma {:induction false} Spaced(n: Node, src: string)
    requires n == Op(Plus, Num("1"), Num("2")) && src == " 1 + 2 "
    requires WellFormed(n) && Visit(n) == Ok(3)
    ensures Interpret(src) == Ok(3)
  {
    SpacedText(n, src);
    EndAfterSpace(" ");
    InterpretShow(n, " ", " ", " ", src);
  }

  lemma {:induction false} SpacedText(n: Node, src: string)
    requires n == Op(Plus, Num("1"), Num("2")) && src == " 1 + 2 "
    ensures src == " " + Show(n, 1, " ") + " "
  {
    assert Show(n, 1, " ") == "1 + 2";
  }

  /** Different whitespace on the two sides of the operator, which no
      single printing covers: the parse is assembled from the steps that
      `ExprReads` takes, one token at a time. */
  lemma {:induction false} UnevenlySpaced(n: Node, src: string)
    requires n == Op(Plus, Num("1"), Num("2")) && src == " 1 +  2 "
    requires WellFormed(n) && Visit(n) == Ok(3)
    ensures Interpret(src) == Ok(3)
  {
    UnevenTokens(n, src);
    FactorStartsTerm(src, 1, n.left, 2);
    TermEndsExpr(src, 1, n.left, 2);
    FactorStartsTerm(src, 6, n.right, 7);
    ExprOperatorCase(src, n, 1, 2, 4, 6, 7);
    assert ExprSpans(src, 0, n, 7);
    WholeExpression(src, n, 7);
  }

  /** The tokens of ` 1 +  2 `: each number is a factor, the `+` is
      fetched from the space in front of it, and the spaces before the
      second number and after it are skipped. */
  lemma {:induction false} UnevenTokens(n: Node, src: string)
    requires n == Op(Plus, Num("1"), Num("2")) && src == " 1 +  2 "
    ensures FactorSpans(src, 1, n.left, 2) && FactorSpans(src, 6, n.right, 7)
    ensures Fetch(src, 0) == Fetch(src, 1)
    ensures Fetch(src, 2) == State(4, n.token)
    ensures Fetch(src, 4) == Fetch(src, 6)
    ensures Fetch(src, 7).current.kind == EndOfLine
  {
    assert src[1..2] == "1" && src[6..7] == "2";
    NumberAt(src, 1, n.left.token, 2);
    NumberAt(src, 6, n.right.token, 7);
    FetchSkipsSpaces(src, 0, 1);
    FetchSkipsSpaces(src, 2, 3);
    FetchSymbol(src, 3, n.token);
    FetchSkipsSpaces(src, 4, 6);
    FetchSkipsSpaces(src, 7, 8);
    EndOfInputIsSticky(src, 8);
  }

  /** Only whitespace is left: the tokenizer reports the end. */
  lemma {:induction false} EndAfterSpace(rest: string)
    requires rest == " "
    ensures NextToken(rest, 0).0.kind == EndOfLine
  {
    assert Lexes(rest, 0, Token(EndOfLine, ""), 1);
    LexesDeterminesToken(rest, 0, Token(EndOfLine, ""), 1);
  }

  /** Division by zero is reported as an evaluation error. */
  lemma DivisionByZeroFails()
    ensures Interpret("1 / 0") == Err(Evaluation(DivisionByZero))
  {
    var n := Op(Divide, Num("1"), Num("0"));
    DivisionByZeroText(n);
    DivisionByZeroValue(n);
    InterpretPrinted(n, " ");
  }

  lemma {:induction false} DivisionByZeroText(n: Node)
    requires n == Op(Divide, Num("1"), Num("0"))
    ensures WellFormed(n) && Show(n, 1, " ") == "1 / 0"
  {
  }

  lemma {:induction false} DivisionByZeroValue(n: Node)
    requires n == Op(Divide, Num("1"), Num("0"))
    ensures Visit(n) == Err(DivisionByZero)
  {
    VisitLeaf(n.left.token);
    VisitLeaf(n.right.token);
    VisitOperator(n.token, n.left, n.right, 1, 0);
  }

  /** Tokens after the first complete expression are left unread: a second
      number, or a parenthesis that closes nothing. */
  lemma TrailingTokensIgnored()
    ensures Interpret("1 2") == Ok(1)
    ensures Interpret("1 )") == Ok(1)
  {
    TrailingNumber("1 2");
    TrailingParenthesis("1 )");
  }

  lemma {:induction false} TrailingNumber(src: string)
    requires src == "1 2"
    ensures Interpret(src) == Ok(1)
  {
    var n, rest := Num("1"), " 2";
    LexesAfterSpace(rest, Token(Number, "2"), 2);
    VisitLeaf(n.token);
    assert "" + Show(n, 1, "") + rest == src;
    InterpretShow(n, "", "", rest, src);
  }

  lemma {:induction false} TrailingParenthesis(src: string)
    requires src == "1 )"
    ensures Interpret(src) == Ok(1)
  {
    var n, rest := Num("1"), " )";
    LexesAfterSpace(rest, Token(RParen, ")"), 2);
    VisitLeaf(n.token);
    assert "" + Show(n, 1, "") + rest == src;
    InterpretShow(n, "", "", rest, src);
  }

  /** The two trailing texts above: a space, then one token. Both cases
      share the one proof, pinned to their literals by the `requires`. */
  lemma {:induction false} LexesAfterSpace(rest: string, t: Token, next: nat)
    requires (rest, t, next) == (" 2", Token(Number, "2"), 2) || (rest, t, next) == (" )", Token(RParen, ")"), 2)
    ensures NextToken(rest, 0) == (t, next)
  {
    assert Lexes(rest, 0, t, next);
    LexesDeterminesToken(rest, 0, t, next);
  }

  /** An empty text has no factor: the lookahead is already `EndOfLine`. */
  lemma EmptySourceFails()
    ensures Interpret("") == Err(Syntax(ExpectedFactor(Token(EndOfLine, ""))))
  {
  }

  /** An unrecognised character is no factor either. */
  lemma UnrecognisedFails()
    ensures Interpret("@") == Err(Syntax(ExpectedFactor(Token(Invalid, "@"))))
  {
    assert Lexes("@", 0, Token(Invalid, "@"), 0);
    LexesDeterminesToken("@", 0, Token(Invalid, "@"), 0);
  }

  /** A parenthesis left open: `eat` expects `)` and finds the end. */
  lemma UnclosedFails()
    ensures Interpret("(1 + 2") == Err(Syntax(Unexpected(RParen, Token(EndOfLine, ""))))
  {
    var src := "(1 + 2";
    var n := Op(Plus, Num("1"), Num("2"));
    UnclosedInner(src, n);
    UnclosedParenthesis(src, Start(src), Parsed(n, State(6, Token(EndOfLine, ""))));
  }

  lemma {:induction false} UnclosedInner(src: string, n: Node)
    requires src == "(1 + 2" && n == Op(Plus, Num("1"), Num("2"))
    ensures Start(src) == State(1, Token(LParen, "("))
    ensures Expr(src, Fetch(src, 1)) == Ok(Parsed(n, State(6, Token(EndOfLine, ""))))
  {
    UnclosedText(src, n);
    EndOfInputIsSticky(src, 6);
    ExprReads(src, 1, n, 6, " ");
    LoopsStop(src, n, Fetch(src, 6));
    FetchSymbol(src, 0, Token(LParen, "("));
  }

  lemma {:induction false} UnclosedText(src: string, n: Node)
    requires src == "(1 + 2" && n == Op(Plus, Num("1"), Num("2"))
    ensures PrintedAt(src, 1, n, 1, " ") == true && |Show(n, 1, " ")| == 5
  {
    assert Show(n, 1, " ") == "1 + 2";
    assert src[1..6] == "1 + 2";
  }

  /** `=` and `;` are declared token kinds, but the tokenizer reports them
      as unrecognised characters and does not move past them. */
  lemma AssignAndSemicolonInvalid()
    ensures NextToken("x = 1;", 1) == (Token(Invalid, "="), 2)
    ensures NextToken("x = 1;", 5) == (Token(Invalid, ";"), 5)
  {
    assert Lexes("x = 1;", 1, Token(Invalid, "="), 2);
    LexesDeterminesToken("x = 1;", 1, Token(Invalid, "="), 2);
    assert Lexes("x = 1;", 5, Token(Invalid, ";"), 5);
    LexesDeterminesToken("x = 1;", 5, Token(Invalid, ";"), 5);
  }
}
