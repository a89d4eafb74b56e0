/** A printer for syntax trees that inserts parentheses only where the
    grammar needs them, and the proof that the parser reads every printed
    tree back as the same tree. Because the printer leaves out the
    parentheses that precedence and left associativity make redundant, the
    round trip is the statement that the parser implements exactly that
    precedence and associativity.

    The proofs locate a printed tree in the text by explicit cursor
    positions (`k`, `o`, `m`, `r`, `j`) rather than by slicing, so that
    each lemma's conclusion matches the next one's hypothesis as written.
    `PrintedAt` is always stated as `PrintedAt(..) == true`: in that form
    the verifier keeps the predicate folded instead of expanding the
    printed text at every call, which is where the cost of these proofs
    would otherwise go. */
module Printer {
  import opened Wrappers
  import opened Lexer
  import opened Parser

  /** Binding strength of a node: 1 for `+ -`, 2 for `* /`, 3 for a number. */
  function Prec(n: Node): nat
  {
    match n
    case Leaf(_) => 3
    case Bin(t, _, _) => if t.kind in {Multiply, Divide} then 2 else 1
  }

  /** Whitespace only: what the printer puts on both sides of an operator. */
  predicate Blank(g: string)
  {
    forall i | 0 <= i < |g| :: IsSpace(g[i])
  }

  /** The text of `n` where the grammar expects binding strength `ctx`
      (1 for `expr`, 2 for `term`, 3 for `factor`), with the whitespace `g`
      around every operator. The left operand of an operator sits at the
      operator's own strength, the right one a level higher, which is what
      makes the operators left associative. */
  function Show(n: Node, ctx: nat, g: string): string
  {
    match n
    case Leaf(t) => t.text
    case Bin(t, l, r) =>
      var p := Prec(n);
      var body := Show(l, p, g) + g + t.text + g + Show(r, p + 1, g);
      if p >= ctx then body else "(" + body + ")"
  }

  /** The well-formed tree `n`, printed at strength `ctx` with gap `g`,
      sits at `src[k..]` and is not followed by a digit. The lemmas below
      state it as `PrintedAt(..) == true`, a form the verifier keeps folded
      instead of expanding the definition at every call. */
  ghost predicate PrintedAt(src: string, k: nat, n: Node, ctx: nat, g: string)
  {
    && WellFormed(n) && Blank(g)
    && k + |Show(n, ctx, g)| <= |src|
    && src[k..k + |Show(n, ctx, g)|] == Show(n, ctx, g)
    && !IsDigit(CurrentChar(src, k + |Show(n, ctx, g)|))
  }

  /** Orders the three mutually recursive lemmas below on one tree: each
      calls another on the same tree only towards a smaller rank. */
  function Rank(n: Node, ctx: nat): nat
  {
    match Prec(n)
    case 1 => if ctx == 2 then 2 else if ctx == 3 then 1 else 0
    case 2 => if ctx == 3 then 2 else if ctx == 1 then 1 else 0
    case _ => if ctx == 1 then 2 else if ctx == 2 then 1 else 0
  }

  /** `factor`, started on the token at cursor `k`, reads exactly the tree
      `n` and leaves the cursor at `j`. */
  ghost predicate FactorSpans(src: string, k: nat, n: Node, j: nat)
  {
    k <= |src| && j <= |src| && Factor(src, Fetch(src, k)) == Ok(Parsed(n, Fetch(src, j)))
  }

  /** `term`, started at `k`, reads `n` as its first operands and hands its
      loop the state at `j`. */
  ghost predicate TermSpans(src: string, k: nat, n: Node, j: nat)
  {
    k <= |src| && j <= |src| && WellFormed(n) && Term(src, Fetch(src, k)) == TermLoop(src, n, Fetch(src, j))
  }

  /** `expr`, started at `k`, reads `n` as its first operands and hands its
      loop the state at `j`, where no `*` or `/` follows. */
  ghost predicate ExprSpans(src: string, k: nat, n: Node, j: nat)
  {
    && k <= |src| && j <= |src| && WellFormed(n)
    && Fetch(src, j).current.kind !in {Multiply, Divide}
    && Expr(src, Fetch(src, k)) == ExprLoop(src, n, Fetch(src, j))
  }

  /** The tokenizer reads a punctuation character at the cursor as its token. */
  lemma {:induction false} FetchSymbol(src: string, k: nat, t: Token)
    requires IsSymbolKind(t.kind) && t.text == Spelling(t.kind)
    requires k < |src| && [src[k]] == t.text
    ensures Fetch(src, k) == State(k + 1, t)
  {
    assert Lexes(src, k, t, k + 1);
    LexesDeterminesToken(src, k, t, k + 1);
  }

  /** Whitespace at the cursor does not change what is fetched. */
  lemma {:induction false} FetchSkipsSpaces(src: string, k: nat, s: nat)
    requires SpacesThen(src, k, s)
    ensures Fetch(src, k) == Fetch(src, s)
  {
    var (t, next) := NextToken(src, s);
    NextTokenLexes(src, s);
    LexesAfterSpaces(src, k, s, t, next);
    LexesDeterminesToken(src, k, t, next);
  }

  /** A gap placed in the text is a run of whitespace there. */
  lemma {:induction false} GapAt(src: string, k: nat, g: string)
    requires Blank(g) && k + |g| <= |src| && src[k..k + |g|] == g
    ensures SpacesThen(src, k, k + |g|)
  {
    assert forall i | k <= i < k + |g| :: src[i] == g[i - k];
  }

  /** `factor` reads a tree printed at strength 3, ending at `j`, and stops
      right after it. */
  lemma {:induction false} FactorReads(src: string, k: nat, n: Node, j: nat, g: string)
    requires PrintedAt(src, k, n, 3, g) == true && j == k + |Show(n, 3, g)|
    ensures FactorSpans(src, k, n, j)
    decreases n, Rank(n, 3), 1
  {
    if n.Leaf? {
      NumberAt(src, k, n.token, j);
    } else {
      FactorReadsParenthesised(src, k, n, j, g);
    }
  }

  /** An operator node inside parentheses. */
  lemma {:induction false} FactorReadsParenthesised(src: string, k: nat, n: Node, j: nat, g: string)
    requires PrintedAt(src, k, n, 3, g) == true && j == k + |Show(n, 3, g)| && n.Bin?
    ensures FactorSpans(src, k, n, j)
    decreases n, Rank(n, 3), 0
  {
    ParenthesesAt(src, k, n, j, g);
    ExprReads(src, k + 1, n, j - 1, g);
    ParenthesisedCase(src, k, n, j);
  }

  /** `term` reads a tree printed at strength 2, ending at `j`; its loop
      then resumes with that tree as the left operand. */
  lemma {:induction false} TermReads(src: string, k: nat, n: Node, j: nat, g: string)
    requires PrintedAt(src, k, n, 2, g) == true && j == k + |Show(n, 2, g)|
    ensures TermSpans(src, k, n, j)
    decreases n, Rank(n, 2), 1
  {
    if n.Bin? && Prec(n) == 2 {
      TermReadsProduct(src, k, n, j, g);
    } else {
      TermReadsFactor(src, k, n, j, g);
    }
  }

  /** A `*` or `/` node printed without parentheses. */
  lemma {:induction false} TermReadsProduct(src: string, k: nat, n: Node, j: nat, g: string)
    requires PrintedAt(src, k, n, 2, g) == true && j == k + |Show(n, 2, g)| && n.Bin? && Prec(n) == 2
    ensures TermSpans(src, k, n, j)
    decreases n, Rank(n, 2), 0
  {
    var o := k + |Show(n.left, 2, g)|;
    var m := o + |g| + 1;
    var r := m + |g|;
    OperatorSplits(src, k, n, 2, 3, o, m, r, j, g);
    TermReads(src, k, n.left, o, g);
    FactorReads(src, r, n.right, j, g);
    TermOperatorCase(src, n, k, o, m, r, j);
  }

  /** Any other tree is a single factor at strength 2. */
  lemma {:induction false} TermReadsFactor(src: string, k: nat, n: Node, j: nat, g: string)
    requires PrintedAt(src, k, n, 2, g) == true && j == k + |Show(n, 2, g)| && !(n.Bin? && Prec(n) == 2)
    ensures TermSpans(src, k, n, j)
    decreases n, Rank(n, 2), 0
  {
    ReprintedAt(src, k, n, 2, 3, g);
    FactorReads(src, k, n, j, g);
    FactorStartsTerm(src, k, n, j);
  }

  /** `expr` reads a tree printed at strength 1, ending at `j` and not
      followed by `*` or `/`; its loop then resumes after the printed text. */
  lemma {:induction false} ExprReads(src: string, k: nat, n: Node, j: nat, g: string)
    requires PrintedAt(src, k, n, 1, g) == true && j == k + |Show(n, 1, g)|
    requires Fetch(src, j).current.kind !in {Multiply, Divide}
    ensures ExprSpans(src, k, n, j)
    decreases n, Rank(n, 1), 1
  {
    if n.Bin? && Prec(n) == 1 {
      ExprReadsSum(src, k, n, j, g);
    } else {
      ExprReadsTerm(src, k, n, j, g);
    }
  }

  /** A `+` or `-` node printed without parentheses. */
  lemma {:induction false} ExprReadsSum(src: string, k: nat, n: Node, j: nat, g: string)
    requires PrintedAt(src, k, n, 1, g) == true && j == k + |Show(n, 1, g)| && n.Bin? && Prec(n) == 1
    requires Fetch(src, j).current.kind !in {Multiply, Divide}
    ensures ExprSpans(src, k, n, j)
    decreases n, Rank(n, 1), 0
  {
    var o := k + |Show(n.left, 1, g)|;
    var m := o + |g| + 1;
    var r := m + |g|;
    OperatorSplits(src, k, n, 1, 2, o, m, r, j, g);
    ExprReads(src, k, n.left, o, g);
    TermReads(src, r, n.right, j, g);
    ExprOperatorCase(src, n, k, o, m, r, j);
  }

  /** Any other tree is a single term at strength 1. */
  lemma {:induction false} ExprReadsTerm(src: string, k: nat, n: Node, j: nat, g: string)
    requires PrintedAt(src, k, n, 1, g) == true && j == k + |Show(n, 1, g)| && !(n.Bin? && Prec(n) == 1)
    requires Fetch(src, j).current.kind !in {Multiply, Divide}
    ensures ExprSpans(src, k, n, j)
    decreases n, Rank(n, 1), 0
  {
    ReprintedAt(src, k, n, 1, 2, g);
    TermReads(src, k, n, j, g);
    TermEndsExpr(src, k, n, j);
  }

  /** A tree prints the same at two strengths that both or neither exceed
      its own. */
  lemma {:induction false} ReprintedAt(src: string, k: nat, n: Node, c: nat, d: nat, g: string)
    requires PrintedAt(src, k, n, c, g) == true && d == c + 1
    requires !(n.Bin? && Prec(n) == c)
    ensures Show(n, c, g) == Show(n, d, g)
    ensures PrintedAt(src, k, n, d, g) == true
  {
    match n
    case Leaf(_) =>
    case Bin(_, _, _) =>
  }

  lemma {:induction false} SliceOfSlice(s: string, a: nat, b: nat, c: nat, d: nat)
    requires a <= b <= |s| && c <= d <= b - a
    ensures s[a..b][c..d] == s[a + c..a + d]
  {
    assert forall i | 0 <= i < d - c :: s[a..b][c..d][i] == s[a + c + i];
  }

  /** A number at the cursor, not followed by a digit, is fetched as one token. */
  lemma {:induction false} NumberAt(src: string, k: nat, t: Token, j: nat)
    requires t.kind == Number && IsNumeral(t.text)
    requires j == k + |t.text| <= |src| && src[k..j] == t.text && !IsDigit(CurrentChar(src, j))
    ensures FactorSpans(src, k, Leaf(t), j)
  {
    assert Lexes(src, k, t, j);
    LexesDeterminesToken(src, k, t, j);
    assert Fetch(src, k) == State(j, t);
  }

  /** A parenthesised operator node: '(' at the start, ')' at the end, the
      unparenthesised text between them, each parenthesis fetched as a token. */
  lemma {:induction false} ParenthesesAt(src: string, k: nat, n: Node, j: nat, g: string)
    requires PrintedAt(src, k, n, 3, g) == true && n.Bin? && j == k + |Show(n, 3, g)|
    ensures k + 1 + |Show(n, 1, g)| == j - 1
    ensures Fetch(src, k) == State(k + 1, Token(LParen, "("))
    ensures Fetch(src, j - 1) == State(j, Token(RParen, ")"))
    ensures PrintedAt(src, k + 1, n, 1, g) == true
  {
    ParenthesesText(src, k, n, j, g);
    FetchSymbol(src, k, Token(LParen, "("));
    FetchSymbol(src, j - 1, Token(RParen, ")"));
  }

  /** The text part of `ParenthesesAt`. */
  lemma {:induction false} ParenthesesText(src: string, k: nat, n: Node, j: nat, g: string)
    requires PrintedAt(src, k, n, 3, g) == true && n.Bin? && j == k + |Show(n, 3, g)|
    ensures k + 1 + |Show(n, 1, g)| == j - 1
    ensures src[k] == '(' && src[j - 1] == ')'
    ensures PrintedAt(src, k + 1, n, 1, g) == true
  {
    var body := Show(n, 1, g);
    var whole := src[k..j];
    assert whole == "(" + body + ")";
    assert src[k] == whole[0];
    assert src[j - 1] == whole[|whole| - 1];
    assert whole[1..|whole| - 1] == body;
    SliceOfSlice(src, k, j, 1, |whole| - 1);
  }

  /** An operator node printed without parentheses: the left operand at
      strength `ctx` ending at `o`, the operator symbol fetched there as
      the node's token, the gap after it skipped by the next fetch from
      `m`, and the right operand at strength `up`, one higher, from `r` to
      where the node ends. */
  lemma {:induction false} OperatorSplits(src: string, k: nat, n: Node, ctx: nat, up: nat, o: nat, m: nat, r: nat, j: nat, g: string)
    requires PrintedAt(src, k, n, ctx, g) == true && n.Bin? && Prec(n) == ctx && up == ctx + 1
    requires o == k + |Show(n.left, ctx, g)| && m == o + |g| + 1 && r == m + |g|
    requires j == k + |Show(n, ctx, g)|
    ensures PrintedAt(src, k, n.left, ctx, g) == true
    ensures Fetch(src, o) == State(m, n.token)
    ensures Fetch(src, m) == Fetch(src, r)
    ensures PrintedAt(src, r, n.right, up, g) == true && j == r + |Show(n.right, up, g)|
  {
    OperatorText(src, k, n, ctx, up, o, m, r, j, g);
    OperatorFetched(src, o, m, r, n.token, g);
  }

  /** The text part of `OperatorSplits`. */
  lemma {:induction false} OperatorText(src: string, k: nat, n: Node, ctx: nat, up: nat, o: nat, m: nat, r: nat, j: nat, g: string)
    requires PrintedAt(src, k, n, ctx, g) == true && n.Bin? && Prec(n) == ctx && up == ctx + 1
    requires o == k + |Show(n.left, ctx, g)| && m == o + |g| + 1 && r == m + |g|
    requires j == k + |Show(n, ctx, g)|
    ensures PrintedAt(src, k, n.left, ctx, g) == true
    ensures r <= |src| && src[o..o + |g|] == g && [src[o + |g|]] == n.token.text && src[m..r] == g
    ensures PrintedAt(src, r, n.right, up, g) == true && j == r + |Show(n.right, up, g)|
  {
    var a, b := Show(n.left, ctx, g), Show(n.right, up, g);
    assert Show(n, ctx, g) == a + g + n.token.text + g + b;
    OperatorParts(src, k, a, g, n.token.text, b, o, m, r);
  }

  /** Where the text holds `a + g + t + g + b` from `k`, with `g`
      whitespace and `t` one character other than a digit, it holds each
      part in turn, and `a`, ending at `o`, is not followed by a digit. */
  lemma {:induction false} OperatorParts(src: string, k: nat, a: string, g: string, t: string, b: string, o: nat, m: nat, r: nat)
    requires Blank(g) && |t| == 1 && !IsDigit(t[0])
    requires o == k + |a| && m == o + |g| + 1 && r == m + |g| && r + |b| <= |src|
    requires src[k..r + |b|] == a + g + t + g + b
    ensures src[k..o] == a && !IsDigit(CurrentChar(src, o))
    ensures src[o..o + |g|] == g && [src[o + |g|]] == t
    ensures src[m..r] == g && src[r..r + |b|] == b
  {
    SlicesOfConcat(src, k, a + g + t + g, b);
    SlicesOfConcat(src, k, a + g + t, g);
    SlicesOfConcat(src, k, a + g, t);
    SlicesOfConcat(src, k, a, g);
    assert src[o + |g|] == src[o + |g|..o + |g| + 1][0];
    if g != [] {
      assert src[o] == src[o..o + |g|][0];
    }
  }

  /** Where the text holds `a + b`, it holds `a` and then `b`. */
  lemma {:induction false} SlicesOfConcat(src: string, k: nat, a: string, b: string)
    requires k + |a| + |b| <= |src| && src[k..k + |a| + |b|] == a + b
    ensures src[k..k + |a|] == a && src[k + |a|..k + |a| + |b|] == b
  {
    SliceOfSlice(src, k, k + |a| + |b|, 0, |a|);
    SliceOfSlice(src, k, k + |a| + |b|, |a|, |a| + |b|);
  }

  /** Gap, operator symbol, gap: the symbol is fetched from in front of the
      first gap, and the second gap is skipped by the next fetch. */
  lemma {:induction false} OperatorFetched(src: string, o: nat, m: nat, r: nat, t: Token, g: string)
    requires IsSymbolKind(t.kind) && t.text == Spelling(t.kind) && Blank(g)
    requires m == o + |g| + 1 && r == m + |g| <= |src|
    requires src[o..o + |g|] == g && [src[o + |g|]] == t.text && src[m..r] == g
    ensures Fetch(src, o) == State(m, t)
    ensures Fetch(src, m) == Fetch(src, r)
  {
    GapAt(src, o, g);
    FetchSkipsSpaces(src, o, o + |g|);
    FetchSymbol(src, o + |g|, t);
    GapAt(src, m, g);
    FetchSkipsSpaces(src, m, r);
  }

  // The last step of each case, stated over parser states only.

  lemma {:induction false} ParenthesisedCase(src: string, k: nat, n: Node, j: nat)
    requires WellFormed(n) && 1 <= k + 1 < j <= |src|
    requires Fetch(src, k) == State(k + 1, Token(LParen, "("))
    requires Fetch(src, j - 1) == State(j, Token(RParen, ")"))
    requires ExprSpans(src, k + 1, n, j - 1)
    ensures FactorSpans(src, k, n, j)
  {
    var rp := Token(RParen, ")");
    LoopsStop(src, n, State(j, rp));
    FactorParenStep(src, State(k + 1, Token(LParen, "(")), Parsed(n, State(j, rp)));
  }

  lemma {:induction false} TermOperatorCase(src: string, n: Node, k: nat, o: nat, m: nat, r: nat, j: nat)
    requires WellFormed(n) && n.Bin? && n.token.kind in {Multiply, Divide}
    requires TermSpans(src, k, n.left, o) && FactorSpans(src, r, n.right, j)
    requires Fetch(src, o) == State(m, n.token) && Fetch(src, m) == Fetch(src, r)
    ensures TermSpans(src, k, n, j)
  {
    TermLoopStep(src, n.left, State(m, n.token), Parsed(n.right, Fetch(src, j)));
  }

  lemma {:induction false} ExprOperatorCase(src: string, n: Node, k: nat, o: nat, m: nat, r: nat, j: nat)
    requires WellFormed(n) && n.Bin? && n.token.kind in {Plus, Minus}
    requires ExprSpans(src, k, n.left, o) && TermSpans(src, r, n.right, j)
    requires Fetch(src, o) == State(m, n.token) && Fetch(src, m) == Fetch(src, r)
    requires Fetch(src, j).current.kind !in {Multiply, Divide}
    ensures ExprSpans(src, k, n, j)
  {
    LoopsStop(src, n.right, Fetch(src, j));
    ExprLoopStep(src, n.left, State(m, n.token), Parsed(n.right, Fetch(src, j)));
  }

  lemma {:induction false} FactorStartsTerm(src: string, k: nat, n: Node, j: nat)
    requires k <= |src| && j <= |src| && WellFormed(n)
    requires FactorSpans(src, k, n, j)
    ensures TermSpans(src, k, n, j)
  {
    TermStep(src, Fetch(src, k), Parsed(n, Fetch(src, j)));
  }

  lemma {:induction false} TermEndsExpr(src: string, k: nat, n: Node, j: nat)
    requires k <= |src| && j <= |src| && WellFormed(n)
    requires Fetch(src, j).current.kind !in {Multiply, Divide}
    requires TermSpans(src, k, n, j)
    ensures ExprSpans(src, k, n, j)
  {
    LoopsStop(src, n, Fetch(src, j));
    ExprStep(src, Fetch(src, k), Parsed(n, Fetch(src, j)));
  }

  lemma {:induction false} WholeExpression(src: string, n: Node, j: nat)
    requires ExprSpans(src, 0, n, j)
    requires Fetch(src, j).current.kind !in {Plus, Minus}
    ensures Parse(src) == Ok(n)
  {
    LoopsStop(src, n, Fetch(src, j));
  }

  /** Round trip: a well-formed tree, printed with the one whitespace
      string `g` around every operator, preceded by any whitespace `lead`
      and followed by any text whose first character is not a digit and
      whose first token is not an operator, parses back to itself. The
      trailing text is left unread, as `parse` does. */
  lemma {:induction false} ParseShow(n: Node, lead: string, g: string, rest: string)
    requires WellFormed(n) && Blank(lead) && Blank(g)
    requires rest == [] || !IsDigit(rest[0])
    requires !IsOperator(NextToken(rest, 0).0.kind)
    ensures Parse(lead + Show(n, 1, g) + rest) == Ok(n)
  {
    var s := Show(n, 1, g);
    var src := lead + s + rest;
    PrintedInSource(n, lead, g, rest, src);
    TrailingFetch(src, lead + s, rest);
    LeadingBlank(src, lead, s, rest);
    PrintedParses(src, |lead|, n, |lead| + |s|, g);
  }

  /** `parse` reads the tree printed at `k`, when only whitespace precedes
      it and no operator follows it. */
  lemma {:induction false} PrintedParses(src: string, k: nat, n: Node, j: nat, g: string)
    requires PrintedAt(src, k, n, 1, g) == true && j == k + |Show(n, 1, g)|
    requires !IsOperator(Fetch(src, j).current.kind)
    requires Fetch(src, 0) == Fetch(src, k)
    ensures Parse(src) == Ok(n)
  {
    ExprReads(src, k, n, j, g);
    WholeExpression(src, n, j);
  }

  /** The printed tree sits in the text after `lead` and is not followed
      by a digit. */
  lemma {:induction false} PrintedInSource(n: Node, lead: string, g: string, rest: string, src: string)
    requires WellFormed(n) && Blank(g)
    requires rest == [] || !IsDigit(rest[0])
    requires src == lead + Show(n, 1, g) + rest
    ensures PrintedAt(src, |lead|, n, 1, g) == true
  {
    var s := Show(n, 1, g);
    var j := |lead| + |s|;
    assert src[|lead|..j] == s;
    assert CurrentChar(src, j) == CurrentChar(rest, 0);
  }

  /** The lookahead after the printed expression is the first token of
      whatever follows it. */
  lemma {:induction false} TrailingFetch(src: string, front: string, rest: string)
    requires src == front + rest
    ensures Fetch(src, |front|).current == NextToken(rest, 0).0
  {
    assert CurrentChar(src, |front|) == CurrentChar(rest, 0);
    NextTokenShift(front, rest, 0);
  }

  /** Whitespace in front of the text is skipped by the first fetch. */
  lemma {:induction false} LeadingBlank(src: string, lead: string, mid: string, tail: string)
    requires Blank(lead) && src == lead + mid + tail
    ensures Fetch(src, 0) == Fetch(src, |lead|)
  {
    assert src[0..|lead|] == lead;
    GapAt(src, 0, lead);
    FetchSkipsSpaces(src, 0, |lead|);
  }

  /** `s` inside `d` pairs of parentheses. */
  function Wrap(d: nat, s: string): (w: string)
    ensures |w| == |s| + 2 * d
    ensures d > 0 ==> w[0] == '(' && w[|w| - 1] == ')'
  {
    if d == 0 then s else "(" + Wrap(d - 1, s) + ")"
  }

  /** `expr` reads a tree printed at expression strength inside `d` pairs
      of redundant parentheses, spanning `src[k..j]`, as the tree itself:
      each pair is a `factor` that is also the whole `term` and `expr`
      around it. */
  lemma {:induction false} WrappedReads(src: string, k: nat, n: Node, d: nat, j: nat, g: string)
    requires WellFormed(n) && Blank(g)
    requires j == k + |Wrap(d, Show(n, 1, g))| <= |src| && src[k..j] == Wrap(d, Show(n, 1, g))
    requires !IsDigit(CurrentChar(src, j))
    requires Fetch(src, j).current.kind !in {Multiply, Divide}
    ensures ExprSpans(src, k, n, j)
    decreases d
  {
    if d == 0 {
      assert PrintedAt(src, k, n, 1, g);
      ExprReads(src, k, n, j, g);
    } else {
      WrappedText(src, k, n, d, j, g);
      FetchSymbol(src, k, Token(LParen, "("));
      FetchSymbol(src, j - 1, Token(RParen, ")"));
      WrappedReads(src, k + 1, n, d - 1, j - 1, g);
      ParenthesisedCase(src, k, n, j);
      FactorStartsTerm(src, k, n, j);
      TermEndsExpr(src, k, n, j);
    }
  }

  /** The text part of `WrappedReads`: the outer pair, and one pair fewer
      between them. */
  lemma {:induction false} WrappedText(src: string, k: nat, n: Node, d: nat, j: nat, g: string)
    requires d > 0
    requires j == k + |Wrap(d, Show(n, 1, g))| <= |src| && src[k..j] == Wrap(d, Show(n, 1, g))
    ensures k + 1 < j && src[k] == '(' && src[j - 1] == ')'
    ensures j - 1 == k + 1 + |Wrap(d - 1, Show(n, 1, g))|
    ensures src[k + 1..j - 1] == Wrap(d - 1, Show(n, 1, g))
  {
    var whole := src[k..j];
    assert src[k] == whole[0];
    assert src[j - 1] == whole[|whole| - 1];
    assert whole[1..|whole| - 1] == Wrap(d - 1, Show(n, 1, g));
    SliceOfSlice(src, k, j, 1, |whole| - 1);
  }

  /** Redundant parentheses change nothing: a well-formed tree printed
      inside any number of extra pairs, including a single number such as
      `((1))`, parses back to itself. */
  lemma {:induction false} ParseParenthesised(n: Node, d: nat, g: string)
    requires WellFormed(n) && Blank(g)
    ensures Parse(Wrap(d, Show(n, 1, g))) == Ok(n)
  {
    var src := Wrap(d, Show(n, 1, g));
    assert src[0..|src|] == src;
    EndOfInputIsSticky(src, |src|);
    WrappedReads(src, 0, n, d, |src|, g);
    WholeExpression(src, n, |src|);
  }

  /** The printed tree alone parses back to itself. */
  lemma {:induction false} ParsePrinted(n: Node, g: string)
    requires WellFormed(n) && Blank(g)
    ensures Parse(Show(n, 1, g)) == Ok(n)
  {
    var s := Show(n, 1, g);
    assert "" + s + "" == s;
    ParseShow(n, "", g, "");
  }
}
