/** The recursive-descent parser for
      expr   := term   (('+' | '-') term)*
      term   := factor (('*' | '/') factor)*
      factor := NUMBER | '(' expr ')'
    The parser's state is the tokenizer's cursor together with the one token
    of lookahead; it is threaded through every function instead of being
    mutated, and the `while` loops of `expr` and `term` become the
    tail-recursive `ExprLoop` and `TermLoop`. */
module Parser {
  import opened Wrappers
  import opened Lexer

  /** A syntax tree node: a number leaf, or an operator with two children. */
  datatype Node = Leaf(token: Token) | Bin(token: Token, left: Node, right: Node)

  /** The tokenizer cursor and the current (lookahead) token. */
  datatype State = State(pos: nat, current: Token)

  /** Why a parse stopped: `factor` found neither a number nor '(', or
      `eat` found a token of another kind than the one it expected. */
  datatype ParseError =
    | ExpectedFactor(found: Token)
    | Unexpected(expected: TokenKind, found: Token)

  /** A subtree together with the state after it. */
  datatype Parsed = Parsed(tree: Node, rest: State)

  predicate IsOperator(k: TokenKind)
  {
    k in {Plus, Minus, Multiply, Divide}
  }

  /** The shape every parsed tree has: number leaves, and operator nodes
      (spelled as the tokenizer spells them) with two children each. */
  predicate WellFormed(n: Node)
  {
    match n
    case Leaf(t) => t.kind == Number && IsNumeral(t.text)
    case Bin(t, l, r) => IsOperator(t.kind) && t.text == Spelling(t.kind) && WellFormed(l) && WellFormed(r)
  }

  /** A state the parser can be in: the cursor lies inside the text and the
      lookahead is a token the tokenizer can return. */
  predicate Valid(src: string, st: State)
  {
    st.pos <= |src| && Lexable(st.current)
  }

  /** Asks the tokenizer for the token at cursor `pos`: the constructor's
      first fetch and every refresh of the lookahead in `eat`. */
  function Fetch(src: string, pos: nat): (st: State)
    requires pos <= |src|
    ensures Valid(src, st)
    ensures pos <= st.pos
    ensures Budget(src, st) <= |src| - pos
  {
    var (t, next) := NextToken(src, pos);
    State(next, t)
  }

  /** The state right after construction: the lookahead is the first
      token of the text, as `Lexes` describes it, and the cursor is just
      past it. */
  function Start(src: string): (st: State)
    ensures Valid(src, st)
    ensures Lexes(src, 0, st.current, st.pos)
  {
    NextTokenLexes(src, 0);
    Fetch(src, 0)
  }

  /** Termination measure: the characters left to read, plus one while the
      lookahead is a token that `eat` can consume. Every successful `eat`
      of such a token makes it smaller, even when the refreshed lookahead
      is `EndOfLine` or `Invalid` and the cursor has not moved. */
  function Budget(src: string, st: State): nat
    requires st.pos <= |src|
  {
    |src| - st.pos + (if st.current.kind in {EndOfLine, Invalid} then 0 else 1)
  }

  /** `eat`: consume the lookahead if it has the expected kind. */
  function Eat(src: string, st: State, kind: TokenKind): (r: Result<State, ParseError>)
    requires Valid(src, st)
    ensures r.Ok? <==> st.current.kind == kind
    ensures r.Ok? ==> Valid(src, r.value) && r.value == Fetch(src, st.pos)
    ensures r.Ok? && kind !in {EndOfLine, Invalid} ==> Budget(src, r.value) < Budget(src, st)
    ensures r.Err? ==> r.error == Unexpected(kind, st.current)
  {
    if st.current.kind == kind then Ok(Fetch(src, st.pos)) else Err(Unexpected(kind, st.current))
  }

  /** `expr`: a term followed by any number of `+`/`-` terms. */
  function Expr(src: string, st: State): (r: Result<Parsed, ParseError>)
    requires Valid(src, st)
    ensures r.Ok? ==> Valid(src, r.value.rest) && WellFormed(r.value.tree)
    ensures r.Ok? ==> Budget(src, r.value.rest) < Budget(src, st)
    ensures r.Ok? ==> r.value.rest.current.kind !in {Plus, Minus, Multiply, Divide}
    decreases Budget(src, st), 3
  {
    var lhs :- Term(src, st);
    ExprLoop(src, lhs.tree, lhs.rest)
  }

  /** The `while` loop of `expr`, with the tree built so far in `acc`: each
      round makes `acc` the left child of the new operator node. */
  function ExprLoop(src: string, acc: Node, st: State): (r: Result<Parsed, ParseError>)
    requires Valid(src, st) && WellFormed(acc)
    requires st.current.kind !in {Multiply, Divide}
    ensures r.Ok? ==> Valid(src, r.value.rest) && WellFormed(r.value.tree)
    ensures r.Ok? ==> Budget(src, r.value.rest) <= Budget(src, st)
    ensures r.Ok? ==> r.value.rest.current.kind !in {Plus, Minus, Multiply, Divide}
    decreases Budget(src, st), 3
  {
    var op := st.current;
    if op.kind == Plus || op.kind == Minus then
      match Eat(src, st, op.kind)
      case Err(e) => Err(e)
      case Ok(st1) =>
        var rhs :- Term(src, st1);
        ExprLoop(src, Bin(op, acc, rhs.tree), rhs.rest)
    else
      Ok(Parsed(acc, st))
  }

  /** `term`: a factor followed by any number of `*`/`/` factors. */
  function Term(src: string, st: State): (r: Result<Parsed, ParseError>)
    requires Valid(src, st)
    ensures r.Ok? ==> Valid(src, r.value.rest) && WellFormed(r.value.tree)
    ensures r.Ok? ==> Budget(src, r.value.rest) < Budget(src, st)
    ensures r.Ok? ==> r.value.rest.current.kind !in {Multiply, Divide}
    decreases Budget(src, st), 2
  {
    var lhs :- Factor(src, st);
    TermLoop(src, lhs.tree, lhs.rest)
  }

  /** The `while` loop of `term`. */
  function TermLoop(src: string, acc: Node, st: State): (r: Result<Parsed, ParseError>)
    requires Valid(src, st) && WellFormed(acc)
    ensures r.Ok? ==> Valid(src, r.value.rest) && WellFormed(r.value.tree)
    ensures r.Ok? ==> Budget(src, r.value.rest) <= Budget(src, st)
    ensures r.Ok? ==> r.value.rest.current.kind !in {Multiply, Divide}
    decreases Budget(src, st), 2
  {
    var op := st.current;
    if op.kind == Multiply || op.kind == Divide then
      match Eat(src, st, op.kind)
      case Err(e) => Err(e)
      case Ok(st1) =>
        var rhs :- Factor(src, st1);
        TermLoop(src, Bin(op, acc, rhs.tree), rhs.rest)
    else
      Ok(Parsed(acc, st))
  }

  /** `factor`: a number, or a parenthesised expression. */
  function Factor(src: string, st: State): (r: Result<Parsed, ParseError>)
    requires Valid(src, st)
    ensures r.Ok? ==> Valid(src, r.value.rest) && WellFormed(r.value.tree)
    ensures r.Ok? ==> Budget(src, r.value.rest) < Budget(src, st)
    ensures st.current.kind !in {Number, LParen} ==> r == Err(ExpectedFactor(st.current))
    decreases Budget(src, st), 1
  {
    var tok := st.current;
    if tok.kind == Number then
      match Eat(src, st, Number)
      case Err(e) => Err(e)
      case Ok(st1) => Ok(Parsed(Leaf(tok), st1))
    else if tok.kind == LParen then
      match Eat(src, st, LParen)
      case Err(e) => Err(e)
      case Ok(st1) =>
        var inner :- Expr(src, st1);
        var st2 :- Eat(src, inner.rest, RParen);
        Ok(Parsed(inner.tree, st2))
    else
      Err(ExpectedFactor(tok))
  }

  /** `parse`: one expression from the start of the text. Whatever follows
      the expression stays in the lookahead and is not examined. */
  function Parse(src: string): (r: Result<Node, ParseError>)
    ensures r.Ok? ==> WellFormed(r.value)
  {
    var p :- Expr(src, Start(src));
    Ok(p.tree)
  }

  // One step of each production, as used by the proofs about printed trees.

  /** `expr` is its first `term` followed by the `expr` loop. */
  lemma {:induction false} ExprStep(src: string, st: State, lhs: Parsed)
    requires Valid(src, st) && Term(src, st) == Ok(lhs)
    ensures Expr(src, st) == ExprLoop(src, lhs.tree, lhs.rest)
  {
  }

  /** `term` is its first `factor` followed by the `term` loop. */
  lemma {:induction false} TermStep(src: string, st: State, lhs: Parsed)
    requires Valid(src, st) && Factor(src, st) == Ok(lhs)
    ensures Term(src, st) == TermLoop(src, lhs.tree, lhs.rest)
  {
  }

  /** A `+` or `-` lookahead makes the `expr` loop take one more round. */
  lemma {:induction false} ExprLoopStep(src: string, acc: Node, st: State, rhs: Parsed)
    requires Valid(src, st) && WellFormed(acc) && st.current.kind in {Plus, Minus}
    requires Term(src, Fetch(src, st.pos)) == Ok(rhs)
    ensures ExprLoop(src, acc, st) == ExprLoop(src, Bin(st.current, acc, rhs.tree), rhs.rest)
  {
  }

  /** A `*` or `/` lookahead makes the `term` loop take one more round. */
  lemma {:induction false} TermLoopStep(src: string, acc: Node, st: State, rhs: Parsed)
    requires Valid(src, st) && WellFormed(acc) && st.current.kind in {Multiply, Divide}
    requires Factor(src, Fetch(src, st.pos)) == Ok(rhs)
    ensures TermLoop(src, acc, st) == TermLoop(src, Bin(st.current, acc, rhs.tree), rhs.rest)
  {
  }

  /** Any other lookahead ends the loops, leaving the lookahead unconsumed. */
  lemma {:induction false} LoopsStop(src: string, acc: Node, st: State)
    requires Valid(src, st) && WellFormed(acc)
    ensures st.current.kind !in {Multiply, Divide} ==> TermLoop(src, acc, st) == Ok(Parsed(acc, st))
    ensures st.current.kind !in {Plus, Minus, Multiply, Divide} ==> ExprLoop(src, acc, st) == Ok(Parsed(acc, st))
  {
  }

  /** A parenthesised expression as a factor. */
  lemma {:induction false} FactorParenStep(src: string, st: State, inner: Parsed)
    requires Valid(src, st) && st.current.kind == LParen
    requires Expr(src, Fetch(src, st.pos)) == Ok(inner)
    requires inner.rest.current.kind == RParen
    ensures Factor(src, st) == Ok(Parsed(inner.tree, Fetch(src, inner.rest.pos)))
  {
  }

  /** A parenthesised expression not followed by `)`: `eat` fails, and the
      failure propagates out of `term` and `expr`. */
  lemma {:induction false} UnclosedParenthesis(src: string, st: State, inner: Parsed)
    requires Valid(src, st) && st.current.kind == LParen
    requires Expr(src, Fetch(src, st.pos)) == Ok(inner)
    requires inner.rest.current.kind != RParen
    ensures Factor(src, st) == Err(Unexpected(RParen, inner.rest.current))
    ensures Expr(src, st) == Err(Unexpected(RParen, inner.rest.current))
  {
  }
}
