/** The tokenizer: an immutable input string read through a cursor.
    The cursor is the only state; the character under it is `CurrentChar`,
    which reads as '\0' once the cursor has reached the end of the text. */
module Lexer {

  /** Every kind of token the language declares. `Assign` and `Semicolon`
      are declared but never produced. */
  datatype TokenKind =
    | Identifier
    | Number
    | Plus
    | Minus
    | Multiply
    | Divide
    | Assign
    | Semicolon
    | LParen
    | RParen
    | EndOfLine
    | Invalid

  /** A token: its kind and the exact text it was lexed from. */
  datatype Token = Token(kind: TokenKind, text: string)

  /** The spelling of each one-character kind; empty for the others. */
  function Spelling(k: TokenKind): string
  {
    match k
    case Plus => "+"
    case Minus => "-"
    case Multiply => "*"
    case Divide => "/"
    case Assign => "="
    case Semicolon => ";"
    case LParen => "("
    case RParen => ")"
    case _ => ""
  }

  /** The kinds the tokenizer emits for a single punctuation character. */
  predicate IsSymbolKind(k: TokenKind)
  {
    k in {Plus, Minus, Multiply, Divide, LParen, RParen}
  }

  // Character classes of the C locale, restricted to ASCII.

  predicate IsSpace(c: char)
  {
    c == ' ' || c == '\t' || c == '\n' || c == '\U{B}' || c == '\U{C}' || c == '\r'
  }

  predicate IsDigit(c: char)
  {
    '0' <= c <= '9'
  }

  predicate IsAlpha(c: char)
  {
    'a' <= c <= 'z' || 'A' <= c <= 'Z'
  }

  predicate IsAlnum(c: char)
  {
    IsDigit(c) || IsAlpha(c)
  }

  /** The six punctuation characters the tokenizer accepts. */
  predicate IsSymbol(c: char)
  {
    c == '+' || c == '-' || c == '*' || c == '/' || c == '(' || c == ')'
  }

  /** A character that no rule of the tokenizer accepts. */
  predicate Unrecognised(c: char)
  {
    c != '\0' && !IsSpace(c) && !IsAlnum(c) && !IsSymbol(c)
  }

  /** A nonempty run of decimal digits. */
  predicate IsNumeral(s: string)
  {
    |s| > 0 && forall i | 0 <= i < |s| :: IsDigit(s[i])
  }

  /** A letter followed by letters and digits. */
  predicate IsName(s: string)
  {
    |s| > 0 && IsAlpha(s[0]) && forall i | 0 <= i < |s| :: IsAlnum(s[i])
  }

  /** The shape of every token the tokenizer can return. */
  predicate Lexable(t: Token)
  {
    match t.kind
    case Number => IsNumeral(t.text)
    case Identifier => IsName(t.text)
    case EndOfLine => t.text == ""
    case Invalid => |t.text| == 1 && Unrecognised(t.text[0])
    case Assign => false
    case Semicolon => false
    case _ => t.text == Spelling(t.kind)
  }

  /** The character under the cursor: the text, then '\0' forever. The
      constructor's first character and each `advance` read it this way,
      so the cursor alone is the tokenizer's state. NUL is end of input
      whether it lies past the end or inside the text. */
  function CurrentChar(src: string, pos: nat): (c: char)
    ensures c == '\0' <==> pos >= |src| || src[pos] == '\0'
    ensures c != '\0' ==> pos < |src| && c == src[pos]
  {
    if pos < |src| then src[pos] else '\0'
  }

  datatype CharClass = Space | Digit | Alnum

  predicate InClass(c: char, cls: CharClass)
  {
    match cls
    case Space => IsSpace(c)
    case Digit => IsDigit(c)
    case Alnum => IsAlnum(c)
  }

  /** Every character in `src[from..to]` belongs to `cls`. */
  predicate AllInClass(src: string, from: nat, to: nat, cls: CharClass)
    requires from <= to <= |src|
  {
    forall i | from <= i < to :: InClass(src[i], cls)
  }

  /** Where the maximal run of `cls` characters starting at `pos` ends:
      the `while` loops that skip whitespace and collect digits or letters. */
  function RunEnd(src: string, pos: nat, cls: CharClass): (e: nat)
    requires pos <= |src|
    ensures pos <= e <= |src|
    ensures AllInClass(src, pos, e, cls)
    ensures !InClass(CurrentChar(src, e), cls)
    decreases |src| - pos
  {
    if InClass(CurrentChar(src, pos), cls) then RunEnd(src, pos + 1, cls) else pos
  }

  /** The maximal run is the only run that cannot be extended. */
  lemma {:induction false} RunEndUnique(src: string, pos: nat, cls: CharClass, e: nat)
    requires pos <= e <= |src|
    requires AllInClass(src, pos, e, cls)
    requires !InClass(CurrentChar(src, e), cls)
    ensures RunEnd(src, pos, cls) == e
  {
  }

  /** `src[from..to]` is whitespace only. */
  predicate SpacesThen(src: string, from: nat, to: nat)
  {
    from <= to <= |src| && AllInClass(src, from, to, Space)
  }

  /** Declarative description of one call of the tokenizer: starting at
      `pos`, it returns token `t` and leaves the cursor at `next`. */
  ghost predicate Lexes(src: string, pos: nat, t: Token, next: nat)
  {
    && pos <= next <= |src|
    && match t.kind
       case EndOfLine =>
         t.text == "" && SpacesThen(src, pos, next) && CurrentChar(src, next) == '\0'
       case Invalid =>
         next < |src| && SpacesThen(src, pos, next) && Unrecognised(src[next]) && t.text == [src[next]]
       case Number =>
         && IsNumeral(t.text) && pos + |t.text| <= next
         && SpacesThen(src, pos, next - |t.text|)
         && src[next - |t.text|..next] == t.text
         && !IsDigit(CurrentChar(src, next))
       case Identifier =>
         && IsName(t.text) && pos + |t.text| <= next
         && SpacesThen(src, pos, next - |t.text|)
         && src[next - |t.text|..next] == t.text
         && !IsAlnum(CurrentChar(src, next))
       case Assign => false
       case Semicolon => false
       case _ =>
         pos < next && SpacesThen(src, pos, next - 1) && t.text == Spelling(t.kind) && [src[next - 1]] == t.text
  }

  /** One call of `getNextToken` from cursor `pos`: the token and the new
      cursor. This is the head of the scanning loop in main.cpp, which stops
      at '\0'; `LexAt` is the loop body. */
  function NextToken(src: string, pos: nat): (r: (Token, nat))
    requires pos <= |src|
    ensures pos <= r.1 <= |src|
    ensures r.0.kind !in {EndOfLine, Invalid} ==> pos < r.1
    ensures r.0.kind != Assign && r.0.kind != Semicolon
    ensures Lexable(r.0)
    decreases |src| - pos, 1
  {
    if CurrentChar(src, pos) == '\0' then
      (Token(EndOfLine, ""), pos)
    else
      LexAt(src, pos)
  }

  /** The body of the scanning loop at a character other than '\0':
      whitespace is skipped one character at a time by going back to the
      loop head, as the `continue` in main.cpp does; anything else yields a
      token. */
  function LexAt(src: string, start: nat): (r: (Token, nat))
    requires start < |src| && src[start] != '\0'
    ensures start <= r.1 <= |src|
    ensures r.0.kind !in {EndOfLine, Invalid} ==> start < r.1
    ensures r.0.kind != Assign && r.0.kind != Semicolon
    ensures Lexable(r.0)
    decreases |src| - start, 0
  {
    var c := src[start];
    if IsSpace(c) then
      NextToken(src, start + 1)
    else if IsDigit(c) then
      var e := RunEnd(src, start, Digit);
      (Token(Number, src[start..e]), e)
    else if IsAlpha(c) then
      var e := RunEnd(src, start, Alnum);
      (Token(Identifier, src[start..e]), e)
    else if c == '+' then
      (Token(Plus, "+"), start + 1)
    else if c == '-' then
      (Token(Minus, "-"), start + 1)
    else if c == '*' then
      (Token(Multiply, "*"), start + 1)
    else if c == '/' then
      (Token(Divide, "/"), start + 1)
    else if c == '(' then
      (Token(LParen, "("), start + 1)
    else if c == ')' then
      (Token(RParen, ")"), start + 1)
    else
      (Token(Invalid, [c]), start)
  }

  /** Skipping whitespace one character at a time ends where the maximal
      whitespace run ends. */
  lemma {:induction false} SkipsSpaceRun(src: string, pos: nat)
    requires pos <= |src|
    ensures NextToken(src, pos) == NextToken(src, RunEnd(src, pos, Space))
    decreases |src| - pos
  {
    if IsSpace(CurrentChar(src, pos)) {
      SkipsSpaceRun(src, pos + 1);
    }
  }

  /** The token at a character other than '\0' and whitespace is the one
      `Lexes` describes, with no whitespace before it. */
  lemma {:induction false} LexAtLexes(src: string, start: nat)
    requires start < |src| && src[start] != '\0' && !IsSpace(src[start])
    ensures Lexes(src, start, LexAt(src, start).0, LexAt(src, start).1)
  {
    var c := src[start];
    if IsDigit(c) {
      RunLexes(src, start, Digit);
    } else if IsAlpha(c) {
      RunLexes(src, start, Alnum);
    } else if c == '+' {
      SymbolLexes(src, start, Plus);
    } else if c == '-' {
      SymbolLexes(src, start, Minus);
    } else if c == '*' {
      SymbolLexes(src, start, Multiply);
    } else if c == '/' {
      SymbolLexes(src, start, Divide);
    } else if c == '(' {
      SymbolLexes(src, start, LParen);
    } else if c == ')' {
      SymbolLexes(src, start, RParen);
    } else {
      assert LexAt(src, start) == (Token(Invalid, [c]), start);
    }
  }

  /** One of the six punctuation characters. */
  lemma {:induction false} SymbolLexes(src: string, start: nat, k: TokenKind)
    requires IsSymbolKind(k) && start < |src| && [src[start]] == Spelling(k)
    ensures Lexes(src, start, Token(k, Spelling(k)), start + 1)
  {
  }

  /** A number or a name: the maximal run from `start`. */
  lemma {:induction false} RunLexes(src: string, start: nat, cls: CharClass)
    requires start < |src| && cls != Space
    requires if cls == Digit then IsDigit(src[start]) else IsAlpha(src[start]) && !IsDigit(src[start])
    ensures var e := RunEnd(src, start, cls);
            Lexes(src, start, Token(if cls == Digit then Number else Identifier, src[start..e]), e)
  {
    var e := RunEnd(src, start, cls);
    var text := src[start..e];
    assert forall i | 0 <= i < |text| :: text[i] == src[start + i];
    assert start + |text| == e;
    assert src[e - |text|..e] == text;
  }

  /** Whitespace in front of a token described by `Lexes` is part of it. */
  lemma {:induction false} LexesAfterSpaces(src: string, pos: nat, s: nat, t: Token, next: nat)
    requires SpacesThen(src, pos, s) && Lexes(src, s, t, next)
    ensures Lexes(src, pos, t, next)
  {
  }

  /** The tokenizer does what `Lexes` describes. */
  lemma {:induction false} NextTokenLexes(src: string, pos: nat)
    requires pos <= |src|
    ensures Lexes(src, pos, NextToken(src, pos).0, NextToken(src, pos).1)
  {
    SkipsSpaceRun(src, pos);
    var s := RunEnd(src, pos, Space);
    if CurrentChar(src, s) != '\0' {
      LexAtLexes(src, s);
      LexesAfterSpaces(src, pos, s, LexAt(src, s).0, LexAt(src, s).1);
    }
  }

  /** Where the token described by `Lexes` starts, after the whitespace. */
  function TokenStart(t: Token, next: nat): int
  {
    if t.kind in {EndOfLine, Invalid} then next else next - |t.text|
  }

  /** The whitespace `Lexes` allows before a token is the maximal run. */
  lemma {:induction false} LexesSkipsSpaces(src: string, pos: nat, t: Token, next: nat)
    requires Lexes(src, pos, t, next)
    ensures pos <= TokenStart(t, next) <= next
    ensures RunEnd(src, pos, Space) == TokenStart(t, next)
    ensures t.kind != EndOfLine ==> TokenStart(t, next) < |src| && src[TokenStart(t, next)] != '\0' && !IsSpace(src[TokenStart(t, next)])
  {
    var start := TokenStart(t, next);
    assert SpacesThen(src, pos, start);
    assert !IsSpace(CurrentChar(src, start)) by {
      if t.kind !in {EndOfLine, Invalid} {
        assert src[start] == t.text[0];
      }
    }
    RunEndUnique(src, pos, Space, start);
  }

  /** At the start of a token described by `Lexes`, the dispatch yields it. */
  lemma {:induction false} LexAtDetermined(src: string, pos: nat, t: Token, next: nat)
    requires Lexes(src, pos, t, next) && t.kind != EndOfLine
    ensures TokenStart(t, next) < |src| && src[TokenStart(t, next)] != '\0' && !IsSpace(src[TokenStart(t, next)])
    ensures LexAt(src, TokenStart(t, next)) == (t, next)
  {
    if t.kind == Number {
      RunTokenDetermined(src, pos, t, next, Digit);
    } else if t.kind == Identifier {
      RunTokenDetermined(src, pos, t, next, Alnum);
    } else if t.kind == Invalid {
      InvalidDetermined(src, pos, t, next);
    } else {
      SymbolDetermined(src, pos, t, next);
    }
  }

  lemma {:induction false} RunTokenDetermined(src: string, pos: nat, t: Token, next: nat, cls: CharClass)
    requires Lexes(src, pos, t, next)
    requires (t.kind == Number && cls == Digit) || (t.kind == Identifier && cls == Alnum)
    ensures TokenStart(t, next) < |src| && src[TokenStart(t, next)] != '\0' && !IsSpace(src[TokenStart(t, next)])
    ensures LexAt(src, TokenStart(t, next)) == (t, next)
  {
    var start := next - |t.text|;
    assert TokenStart(t, next) == start;
    assert src[start] == t.text[0];
    RunDetermined(src, start, t.text, next, cls);
  }

  lemma {:induction false} InvalidDetermined(src: string, pos: nat, t: Token, next: nat)
    requires Lexes(src, pos, t, next) && t.kind == Invalid
    ensures TokenStart(t, next) < |src| && src[TokenStart(t, next)] != '\0' && !IsSpace(src[TokenStart(t, next)])
    ensures LexAt(src, TokenStart(t, next)) == (t, next)
  {
    assert TokenStart(t, next) == next;
    assert Unrecognised(src[next]) && t.text == [src[next]];
  }

  lemma {:induction false} SymbolDetermined(src: string, pos: nat, t: Token, next: nat)
    requires Lexes(src, pos, t, next) && IsSymbolKind(t.kind)
    ensures TokenStart(t, next) < |src| && src[TokenStart(t, next)] != '\0' && !IsSpace(src[TokenStart(t, next)])
    ensures LexAt(src, TokenStart(t, next)) == (t, next)
  {
    assert TokenStart(t, next) == next - 1;
    assert src[next - 1] == Spelling(t.kind)[0];
  }

  /** A maximal run that `Lexes` places at `src[start..next]` is the one
      `RunEnd` finds. */
  lemma {:induction false} RunDetermined(src: string, start: nat, text: string, next: nat, cls: CharClass)
    requires start + |text| == next <= |src| && src[start..next] == text
    requires forall i | 0 <= i < |text| :: InClass(text[i], cls)
    requires !InClass(CurrentChar(src, next), cls)
    ensures RunEnd(src, start, cls) == next
  {
    assert forall i | start <= i < next :: src[i] == text[i - start];
    RunEndUnique(src, start, cls, next);
  }

  /** `Lexes` admits exactly one outcome, the one `NextToken` returns:
      together with `NextTokenLexes` this makes the declarative description
      an exact characterisation of the tokenizer. */
  lemma {:induction false} LexesDeterminesToken(src: string, pos: nat, t: Token, next: nat)
    requires Lexes(src, pos, t, next)
    ensures NextToken(src, pos) == (t, next)
  {
    LexesSkipsSpaces(src, pos, t, next);
    SkipsSpaceRun(src, pos);
    if t.kind == EndOfLine {
      EndOfInputIsSticky(src, next);
    } else {
      LexAtDetermined(src, pos, t, next);
    }
  }

  /** `Lexes` and the tokenizer agree on every input. */
  lemma {:induction false} LexesIff(src: string, pos: nat, t: Token, next: nat)
    requires pos <= |src|
    ensures Lexes(src, pos, t, next) <==> NextToken(src, pos) == (t, next)
  {
    NextTokenLexes(src, pos);
    if Lexes(src, pos, t, next) {
      LexesDeterminesToken(src, pos, t, next);
    }
  }

  /** Once the cursor is at the end (or at a '\0'), every call returns
      `EndOfLine` with empty text and leaves the cursor where it is. */
  lemma {:induction false} EndOfInputIsSticky(src: string, pos: nat)
    requires pos <= |src|
    requires CurrentChar(src, pos) == '\0'
    ensures NextToken(src, pos) == (Token(EndOfLine, ""), pos)
  {
  }

  /** An `EndOfLine` result is a fixed point: calling again returns it again. */
  lemma {:induction false} EndOfLineRepeats(src: string, pos: nat)
    requires pos <= |src|
    requires NextToken(src, pos).0.kind == EndOfLine
    ensures NextToken(src, NextToken(src, pos).1) == (Token(EndOfLine, ""), NextToken(src, pos).1)
  {
    NextTokenLexes(src, pos);
    EndOfInputIsSticky(src, NextToken(src, pos).1);
  }

  /** The tokenizer never moves past an unrecognised character: the next
      call returns the same `Invalid` token at the same cursor. */
  lemma {:induction false} InvalidRepeats(src: string, pos: nat)
    requires pos <= |src|
    requires NextToken(src, pos).0.kind == Invalid
    ensures NextToken(src, NextToken(src, pos).1) == NextToken(src, pos)
  {
    var (t, next) := NextToken(src, pos);
    NextTokenLexes(src, pos);
    assert Lexes(src, next, t, next);
    LexesDeterminesToken(src, next, t, next);
  }

  /** Characters after the cursor's run are the only ones that matter:
      a run inside the suffix `b` of `a + b` ends where it ends in `b`. */
  lemma {:induction false} RunEndShift(a: string, b: string, i: nat, cls: CharClass)
    requires i <= |b|
    ensures RunEnd(a + b, |a| + i, cls) == |a| + RunEnd(b, i, cls)
    decreases |b| - i
  {
    assert CurrentChar(a + b, |a| + i) == CurrentChar(b, i);
    if InClass(CurrentChar(b, i), cls) {
      RunEndShift(a, b, i + 1, cls);
    }
  }

  /** Tokenizing is local: lexing inside the suffix `b` of `a + b` gives the
      token lexed from `b` alone, with the cursor shifted by `|a|`. */
  lemma {:induction false} NextTokenShift(a: string, b: string, i: nat)
    requires i <= |b|
    ensures NextToken(a + b, |a| + i).0 == NextToken(b, i).0
    ensures NextToken(a + b, |a| + i).1 == |a| + NextToken(b, i).1
    decreases |b| - i
  {
    var c := CurrentChar(b, i);
    assert CurrentChar(a + b, |a| + i) == c;
    if c != '\0' {
      assert NextToken(a + b, |a| + i) == LexAt(a + b, |a| + i);
      assert NextToken(b, i) == LexAt(b, i);
      if IsSpace(c) {
        NextTokenShift(a, b, i + 1);
      } else {
        LexAtShift(a, b, i);
      }
    }
  }

  /** The dispatch part of `NextTokenShift`. */
  lemma {:induction false} LexAtShift(a: string, b: string, i: nat)
    requires i < |b| && b[i] != '\0' && !IsSpace(b[i])
    ensures LexAt(a + b, |a| + i).0 == LexAt(b, i).0
    ensures LexAt(a + b, |a| + i).1 == |a| + LexAt(b, i).1
  {
    assert (a + b)[|a| + i] == b[i];
    if IsDigit(b[i]) {
      RunShift(a, b, i, Digit);
    } else if IsAlpha(b[i]) {
      RunShift(a, b, i, Alnum);
    }
  }

  /** The text of a maximal run inside the suffix `b` of `a + b`. */
  lemma {:induction false} RunShift(a: string, b: string, start: nat, cls: CharClass)
    requires start <= |b|
    ensures |a| + start <= RunEnd(a + b, |a| + start, cls) <= |a + b|
    ensures RunEnd(a + b, |a| + start, cls) == |a| + RunEnd(b, start, cls)
    ensures (a + b)[|a| + start..RunEnd(a + b, |a| + start, cls)] == b[start..RunEnd(b, start, cls)]
  {
    RunEndShift(a, b, start, cls);
    var e := RunEnd(b, start, cls);
    assert (a + b)[|a| + start..|a| + e] == b[start..e];
  }
}
