/** The evaluator: walks a syntax tree and computes its integer value.
    Values are mathematical integers; the 32-bit range of `int` is not modelled. */
module Interpreter {
  import opened Wrappers
  import opened Lexer
  import opened Parser

  /** Why an evaluation stopped. `NotANumber` is `std::stoi` rejecting a
      number token's text and `UnknownOperator` is the final throw of
      `visit`. Two are modelling choices for what C++ leaves undefined:
      `MissingOperand` for an operator node without children (a null
      dereference) and `DivisionByZero`. */
  datatype EvalError =
    | NotANumber(text: string)
    | UnknownOperator(token: Token)
    | MissingOperand(token: Token)
    | DivisionByZero

  /** Any failure of the whole pipeline. */
  datatype Error = Syntax(parse: ParseError) | Evaluation(eval: EvalError)

  function Abs(x: int): nat
  {
    if x < 0 then -x else x
  }

  /** C++ integer division: the algebraic quotient with its fractional part
      discarded, so the remainder `a - q * b` is smaller than the divisor in
      magnitude and has the sign of the dividend (or is zero). */
  function TruncDiv(a: int, b: int): (q: int)
    requires b != 0
    ensures Abs(a - q * b) < Abs(b)
    ensures a - q * b == 0 || (a - q * b < 0 <==> a < 0)
  {
    var m := Abs(a) / Abs(b);
    var q := if (a < 0) == (b < 0) then m else -m;
    TruncQuotient(a, b, m, q);
    q
  }

  /** The remainder left by the quotient of the magnitudes, given the sign
      of the operands: `a - q * b` is `a`'s sign times `|a| % |b|`. */
  lemma {:induction false} TruncQuotient(a: int, b: int, m: int, q: int)
    requires b != 0 && m == Abs(a) / Abs(b)
    requires q == if (a < 0) == (b < 0) then m else -m
    ensures a - q * b == if a < 0 then -(Abs(a) % Abs(b)) else Abs(a) % Abs(b)
  {
    var B := Abs(b);
    assert Abs(a) == m * B + Abs(a) % B;
    if b > 0 {
      assert q * b == if a < 0 then -(m * B) else m * B;
    } else {
      assert B == -b;
      assert m * b == -(m * B);
      assert q * b == if a < 0 then -(m * B) else m * B;
    }
  }

  lemma {:induction false} AbsOfProduct(x: int, y: int)
    ensures Abs(x * y) == Abs(x) * Abs(y)
  {
    if x < 0 && y >= 0 {
      assert x * y == -((-x) * y);
    } else if x >= 0 && y < 0 {
      assert x * y == -(x * (-y));
    } else if x < 0 && y < 0 {
      assert x * y == (-x) * (-y);
    }
  }

  /** The remainder `a - q * b` of a truncating division. */
  predicate TruncRemainder(a: int, b: int, q: int)
  {
    Abs(a - q * b) < Abs(b) && (a - q * b == 0 || (a - q * b < 0 <==> a < 0))
  }

  lemma {:induction false} QuotientUnique(a: int, b: int, q: int, t: int)
    requires TruncRemainder(a, b, q) && TruncRemainder(a, b, t)
    ensures q == t
  {
    if q != t {
      var r, s := a - q * b, a - t * b;
      assert r - s == (t - q) * b by {
        assert t * b - q * b == (t - q) * b;
      }
      NonzeroMultiple(t - q, b);
      assert false;
    }
  }

  lemma {:induction false} NonzeroMultiple(d: int, b: int)
    requires d != 0
    ensures Abs(d * b) >= Abs(b)
  {
    AbsOfProduct(d, b);
    AtLeastOnce(Abs(d), Abs(b));
  }

  lemma {:induction false} AtLeastOnce(a: nat, y: nat)
    requires a >= 1
    ensures a * y >= y
  {
    var x: nat := a - 1;
    assert a * y == x * y + y;
  }

  /** Truncated division is the only quotient with those two properties. */
  lemma {:induction false} TruncDivUnique(a: int, b: int, q: int)
    requires b != 0
    requires Abs(a - q * b) < Abs(b)
    requires a - q * b == 0 || (a - q * b < 0 <==> a < 0)
    ensures q == TruncDiv(a, b)
  {
    QuotientUnique(a, b, q, TruncDiv(a, b));
  }

  function DigitValue(c: char): nat
    requires IsDigit(c)
  {
    (c as int) - ('0' as int)
  }

  /** The base-10 value of a string of digits (leading zeros allowed). */
  function DecimalValue(s: string): nat
    requires forall i | 0 <= i < |s| :: IsDigit(s[i])
  {
    if s == [] then 0 else DecimalValue(s[..|s| - 1]) * 10 + DigitValue(s[|s| - 1])
  }

  /** The shortest decimal spelling of `v`. */
  function Decimal(v: nat): (s: string)
    ensures IsNumeral(s)
  {
    var d := ['0' + ((v % 10) as char)];
    if v < 10 then d else Decimal(v / 10) + d
  }

  /** Reading back a printed number gives the number. */
  lemma {:induction false} DecimalRoundTrip(v: nat)
    ensures DecimalValue(Decimal(v)) == v
  {
    var s := Decimal(v);
    if v >= 10 {
      DecimalRoundTrip(v / 10);
      assert s[..|s| - 1] == Decimal(v / 10);
    }
  }

  /** Leading zeros do not change the value of a numeral. */
  lemma {:induction false} LeadingZeroIgnored(s: string)
    requires forall i | 0 <= i < |s| :: IsDigit(s[i])
    ensures DecimalValue("0" + s) == DecimalValue(s)
    decreases |s|
  {
    if s != [] {
      var t := "0" + s;
      assert t[..|t| - 1] == "0" + s[..|s| - 1];
      LeadingZeroIgnored(s[..|s| - 1]);
    }
  }

  /** `std::stoi` in base 10, without its range check: leading whitespace,
      an optional sign, then the longest run of digits, of which there must
      be at least one. Anything after the digits is ignored. */
  function Stoi(s: string): (r: Option<int>)
    ensures r.None? <==> !IsDigit(CurrentChar(s, RunEnd(s, 0, Space)))
                         && !((CurrentChar(s, RunEnd(s, 0, Space)) == '+' || CurrentChar(s, RunEnd(s, 0, Space)) == '-')
                              && IsDigit(CurrentChar(s, RunEnd(s, 0, Space) + 1)))
  {
    var i := RunEnd(s, 0, Space);
    var signed := i < |s| && (s[i] == '+' || s[i] == '-');
    var j := if signed then i + 1 else i;
    var e := RunEnd(s, j, Digit);
    if e == j then
      None
    else
      var v: int := DecimalValue(s[j..e]);
      Some(if signed && s[i] == '-' then -v else v)
  }

  /** A numeral, the only text the tokenizer puts in a `Number` token,
      reads as its base-10 value. */
  lemma {:induction false} StoiOfNumeral(s: string)
    requires IsNumeral(s)
    ensures Stoi(s) == Some(DecimalValue(s))
  {
    RunEndUnique(s, 0, Space, 0);
    RunEndUnique(s, 0, Digit, |s|);
    assert s[0..|s|] == s;
  }

  /** One of the four operators applied to the values of its operands;
      division by zero is the only failure. */
  function Apply(k: TokenKind, a: int, b: int): (r: Result<int, EvalError>)
    requires IsOperator(k)
    ensures r.Err? <==> k == Divide && b == 0
    ensures r.Err? ==> r.error == DivisionByZero
    ensures r.Ok? && k == Plus ==> r.value == a + b
    ensures r.Ok? && k == Minus ==> r.value == a - b
    ensures r.Ok? && k == Multiply ==> r.value == a * b
    ensures r.Ok? && k == Divide ==> r.value == TruncDiv(a, b)
  {
    if k == Plus then Ok(a + b)
    else if k == Minus then Ok(a - b)
    else if k == Multiply then Ok(a * b)
    else if b == 0 then Err(DivisionByZero)
    else Ok(TruncDiv(a, b))
  }

  /** `visit`: the value of a tree. Like main.cpp, it looks at the token
      first: a number token is read with `Stoi` whatever the node's shape,
      an operator token evaluates both children, left first. */
  function Visit(n: Node): (r: Result<int, EvalError>)
    ensures WellFormed(n) ==> r.Ok? || r.error == DivisionByZero
  {
    var t := n.token;
    if t.kind == Number then
      match Stoi(t.text)
      case None => Err(NotANumber(t.text))
      case Some(v) => Ok(v)
    else if !IsOperator(t.kind) then
      Err(UnknownOperator(t))
    else
      match n
      case Leaf(_) => Err(MissingOperand(t))
      case Bin(_, l, r) =>
        var a :- Visit(l);
        var b :- Visit(r);
        Apply(t.kind, a, b)
  }

  /** A number leaf of a well-formed tree has the base-10 value of its digits. */
  lemma {:induction false} VisitLeaf(t: Token)
    requires t.kind == Number && IsNumeral(t.text)
    ensures Visit(Leaf(t)) == Ok(DecimalValue(t.text))
  {
    StoiOfNumeral(t.text);
  }

  /** An operator node applies its operator to its operands' values. */
  lemma {:induction false} VisitOperator(t: Token, l: Node, r: Node, a: int, b: int)
    requires IsOperator(t.kind) && Visit(l) == Ok(a) && Visit(r) == Ok(b)
    ensures Visit(Bin(t, l, r)) == Apply(t.kind, a, b)
  {
  }

  /** Some division in the tree has a right operand whose value is zero. */
  predicate DividesByZero(n: Node)
  {
    match n
    case Leaf(_) => false
    case Bin(t, l, r) =>
      DividesByZero(l) || DividesByZero(r) || (t.kind == Divide && Visit(r) == Ok(0))
  }

  /** A well-formed tree fails to evaluate exactly when it divides by zero
      somewhere. */
  lemma {:induction false} VisitFailsIffDividesByZero(n: Node)
    requires WellFormed(n)
    ensures Visit(n).Err? <==> DividesByZero(n)
  {
    match n
    case Leaf(t) =>
      VisitLeaf(t);
    case Bin(t, l, r) =>
      VisitFailsIffDividesByZero(l);
      VisitFailsIffDividesByZero(r);
  }

  /** `interpret`: parse the text, then evaluate the tree. */
  function Interpret(src: string): (r: Result<int, Error>)
    ensures r.Err? && r.error.Evaluation? ==> r.error.eval == DivisionByZero
  {
    match Parse(src)
    case Err(e) => Err(Syntax(e))
    case Ok(tree) =>
      match Visit(tree)
      case Err(e) => Err(Evaluation(e))
      case Ok(v) => Ok(v)
  }
}
