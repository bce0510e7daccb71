/**
 The expression parser of Structured Text: precedence climbing over a token list,
 the printer that puts parentheses only where precedence requires them, and the
 theorem that parsing undoes printing.
 */
module StParser {
  import opened Options
  import opened StSyntax

  /** Tokens that matter to expressions; the lexer's other tokens are `Other`. */
  datatype Token =
    | IntegerToken(n: int) | RealToken(x: real) | Identifier(name: string)
    | Operator(op: BinOp) | NotToken
    | LParen | RParen | LBracket | RBracket | Dot
    | Other(id: nat)

  datatype ParseError = UnexpectedEof | UnexpectedToken(at: nat)

  datatype Result<+T> = Ok(value: T, next: nat) | Err(error: ParseError)

  /** Higher binds tighter. */
  function Precedence(op: BinOp): nat {
    match op
    case OpOr => 1
    case OpXor => 1
    case OpAnd => 2
    case OpEq => 3
    case OpNeq => 3
    case OpGt => 3
    case OpLt => 3
    case OpGte => 3
    case OpLte => 3
    case OpAdd => 4
    case OpSub => 4
    case OpMul => 5
    case OpDiv => 5
    case OpMod => 5
  }

  // ----- the grammar as functions of the position -----

  /** Unary operators, then a primary expression. */
  function ParseUnary(ts: seq<Token>, i: nat): (r: Result<Expr>)
    requires i <= |ts|
    ensures r.Ok? ==> i < r.next <= |ts| && GoodNames(r.value)
    decreases |ts| - i, 2
  {
    if i < |ts| && (ts[i] == Operator(OpSub) || ts[i] == NotToken) then
      match ParseUnary(ts, i + 1)
      case Ok(e, j) => Ok(Unary(if ts[i] == NotToken then UNot else UNeg, e), j)
      case Err(e) => Err(e)
    else ParsePrimary(ts, i)
  }

  function ParsePrimary(ts: seq<Token>, i: nat): (r: Result<Expr>)
    requires i <= |ts|
    ensures r.Ok? ==> i < r.next <= |ts| && GoodNames(r.value)
    decreases |ts| - i, 1
  {
    if i == |ts| then Err(UnexpectedEof)
    else match ts[i]
      case IntegerToken(n) => Ok(IntLiteral(n), i + 1)
      case RealToken(x) => Ok(RealLiteral(x), i + 1)
      case Identifier(name) =>
        if name == "TRUE" then Ok(BoolLiteral(true), i + 1)
        else if name == "FALSE" then Ok(BoolLiteral(false), i + 1)
        else if i + 1 < |ts| && ts[i + 1] == LBracket then
          match Closed(ts, i + 2, RBracket)
          case Ok(index, j) => Ok(ArrayAccess(name, index), j)
          case Err(e) => Err(e)
        else if i + 1 < |ts| && ts[i + 1] == Dot then
          if i + 2 == |ts| then Err(UnexpectedEof)
          else if ts[i + 2].Identifier? then Ok(FieldAccess(name, ts[i + 2].name), i + 3)
          else Err(UnexpectedToken(i + 2))
        else Ok(Variable(name), i + 1)
      case LParen => Closed(ts, i + 1, RParen)
      case _ => Err(UnexpectedToken(i))
  }

  /** An expression followed by a closing token. */
  function Closed(ts: seq<Token>, i: nat, close: Token): (r: Result<Expr>)
    requires i <= |ts|
    ensures r.Ok? ==> i < r.next <= |ts| && GoodNames(r.value)
    decreases |ts| - i, 5
  {
    match ParsePrec(ts, i, 0)
    case Err(e) => Err(e)
    case Ok(e, j) =>
      if j == |ts| then Err(UnexpectedEof)
      else if ts[j] == close then Ok(e, j + 1)
      else Err(UnexpectedToken(j))
  }

  /** An expression whose operators bind at least as tightly as `min`. */
  function ParsePrec(ts: seq<Token>, i: nat, min: nat): (r: Result<Expr>)
    requires i <= |ts|
    ensures r.Ok? ==> i < r.next <= |ts| && GoodNames(r.value)
    decreases |ts| - i, 4
  {
    match ParseUnary(ts, i)
    case Err(e) => Err(e)
    case Ok(left, j) => ParseRest(ts, j, left, min)
  }

  /** Extends `left` by the operators that follow. */
  function ParseRest(ts: seq<Token>, i: nat, left: Expr, min: nat): (r: Result<Expr>)
    requires i <= |ts|
    ensures r.Ok? ==> i <= r.next <= |ts| && (GoodNames(left) ==> GoodNames(r.value))
    decreases |ts| - i, 3
  {
    if i == |ts| || !ts[i].Operator? || Precedence(ts[i].op) < min then Ok(left, i)
    else match ParsePrec(ts, i + 1, Precedence(ts[i].op) + 1)
      case Err(e) => Err(e)
      case Ok(right, j) => ParseRest(ts, j, Binary(left, ts[i].op, right), min)
  }

  // ----- the parser as it runs -----

  class Parser {
    const tokens: seq<Token>
    var pos: nat

    constructor (tokens: seq<Token>)
      ensures this.tokens == tokens && pos == 0
    {
      this.tokens := tokens;
      pos := 0;
    }

    /** The next token, if there is one; the position moves in either case. */
    method Advance() returns (t: Option<Token>)
      modifies this
      ensures pos == old(pos) + 1 && t == if old(pos) < |tokens| then Some(tokens[old(pos)]) else None
    {
      t := if pos < |tokens| then Some(tokens[pos]) else None;
      pos := pos + 1;
    }

    /** What a method returns, and where it leaves the position, is what the grammar says. */
    ghost predicate Gives(r: Result<Expr>, spec: Result<Expr>)
      reads this
    {
      r == spec && (r.Ok? ==> pos == r.next)
    }

    method Unary() returns (r: Result<Expr>)
      requires pos <= |tokens|
      modifies this
      ensures Gives(r, ParseUnary(tokens, old(pos)))
      decreases |tokens| - pos, 2
    {
      if pos < |tokens| && (tokens[pos] == Operator(OpSub) || tokens[pos] == NotToken) {
        var op := if tokens[pos] == NotToken then UNot else UNeg;
        var _ := Advance();
        r := Unary();
        if r.Ok? {
          r := Ok(Expr.Unary(op, r.value), r.next);
        }
      } else {
        r := Primary();
      }
    }

    method Primary() returns (r: Result<Expr>)
      requires pos <= |tokens|
      modifies this
      ensures Gives(r, ParsePrimary(tokens, old(pos)))
      decreases |tokens| - pos, 1
    {
      hide ParsePrec, ParseRest, ParseUnary, Closed;
      var t := Advance();
      if t.None? {
        return Err(UnexpectedEof);
      }
      match t.value
      case IntegerToken(n) => return Ok(IntLiteral(n), pos);
      case RealToken(x) => return Ok(RealLiteral(x), pos);
      case Identifier(name) =>
        if name == "TRUE" {
          return Ok(BoolLiteral(true), pos);
        } else if name == "FALSE" {
          return Ok(BoolLiteral(false), pos);
        } else if pos < |tokens| && tokens[pos] == LBracket {
          var _ := Advance();
          r := Enclosed(RBracket);
          if r.Ok? {
            r := Ok(ArrayAccess(name, r.value), r.next);
          }
        } else if pos < |tokens| && tokens[pos] == Dot {
          var _ := Advance();
          var f := Advance();
          if f.None? {
            return Err(UnexpectedEof);
          }
          if f.value.Identifier? {
            return Ok(FieldAccess(name, f.value.name), pos);
          }
          return Err(UnexpectedToken(pos - 1));
        } else {
          return Ok(Variable(name), pos);
        }
      case LParen => r := Enclosed(RParen);
      case _ => return Err(UnexpectedToken(pos - 1));
    }

    method Enclosed(close: Token) returns (r: Result<Expr>)
      requires pos <= |tokens|
      modifies this
      ensures Gives(r, Closed(tokens, old(pos), close))
      decreases |tokens| - pos, 5
    {
      hide ParsePrec;
      r := Prec(0);
      if r.Ok? {
        var e := r.value;
        var t := Advance();
        if t.None? {
          return Err(UnexpectedEof);
        }
        if t.value != close {
          return Err(UnexpectedToken(pos - 1));
        }
        return Ok(e, pos);
      }
    }

    /** Precedence climbing: a loop that extends `left`. */
    method Prec(min: nat) returns (r: Result<Expr>)
      requires pos <= |tokens|
      modifies this
      ensures Gives(r, ParsePrec(tokens, old(pos), min))
      decreases |tokens| - pos, 4
    {
      hide ParseUnary;
      r := Unary();
      if r.Err? {
        return;
      }
      var left := r.value;
      while pos < |tokens| && tokens[pos].Operator? && Precedence(tokens[pos].op) >= min
        invariant old(pos) < pos <= |tokens|
        invariant ParseRest(tokens, pos, left, min) == ParsePrec(tokens, old(pos), min)
        decreases |tokens| - pos
      {
        var op := tokens[pos].op;
        var _ := Advance();
        r := Prec(Precedence(op) + 1);
        if r.Err? {
          return;
        }
        left := Binary(left, op, r.value);
      }
      r := Ok(left, pos);
    }
  }

  // ----- printing -----

  /** Level of unary expressions; operands at this level never stand as a bare binary expression. */
  const UNARY: nat := 6

  /** The tokens of `e` where an expression of level `min` is expected. */
  function Print(e: Expr, min: nat): (ts: seq<Token>)
    ensures |ts| > 0
    decreases e, min
  {
    match e
    case IntLiteral(n) => [IntegerToken(n)]
    case RealLiteral(x) => [RealToken(x)]
    case BoolLiteral(b) => [Identifier(if b then "TRUE" else "FALSE")]
    case Variable(x) => [Identifier(x)]
    case ArrayAccess(x, index) => [Identifier(x), LBracket] + Print(index, 0) + [RBracket]
    case FieldAccess(x, f) => [Identifier(x), Dot, Identifier(f)]
    case Unary(op, x) => [if op == UNot then NotToken else Operator(OpSub)] + Print(x, UNARY)
    case Binary(l, op, r) =>
      if Precedence(op) < min then [LParen] + Print(e, 0) + [RParen]
      else Print(l, Precedence(op)) + [Operator(op)] + Print(r, Precedence(op) + 1)
  }

  /** No name is spelled like a Boolean literal. */
  predicate GoodNames(e: Expr) {
    match e
    case Variable(x) => x != "TRUE" && x != "FALSE"
    case ArrayAccess(x, index) => x != "TRUE" && x != "FALSE" && GoodNames(index)
    case FieldAccess(x, _) => x != "TRUE" && x != "FALSE"
    case Unary(_, x) => GoodNames(x)
    case Binary(l, _, r) => GoodNames(l) && GoodNames(r)
    case _ => true
  }

  /** The token at `j` continues no expression with an operator of level `level` or tighter. */
  predicate StopsAt(ts: seq<Token>, j: nat, level: nat) {
    j < |ts| ==> ts[j] != LBracket && ts[j] != Dot && (ts[j].Operator? ==> Precedence(ts[j].op) < level)
  }

  predicate TokensAt(ts: seq<Token>, i: nat, part: seq<Token>) {
    i + |part| <= |ts| && ts[i..i + |part|] == part
  }

  lemma TokensSplit(ts: seq<Token>, i: nat, a: seq<Token>, b: seq<Token>)
    requires TokensAt(ts, i, a + b)
    ensures TokensAt(ts, i, a) && TokensAt(ts, i + |a|, b)
  {
    assert ts[i..i + |a + b|][..|a|] == ts[i..i + |a|];
    assert ts[i..i + |a + b|][|a|..] == ts[i + |a|..i + |a| + |b|];
  }

  lemma TokenAt(ts: seq<Token>, i: nat, t: Token)
    requires TokensAt(ts, i, [t])
    ensures i < |ts| && ts[i] == t
  {
    assert ts[i..i + 1][0] == t;
  }

  // ----- round trip -----

  predicate Bare(e: Expr, min: nat) { e.Binary? && Precedence(e.op) >= min }

  predicate Leaf(e: Expr) { e.IntLiteral? || e.RealLiteral? || e.BoolLiteral? || e.Variable? }

  lemma ReadLeaf(e: Expr, min: nat, ts: seq<Token>, i: nat)
    requires GoodNames(e) && Leaf(e) && TokensAt(ts, i, Print(e, min)) && StopsAt(ts, i + |Print(e, min)|, UNARY)
    ensures ParseUnary(ts, i) == Ok(e, i + |Print(e, min)|)
  {
    hide ParsePrec, ParseRest, Closed;
    TokenAt(ts, i, Print(e, min)[0]);
  }

  lemma ReadField(e: Expr, min: nat, ts: seq<Token>, i: nat)
    requires GoodNames(e) && e.FieldAccess? && TokensAt(ts, i, Print(e, min))
    ensures ParseUnary(ts, i) == Ok(e, i + |Print(e, min)|)
  {
    hide ParsePrec, ParseRest, Closed;
    var part := Print(e, min);
    assert ts[i] == ts[i..i + 3][0] == part[0] && ts[i + 1] == ts[i..i + 3][1] == part[1] && ts[i + 2] == ts[i..i + 3][2] == part[2];
  }

  lemma ReadElement(e: Expr, min: nat, ts: seq<Token>, i: nat)
    requires GoodNames(e) && e.ArrayAccess? && TokensAt(ts, i, Print(e, min))
    requires Closed(ts, i + 2, RBracket) == Ok(e.index, i + |Print(e, min)|)
    ensures ParseUnary(ts, i) == Ok(e, i + |Print(e, min)|)
  {
    hide ParsePrec, ParseRest, Closed;
    var part := Print(e, min);
    assert part[0] == Identifier(e.name) && part[1] == LBracket;
    assert ts[i] == ts[i..i + |part|][0] && ts[i + 1] == ts[i..i + |part|][1];
  }

  lemma ReadParenthesised(ts: seq<Token>, i: nat)
    requires i < |ts| && ts[i] == LParen
    ensures ParseUnary(ts, i) == Closed(ts, i + 1, RParen)
  {
    hide ParsePrec, ParseRest, Closed;
  }

  lemma ReadPrefix(ts: seq<Token>, i: nat, op: UnaryOp, x: Expr, j: nat)
    requires i < |ts| && ts[i] == (if op == UNot then NotToken else Operator(OpSub)) && ParseUnary(ts, i + 1) == Ok(x, j)
    ensures ParseUnary(ts, i) == Ok(Unary(op, x), j)
  {
    hide ParsePrec, ParseRest, Closed, ParsePrimary;
  }

  /** Leaves, accesses, prefixed and parenthesised expressions are read by the unary parser. */
  lemma {:induction false} ReadAtom(e: Expr, min: nat, ts: seq<Token>, i: nat)
    requires GoodNames(e) && !Bare(e, min) && TokensAt(ts, i, Print(e, min)) && StopsAt(ts, i + |Print(e, min)|, UNARY)
    ensures ParseUnary(ts, i) == Ok(e, i + |Print(e, min)|)
    decreases e, min, 1
  {
    hide ParsePrec, ParseRest, Closed, ParseUnary, ParsePrimary, TokensAt;
    if Leaf(e) {
      ReadLeaf(e, min, ts, i);
    } else if e.FieldAccess? {
      ReadField(e, min, ts, i);
    } else if e.ArrayAccess? {
      assert Print(e, min) == [Identifier(e.name), LBracket] + (Print(e.index, 0) + [RBracket]);
      TokensSplit(ts, i, [Identifier(e.name), LBracket], Print(e.index, 0) + [RBracket]);
      ReadClosed(e.index, ts, i + 2, RBracket);
      ReadElement(e, min, ts, i);
    } else if e.Unary? {
      var t := if e.uop == UNot then NotToken else Operator(OpSub);
      TokensSplit(ts, i, [t], Print(e.inner, UNARY));
      TokenAt(ts, i, t);
      NeverBare(e.inner);
      ReadAtom(e.inner, UNARY, ts, i + 1);
      ReadPrefix(ts, i, e.uop, e.inner, i + |Print(e, min)|);
    } else {
      assert Print(e, min) == [LParen] + (Print(e, 0) + [RParen]);
      TokensSplit(ts, i, [LParen], Print(e, 0) + [RParen]);
      TokenAt(ts, i, LParen);
      ReadClosed(e, ts, i + 1, RParen);
      ReadParenthesised(ts, i);
    }
  }

  lemma NeverBare(e: Expr)
    ensures !Bare(e, UNARY)
  {
  }

  /** An expression printed at level 0 before a closing token. */
  lemma {:induction false} ReadClosed(e: Expr, ts: seq<Token>, i: nat, close: Token)
    requires GoodNames(e) && TokensAt(ts, i, Print(e, 0) + [close]) && (close == RParen || close == RBracket)
    ensures Closed(ts, i, close) == Ok(e, i + |Print(e, 0)| + 1)
    decreases e, 0, 3
  {
    hide ParsePrec, ParseRest, Print;
    TokensSplit(ts, i, Print(e, 0), [close]);
    var j := i + |Print(e, 0)|;
    TokenAt(ts, j, close);
    ReadPrec(e, 0, 0, ts, i);
    RestStops(ts, j, e, 0);
  }

  lemma RestStops(ts: seq<Token>, j: nat, e: Expr, min: nat)
    requires j <= |ts| && StopsAt(ts, j, min)
    ensures ParseRest(ts, j, e, min) == Ok(e, j)
  {
  }

  /** Where `e` stands at level `hi`, parsing at any lower level reads it and goes on behind it. */
  lemma {:induction false} ReadPrec(e: Expr, lo: nat, hi: nat, ts: seq<Token>, i: nat)
    requires GoodNames(e) && lo <= hi && TokensAt(ts, i, Print(e, hi)) && StopsAt(ts, i + |Print(e, hi)|, hi + 1)
    requires hi <= UNARY
    ensures ParsePrec(ts, i, lo) == ParseRest(ts, i + |Print(e, hi)|, e, lo)
    decreases e, hi, 2
  {
    hide ParseUnary, ParsePrimary, Closed, ParseRest, TokensAt;
    if Bare(e, hi) {
      var l, p, r := e.left, Precedence(e.op), e.right;
      PrintNode(e, hi);
      TokensSplit(ts, i, Print(l, p) + [Operator(e.op)], Print(r, p + 1));
      TokensSplit(ts, i, Print(l, p), [Operator(e.op)]);
      var j := i + |Print(l, p)|;
      TokenAt(ts, j, Operator(e.op));
      ReadPrec(l, lo, p, ts, i);
      ReadPrec(r, p + 1, p + 1, ts, j + 1);
      var k := j + 1 + |Print(r, p + 1)|;
      RestStops(ts, k, r, p + 1);
      RestExtends(ts, j, l, lo, r, k);
    } else {
      AtomStops(e, hi, ts, i);
      ReadAtom(e, hi, ts, i);
    }
  }

  lemma AtomStops(e: Expr, hi: nat, ts: seq<Token>, i: nat)
    requires StopsAt(ts, i + |Print(e, hi)|, hi + 1)
    ensures StopsAt(ts, i + |Print(e, hi)|, UNARY)
  {
  }

  lemma PrintNode(e: Expr, min: nat)
    requires Bare(e, min)
    ensures Print(e, min) == Print(e.left, Precedence(e.op)) + [Operator(e.op)] + Print(e.right, Precedence(e.op) + 1)
  {
  }

  lemma RestExtends(ts: seq<Token>, j: nat, left: Expr, min: nat, right: Expr, k: nat)
    requires j < |ts| && ts[j].Operator? && Precedence(ts[j].op) >= min && k <= |ts|
    requires ParsePrec(ts, j + 1, Precedence(ts[j].op) + 1) == Ok(right, k)
    ensures ParseRest(ts, j, left, min) == ParseRest(ts, k, Binary(left, ts[j].op, right), min)
  {
    hide ParsePrec;
  }

  /** Parsing a printed expression at its level gives the same tree and stops before the remainder. */
  lemma ParseUndoesPrint(e: Expr, min: nat, before: seq<Token>, rest: seq<Token>)
    requires GoodNames(e) && min <= UNARY && StopsAt(rest, 0, min)
    ensures ParsePrec(before + Print(e, min) + rest, |before|, min) == Ok(e, |before| + |Print(e, min)|)
  {
    hide ParsePrec, ParseRest, Print;
    var ts, i, part := before + Print(e, min) + rest, |before|, Print(e, min);
    assert ts[i..i + |part|] == part;
    var j := i + |part|;
    assert j < |ts| ==> ts[j] == rest[0];
    ReadPrec(e, min, min, ts, i);
    RestStops(ts, j, e, min);
  }

  /** Whatever the parser accepts, printing its result and parsing again gives the same tree. */
  lemma ReparseIsStable(ts: seq<Token>, i: nat, min: nat, before: seq<Token>, rest: seq<Token>)
    requires i <= |ts| && min <= UNARY && ParsePrec(ts, i, min).Ok? && StopsAt(rest, 0, min)
    ensures var e := ParsePrec(ts, i, min).value;
            ParsePrec(before + Print(e, min) + rest, |before|, min) == Ok(e, |before| + |Print(e, min)|)
  {
    hide ParsePrec;
    ParseUndoesPrint(ParsePrec(ts, i, min).value, min, before, rest);
  }

  // ----- which operator binds tighter -----

  /** The operators in classes, from the loosest to the tightest. */
  const CLASSES: seq<set<BinOp>> := [
    {OpOr, OpXor}, {OpAnd}, {OpEq, OpNeq, OpGt, OpLt, OpGte, OpLte}, {OpAdd, OpSub}, {OpMul, OpDiv, OpMod}]

  /** The class of `tight` comes after the class of `loose`. */
  predicate ComesLater(tight: BinOp, loose: BinOp) {
    exists i, j :: 0 <= i < j < |CLASSES| && loose in CLASSES[i] && tight in CLASSES[j]
  }

  lemma LevelsAreClasses(a: BinOp, b: BinOp)
    ensures ComesLater(a, b) <==> Precedence(a) > Precedence(b)
  {
    ClassOf(a);
    ClassOf(b);
    hide Precedence;
    if Precedence(a) > Precedence(b) {
      var i, j := Precedence(b) - 1, Precedence(a) - 1;
      assert 0 <= i < j < |CLASSES| && b in CLASSES[i] && a in CLASSES[j];
    }
  }

  lemma ClassOf(op: BinOp)
    ensures |CLASSES| == 5 && 1 <= Precedence(op) <= 5
    ensures forall i :: 0 <= i < 5 ==> (op in CLASSES[i] <==> i == Precedence(op) - 1)
  {
  }

  /** Three operands with two operators between them: the second operator takes the middle operand
      exactly when its class comes later; otherwise the first two are grouped first. The operands are
      whatever the unary parser reads, and `n` is where no operator follows. */
  lemma TighterOperatorTakesOperand(ts: seq<Token>, i: nat, x: Expr, a: BinOp, j: nat, y: Expr, b: BinOp, k: nat, z: Expr, n: nat)
    requires i <= |ts| && ParseUnary(ts, i) == Ok(x, j) && j < |ts| && ts[j] == Operator(a)
    requires ParseUnary(ts, j + 1) == Ok(y, k) && k < |ts| && ts[k] == Operator(b)
    requires ParseUnary(ts, k + 1) == Ok(z, n) && (n < |ts| ==> !ts[n].Operator?)
    ensures ParsePrec(ts, i, 0) ==
            Ok(if ComesLater(b, a) then Binary(x, a, Binary(y, b, z)) else Binary(Binary(x, a, y), b, z), n)
  {
    hide ParseUnary, Precedence, ComesLater;
    LevelsAreClasses(b, a);
    LastOperand(ts, k + 1, z, n, Precedence(b) + 1);
    if Precedence(b) > Precedence(a) {
      RestEnds(ts, n, Binary(y, b, z), Precedence(a) + 1);
      assert ParsePrec(ts, j + 1, Precedence(a) + 1) == ParseRest(ts, k, y, Precedence(a) + 1) == Ok(Binary(y, b, z), n);
      RestEnds(ts, n, Binary(x, a, Binary(y, b, z)), 0);
    } else {
      assert ParsePrec(ts, j + 1, Precedence(a) + 1) == ParseRest(ts, k, y, Precedence(a) + 1) == Ok(y, k);
      RestEnds(ts, n, Binary(Binary(x, a, y), b, z), 0);
      assert ParseRest(ts, k, Binary(x, a, y), 0) == Ok(Binary(Binary(x, a, y), b, z), n);
    }
  }

  lemma RestEnds(ts: seq<Token>, n: nat, e: Expr, min: nat)
    requires n <= |ts| && (n < |ts| ==> !ts[n].Operator?)
    ensures ParseRest(ts, n, e, min) == Ok(e, n)
  {
  }

  lemma LastOperand(ts: seq<Token>, i: nat, e: Expr, n: nat, min: nat)
    requires i <= |ts| && ParseUnary(ts, i) == Ok(e, n) && (n < |ts| ==> !ts[n].Operator?)
    ensures ParsePrec(ts, i, min) == Ok(e, n)
  {
    hide ParseUnary;
    RestEnds(ts, n, e, min);
  }

  /** In particular on the five tokens of three names. */
  lemma TighterOperatorOnNames(x: string, a: BinOp, y: string, b: BinOp, z: string)
    requires {x, y, z} !! {"TRUE", "FALSE"}
    ensures ParsePrec([Identifier(x), Operator(a), Identifier(y), Operator(b), Identifier(z)], 0, 0) ==
            Ok(if ComesLater(b, a) then Binary(Variable(x), a, Binary(Variable(y), b, Variable(z)))
               else Binary(Binary(Variable(x), a, Variable(y)), b, Variable(z)), 5)
  {
    hide Precedence, ComesLater, ParsePrec;
    var ts := [Identifier(x), Operator(a), Identifier(y), Operator(b), Identifier(z)];
    NameIsOperand(ts, 0, x);
    NameIsOperand(ts, 2, y);
    NameIsOperand(ts, 4, z);
    TighterOperatorTakesOperand(ts, 0, Variable(x), a, 1, Variable(y), b, 3, Variable(z), 5);
  }

  lemma NameIsOperand(ts: seq<Token>, i: nat, x: string)
    requires i < |ts| && ts[i] == Identifier(x) && x != "TRUE" && x != "FALSE"
    requires i + 1 < |ts| ==> ts[i + 1] != LBracket && ts[i + 1] != Dot
    ensures ParseUnary(ts, i) == Ok(Variable(x), i + 1)
  {
    hide ParsePrec, ParseRest, Closed;
  }

  // ----- single tokens -----

  /** A minus sign negates and NOT complements the operand right behind it, before any binary operator;
      TRUE and FALSE are the Boolean literals; parentheses enclose a whole expression. */
  lemma OperandsOf(ts: seq<Token>, i: nat, x: Expr, j: nat)
    requires i < |ts|
    ensures ParseUnary(ts, i + 1) == Ok(x, j) && ts[i] == Operator(OpSub) ==> ParseUnary(ts, i) == Ok(Unary(UNeg, x), j)
    ensures ParseUnary(ts, i + 1) == Ok(x, j) && ts[i] == NotToken ==> ParseUnary(ts, i) == Ok(Unary(UNot, x), j)
    ensures ts[i] == Identifier("TRUE") ==> ParseUnary(ts, i) == Ok(BoolLiteral(true), i + 1)
    ensures ts[i] == Identifier("FALSE") ==> ParseUnary(ts, i) == Ok(BoolLiteral(false), i + 1)
    ensures ts[i] == LParen && ParsePrec(ts, i + 1, 0) == Ok(x, j) && j < |ts| && ts[j] == RParen ==>
              ParseUnary(ts, i) == Ok(x, j + 1)
  {
    hide ParsePrec, ParseRest;
    if ts[i] == LParen {
      ReadParenthesised(ts, i);
    }
  }
}
