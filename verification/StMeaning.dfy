/**
 The meaning of Structured Text expressions in ordinary arithmetic: what each operator
 makes of the values of its operands, and what compiled assignments of each operator
 leave in registers and signals.
 */
module StMeaning {
  import opened Values
  import opened StSyntax
  import opened StCode
  import opened StSemantics
  import opened StExprCorrect
  import opened StProgram
  import opened Operators
  import Machine

  /** A literal is the DINT congruent to the number written: that number, when it fits. */
  lemma {:induction false} LiteralMeaning(n: int, vars: Store)
    ensures Congruent(Eval(IntLiteral(n), vars), n, 0x1_0000_0000)
    ensures -0x8000_0000 <= n < 0x8000_0000 ==> Eval(IntLiteral(n), vars) == n
  {
    ShiftedRemainder(n, 0x8000_0000, 0x1_0000_0000);
  }

  /** `+`, `-` and `*` are the ordinary ones modulo 2^32. */
  lemma {:induction false} RingMeaning(l: Expr, r: Expr, vars: Store)
    requires DintExpr(l) && DintExpr(r)
    ensures DintExpr(Binary(l, OpAdd, r)) && DintExpr(Binary(l, OpSub, r)) && DintExpr(Binary(l, OpMul, r))
    ensures var x, y := Eval(l, vars), Eval(r, vars);
            && Congruent(Eval(Binary(l, OpAdd, r), vars), x + y, 0x1_0000_0000)
            && Congruent(Eval(Binary(l, OpSub, r), vars), x - y, 0x1_0000_0000)
            && Congruent(Eval(Binary(l, OpMul, r), vars), x * y, 0x1_0000_0000)
  {
    hide *;
    var x, y := Eval(l, vars), Eval(r, vars);
    Table();
    Fitting(x);
    Fitting(y);
    var sum, difference, product := RingLaws(PS32, x, y);
    Fitting(sum);
    Fitting(difference);
    Fitting(product);
    OperatorValue(l, OpAdd, r, vars);
    OperatorValue(l, OpSub, r, vars);
    OperatorValue(l, OpMul, r, vars);
  }

  lemma Table()
    ensures ArithOf(OpAdd) == Plus && ArithOf(OpSub) == Minus && ArithOf(OpMul) == Times
    ensures ArithOf(OpDiv) == Over && ArithOf(OpMod) == Rem && ArithOf(OpXor) == BitXor
    ensures IsArithOp(OpAdd) && IsArithOp(OpSub) && IsArithOp(OpMul) && IsArithOp(OpDiv) && IsArithOp(OpMod)
    ensures IsInteger(PS32) && Bits(PS32) == 32 && Size(PS32) == 0x1_0000_0000
  {
  }

  lemma Fitting(n: int)
    ensures InRange(PS32, n) <==> -0x8000_0000 <= n < 0x8000_0000
    ensures InRange(PS32, n) ==> IsInteger(PS32) && Of(PS32, n) == S32(n)
  {
  }

  /** The value of an operator is the one of the machine on two DINT values. */
  lemma {:induction false} OperatorValue(l: Expr, op: BinOp, r: Expr, vars: Store)
    requires DintExpr(l) && DintExpr(r) && (IsArithOp(op) || op == OpXor)
    ensures DintExpr(Binary(l, op, r))
    ensures S32(Eval(Binary(l, op, r), vars)) == Arith(ArithOf(op), S32(Eval(l, vars)), S32(Eval(r, vars)))
  {
    hide Op32;
  }

  /** DIV and MOD truncate toward zero, and are both zero for a zero divisor. */
  lemma {:induction false} QuotientMeaning(l: Expr, r: Expr, vars: Store)
    requires DintExpr(l) && DintExpr(r)
    ensures DintExpr(Binary(l, OpDiv, r)) && DintExpr(Binary(l, OpMod, r))
    ensures var x, y := Eval(l, vars), Eval(r, vars);
            var quotient, remainder := Eval(Binary(l, OpDiv, r), vars), Eval(Binary(l, OpMod, r), vars);
            && (y == 0 ==> quotient == remainder == 0)
            && (y != 0 && !(x == -0x8000_0000 && y == -1) ==>
                  && x == y * quotient + remainder && Abs(remainder) < Abs(y)
                  && (x >= 0 ==> remainder >= 0) && (x <= 0 ==> remainder <= 0))
  {
    var x, y := Eval(l, vars), Eval(r, vars);
    hide *;
    Table();
    OperatorValue(l, OpDiv, r, vars);
    OperatorValue(l, OpMod, r, vars);
    if y == 0 {
      DintByZero(x);
    } else if !(x == -0x8000_0000 && y == -1) {
      Fitting(x);
      Fitting(y);
      NoOverflow(x, y);
      var quotient, remainder := QuotientLaws(PS32, x, y);
      Fitting(quotient);
      Fitting(remainder);
    }
  }

  lemma NoOverflow(x: int, y: int)
    requires !(x == -0x8000_0000 && y == -1)
    ensures !QuotientOverflows(PS32, x, y)
  {
  }

  /** An expression aborts exactly when somewhere in it the smallest DINT is divided by -1. */
  lemma {:induction false} AbortMeaning(l: Expr, op: BinOp, r: Expr, vars: Store)
    requires DintExpr(l) && DintExpr(r) && (IsArithOp(op) || op == OpXor)
    ensures DintExpr(Binary(l, op, r))
    ensures Aborts(Binary(l, op, r), vars) <==>
              || Aborts(l, vars) || Aborts(r, vars)
              || ((op == OpDiv || op == OpMod) && Eval(l, vars) == -0x8000_0000 && Eval(r, vars) == -1)
  {
    hide Eval;
  }

  /** XOR works bit by bit. */
  lemma {:induction false} XorMeaning(l: Expr, r: Expr, vars: Store)
    requires DintExpr(l) && DintExpr(r)
    ensures DintExpr(Binary(l, OpXor, r))
    ensures forall i :: 0 <= i < 32 ==>
              (Place(Eval(Binary(l, OpXor, r), vars), i) <==> Place(Eval(l, vars), i) != Place(Eval(r, vars), i))
  {
    hide *;
    Table();
    Fitting(Eval(l, vars));
    Fitting(Eval(r, vars));
    var both, either, one := BitLaws(PS32, Eval(l, vars), Eval(r, vars));
    OperatorValue(l, OpXor, r, vars);
    Fitting(one);
  }

  /** NOT flips all bits; negation is the ordinary one modulo 2^32. */
  lemma {:induction false} UnaryMeaning(e: Expr, vars: Store)
    requires DintExpr(e)
    ensures DintExpr(Unary(UNot, e)) && DintExpr(Unary(UNeg, e))
    ensures Eval(Unary(UNot, e), vars) + Eval(e, vars) == -1
    ensures forall i :: 0 <= i < 32 ==> Place(Eval(Unary(UNot, e), vars), i) != Place(Eval(e, vars), i)
    ensures Congruent(Eval(Unary(UNeg, e), vars) + Eval(e, vars), 0, 0x1_0000_0000)
  {
    var x: int := Eval(e, vars);
    ShiftedRemainder(0 - x, 0x8000_0000, 0x1_0000_0000);
    assert Eval(Unary(UNeg, e), vars) == WrapS32(0 - x);
    hide Place;
    forall i | 0 <= i < 32
      ensures Place(Eval(Unary(UNot, e), vars), i) != Place(x, i)
    {
      FlippedPlace(x, i);
    }
  }

  /** The comparisons are those of the integers. */
  lemma {:induction false} ComparisonMeaning(l: Expr, op: BinOp, r: Expr, vars: Store)
    requires DintExpr(l) && DintExpr(r) && op in {OpEq, OpNeq, OpGt, OpLt, OpGte, OpLte}
    ensures Condition(Binary(l, op, r))
    ensures var x, y, holds := Eval(l, vars), Eval(r, vars), Holds(Binary(l, op, r), vars);
            && (op == OpEq ==> (holds <==> x == y)) && (op == OpNeq ==> (holds <==> x != y))
            && (op == OpGt ==> (holds <==> x > y)) && (op == OpLt ==> (holds <==> x < y))
            && (op == OpGte ==> (holds <==> x >= y)) && (op == OpLte ==> (holds <==> x <= y))
  {
    hide Eval;
  }

  /** The connectives are the logical ones. */
  lemma {:induction false} ConnectiveMeaning(c: Expr, d: Expr, vars: Store)
    requires Condition(c) && Condition(d)
    ensures Condition(Binary(c, OpAnd, d)) && (Holds(Binary(c, OpAnd, d), vars) <==> Holds(c, vars) && Holds(d, vars))
    ensures Condition(Binary(c, OpOr, d)) && (Holds(Binary(c, OpOr, d), vars) <==> Holds(c, vars) || Holds(d, vars))
    ensures Condition(Unary(UNot, c)) && (Holds(Unary(UNot, c), vars) <==> !Holds(c, vars))
    ensures Holds(BoolLiteral(true), vars) && !Holds(BoolLiteral(false), vars)
  {
    hide Eval;
  }

  /** A FOR loop of the language is over once its variable is past the limit, above it for a step that is
      not negative and below it otherwise; each turn adds the step, or 1 without BY, modulo 2^32. */
  lemma {:induction false} ForMeaning(s: Stmt, st: State)
    requires s.For? && DintStmt(s)
    ensures var v, limit := if s.variable in st.vars then st.vars[s.variable] else 0, Eval(s.end, st.vars);
            var step := if s.step.None? then 1 else Eval(s.step.value, st.vars);
            && (step >= 0 ==> (ForDone(Standard, s, st.vars) <==> v > limit))
            && (step < 0 ==> (ForDone(Standard, s, st.vars) <==> v < limit))
            && s.variable in NextTurn(s, st).vars && Congruent(NextTurn(s, st).vars[s.variable], v + step, 0x1_0000_0000)
  {
    hide Eval;
    var v := if s.variable in st.vars then st.vars[s.variable] else 0;
    var step := if s.step.None? then 1 else Eval(s.step.value, st.vars);
    ShiftedRemainder(v + step, 0x8000_0000, 0x1_0000_0000);
    assert Op32(Plus, v, step) == WrapS32(v + step);
  }

  /** A branch of CASE is taken when some label, as a DINT, is the value; labels that fit are themselves. */
  lemma CaseMeaning(vs: seq<int>, v: i32)
    requires forall i :: 0 <= i < |vs| ==> -0x8000_0000 <= vs[i] < 0x8000_0000
    ensures Labelled(vs, v) <==> v in vs
  {
  }

  // ----- compiled assignments -----

  /** y := a op b */
  function Operation(y: string, a: string, op: BinOp, b: string): Block {
    Cons(Assign(y, Binary(Variable(a), op, Variable(b))), Nil)
  }

  /** The compiler accepts the assignment, and the machine holds `x` in `a` and `z` in `b`, before its first instruction. */
  ghost predicate Starts(env: Env, y: string, a: string, op: BinOp, b: string, vm: Machine.Vm, st: State, x: i32, z: i32) {
    && Compiles(env, Operation(y, a, op, b)) && Loaded(env, vm, st)
    && y in st.vars && a in st.vars && b in st.vars && st.vars[a] == x && st.vars[b] == z
  }

  /** The compiled assignment halts with `n` in the register and the signal of `y` and nothing else changed. */
  ghost predicate Leaves(env: Env, y: string, a: string, op: BinOp, b: string, vm: Machine.Vm, st: State, n: i32) {
    ValidEnv(env) && HaltsWith(env, Operation(y, a, op, b), vm, State(st.vars[y := n], st.signals[y := S32(n)]))
  }

  lemma {:induction false} OperationRuns(env: Env, y: string, a: string, op: BinOp, b: string, vm: Machine.Vm, st: State, x: i32, z: i32)
    requires (IsArithOp(op) || op == OpXor) && y != b && Starts(env, y, a, op, b, vm, st, x, z) && !Overflows(op, x, z)
    ensures DintExpr(Variable(a)) && DintExpr(Variable(b)) && DintExpr(Binary(Variable(a), op, Variable(b)))
    ensures Leaves(env, y, a, op, b, vm, st, Eval(Binary(Variable(a), op, Variable(b)), st.vars))
    ensures Eval(Variable(a), st.vars) == x && Eval(Variable(b), st.vars) == z
  {
    hide Compiles, Loaded, HaltsWith, Eval, ValidEnv, Operation, Overflows;
    var e, body := Binary(Variable(a), op, Variable(b)), Operation(y, a, op, b);
    OperationIs(y, a, op, b, st, x, z);
    var end := State(st.vars[y := Eval(e, st.vars)], st.signals[y := S32(Eval(e, st.vars))]);
    EndsWithin(Generated, body, st, end, 0);
    CompiledValid(env, body);
    GeneratedCodeExact(env, body, vm, st, end);
  }

  lemma CompiledValid(env: Env, body: Block)
    requires Compiles(env, body)
    ensures ValidEnv(env)
  {
  }

  lemma {:induction false} OperationIs(y: string, a: string, op: BinOp, b: string, st: State, x: i32, z: i32)
    requires (IsArithOp(op) || op == OpXor) && y != b && y in st.vars && a in st.vars && b in st.vars
    requires st.vars[a] == x && st.vars[b] == z && !Overflows(op, x, z)
    ensures DintExpr(Variable(a)) && DintExpr(Variable(b)) && DintExpr(Binary(Variable(a), op, Variable(b)))
    ensures var v := Eval(Binary(Variable(a), op, Variable(b)), st.vars);
            && DintBlock(Operation(y, a, op, b))
            && ExecProgram(Generated, 0, Operation(y, a, op, b), st) == Returned(State(st.vars[y := v], st.signals[y := S32(v)]))
    ensures Eval(Variable(a), st.vars) == x && Eval(Variable(b), st.vars) == z
  {
    hide Op32, ArithOf;
    var e := Binary(Variable(a), op, Variable(b));
    assert DintExpr(Variable(a)) && DintExpr(Variable(b));
    assert !Aborts(Variable(a), st.vars) && !Aborts(Variable(b), st.vars);
    InPlaceIsStandard(e, y, st.vars);
    OneStatement(Generated, 0, Assign(y, e), st);
  }

  /** y := a + b, y := a - b and y := a * b leave the DINT congruent to the ordinary result. */
  lemma RingAssignments(env: Env, y: string, a: string, op: BinOp, b: string, vm: Machine.Vm, st: State, x: i32, z: i32) returns (n: i32)
    requires op in {OpAdd, OpSub, OpMul} && y != b && Starts(env, y, a, op, b, vm, st, x, z)
    ensures Leaves(env, y, a, op, b, vm, st, n)
    ensures op == OpAdd ==> Congruent(n, x + z, 0x1_0000_0000)
    ensures op == OpSub ==> Congruent(n, x - z, 0x1_0000_0000)
    ensures op == OpMul ==> Congruent(n, x * z, 0x1_0000_0000)
  {
    hide Starts, Congruent, Eval, Leaves;
    OperationRuns(env, y, a, op, b, vm, st, x, z);
    RingMeaning(Variable(a), Variable(b), st.vars);
    n := Eval(Binary(Variable(a), op, Variable(b)), st.vars);
  }

  /** y := a / b leaves the quotient truncated toward zero, y := a MOD b its remainder, and both zero
      when b is zero. */
  lemma QuotientAssignments(env: Env, y: string, a: string, op: BinOp, b: string, vm: Machine.Vm, st: State, x: i32, z: i32) returns (q: i32, r: i32)
    requires op in {OpDiv, OpMod} && y != b && Starts(env, y, a, op, b, vm, st, x, z)
    requires !(x == -0x8000_0000 && z == -1)
    ensures Leaves(env, y, a, op, b, vm, st, if op == OpDiv then q else r)
    ensures z == 0 ==> q == r == 0
    ensures z != 0 ==> x == z * q + r && Abs(r) < Abs(z) && (x >= 0 ==> r >= 0) && (x <= 0 ==> r <= 0)
  {
    hide Starts, Eval, Leaves, Abs;
    OperationRuns(env, y, a, op, b, vm, st, x, z);
    QuotientMeaning(Variable(a), Variable(b), st.vars);
    q := Eval(Binary(Variable(a), OpDiv, Variable(b)), st.vars);
    r := Eval(Binary(Variable(a), OpMod, Variable(b)), st.vars);
  }
}
