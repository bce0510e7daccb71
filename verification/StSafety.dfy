/**
 Jump safety of all Structured Text output: whatever program the generator is
 given, without generic calls, every jump target lies inside the program and
 every register operand exists.
 */
module StSafety {
  import opened Options
  import opened Values
  import opened Machine
  import opened Safety
  import Arrays
  import opened StSyntax
  import opened StCode

  predicate NoGenericCalls(env: Env, s: Stmt) {
    match s
    case If(_, t, f) => NoGenericCallsIn(env, t) && NoGenericCallsIn(env, f)
    case While(_, b) => NoGenericCallsIn(env, b)
    case For(_, _, _, _, b) => NoGenericCallsIn(env, b)
    case Case(_, cs) => NoGenericCallsInCases(env, cs)
    case Repeat(b, _) => NoGenericCallsIn(env, b)
    case FunCall(x, args) => ShapeOf(env, x, |args|) != GenericCall
    case _ => true
  }

  predicate NoGenericCallsIn(env: Env, b: Block) {
    match b
    case Nil => true
    case Cons(s, rest) => NoGenericCalls(env, s) && NoGenericCallsIn(env, rest)
  }

  predicate NoGenericCallsInCases(env: Env, cs: Cases) {
    match cs
    case Else(b) => NoGenericCallsIn(env, b)
    case Branch(_, b, rest) => NoGenericCallsIn(env, b) && NoGenericCallsInCases(env, rest)
  }

  lemma SafeConcat(a: seq<Instruction>, b: seq<Instruction>, n: nat)
    requires SafeCode(a, n) && SafeCode(b, n)
    ensures SafeCode(a + b, n)
  {
  }

  lemma SafeConcat3(a: seq<Instruction>, b: seq<Instruction>, c: seq<Instruction>, n: nat)
    requires SafeCode(a, n) && SafeCode(b, n) && SafeCode(c, n)
    ensures SafeCode(a + b + c, n)
  {
  }

  lemma SafeConcat5(a: seq<Instruction>, b: seq<Instruction>, c: seq<Instruction>, d: seq<Instruction>, e: seq<Instruction>, n: nat)
    requires SafeCode(a, n) && SafeCode(b, n) && SafeCode(c, n) && SafeCode(d, n) && SafeCode(e, n)
    ensures SafeCode(a + b + c + d + e, n)
  {
    hide SafeCode;
    SafeConcat3(a, b, c, n);
    SafeConcat3(a + b + c, d, e, n);
  }

  lemma SafeArith(op: Opcode, a: u8, b: u8, out: u8, n: nat)
    requires op !in {Jump, JumpIf, Call, Ret} && a < REGISTER_COUNT && b < REGISTER_COUNT && out < REGISTER_COUNT
    ensures SafeCode([Arith3(op, a, b, out)], n)
  {
  }

  /** Compare, then jump to `t`. */
  lemma SafeCompareJump(op: Opcode, a: u8, b: u8, t: nat, n: nat)
    requires op !in {Jump, JumpIf, Call, Ret} && a < REGISTER_COUNT && b < REGISTER_COUNT && t < n
    ensures SafeCode([Regs2(op, a, b), JumpIfTo(t)], n)
  {
    SafeJump(t, n);
  }

  lemma SafeJump(t: nat, n: nat)
    requires t < n
    ensures SafeCode([JumpTo(t)], n) && SafeInstruction(JumpIfTo(t), n)
  {
  }

  lemma {:induction false} ExprSafe(env: Env, e: Expr, dest: u8, d: nat, base: nat, n: nat)
    requires ValidEnv(env) && dest < REGISTER_COUNT && base + ExprSize(env, e, dest, d) < n
    ensures SafeCode(ExprCode(env, e, dest, d, base), n)
    decreases e
  {
    hide SafeCode, ValidEnv, ExprCode, ExprSize;
    match e
    case Binary(l, op, r) =>
      if IsCmpOp(op) {
        ComparisonCode(env, e, dest, d, base);
        var size := ExprSize(env, r, Scratch(d), d + 1);
        ExprSafe(env, r, Scratch(d), d + 1, base, n);
        ExprSafe(env, l, Scratch(d + 1), d + 2, base + size, n);
        var tail := [Regs2(CmpOpcode(op), Scratch(d + 1), Scratch(d)), LoadImm(dest, Bool(false)),
                     JumpIfTo(base + ExprSize(env, e, dest, d)), LoadImm(dest, Bool(true))];
        SafeValueOfComparison(op, d, dest, base + ExprSize(env, e, dest, d), n);
        SafeConcat3(ExprCode(env, r, Scratch(d), d + 1, base), ExprCode(env, l, Scratch(d + 1), d + 2, base + size), tail, n);
      } else {
        OperatorCode(env, e, dest, d, base);
        var d' := if IsArithOp(op) then d else d + 1;
        var size := ExprSize(env, l, dest, d');
        ExprSafe(env, l, dest, d', base, n);
        ExprSafe(env, r, Scratch(d), d + 1, base + size, n);
        SafeArith(ArithOpcode(op), dest, Scratch(d), dest, n);
        SafeConcat3(ExprCode(env, l, dest, d', base), ExprCode(env, r, Scratch(d), d + 1, base + size),
                    [Arith3(ArithOpcode(op), dest, Scratch(d), dest)], n);
      }
    case Unary(_, inner) =>
      UnaryCode(env, e, dest, d);
      ExprSafe(env, inner, dest, d, base, n);
      UnarySafe(env, e, dest, d, base, n);
    case ArrayAccess(x, i) =>
      AccessCode(env, e, dest, d, base);
      ExprSafe(env, i, Scratch(d), d + 1, base, n);
      SafeAccess(env, x, dest, d, n);
      SafeConcat(ExprCode(env, i, Scratch(d), d + 1, base), [ElementLoad(dest, RegOf(env, x), Scratch(d))], n);
    case _ =>
      LeafSafe(env, e, dest, d, base, n);
  }

  lemma SafeAccess(env: Env, x: string, r: u8, d: nat, n: nat)
    requires ValidEnv(env) && r < REGISTER_COUNT
    ensures SafeCode([ElementLoad(r, RegOf(env, x), Scratch(d))], n)
    ensures SafeCode([ElementStore(RegOf(env, x), Scratch(d), Scratch(d + 1)), StoreSignal(x, RegOf(env, x))], n)
  {
  }

  lemma SafeValueOfComparison(op: BinOp, d: nat, dest: u8, t: nat, n: nat)
    requires dest < REGISTER_COUNT && t < n
    ensures SafeCode([Regs2(CmpOpcode(op), Scratch(d + 1), Scratch(d)), LoadImm(dest, Bool(false)), JumpIfTo(t), LoadImm(dest, Bool(true))], n)
  {
    SafeJump(t, n);
  }

  lemma UnarySafe(env: Env, e: Expr, dest: u8, d: nat, base: nat, n: nat)
    requires e.Unary? && dest < REGISTER_COUNT && SafeCode(ExprCode(env, e.inner, dest, d, base), n)
    ensures SafeCode(ExprCode(env, e, dest, d, base), n)
  {
    var c := ExprCode(env, e.inner, dest, d, base);
    if e.uop == UNeg {
      SafeConcat(c, [LoadImm(Scratch(d), S32(0)), Arith3(Sub, Scratch(d), dest, dest)], n);
    } else {
      SafeConcat(c, [Arith3(Not, dest, dest, dest)], n);
    }
  }

  lemma LeafSafe(env: Env, e: Expr, dest: u8, d: nat, base: nat, n: nat)
    requires ValidEnv(env) && dest < REGISTER_COUNT && !e.Binary? && !e.Unary? && !e.ArrayAccess?
    ensures SafeCode(ExprCode(env, e, dest, d, base), n)
  {
  }

  lemma SimpleCondSafe(env: Env, e: Expr, base: nat, yes: nat, other: nat, n: nat)
    requires ValidEnv(env) && base + CondSize(env, e) < n && yes < n && other < n
    requires !(e.Binary? && (e.op == OpAnd || e.op == OpOr)) && !(e.Unary? && e.uop == UNot)
    ensures SafeCode(CondCode(env, e, base, yes, other), n)
  {
    hide ExprCode, ExprSize, ValidEnv, SafeCode;
    if e.Binary? && IsCmpOp(e.op) {
      var size := ExprSize(env, e.right, Scratch(0), 1);
      ExprSafe(env, e.right, Scratch(0), 1, base, n);
      ExprSafe(env, e.left, Scratch(1), 2, base + size, n);
      SafeCompareJump(CmpOpcode(e.op), Scratch(1), Scratch(0), yes, n);
      SafeConcat3(ExprCode(env, e.right, Scratch(0), 1, base), ExprCode(env, e.left, Scratch(1), 2, base + size),
                  [Regs2(CmpOpcode(e.op), Scratch(1), Scratch(0)), JumpIfTo(yes)], n);
    } else {
      ValueTestSafe(env, e, base, yes, n);
    }
  }

  lemma {:induction false} CondSafe(env: Env, e: Expr, base: nat, yes: nat, other: nat, n: nat)
    requires ValidEnv(env) && base + CondSize(env, e) < n && yes < n && other < n
    ensures SafeCode(CondCode(env, e, base, yes, other), n)
    decreases e
  {
    hide *;
    match e
    case Binary(l, op, r) =>
      if op == OpAnd || op == OpOr {
        var mid := base + CondSize(env, l);
        CompoundCode(env, l, op, r, base, yes, other);
        if op == OpAnd {
          CondSafe(env, l, base, yes, other, n);
          CondSafe(env, r, mid, yes, other, n);
          SafeConcat(CondCode(env, l, base, yes, other), CondCode(env, r, mid, yes, other), n);
        } else {
          CondSafe(env, l, base, mid + 1, other, n);
          CondSafe(env, r, mid + 1, yes, other, n);
          SafeJump(other, n);
          SafeConcat3(CondCode(env, l, base, mid + 1, other), [JumpTo(other)], CondCode(env, r, mid + 1, yes, other), n);
        }
      } else {
        SimpleCondSafe(env, e, base, yes, other, n);
      }
    case Unary(UNot, inner) =>
      NotCode(env, inner, base, yes, other);
      CondSafe(env, inner, base, other, yes, n);
    case _ =>
      SimpleCondSafe(env, e, base, yes, other, n);
  }

  lemma ValueTestSafe(env: Env, e: Expr, base: nat, yes: nat, n: nat)
    requires ValidEnv(env) && base + ExprSize(env, e, Scratch(0), 1) + 3 < n && yes < n
    ensures SafeCode(ValueTestCode(env, e, base, yes), n)
  {
    hide ExprCode, ExprSize, ValidEnv;
    ExprSafe(env, e, Scratch(0), 1, base, n);
    SafeJump(yes, n);
    SafeConcat(ExprCode(env, e, Scratch(0), 1, base),
               [LoadImm(Scratch(1), Bool(true)), Regs2(Eq, Scratch(0), Scratch(1)), JumpIfTo(yes)], n);
  }

  lemma ArgSafe(env: Env, e: Expr, s: u8, d: nat, base: nat, n: nat)
    requires ValidEnv(env) && s < REGISTER_COUNT && base + ArgSize(env, e, s, d) < n
    ensures SafeCode(ArgCode(env, e, s, d, base), n)
  {
    if !e.Variable? {
      ExprSafe(env, e, s, d, base, n);
    }
  }

  lemma CallSafe(env: Env, x: string, args: seq<Expr>, base: nat, n: nat)
    requires ValidEnv(env) && ShapeOf(env, x, |args|) != GenericCall && base + CallSize(env, x, args) < n
    ensures SafeCode(CallCode(env, x, args, base), n)
  {
    hide ExprCode, ExprSize, ArgCode, ArgSize, ValidEnv;
    ArgSafe(env, args[0], Scratch(0), 1, base, n);
    var size := ArgSize(env, args[0], Scratch(0), 1);
    match ShapeOf(env, x, |args|)
    case CounterCall =>
      if |args| >= 3 {
        ArgSafe(env, args[2], Scratch(1), 2, base + size, n);
      }
    case BistableCall =>
      ArgSafe(env, args[1], Scratch(1), 2, base + size, n);
    case _ =>
  }

  lemma {:induction false} LabelTestsSafe(r: u8, vs: seq<int>, body: nat, n: nat)
    requires r < REGISTER_COUNT && body < n
    ensures SafeCode(LabelTests(r, vs, body), n)
    decreases |vs|
  {
    if vs != [] {
      SafeJump(body, n);
      LabelTestsSafe(r, vs[1..], body, n);
    }
  }

  lemma {:induction false} StmtSafe(env: Env, s: Stmt, base: nat, exit: nat, n: nat)
    requires ValidEnv(env) && NoGenericCalls(env, s) && base + StmtSize(env, s) < n && exit < n
    ensures SafeCode(StmtCode(env, s, base, exit), n)
    decreases s, 1
  {
    hide StmtCode, ValidEnv, SafeCode;
    match s
    case If(_, _, _) => IfSafe(env, s, base, exit, n);
    case While(_, _) => WhileSafe(env, s, base, exit, n);
    case For(_, _, _, _, _) => ForSafe(env, s, base, exit, n);
    case Case(x, cs) => CaseSafe(env, s, base, exit, n);
    case Repeat(_, _) => RepeatSafe(env, s, base, exit, n);
    case _ => SimpleStmtSafe(env, s, base, exit, n);
  }

  lemma SimpleStmtSafe(env: Env, s: Stmt, base: nat, exit: nat, n: nat)
    requires s.Assign? || s.ArrayAssign? || s.Return? || s.Exit? || s.FunCall?
    requires ValidEnv(env) && NoGenericCalls(env, s) && base + StmtSize(env, s) < n && exit < n
    ensures SafeCode(StmtCode(env, s, base, exit), n)
  {
    hide ExprCode, ExprSize, CallCode, CallSize, ValidEnv, SafeCode;
    RegisterExists(env);
    match s
    case Assign(x, e) =>
      var r := RegOf(env, x);
      ExprSafe(env, e, r, 0, base, n);
      SafeStore(x, r, n);
      SafeConcat(ExprCode(env, e, r, 0, base), [StoreSignal(x, r)], n);
    case ArrayAssign(x, i, e) =>
      var size := ExprSize(env, i, Scratch(0), 1);
      ExprSafe(env, i, Scratch(0), 1, base, n);
      ExprSafe(env, e, Scratch(1), 2, base + size, n);
      SafeAccess(env, x, 0, 0, n);
      SafeConcat3(ExprCode(env, i, Scratch(0), 1, base), ExprCode(env, e, Scratch(1), 2, base + size),
                  [ElementStore(RegOf(env, x), Scratch(0), Scratch(1)), StoreSignal(x, RegOf(env, x))], n);
    case Return => SafeHalt(n);
    case Exit => SafeJump(exit, n);
    case FunCall(x, args) => CallSafe(env, x, args, base, n);
  }

  lemma IfShape(env: Env, s: Stmt, base: nat, exit: nat)
    requires s.If?
    ensures var thenStart := base + CondSize(env, s.cond) + 1;
            var elseStart := thenStart + BlockSize(env, s.thenBody) + 1;
            && base + StmtSize(env, s) == elseStart + BlockSize(env, s.elseBody)
            && (NoGenericCalls(env, s) ==> NoGenericCallsIn(env, s.thenBody) && NoGenericCallsIn(env, s.elseBody))
            && StmtCode(env, s, base, exit) == CondCode(env, s.cond, base, thenStart, thenStart) + [JumpTo(elseStart)]
                 + BlockCode(env, s.thenBody, thenStart, exit) + [JumpTo(base + StmtSize(env, s))] + BlockCode(env, s.elseBody, elseStart, exit)
  {
    hide CondCode, CondSize, BlockCode, BlockSize;
  }

  lemma WhileShape(env: Env, s: Stmt, base: nat, exit: nat)
    requires s.While?
    ensures var bodyStart, end := base + CondSize(env, s.cond) + 1, base + StmtSize(env, s);
            && end == bodyStart + BlockSize(env, s.body) + 1
            && StmtCode(env, s, base, exit) == CondCode(env, s.cond, base, bodyStart, 0) + [JumpTo(end)] + BlockCode(env, s.body, bodyStart, end) + [JumpTo(base)]
  {
    hide CondCode, CondSize, BlockCode, BlockSize;
  }

  lemma {:induction false} IfSafe(env: Env, s: Stmt, base: nat, exit: nat, n: nat)
    requires s.If? && ValidEnv(env) && NoGenericCalls(env, s) && base + StmtSize(env, s) < n && exit < n
    ensures SafeCode(StmtCode(env, s, base, exit), n)
    decreases s, 0
  {
    hide *;
    IfShape(env, s, base, exit);
    var thenStart := base + CondSize(env, s.cond) + 1;
    var elseStart := thenStart + BlockSize(env, s.thenBody) + 1;
    CondSafe(env, s.cond, base, thenStart, thenStart, n);
    BlockSafe(env, s.thenBody, thenStart, exit, n);
    BlockSafe(env, s.elseBody, elseStart, exit, n);
    SafeJump(elseStart, n);
    SafeJump(base + StmtSize(env, s), n);
    SafeConcat5(CondCode(env, s.cond, base, thenStart, thenStart), [JumpTo(elseStart)], BlockCode(env, s.thenBody, thenStart, exit),
                [JumpTo(base + StmtSize(env, s))], BlockCode(env, s.elseBody, elseStart, exit), n);
  }

  lemma {:induction false} WhileSafe(env: Env, s: Stmt, base: nat, exit: nat, n: nat)
    requires s.While? && ValidEnv(env) && NoGenericCalls(env, s) && base + StmtSize(env, s) < n && exit < n
    ensures SafeCode(StmtCode(env, s, base, exit), n)
    decreases s, 0
  {
    hide CondCode, CondSize, BlockCode, BlockSize, ValidEnv, SafeCode, StmtCode, StmtSize;
    WhileShape(env, s, base, exit);
    var bodyStart, end := base + CondSize(env, s.cond) + 1, base + StmtSize(env, s);
    CondSafe(env, s.cond, base, bodyStart, 0, n);
    BlockSafe(env, s.body, bodyStart, end, n);
    SafeJump(end, n);
    SafeJump(base, n);
    var head := CondCode(env, s.cond, base, bodyStart, 0) + [JumpTo(end)] + BlockCode(env, s.body, bodyStart, end);
    SafeConcat3(CondCode(env, s.cond, base, bodyStart, 0), [JumpTo(end)], BlockCode(env, s.body, bodyStart, end), n);
    SafeConcat(head, [JumpTo(base)], n);
  }

  lemma {:induction false} RepeatSafe(env: Env, s: Stmt, base: nat, exit: nat, n: nat)
    requires s.Repeat? && ValidEnv(env) && NoGenericCalls(env, s) && base + StmtSize(env, s) < n && exit < n
    ensures SafeCode(StmtCode(env, s, base, exit), n)
    decreases s, 0
  {
    hide CondCode, CondSize, BlockCode, BlockSize, ValidEnv, SafeCode;
    var mid, end := base + BlockSize(env, s.body), base + StmtSize(env, s);
    BlockSafe(env, s.body, base, end, n);
    CondSafe(env, s.cond, mid, end, 0, n);
    SafeJump(base, n);
    SafeConcat3(BlockCode(env, s.body, base, end), CondCode(env, s.cond, mid, end, 0), [JumpTo(base)], n);
  }

  lemma {:induction false} CaseSafe(env: Env, s: Stmt, base: nat, exit: nat, n: nat)
    requires s.Case? && ValidEnv(env) && NoGenericCalls(env, s) && base + StmtSize(env, s) < n && exit < n
    ensures SafeCode(StmtCode(env, s, base, exit), n)
    decreases s, 0
  {
    hide CasesCode, CasesSize, ValidEnv, SafeCode;
    RegisterExists(env);
    CasesSafe(env, RegOf(env, s.variable), s.cases, base, base + StmtSize(env, s), exit, n);
  }

  lemma SafeHalt(n: nat)
    ensures SafeCode([HALT], n)
  {
  }

  lemma SafeStore(x: string, r: u8, n: nat)
    requires r < REGISTER_COUNT
    ensures SafeCode([StoreSignal(x, r)], n)
  {
  }

  lemma RegisterExists(env: Env)
    requires ValidEnv(env)
    ensures forall x :: RegOf(env, x) < REGISTER_COUNT
  {
  }

  lemma StepSafe(env: Env, step: Option<Expr>, base: nat, n: nat)
    requires ValidEnv(env) && base + StepSize(env, step) < n
    ensures SafeCode(StepCode(env, step, base), n)
  {
    if step.Some? {
      ExprSafe(env, step.value, Scratch(0), 1, base, n);
    }
  }

  lemma SafeAdvance(r: u8, loop: nat, n: nat)
    requires r < REGISTER_COUNT && loop < n
    ensures SafeCode([Arith3(Add, r, Scratch(0), r), JumpTo(loop)], n)
  {
    SafeJump(loop, n);
  }

  lemma {:induction false} ForSafe(env: Env, s: Stmt, base: nat, exit: nat, n: nat)
    requires s.For? && ValidEnv(env) && NoGenericCalls(env, s) && base + StmtSize(env, s) < n && exit < n
    ensures SafeCode(StmtCode(env, s, base, exit), n)
    decreases s, 0
  {
    hide ExprCode, ExprSize, BlockCode, BlockSize, ValidEnv, RegOf, SafeCode;
    RegisterExists(env);
    var r, end := RegOf(env, s.variable), base + StmtSize(env, s);
    var loop := base + ExprSize(env, s.start, r, 0);
    var bodyStart := loop + ExprSize(env, s.end, Scratch(0), 1) + 2;
    ExprSafe(env, s.start, r, 0, base, n);
    ExprSafe(env, s.end, Scratch(0), 1, loop, n);
    BlockSafe(env, s.body, bodyStart, end, n);
    var bodyEnd := bodyStart + BlockSize(env, s.body);
    StepSafe(env, s.step, bodyEnd, n);
    SafeCompareJump(Gt, r, Scratch(0), end, n);
    SafeAdvance(r, loop, n);
    var head := ExprCode(env, s.start, r, 0, base) + ExprCode(env, s.end, Scratch(0), 1, loop)
                + [Regs2(Gt, r, Scratch(0)), JumpIfTo(end)];
    SafeConcat3(ExprCode(env, s.start, r, 0, base), ExprCode(env, s.end, Scratch(0), 1, loop),
                [Regs2(Gt, r, Scratch(0)), JumpIfTo(end)], n);
    SafeConcat3(head, BlockCode(env, s.body, bodyStart, end), StepCode(env, s.step, bodyEnd), n);
    SafeConcat(head + BlockCode(env, s.body, bodyStart, end) + StepCode(env, s.step, bodyEnd),
               [Arith3(Add, r, Scratch(0), r), JumpTo(loop)], n);
  }

  lemma {:induction false} BlockSafe(env: Env, b: Block, base: nat, exit: nat, n: nat)
    requires ValidEnv(env) && NoGenericCallsIn(env, b) && base + BlockSize(env, b) < n && exit < n
    ensures SafeCode(BlockCode(env, b, base, exit), n)
    decreases b
  {
    hide StmtCode, StmtSize, ValidEnv;
    if b.Cons? {
      StmtSafe(env, b.head, base, exit, n);
      BlockSafe(env, b.tail, base + StmtSize(env, b.head), exit, n);
    }
  }

  lemma NoCallsParts(env: Env, cs: Cases)
    requires NoGenericCallsInCases(env, cs)
    ensures NoGenericCallsIn(env, cs.body) && (cs.Branch? ==> NoGenericCallsInCases(env, cs.rest))
  {
  }

  lemma {:induction false} CasesSafe(env: Env, r: u8, cs: Cases, base: nat, end: nat, exit: nat, n: nat)
    requires ValidEnv(env) && NoGenericCallsInCases(env, cs) && r < REGISTER_COUNT
    requires base + CasesSize(env, cs) < n && end < n && exit < n
    ensures SafeCode(CasesCode(env, r, cs, base, end, exit), n)
    decreases cs
  {
    hide *;
    NoCallsParts(env, cs);
    if cs.Else? {
      ElseCode(env, r, cs, base, end, exit);
      BlockSafe(env, cs.body, base, exit, n);
    } else {
      BranchCode(env, r, cs, base, end, exit);
      var bodyStart := base + 3 * |cs.values| + 1;
      var next := bodyStart + BlockSize(env, cs.body) + 1;
      LabelTestsSafe(r, cs.values, bodyStart, n);
      SafeJump(next, n);
      BlockSafe(env, cs.body, bodyStart, exit, n);
      SafeJump(end, n);
      CasesSafe(env, r, cs.rest, next, end, exit, n);
      SafeConcat5(LabelTests(r, cs.values, bodyStart), [JumpTo(next)], BlockCode(env, cs.body, bodyStart, exit), [JumpTo(end)],
                  CasesCode(env, r, cs.rest, next, end, exit), n);
    }
  }

  /** Every compiled program without generic calls is safe. */
  lemma CompiledProgramSafe(env: Env, body: Block)
    requires ValidEnv(env) && NoGenericCallsIn(env, body)
    ensures SafeProgram(ProgramCode(env, body))
  {
    var code := BlockCode(env, body, 0, 0);
    var n := |code| + 1;
    BlockSafe(env, body, 0, 0, n);
    SafeHalt(n);
    SafeConcat(code, [HALT], n);
    hide SafeCode, BlockCode, BlockSize;
  }

  /** No run of it, from any machine state and of any length, trips the bounds checks on instructions
      or registers; it aborts only on a division or an array access that it contains. */
  lemma CompiledRunsStayInBounds(env: Env, body: Block, vm: Vm, k: nat)
    requires ValidEnv(env) && NoGenericCallsIn(env, body) && vm.ip < |ProgramCode(env, body)|
    ensures var r := Run(ProgramCode(env, body), vm, k); r.Faulted? ==> SomeRaises(ProgramCode(env, body), r.fault)
  {
    hide Run, ProgramCode;
    CompiledProgramSafe(env, body);
    SafeRun(ProgramCode(env, body), vm, k);
  }

  /** ARRAY variables do not work: nothing ever gives their registers elements. In every run of a
      compiled program from a machine without arrays, such as a fresh one, an assignment to an element
      leaves all registers as they are, and an element reads as zero; or the access aborts. */
  lemma ArrayElementsAreLost(env: Env, body: Block, vm: Vm, k: nat, a: u8, i: u8, r: u8)
    requires ValidEnv(env) && NoGenericCallsIn(env, body) && vm.ip < |ProgramCode(env, body)| && ArrayFree(vm)
    requires Run(ProgramCode(env, body), vm, k).Running? && a < REGISTER_COUNT && i < REGISTER_COUNT && r < REGISTER_COUNT
    ensures var now := Run(ProgramCode(env, body), vm, k).vm;
            && Execute(now, ElementStore(a, i, r)) in {Running(now), Faulted(SliceOutOfRange)}
            && Execute(now, ElementLoad(r, a, i)) in {Running(SetReg(now, r, Arrays.Zero(Arrays.TypeTag(now.regs[a])))), Faulted(SliceOutOfRange)}
  {
    hide Run, ProgramCode;
    CompiledProgramSafe(env, body);
    RunKeepsArrayFree(ProgramCode(env, body), vm, k);
    EmptyAccess(Run(ProgramCode(env, body), vm, k).vm, a, i, r);
  }

  lemma EmptyAccess(vm: Vm, a: u8, i: u8, r: u8)
    requires ArrayFree(vm) && a < REGISTER_COUNT && i < REGISTER_COUNT && r < REGISTER_COUNT
    ensures Execute(vm, ElementStore(a, i, r)) in {Running(vm), Faulted(SliceOutOfRange)}
    ensures Execute(vm, ElementLoad(r, a, i)) in {Running(SetReg(vm, r, Arrays.Zero(Arrays.TypeTag(vm.regs[a])))), Faulted(SliceOutOfRange)}
  {
    hide Arrays.SetIndex, Arrays.Index, Arrays.AsIndex, Arrays.Zero, Arrays.TypeTag;
    var v, at := vm.regs[a], Arrays.AsIndex(vm.regs[i]);
    EmptyArrayKept(v, at, vm.regs[r]);
    EmptyArrayReads(v, at);
    assert vm.regs[a := v] == vm.regs;
  }

  lemma EmptyArrayReads(v: Value, i: u64)
    requires NoElements(v)
    ensures Arrays.Index(v, i) in {Arrays.Got(Arrays.Zero(Arrays.TypeTag(v))), Arrays.BadSlice}
  {
    hide Arrays.Element;
  }

  lemma FreshMachineIsArrayFree(vm: Vm)
    ensures ArrayFree(NewVm()) && ArrayFree(Reset(vm))
  {
  }
}
