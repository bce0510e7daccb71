/**
 Function blocks in compiled Structured Text: every block instruction of a program comes
 from a call of a block variable and carries the kind of its declared type, so that in
 every run of the program each variable is the block it is declared to be. And what
 reading a field of a block variable gives.
 */
module StBlocks {
  import opened Options
  import opened Values
  import opened Blocks
  import opened Machine
  import opened StSyntax
  import opened StCode
  import opened BlockHistory
  import opened BlockMachine
  import opened BlockReadings
  import StSafety
  import StScratch

  /** A call of a variable with its arguments. */
  type Call = (string, seq<Expr>)

  function CallsOf(s: Stmt): set<Call> {
    match s
    case If(_, t, f) => CallsIn(t) + CallsIn(f)
    case While(_, b) => CallsIn(b)
    case For(_, _, _, _, b) => CallsIn(b)
    case Case(_, cs) => CallsInCases(cs)
    case Repeat(b, _) => CallsIn(b)
    case FunCall(x, args) => {(x, args)}
    case _ => {}
  }

  function CallsIn(b: Block): set<Call> {
    match b
    case Nil => {}
    case Cons(s, rest) => CallsOf(s) + CallsIn(rest)
  }

  function CallsInCases(cs: Cases): set<Call> {
    match cs
    case Else(b) => CallsIn(b)
    case Branch(_, b, rest) => CallsIn(b) + CallsInCases(rest)
  }

  predicate Scans(op: Opcode) { op == TimerRun || op == CounterRun || op == SrRun || op == EdgeRun }

  /** The block instruction of a call. */
  function ScanOf(env: Env, x: string, args: seq<Expr>): Instruction
    requires ShapeOf(env, x, |args|) != GenericCall
  {
    var i, kind := Immediate(U32(RegOf(env, x))), Immediate(U32(KindCode(env.types[x])));
    match ShapeOf(env, x, |args|)
    case TimerCall => Instruction(TimerRun, [i, Register(Scratch(0)), Immediate(U32(LiteralU32(args[1]))), kind])
    case CounterCall => Instruction(CounterRun, [i, Register(Scratch(0)), Register(Scratch(1)), Immediate(U32(LiteralU32(args[1]))), kind])
    case BistableCall => Instruction(SrRun, [i, Register(Scratch(0)), Register(Scratch(1)), kind])
    case EdgeCall => Instruction(EdgeRun, [i, Register(Scratch(0)), kind])
  }

  ghost predicate FromCall(env: Env, calls: set<Call>, inst: Instruction) {
    Scans(inst.opcode) ==> exists c :: c in calls && ShapeOf(env, c.0, |c.1|) != GenericCall && inst == ScanOf(env, c.0, c.1)
  }

  /** Every block instruction is the one of some of the calls. */
  ghost predicate FromCalls(env: Env, calls: set<Call>, code: seq<Instruction>) {
    forall i :: 0 <= i < |code| ==> FromCall(env, calls, code[i])
  }

  /** Without block instructions. */
  predicate Quiet(code: seq<Instruction>) { forall i :: 0 <= i < |code| ==> !Scans(code[i].opcode) }

  lemma QuietFromCalls(env: Env, calls: set<Call>, code: seq<Instruction>)
    requires Quiet(code)
    ensures FromCalls(env, calls, code)
  {
  }

  lemma MoreCalls(env: Env, calls: set<Call>, more: set<Call>, code: seq<Instruction>)
    requires FromCalls(env, calls, code) && calls <= more
    ensures FromCalls(env, more, code)
  {
    hide ScanOf;
    forall i | 0 <= i < |code|
      ensures FromCall(env, more, code[i])
    {
      assert FromCall(env, calls, code[i]);
    }
  }

  lemma FromCallsConcat(env: Env, calls: set<Call>, a: seq<Instruction>, b: seq<Instruction>)
    requires FromCalls(env, calls, a) && FromCalls(env, calls, b)
    ensures FromCalls(env, calls, a + b)
  {
    hide FromCall;
  }

  lemma QuietConcat(a: seq<Instruction>, b: seq<Instruction>)
    requires Quiet(a) && Quiet(b)
    ensures Quiet(a + b)
  {
  }

  // ----- expressions and conditions scan nothing -----

  lemma {:induction false} ExprQuiet(env: Env, e: Expr, dest: u8, d: nat, base: nat)
    ensures Quiet(ExprCode(env, e, dest, d, base))
    decreases e
  {
    hide *;
    match e
    case Binary(l, op, r) =>
      if IsCmpOp(op) {
        ComparisonCode(env, e, dest, d, base);
        var mid := base + ExprSize(env, r, Scratch(d), d + 1);
        ExprQuiet(env, r, Scratch(d), d + 1, base);
        ExprQuiet(env, l, Scratch(d + 1), d + 2, mid);
        QuietConcat(ExprCode(env, r, Scratch(d), d + 1, base), ExprCode(env, l, Scratch(d + 1), d + 2, mid));
        QuietComparison(op, dest, d, base + ExprSize(env, e, dest, d));
        QuietConcat(ExprCode(env, r, Scratch(d), d + 1, base) + ExprCode(env, l, Scratch(d + 1), d + 2, mid),
                    [Regs2(CmpOpcode(op), Scratch(d + 1), Scratch(d)), LoadImm(dest, Bool(false)), JumpIfTo(base + ExprSize(env, e, dest, d)), LoadImm(dest, Bool(true))]);
      } else {
        OperatorCode(env, e, dest, d, base);
        var d' := if IsArithOp(op) then d else d + 1;
        var mid := base + ExprSize(env, l, dest, d');
        ExprQuiet(env, l, dest, d', base);
        ExprQuiet(env, r, Scratch(d), d + 1, mid);
        QuietConcat(ExprCode(env, l, dest, d', base), ExprCode(env, r, Scratch(d), d + 1, mid));
        QuietOperator(op, dest, d);
        QuietConcat(ExprCode(env, l, dest, d', base) + ExprCode(env, r, Scratch(d), d + 1, mid), [Arith3(ArithOpcode(op), dest, Scratch(d), dest)]);
      }
    case Unary(uop, inner) =>
      StScratch.UnaryShape(env, e, dest, d, base);
      ExprQuiet(env, inner, dest, d, base);
      QuietUnary(uop, dest, d);
      QuietConcat(ExprCode(env, inner, dest, d, base), StScratch.UnaryTail(uop, dest, d));
    case ArrayAccess(x, i) =>
      AccessCode(env, e, dest, d, base);
      ExprQuiet(env, i, Scratch(d), d + 1, base);
      QuietAccess(dest, RegOf(env, x), d);
      QuietConcat(ExprCode(env, i, Scratch(d), d + 1, base), [ElementLoad(dest, RegOf(env, x), Scratch(d))]);
    case _ =>
      QuietLeaf(env, e, dest, d, base);
  }

  lemma QuietComparison(op: BinOp, dest: u8, d: nat, t: nat)
    ensures Quiet([Regs2(CmpOpcode(op), Scratch(d + 1), Scratch(d)), LoadImm(dest, Bool(false)), JumpIfTo(t), LoadImm(dest, Bool(true))])
    ensures Quiet([Regs2(CmpOpcode(op), Scratch(1), Scratch(0)), JumpIfTo(t)])
    ensures Quiet([LoadImm(Scratch(1), Bool(true)), Regs2(Eq, Scratch(0), Scratch(1)), JumpIfTo(t)])
  {
  }

  lemma QuietOperator(op: BinOp, dest: u8, d: nat)
    ensures Quiet([Arith3(ArithOpcode(op), dest, Scratch(d), dest)])
  {
  }

  lemma QuietUnary(op: UnaryOp, dest: u8, d: nat)
    ensures Quiet(StScratch.UnaryTail(op, dest, d))
  {
  }

  lemma QuietAccess(dest: u8, a: u8, d: nat)
    ensures Quiet([ElementLoad(dest, a, Scratch(d))])
  {
  }

  lemma QuietLeaf(env: Env, e: Expr, dest: u8, d: nat, base: nat)
    requires !e.Binary? && !e.Unary? && !e.ArrayAccess?
    ensures Quiet(ExprCode(env, e, dest, d, base))
  {
  }

  lemma QuietJump(t: nat)
    ensures Quiet([JumpTo(t)])
  {
  }

  lemma {:induction false} CondQuiet(env: Env, e: Expr, base: nat, yes: nat, other: nat)
    ensures Quiet(CondCode(env, e, base, yes, other))
    decreases e
  {
    hide *;
    match e
    case Binary(l, op, r) =>
      if op == OpAnd || op == OpOr {
        var mid := base + CondSize(env, l);
        CompoundCode(env, l, op, r, base, yes, other);
        if op == OpAnd {
          CondQuiet(env, l, base, yes, other);
          CondQuiet(env, r, mid, yes, other);
          QuietConcat(CondCode(env, l, base, yes, other), CondCode(env, r, mid, yes, other));
        } else {
          CondQuiet(env, l, base, mid + 1, other);
          CondQuiet(env, r, mid + 1, yes, other);
          QuietJump(other);
          QuietConcat(CondCode(env, l, base, mid + 1, other), [JumpTo(other)]);
          QuietConcat(CondCode(env, l, base, mid + 1, other) + [JumpTo(other)], CondCode(env, r, mid + 1, yes, other));
        }
      } else {
        SimpleCondQuiet(env, e, base, yes, other);
      }
    case Unary(UNot, inner) =>
      NotCode(env, inner, base, yes, other);
      CondQuiet(env, inner, base, other, yes);
    case _ =>
      SimpleCondQuiet(env, e, base, yes, other);
  }

  lemma {:induction false} SimpleCondQuiet(env: Env, e: Expr, base: nat, yes: nat, other: nat)
    requires !(e.Binary? && (e.op == OpAnd || e.op == OpOr)) && !(e.Unary? && e.uop == UNot)
    ensures Quiet(CondCode(env, e, base, yes, other))
  {
    hide ExprCode, ExprSize, Quiet;
    if e.Binary? && IsCmpOp(e.op) {
      var size := ExprSize(env, e.right, Scratch(0), 1);
      ExprQuiet(env, e.right, Scratch(0), 1, base);
      ExprQuiet(env, e.left, Scratch(1), 2, base + size);
      QuietComparison(e.op, 0, 0, yes);
      QuietConcat(ExprCode(env, e.right, Scratch(0), 1, base), ExprCode(env, e.left, Scratch(1), 2, base + size));
      QuietConcat(ExprCode(env, e.right, Scratch(0), 1, base) + ExprCode(env, e.left, Scratch(1), 2, base + size),
                  [Regs2(CmpOpcode(e.op), Scratch(1), Scratch(0)), JumpIfTo(yes)]);
    } else {
      ExprQuiet(env, e, Scratch(0), 1, base);
      QuietComparison(OpEq, 0, 0, yes);
      QuietConcat(ExprCode(env, e, Scratch(0), 1, base),
                  [LoadImm(Scratch(1), Bool(true)), Regs2(Eq, Scratch(0), Scratch(1)), JumpIfTo(yes)]);
    }
  }

  lemma ArgQuiet(env: Env, e: Expr, s: u8, d: nat, base: nat)
    ensures Quiet(ArgCode(env, e, s, d, base))
  {
    hide ExprCode;
    if !e.Variable? {
      ExprQuiet(env, e, s, d, base);
    }
  }

  lemma {:induction false} GenericArgsQuiet(env: Env, args: seq<Expr>, i: nat, base: nat)
    requires i <= |args|
    ensures Quiet(GenericArgsCode(env, args, i, base))
    decreases |args| - i
  {
    hide ExprCode, Quiet;
    if i < |args| && i < 4 {
      ExprQuiet(env, args[i], i, 0, base);
      GenericArgsQuiet(env, args, i + 1, base + ExprSize(env, args[i], i, 0));
      QuietConcat(ExprCode(env, args[i], i, 0, base), GenericArgsCode(env, args, i + 1, base + ExprSize(env, args[i], i, 0)));
    } else {
      QuietNothing();
    }
  }

  lemma QuietNothing()
    ensures Quiet([])
  {
  }

  // ----- statements scan what they call -----

  /** The code of a block call: its inputs, then its block instruction. */
  lemma CallShapeCode(env: Env, x: string, args: seq<Expr>, base: nat) returns (inputs: seq<Instruction>)
    requires ShapeOf(env, x, |args|) != GenericCall
    ensures Quiet(inputs) && CallCode(env, x, args, base) == inputs + [ScanOf(env, x, args)]
  {
    hide ArgCode, ArgSize, Quiet;
    ArgQuiet(env, args[0], Scratch(0), 1, base);
    var size := ArgSize(env, args[0], Scratch(0), 1);
    inputs := ArgCode(env, args[0], Scratch(0), 1, base);
    match ShapeOf(env, x, |args|)
    case CounterCall =>
      if |args| >= 3 {
        ArgQuiet(env, args[2], Scratch(1), 2, base + size);
        QuietConcat(inputs, ArgCode(env, args[2], Scratch(1), 2, base + size));
        inputs := inputs + ArgCode(env, args[2], Scratch(1), 2, base + size);
      } else {
        QuietLoad();
        QuietConcat(inputs, [LoadImm(Scratch(1), Bool(false))]);
        inputs := inputs + [LoadImm(Scratch(1), Bool(false))];
      }
    case BistableCall =>
      ArgQuiet(env, args[1], Scratch(1), 2, base + size);
      QuietConcat(inputs, ArgCode(env, args[1], Scratch(1), 2, base + size));
      inputs := inputs + ArgCode(env, args[1], Scratch(1), 2, base + size);
    case _ =>
  }

  lemma QuietLoad()
    ensures Quiet([LoadImm(Scratch(1), Bool(false))])
  {
  }

  lemma CallFrom(env: Env, x: string, args: seq<Expr>, base: nat)
    ensures FromCalls(env, {(x, args)}, CallCode(env, x, args, base))
  {
    hide CallCode, ScanOf, Quiet, FromCalls, GenericArgsCode;
    var calls := {(x, args)};
    if ShapeOf(env, x, |args|) == GenericCall {
      GenericArgsQuiet(env, args, 0, base);
      GenericCallCode(env, x, args, base);
      QuietCall();
      QuietConcat(GenericArgsCode(env, args, 0, base), [CallTo(0)]);
      QuietFromCalls(env, calls, CallCode(env, x, args, base));
    } else {
      var inputs := CallShapeCode(env, x, args, base);
      QuietFromCalls(env, calls, inputs);
      OneScan(env, x, args);
      FromCallsConcat(env, calls, inputs, [ScanOf(env, x, args)]);
    }
  }

  lemma OneScan(env: Env, x: string, args: seq<Expr>)
    requires ShapeOf(env, x, |args|) != GenericCall
    ensures FromCalls(env, {(x, args)}, [ScanOf(env, x, args)])
  {
    hide ScanOf;
    assert (x, args) in {(x, args)};
  }

  lemma {:induction false} GenericCallCode(env: Env, x: string, args: seq<Expr>, base: nat)
    requires ShapeOf(env, x, |args|) == GenericCall
    ensures CallCode(env, x, args, base) == GenericArgsCode(env, args, 0, base) + [CallTo(0)]
  {
    hide GenericArgsCode;
  }

  lemma QuietCall()
    ensures Quiet([CallTo(0)])
  {
  }

  lemma {:induction false} StmtFrom(env: Env, s: Stmt, base: nat, exit: nat)
    ensures FromCalls(env, CallsOf(s), StmtCode(env, s, base, exit))
    decreases s, 1
  {
    hide StmtCode, FromCalls, CallsOf;
    match s
    case If(_, _, _) => IfFrom(env, s, base, exit);
    case While(_, _) => WhileFrom(env, s, base, exit);
    case For(_, _, _, _, _) => ForFrom(env, s, base, exit);
    case Case(_, _) => CaseFrom(env, s, base, exit);
    case Repeat(_, _) => RepeatFrom(env, s, base, exit);
    case _ => SimpleFrom(env, s, base, exit);
  }

  lemma {:induction false} SimpleFrom(env: Env, s: Stmt, base: nat, exit: nat)
    requires s.Assign? || s.ArrayAssign? || s.Return? || s.Exit? || s.FunCall?
    ensures FromCalls(env, CallsOf(s), StmtCode(env, s, base, exit))
  {
    hide ExprCode, ExprSize, CallCode, CallSize, FromCalls, Quiet, RegOf;
    match s
    case Assign(x, e) =>
      ExprQuiet(env, e, RegOf(env, x), 0, base);
      QuietStore(x, RegOf(env, x), 0, 0, exit);
      QuietConcat(ExprCode(env, e, RegOf(env, x), 0, base), [StoreSignal(x, RegOf(env, x))]);
      QuietFromCalls(env, {}, StmtCode(env, s, base, exit));
    case ArrayAssign(x, i, e) =>
      var size := ExprSize(env, i, Scratch(0), 1);
      ExprQuiet(env, i, Scratch(0), 1, base);
      ExprQuiet(env, e, Scratch(1), 2, base + size);
      QuietStore(x, RegOf(env, x), Scratch(0), Scratch(1), exit);
      QuietConcat(ExprCode(env, i, Scratch(0), 1, base), ExprCode(env, e, Scratch(1), 2, base + size));
      QuietConcat(ExprCode(env, i, Scratch(0), 1, base) + ExprCode(env, e, Scratch(1), 2, base + size),
                  [ElementStore(RegOf(env, x), Scratch(0), Scratch(1)), StoreSignal(x, RegOf(env, x))]);
      QuietFromCalls(env, {}, StmtCode(env, s, base, exit));
    case FunCall(x, args) =>
      CallFrom(env, x, args, base);
    case Return =>
      QuietStore("", 0, 0, 0, exit);
      QuietFromCalls(env, {}, StmtCode(env, s, base, exit));
    case Exit =>
      QuietStore("", 0, 0, 0, exit);
      QuietFromCalls(env, {}, StmtCode(env, s, base, exit));
  }

  lemma QuietStore(x: string, r: u8, a: u8, b: u8, t: nat)
    ensures Quiet([StoreSignal(x, r)]) && Quiet([ElementStore(r, a, b), StoreSignal(x, r)]) && Quiet([HALT]) && Quiet([JumpTo(t)])
  {
  }

  lemma CallsOfParts(s: Stmt)
    ensures s.If? ==> CallsIn(s.thenBody) <= CallsOf(s) && CallsIn(s.elseBody) <= CallsOf(s)
    ensures s.While? || s.For? || s.Repeat? ==> CallsIn(s.body) == CallsOf(s)
    ensures s.Case? ==> CallsInCases(s.cases) == CallsOf(s)
  {
  }

  lemma {:induction false} IfFrom(env: Env, s: Stmt, base: nat, exit: nat)
    requires s.If?
    ensures FromCalls(env, CallsOf(s), StmtCode(env, s, base, exit))
    decreases s, 0
  {
    hide *;
    StSafety.IfShape(env, s, base, exit);
    CallsOfParts(s);
    var calls := CallsOf(s);
    var thenStart := base + CondSize(env, s.cond) + 1;
    var elseStart := thenStart + BlockSize(env, s.thenBody) + 1;
    var cond, t, f := CondCode(env, s.cond, base, thenStart, thenStart), BlockCode(env, s.thenBody, thenStart, exit), BlockCode(env, s.elseBody, elseStart, exit);
    CondQuiet(env, s.cond, base, thenStart, thenStart);
    QuietJump(elseStart);
    QuietConcat(cond, [JumpTo(elseStart)]);
    QuietFromCalls(env, calls, cond + [JumpTo(elseStart)]);
    BlockFrom(env, s.thenBody, thenStart, exit);
    MoreCalls(env, CallsIn(s.thenBody), calls, t);
    FromCallsConcat(env, calls, cond + [JumpTo(elseStart)], t);
    QuietJump(base + StmtSize(env, s));
    QuietFromCalls(env, calls, [JumpTo(base + StmtSize(env, s))]);
    FromCallsConcat(env, calls, cond + [JumpTo(elseStart)] + t, [JumpTo(base + StmtSize(env, s))]);
    BlockFrom(env, s.elseBody, elseStart, exit);
    MoreCalls(env, CallsIn(s.elseBody), calls, f);
    FromCallsConcat(env, calls, cond + [JumpTo(elseStart)] + t + [JumpTo(base + StmtSize(env, s))], f);
  }

  lemma {:induction false} WhileFrom(env: Env, s: Stmt, base: nat, exit: nat)
    requires s.While?
    ensures FromCalls(env, CallsOf(s), StmtCode(env, s, base, exit))
    decreases s, 0
  {
    hide *;
    StSafety.WhileShape(env, s, base, exit);
    CallsOfParts(s);
    var calls := CallsOf(s);
    var bodyStart, end := base + CondSize(env, s.cond) + 1, base + StmtSize(env, s);
    var cond, body := CondCode(env, s.cond, base, bodyStart, 0), BlockCode(env, s.body, bodyStart, end);
    CondQuiet(env, s.cond, base, bodyStart, 0);
    QuietJump(end);
    QuietConcat(cond, [JumpTo(end)]);
    QuietFromCalls(env, calls, cond + [JumpTo(end)]);
    BlockFrom(env, s.body, bodyStart, end);
    FromCallsConcat(env, calls, cond + [JumpTo(end)], body);
    QuietJump(base);
    QuietFromCalls(env, calls, [JumpTo(base)]);
    FromCallsConcat(env, calls, cond + [JumpTo(end)] + body, [JumpTo(base)]);
  }

  lemma {:induction false} RepeatShape(env: Env, s: Stmt, base: nat, exit: nat)
    requires s.Repeat?
    ensures var mid, end := base + BlockSize(env, s.body), base + StmtSize(env, s);
            StmtCode(env, s, base, exit) == BlockCode(env, s.body, base, end) + CondCode(env, s.cond, mid, end, 0) + [JumpTo(base)]
  {
    hide CondCode, CondSize, BlockCode, BlockSize;
  }

  lemma {:induction false} RepeatFrom(env: Env, s: Stmt, base: nat, exit: nat)
    requires s.Repeat?
    ensures FromCalls(env, CallsOf(s), StmtCode(env, s, base, exit))
    decreases s, 0
  {
    hide *;
    RepeatShape(env, s, base, exit);
    CallsOfParts(s);
    var calls := CallsOf(s);
    var mid, end := base + BlockSize(env, s.body), base + StmtSize(env, s);
    var body, cond := BlockCode(env, s.body, base, end), CondCode(env, s.cond, mid, end, 0);
    BlockFrom(env, s.body, base, end);
    CondQuiet(env, s.cond, mid, end, 0);
    QuietFromCalls(env, calls, cond);
    FromCallsConcat(env, calls, body, cond);
    QuietJump(base);
    QuietFromCalls(env, calls, [JumpTo(base)]);
    FromCallsConcat(env, calls, body + cond, [JumpTo(base)]);
  }

  lemma {:induction false} ForShape(env: Env, s: Stmt, base: nat, exit: nat)
    requires s.For?
    ensures var r, end := RegOf(env, s.variable), base + StmtSize(env, s);
            var loop := base + ExprSize(env, s.start, r, 0);
            var bodyStart := loop + ExprSize(env, s.end, Scratch(0), 1) + 2;
            StmtCode(env, s, base, exit) ==
              ExprCode(env, s.start, r, 0, base) + ExprCode(env, s.end, Scratch(0), 1, loop) + [Regs2(Gt, r, Scratch(0)), JumpIfTo(end)]
              + BlockCode(env, s.body, bodyStart, end)
              + StepCode(env, s.step, bodyStart + BlockSize(env, s.body)) + [Arith3(Add, r, Scratch(0), r), JumpTo(loop)]
  {
    hide ExprCode, ExprSize, BlockCode, BlockSize, StepCode, RegOf;
  }

  lemma StepQuiet(env: Env, step: Option<Expr>, base: nat)
    ensures Quiet(StepCode(env, step, base))
  {
    hide ExprCode;
    if step.Some? {
      ExprQuiet(env, step.value, Scratch(0), 1, base);
    }
  }

  lemma QuietLoop(r: u8, end: nat, loop: nat)
    ensures Quiet([Regs2(Gt, r, Scratch(0)), JumpIfTo(end)]) && Quiet([Arith3(Add, r, Scratch(0), r), JumpTo(loop)])
  {
  }

  lemma {:induction false} ForFrom(env: Env, s: Stmt, base: nat, exit: nat)
    requires s.For?
    ensures FromCalls(env, CallsOf(s), StmtCode(env, s, base, exit))
    decreases s, 0
  {
    hide *;
    ForShape(env, s, base, exit);
    CallsOfParts(s);
    var calls := CallsOf(s);
    var r, end := RegOf(env, s.variable), base + StmtSize(env, s);
    var loop := base + ExprSize(env, s.start, r, 0);
    var bodyStart := loop + ExprSize(env, s.end, Scratch(0), 1) + 2;
    var start, limit := ExprCode(env, s.start, r, 0, base), ExprCode(env, s.end, Scratch(0), 1, loop);
    var test, body := [Regs2(Gt, r, Scratch(0)), JumpIfTo(end)], BlockCode(env, s.body, bodyStart, end);
    var step, back := StepCode(env, s.step, bodyStart + BlockSize(env, s.body)), [Arith3(Add, r, Scratch(0), r), JumpTo(loop)];
    QuietLoop(r, end, loop);
    ExprQuiet(env, s.start, r, 0, base);
    ExprQuiet(env, s.end, Scratch(0), 1, loop);
    QuietConcat(start, limit);
    QuietConcat(start + limit, test);
    QuietFromCalls(env, calls, start + limit + test);
    BlockFrom(env, s.body, bodyStart, end);
    FromCallsConcat(env, calls, start + limit + test, body);
    StepQuiet(env, s.step, bodyStart + BlockSize(env, s.body));
    QuietFromCalls(env, calls, step);
    FromCallsConcat(env, calls, start + limit + test + body, step);
    QuietFromCalls(env, calls, back);
    FromCallsConcat(env, calls, start + limit + test + body + step, back);
  }

  lemma {:induction false} CaseFrom(env: Env, s: Stmt, base: nat, exit: nat)
    requires s.Case?
    ensures FromCalls(env, CallsOf(s), StmtCode(env, s, base, exit))
    decreases s, 0
  {
    hide FromCalls, CasesCode, CallsInCases;
    CasesFrom(env, RegOf(env, s.variable), s.cases, base, base + StmtSize(env, s), exit);
  }

  lemma {:induction false} BlockFrom(env: Env, b: Block, base: nat, exit: nat)
    ensures FromCalls(env, CallsIn(b), BlockCode(env, b, base, exit))
    decreases b
  {
    hide StmtCode, StmtSize, FromCalls, CallsOf, Quiet;
    if b.Cons? {
      var calls, next := CallsIn(b), base + StmtSize(env, b.head);
      StmtFrom(env, b.head, base, exit);
      MoreCalls(env, CallsOf(b.head), calls, StmtCode(env, b.head, base, exit));
      BlockFrom(env, b.tail, next, exit);
      MoreCalls(env, CallsIn(b.tail), calls, BlockCode(env, b.tail, next, exit));
      FromCallsConcat(env, calls, StmtCode(env, b.head, base, exit), BlockCode(env, b.tail, next, exit));
    } else {
      QuietNothing();
      QuietFromCalls(env, {}, []);
    }
  }

  lemma {:induction false} LabelTestsQuiet(r: u8, vs: seq<int>, body: nat)
    ensures Quiet(LabelTests(r, vs, body))
    decreases |vs|
  {
    if vs != [] {
      LabelTestsQuiet(r, vs[1..], body);
    }
  }

  lemma CallsInCasesParts(cs: Cases)
    ensures CallsIn(cs.body) <= CallsInCases(cs) && (cs.Branch? ==> CallsInCases(cs.rest) <= CallsInCases(cs))
    ensures cs.Else? ==> CallsIn(cs.body) == CallsInCases(cs)
  {
  }

  lemma {:induction false} CasesFrom(env: Env, r: u8, cs: Cases, base: nat, end: nat, exit: nat)
    ensures FromCalls(env, CallsInCases(cs), CasesCode(env, r, cs, base, end, exit))
    decreases cs
  {
    hide *;
    CallsInCasesParts(cs);
    var calls := CallsInCases(cs);
    if cs.Else? {
      ElseCode(env, r, cs, base, end, exit);
      BlockFrom(env, cs.body, base, exit);
    } else {
      BranchCode(env, r, cs, base, end, exit);
      var bodyStart := base + 3 * |cs.values| + 1;
      var next := bodyStart + BlockSize(env, cs.body) + 1;
      var tests, body, rest := LabelTests(r, cs.values, bodyStart), BlockCode(env, cs.body, bodyStart, exit), CasesCode(env, r, cs.rest, next, end, exit);
      LabelTestsQuiet(r, cs.values, bodyStart);
      QuietJump(next);
      QuietConcat(tests, [JumpTo(next)]);
      QuietFromCalls(env, calls, tests + [JumpTo(next)]);
      BlockFrom(env, cs.body, bodyStart, exit);
      MoreCalls(env, CallsIn(cs.body), calls, body);
      FromCallsConcat(env, calls, tests + [JumpTo(next)], body);
      QuietJump(end);
      QuietFromCalls(env, calls, [JumpTo(end)]);
      FromCallsConcat(env, calls, tests + [JumpTo(next)] + body, [JumpTo(end)]);
      CasesFrom(env, r, cs.rest, next, end, exit);
      MoreCalls(env, CallsInCases(cs.rest), calls, rest);
      FromCallsConcat(env, calls, tests + [JumpTo(next)] + body + [JumpTo(end)], rest);
    }
  }

  /** Every block instruction of a compiled program comes from one of its calls. */
  lemma {:induction false} ProgramFrom(env: Env, body: Block)
    ensures FromCalls(env, CallsIn(body), ProgramCode(env, body))
  {
    hide BlockCode, FromCalls, CallsIn, Quiet;
    BlockFrom(env, body, 0, 0);
    QuietStore("", 0, 0, 0, 0);
    QuietFromCalls(env, CallsIn(body), [HALT]);
    FromCallsConcat(env, CallsIn(body), BlockCode(env, body, 0, 0), [HALT]);
  }

  // ----- the block of a variable -----

  /** Every call of `x` with a second argument gives it the literal `n`. */
  predicate CalledWith(calls: set<Call>, x: string, n: u32) {
    forall c :: c in calls && c.0 == x && |c.1| >= 2 ==> c.1[1] == IntLiteral(n)
  }

  /** Where an instruction that scans a block comes from. */
  lemma ScanOrigin(env: Env, body: Block, inst: Instruction) returns (c: Call)
    requires ValidEnv(env) && inst in ProgramCode(env, body) && Scans(inst.opcode)
    ensures c in CallsIn(body) && ShapeOf(env, c.0, |c.1|) != GenericCall && inst == ScanOf(env, c.0, c.1)
    ensures c.0 in env.registers && RegOf(env, c.0) == env.registers[c.0]
  {
    hide ProgramCode, ScanOf, CallsIn;
    ProgramFrom(env, body);
    var p := ProgramCode(env, body);
    var i :| 0 <= i < |p| && p[i] == inst;
    assert FromCall(env, CallsIn(body), p[i]);
    c :| c in CallsIn(body) && ShapeOf(env, c.0, |c.1|) != GenericCall && inst == ScanOf(env, c.0, c.1);
  }

  /** The declared type of a timer variable, and its kind. */
  predicate TimerType(t: VarType, kind: TimerKind) {
    (t == TTon && kind == Ton) || (t == TTof && kind == Tof) || (t == TTp && kind == Tp)
  }

  predicate CounterType(t: VarType, kind: CounterKind) {
    (t == TCtu && kind == Ctu) || (t == TCtd && kind == Ctd) || (t == TCtud && kind == Ctud)
  }

  lemma TimerScanIs(env: Env, x: string, args: seq<Expr>, kind: TimerKind, n: u32)
    requires x in env.types && ShapeOf(env, x, |args|) == TimerCall && TimerType(env.types[x], kind) && args[1] == IntLiteral(n)
    ensures TimerOperands(ScanOf(env, x, args).operands, kind, n)
  {
  }

  lemma CounterScanIs(env: Env, x: string, args: seq<Expr>, kind: CounterKind, n: u32)
    requires x in env.types && ShapeOf(env, x, |args|) == CounterCall && CounterType(env.types[x], kind) && args[1] == IntLiteral(n)
    ensures CounterOperands(ScanOf(env, x, args).operands, kind, n)
  {
  }

  lemma BistableScanIs(env: Env, x: string, args: seq<Expr>)
    requires x in env.types && ShapeOf(env, x, |args|) == BistableCall
    ensures BistableOperands(ScanOf(env, x, args).operands, if env.types[x] == TRs then Rs else Sr)
  {
  }

  lemma EdgeScanIs(env: Env, x: string, args: seq<Expr>)
    requires x in env.types && ShapeOf(env, x, |args|) == EdgeCall
    ensures EdgeOperands(ScanOf(env, x, args).operands, if env.types[x] == TFTrig then 1 else 0)
  {
  }

  lemma ScanShape(env: Env, x: string, args: seq<Expr>)
    requires ShapeOf(env, x, |args|) != GenericCall
    ensures var inst := ScanOf(env, x, args);
            && x in env.types && inst.operands != [] && inst.operands[0] == Immediate(U32(RegOf(env, x)))
            && (inst.opcode == TimerRun <==> env.types[x] in {TTon, TTof, TTp})
            && (inst.opcode == CounterRun <==> env.types[x] in {TCtu, TCtd, TCtud})
            && (inst.opcode == SrRun <==> env.types[x] in {TSr, TRs})
            && (inst.opcode == EdgeRun <==> env.types[x] in {TRTrig, TFTrig})
            && (inst.opcode == TimerRun <==> ShapeOf(env, x, |args|) == TimerCall)
            && (inst.opcode == CounterRun <==> ShapeOf(env, x, |args|) == CounterCall)
            && (inst.opcode == SrRun <==> ShapeOf(env, x, |args|) == BistableCall)
            && (inst.opcode == EdgeRun <==> ShapeOf(env, x, |args|) == EdgeCall)
            && (inst.opcode == TimerRun || inst.opcode == CounterRun ==> |args| >= 2)
  {
  }

  /** An instruction of the program that scans the block with the register number of `x` is a call of `x`. */
  lemma OwnScan(env: Env, body: Block, x: string, inst: Instruction) returns (args: seq<Expr>)
    requires ValidEnv(env) && x in env.registers && inst in ProgramCode(env, body) && Scans(inst.opcode)
    requires inst.operands != [] && inst.operands[0] == Immediate(U32(env.registers[x]))
    ensures (x, args) in CallsIn(body) && ShapeOf(env, x, |args|) != GenericCall && inst == ScanOf(env, x, args)
  {
    hide ProgramCode, ScanOf, CallsIn, ShapeOf;
    var c := ScanOrigin(env, body, inst);
    ScanShape(env, c.0, c.1);
    args := c.1;
    assert c.0 == x && c == (x, args);
  }

  ghost predicate Executed(log: seq<Option<Instruction>>, p: Program) {
    forall j :: 0 <= j < |log| ==> log[j].Some? && log[j].value in p
  }

  /** In every execution of a compiled program, a timer variable whose calls share a preset is scanned
      as the timer it is declared to be. */
  lemma {:induction false} TimerVariableFixed(env: Env, body: Block, x: string, kind: TimerKind, n: u32, log: seq<Option<Instruction>>)
    requires ValidEnv(env) && x in env.registers && TimerType(env.types[x], kind) && CalledWith(CallsIn(body), x, n)
    requires Executed(log, ProgramCode(env, body))
    ensures FixedTimer(log, env.registers[x], kind, n)
  {
    hide ProgramCode, ScanOf, CallsIn, ShapeOf, TimerOperands;
    forall j | 0 <= j < |log| && log[j].Some? && RunsTimer(log[j].value, env.registers[x])
      ensures TimerOperands(log[j].value.operands, kind, n)
    {
      var args := OwnScan(env, body, x, log[j].value);
      ScanShape(env, x, args);
      TimerScanIs(env, x, args, kind, n);
    }
  }

  lemma {:induction false} CounterVariableFixed(env: Env, body: Block, x: string, kind: CounterKind, n: u32, log: seq<Option<Instruction>>)
    requires ValidEnv(env) && x in env.registers && CounterType(env.types[x], kind) && CalledWith(CallsIn(body), x, n)
    requires Executed(log, ProgramCode(env, body))
    ensures FixedCounter(log, env.registers[x], kind, n)
  {
    hide ProgramCode, ScanOf, CallsIn, ShapeOf, CounterOperands;
    forall j | 0 <= j < |log| && log[j].Some? && RunsCounter(log[j].value, env.registers[x])
      ensures CounterOperands(log[j].value.operands, kind, n)
    {
      var args := OwnScan(env, body, x, log[j].value);
      ScanShape(env, x, args);
      CounterScanIs(env, x, args, kind, n);
    }
  }

  lemma BistableVariableFixed(env: Env, body: Block, x: string, log: seq<Option<Instruction>>)
    requires ValidEnv(env) && x in env.registers && env.types[x] in {TSr, TRs} && Executed(log, ProgramCode(env, body))
    ensures FixedBistable(log, env.registers[x], if env.types[x] == TRs then Rs else Sr)
  {
    hide ProgramCode, ScanOf, CallsIn, ShapeOf, BistableOperands;
    forall j | 0 <= j < |log| && log[j].Some? && RunsBistable(log[j].value, env.registers[x])
      ensures BistableOperands(log[j].value.operands, if env.types[x] == TRs then Rs else Sr)
    {
      var args := OwnScan(env, body, x, log[j].value);
      ScanShape(env, x, args);
      BistableScanIs(env, x, args);
    }
  }

  lemma EdgeVariableFixed(env: Env, body: Block, x: string, log: seq<Option<Instruction>>)
    requires ValidEnv(env) && x in env.registers && env.types[x] in {TRTrig, TFTrig} && Executed(log, ProgramCode(env, body))
    ensures FixedEdge(log, env.registers[x], if env.types[x] == TFTrig then 1 else 0)
  {
    hide ProgramCode, ScanOf, CallsIn, ShapeOf, EdgeOperands;
    forall j | 0 <= j < |log| && log[j].Some? && RunsEdge(log[j].value, env.registers[x])
      ensures EdgeOperands(log[j].value.operands, if env.types[x] == TFTrig then 1 else 0)
    {
      var args := OwnScan(env, body, x, log[j].value);
      ScanShape(env, x, args);
      EdgeScanIs(env, x, args);
    }
  }

  /** A variable that is no timer owns no timer: nothing scans the timer of its register number. */
  lemma {:induction false} NoTimerOfItsOwn(env: Env, body: Block, x: string, log: seq<Option<Instruction>>, states: seq<Vm>, preset: u64)
    requires ValidEnv(env) && x in env.registers && env.types[x] !in {TTon, TTof, TTp}
    requires Executed(log, ProgramCode(env, body)) && |states| == |log| + 1
    ensures FixedTimer(log, env.registers[x], Ton, preset) && TimerInputs(states, log, env.registers[x]) == []
  {
    hide ProgramCode, ScanOf, CallsIn, ShapeOf, TimerInputs;
    forall j | 0 <= j < |log|
      ensures !(log[j].Some? && RunsTimer(log[j].value, env.registers[x]))
    {
      if log[j].Some? && RunsTimer(log[j].value, env.registers[x]) {
        var args := OwnScan(env, body, x, log[j].value);
        ScanShape(env, x, args);
      }
    }
    NoScansNoInputs(states, log, env.registers[x]);
  }

  lemma {:induction false} NoScansNoInputs(states: seq<Vm>, log: seq<Option<Instruction>>, i: u32)
    requires |states| == |log| + 1 && forall j :: 0 <= j < |log| ==> !(log[j].Some? && RunsTimer(log[j].value, i))
    ensures TimerInputs(states, log, i) == []
    decreases |log|
  {
    hide RunsTimer;
    if log != [] {
      NoScansNoInputs(states[..|log|], log[..|log| - 1], i);
    }
  }

  // ----- whole runs -----

  /** The states and instructions of a run of the program from a machine without timers. */
  lemma RunOfProgram(env: Env, body: Block, vm: Vm, k: nat) returns (states: seq<Vm>, log: seq<Option<Instruction>>)
    requires !Run(ProgramCode(env, body), vm, k).Faulted?
    ensures Trace(states, log) && Executed(log, ProgramCode(env, body)) && states[0] == vm
    ensures states[|log|] == Run(ProgramCode(env, body), vm, k).vm
  {
    hide ProgramCode, Run, Follows;
    states, log := RunIsTrace(ProgramCode(env, body), vm, k);
  }

  /** A TON variable of a program whose calls share the preset: after any run, its timer reads as the
      closed form of what its calls have fed it. */
  lemma OnDelayVariable(env: Env, body: Block, x: string, n: u32, vm: Vm, k: nat, q: u8, et: u8) returns (states: seq<Vm>, log: seq<Option<Instruction>>)
    requires ValidEnv(env) && x in env.registers && env.types[x] == TTon && CalledWith(CallsIn(body), x, n)
    requires vm.tables.timers == [] && !Run(ProgramCode(env, body), vm, k).Faulted? && q < 16 && et < 16 && q != et
    ensures Trace(states, log) && Executed(log, ProgramCode(env, body)) && states[0] == vm
    ensures var h := TimerInputs(states, log, env.registers[x]);
            TimerReads(Run(ProgramCode(env, body), vm, k).vm, env.registers[x], q, et,
                       LastInput(h) && RunTime(h, true) >= n, Min(RunTime(h, true), n))
  {
    hide ProgramCode, Run, Follows, CallsIn, CalledWith, FixedTimer, TimerReads, RunTime, ValidEnv, LastInput;
    states, log := RunOfProgram(env, body, vm, k);
    TimerVariableFixed(env, body, x, Ton, n, log);
    OnDelayRead(states, log, env.registers[x], n, q, et);
  }

  /** A TOF variable, likewise. */
  lemma OffDelayVariable(env: Env, body: Block, x: string, n: u32, vm: Vm, k: nat, q: u8, et: u8) returns (states: seq<Vm>, log: seq<Option<Instruction>>)
    requires ValidEnv(env) && x in env.registers && env.types[x] == TTof && CalledWith(CallsIn(body), x, n)
    requires vm.tables.timers == [] && !Run(ProgramCode(env, body), vm, k).Faulted? && q < 16 && et < 16 && q != et
    ensures Trace(states, log) && Executed(log, ProgramCode(env, body)) && states[0] == vm
    ensures var h := TimerInputs(states, log, env.registers[x]);
            TimerReads(Run(ProgramCode(env, body), vm, k).vm, env.registers[x], q, et,
                       EverTrue(h) && (LastInput(h) || RunTime(h, false) < n), if EverTrue(h) then Min(RunTime(h, false), n) else 0)
  {
    hide ProgramCode, Run, Follows, CallsIn, CalledWith, FixedTimer, TimerReads, RunTime, ValidEnv, LastInput, EverTrue;
    states, log := RunOfProgram(env, body, vm, k);
    TimerVariableFixed(env, body, x, Tof, n, log);
    OffDelayRead(states, log, env.registers[x], n, q, et);
  }

  /** A TP variable, likewise. */
  lemma PulseVariable(env: Env, body: Block, x: string, n: u32, vm: Vm, k: nat, q: u8, et: u8) returns (states: seq<Vm>, log: seq<Option<Instruction>>)
    requires ValidEnv(env) && x in env.registers && env.types[x] == TTp && CalledWith(CallsIn(body), x, n)
    requires vm.tables.timers == [] && !Run(ProgramCode(env, body), vm, k).Faulted? && q < 16 && et < 16 && q != et
    ensures Trace(states, log) && Executed(log, ProgramCode(env, body)) && states[0] == vm
    ensures var h := TimerInputs(states, log, env.registers[x]);
            TimerReads(Run(ProgramCode(env, body), vm, k).vm, env.registers[x], q, et,
                       LastInput(h) && RunTime(h, true) < n, Min(PulseTime(h), n))
  {
    hide ProgramCode, Run, Follows, CallsIn, CalledWith, FixedTimer, TimerReads, RunTime, ValidEnv, LastInput, PulseTime;
    states, log := RunOfProgram(env, body, vm, k);
    TimerVariableFixed(env, body, x, Tp, n, log);
    PulseRead(states, log, env.registers[x], n, q, et);
  }

  // ----- fields -----

  /** The code that reads a field of a block variable: the field name only matters for Q2 of a bistable,
      every other field of a timer, and every field of a counter, reads a timer's Q. */
  lemma FieldCode(env: Env, x: string, field: string, dest: u8, d: nat, base: nat)
    requires x in env.types && x in env.registers
    ensures var code, i, s := ExprCode(env, FieldAccess(x, field), dest, d, base), Immediate(U32(env.registers[x])), Scratch(d);
            && (env.types[x] in {TTon, TTof, TTp, TCtu, TCtd, TCtud} ==> code == [Instruction(ReadTimer, [i, Register(dest), Register(s)])])
            && (env.types[x] in {TSr, TRs} && field == "Q2" ==> code == [Instruction(ReadSr, [i, Register(s), Register(dest)])])
            && (env.types[x] in {TSr, TRs} && field != "Q2" ==> code == [Instruction(ReadSr, [i, Register(dest), Register(s)])])
            && (env.types[x] in {TRTrig, TFTrig} ==> code == [Instruction(ReadEdge, [i, Register(dest)])])
  {
  }

  /** So a counter cannot be read: in every run of a compiled program from a machine without timers, any
      field of a counter variable gives FALSE, whatever has been counted. */
  lemma {:induction false} CounterFieldIsFalse(env: Env, body: Block, x: string, field: string, dest: u8, d: nat, base: nat, vm: Vm, k: nat)
    requires ValidEnv(env) && x in env.registers && env.types[x] in {TCtu, TCtd, TCtud} && dest < 16 && dest != Scratch(d)
    requires vm.tables.timers == [] && !Run(ProgramCode(env, body), vm, k).Faulted?
    ensures var code := ExprCode(env, FieldAccess(x, field), dest, d, base);
            && |code| == 1
            && var r := Execute(Run(ProgramCode(env, body), vm, k).vm, code[0]);
               r.Running? && r.vm.regs[dest] == Bool(false)
  {
    hide ProgramCode, Run, Follows, FixedTimer, RunTime, LastInput, Execute, ExprCode;
    FieldCode(env, x, field, dest, d, base);
    var states, log := RunOfProgram(env, body, vm, k);
    NoTimerOfItsOwn(env, body, x, log, states, 1);
    ScratchExists(d);
    OnDelayRead(states, log, env.registers[x], 1, dest, Scratch(d));
    NothingRan();
  }

  lemma ScratchExists(d: nat)
    ensures Scratch(d) < 16
  {
  }

  lemma NothingRan()
    ensures !LastInput([])
  {
  }

  // ----- what a call feeds its block -----

  function KindNumber(t: VarType): nat {
    if t in {TTof, TCtd, TRs, TFTrig} then 1 else if t in {TTp, TCtud} then 2 else 0
  }

  lemma KindNumberIs(t: VarType)
    requires IsTimer(t) || IsCounter(t) || IsBistable(t) || IsEdge(t)
    ensures KindCode(t) == KindNumber(t)
  {
  }

  /** A call of a block variable with variables as inputs copies them into the scratch registers and scans
      the block of that variable: IN and PT of a timer; CU, PV and CD of a counter, CD being FALSE when it
      is left out; S1 and R of a bistable; CLK of an edge detector. */
  lemma CallFeeds(env: Env, x: string, a: string, n: u32, b: string, base: nat)
    requires {x, a, b} <= env.registers.Keys && {x} <= env.types.Keys
    ensures var i, kind := Immediate(U32(env.registers[x])), Immediate(U32(KindNumber(env.types[x])));
            var first, second := Instruction(Load, [Register(14), Register(env.registers[a])]), Instruction(Load, [Register(15), Register(env.registers[b])]);
            && (env.types[x] in {TTon, TTof, TTp} ==>
                  CallCode(env, x, [Variable(a), IntLiteral(n)], base)
                  == [first, Instruction(TimerRun, [i, Register(14), Immediate(U32(n)), kind])])
            && (env.types[x] in {TCtu, TCtd, TCtud} ==>
                  CallCode(env, x, [Variable(a), IntLiteral(n)], base)
                  == [first, Instruction(Load, [Register(15), Immediate(Bool(false))]), Instruction(CounterRun, [i, Register(14), Register(15), Immediate(U32(n)), kind])])
            && (env.types[x] in {TCtu, TCtd, TCtud} ==>
                  CallCode(env, x, [Variable(a), IntLiteral(n), Variable(b)], base)
                  == [first, second, Instruction(CounterRun, [i, Register(14), Register(15), Immediate(U32(n)), kind])])
            && (env.types[x] in {TSr, TRs} ==>
                  CallCode(env, x, [Variable(a), Variable(b)], base)
                  == [first, second, Instruction(SrRun, [i, Register(14), Register(15), kind])])
            && (env.types[x] in {TRTrig, TFTrig} ==>
                  CallCode(env, x, [Variable(a)], base) == [first, Instruction(EdgeRun, [i, Register(14), kind])])
  {
    hide KindNumber, KindCode;
    if IsTimer(env.types[x]) || IsCounter(env.types[x]) || IsBistable(env.types[x]) || IsEdge(env.types[x]) {
      KindNumberIs(env.types[x]);
    }
  }
}
