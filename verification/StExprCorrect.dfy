/**
 The code of expressions and conditions computes their meaning: a run of it
 delivers the value in the destination register and disturbs nothing but free
 scratch registers.
 */
module StExprCorrect {
  import opened Values
  import opened Machine
  import opened Runs
  import opened StSyntax
  import opened StCode
  import opened StSemantics

  // ----- correspondence between machine and store -----

  /** Register `r` is a scratch register not in use at depth `d`. */
  predicate FreeScratch(r: nat, d: nat) {
    (r == Scratch(0) && d <= 0) || (r == Scratch(1) && d <= 1) || (r == Scratch(2) && d <= 2)
  }

  /** Only `dest` and free scratch registers differ. */
  ghost predicate Disturbs(vm: Vm, out: Vm, dest: u8, d: nat) {
    && out.signals == vm.signals
    && (forall r :: 0 <= r < REGISTER_COUNT && r != dest && !FreeScratch(r, d) ==> out.regs[r] == vm.regs[r])
  }

  ghost predicate DintEnv(env: Env) {
    ValidEnv(env) && forall x :: x in env.types ==> env.types[x] == TDInt
  }

  /** Every variable's register holds its value and the signal table is the published one. */
  ghost predicate Matches(env: Env, st: State, vm: Vm)
    requires ValidEnv(env)
  {
    && st.vars.Keys == env.registers.Keys
    && (forall x :: x in env.registers ==> vm.regs[env.registers[x]] == S32(st.vars[x]))
    && vm.signals == st.signals
  }

  // ----- single instructions -----

  lemma StepArith(p: Program, vm: Vm, op: BinOp, a: u8, b: u8, out: u8)
    requires vm.ip < |p| && p[vm.ip] == Arith3(ArithOpcode(op), a, b, out)
    requires a < REGISTER_COUNT && b < REGISTER_COUNT && out < REGISTER_COUNT
    requires vm.regs[a].S32? && vm.regs[b].S32? && (IsArithOp(op) || op == OpXor)
    requires !Overflows(op, vm.regs[a].s32, vm.regs[b].s32)
    ensures Reaches(p, vm, 1, AdvanceIp(SetReg(vm, out, S32(Op32(ArithOf(op), vm.regs[a].s32, vm.regs[b].s32)))))
  {
    hide *;
    DispatchArith(vm, op, a, b, out);
    ArithOnDint(vm, op, a, b, out);
    SetRegKeepsIp(vm, out, S32(Op32(ArithOf(op), vm.regs[a].s32, vm.regs[b].s32)));
    StepOne(p, vm, SetReg(vm, out, S32(Op32(ArithOf(op), vm.regs[a].s32, vm.regs[b].s32))));
  }

  lemma SetRegKeepsIp(vm: Vm, r: u8, v: Value)
    requires r < REGISTER_COUNT
    ensures SetReg(vm, r, v).ip == vm.ip
  {
  }

  lemma DispatchArith(vm: Vm, op: BinOp, a: u8, b: u8, out: u8)
    requires IsArithOp(op) || op == OpXor
    ensures !IsJump(Arith3(ArithOpcode(op), a, b, out).opcode)
    ensures Execute(vm, Arith3(ArithOpcode(op), a, b, out)) == ExecArith(vm, ArithOf(op), [Register(a), Register(b), Register(out)])
  {
    hide ExecArith;
  }

  lemma ArithOnDint(vm: Vm, op: BinOp, a: u8, b: u8, out: u8)
    requires a < REGISTER_COUNT && b < REGISTER_COUNT && out < REGISTER_COUNT
    requires vm.regs[a].S32? && vm.regs[b].S32? && !Overflows(op, vm.regs[a].s32, vm.regs[b].s32)
    ensures ExecArith(vm, ArithOf(op), [Register(a), Register(b), Register(out)])
         == Running(SetReg(vm, out, S32(Op32(ArithOf(op), vm.regs[a].s32, vm.regs[b].s32))))
  {
    hide Op32;
  }

  /** The one quotient that does not fit aborts the machine. */
  lemma StepOverflow(p: Program, vm: Vm, op: BinOp, a: u8, b: u8, out: u8)
    requires vm.ip < |p| && p[vm.ip] == Arith3(ArithOpcode(op), a, b, out)
    requires a < REGISTER_COUNT && b < REGISTER_COUNT && out < REGISTER_COUNT
    requires vm.regs[a].S32? && vm.regs[b].S32? && Overflows(op, vm.regs[a].s32, vm.regs[b].s32)
    ensures FaultsAfter(p, vm, 1)
  {
  }

  /** The machine aborts on an overflowing division within `k` instructions. */
  ghost predicate FaultsAfter(p: Program, vm: Vm, k: nat) { Run(p, vm, k) == Faulted(DivisionOverflow) }

  lemma FaultsLater(p: Program, vm: Vm, j: nat, mid: Vm, k: nat)
    requires Reaches(p, vm, j, mid) && FaultsAfter(p, mid, k)
    ensures FaultsAfter(p, vm, j + k)
  {
    RunAppend(p, vm, j, mid, k);
  }

  lemma StepComplement(p: Program, vm: Vm, r: u8)
    requires vm.ip < |p| && p[vm.ip] == Arith3(Not, r, r, r) && r < REGISTER_COUNT && vm.regs[r].S32?
    ensures Reaches(p, vm, 1, AdvanceIp(SetReg(vm, r, S32(-1 - vm.regs[r].s32))))
  {
  }

  lemma StepCompare(p: Program, vm: Vm, op: BinOp, a: u8, b: u8)
    requires vm.ip < |p| && p[vm.ip] == Regs2(CmpOpcode(op), a, b) && IsCmpOp(op)
    requires a < REGISTER_COUNT && b < REGISTER_COUNT
    ensures Reaches(p, vm, 1, AdvanceIp(vm.(flag := Compare(CmpOf(op), vm.regs[a], vm.regs[b]))))
  {
  }

  // ----- expressions into a scratch register -----

  /** Everything the machine and the store must satisfy before the code of `e` runs. */
  ghost predicate Ready(p: Program, env: Env, e: Expr, dest: u8, d: nat, vm: Vm, st: State) {
    && DintEnv(env) && DintExpr(e) && Matches(env, st, vm)
    && d <= SCRATCH_COUNT && ExprVerdict(env, e, d) == Accepted
    && dest < REGISTER_COUNT && !FreeScratch(dest, d)
    && CodeAt(p, vm.ip, ExprCode(env, e, dest, d, vm.ip))
  }

  /** The code of `e` ran from `vm` to `out` and left `v` in `dest`. */
  ghost predicate Computed(p: Program, env: Env, e: Expr, dest: u8, d: nat, vm: Vm, out: Vm, v: i32)
    requires dest < REGISTER_COUNT
  {
    && Reaches(p, vm, ExprSize(env, e, dest, d), out)
    && out.ip == vm.ip + ExprSize(env, e, dest, d)
    && out.regs[dest] == S32(v)
    && Disturbs(vm, out, dest, d)
  }

  lemma MatchesUndisturbed(env: Env, st: State, vm: Vm, out: Vm, dest: u8, d: nat)
    requires ValidEnv(env) && Matches(env, st, vm) && Disturbs(vm, out, dest, d) && dest >= MAX_VAR_REGS
    ensures Matches(env, st, out)
  {
    hide Run;
  }

  lemma DisturbsTrans(vm: Vm, mid: Vm, out: Vm, dest: u8, d: nat, d': nat)
    requires d <= d' && Disturbs(vm, mid, dest, d') && Disturbs(mid, out, dest, d)
    ensures Disturbs(vm, out, dest, d)
  {
  }

  lemma {:induction false} ScratchCorrect(p: Program, env: Env, e: Expr, dest: u8, d: nat, vm: Vm, st: State) returns (out: Vm)
    requires Ready(p, env, e, dest, d, vm, st) && dest >= MAX_VAR_REGS && !Aborts(e, st.vars)
    ensures Computed(p, env, e, dest, d, vm, out, Eval(e, st.vars))
    ensures Matches(env, st, out)
    decreases e, 1
  {
    hide Run, Op32, WrapS32, CodeAt, Matches, ExprCode, ExprSize, ExprVerdict, ValidEnv;
    match e {
      case Binary(l, op, r) =>
        BinaryReady(p, env, e, dest, d, vm, st);
        var vm1 := ScratchCorrect(p, env, l, dest, if IsArithOp(op) then d else d + 1, vm, st);
        out := BinaryFinish(p, env, e, dest, d, vm, vm1, st, st, Eval(l, st.vars));
      case Unary(_, inner) =>
        UnaryReady(p, env, e, dest, d, vm, st);
        var vm1 := ScratchCorrect(p, env, inner, dest, d, vm, st);
        out := UnaryFinish(p, env, e, dest, d, vm, vm1, st, Eval(inner, st.vars));
      case _ =>
        out := LeafCorrect(p, env, e, dest, d, vm, st);
    }
    MatchesUndisturbed(env, st, vm, out, dest, d);
  }

  lemma LeafCorrect(p: Program, env: Env, e: Expr, dest: u8, d: nat, vm: Vm, st: State) returns (out: Vm)
    requires Ready(p, env, e, dest, d, vm, st) && (e.IntLiteral? || e.Variable?)
    ensures Computed(p, env, e, dest, d, vm, out, Eval(e, st.vars))
  {
    hide Run, WrapS32, CodeAt, Execute, ValidEnv;
    var code := ExprCode(env, e, dest, d, vm.ip);
    match e
    case IntLiteral(n) =>
      out := AdvanceIp(SetReg(vm, dest, S32(WrapS32(n))));
      InstructionAt(p, vm.ip, code, 0);
      StepLoadImm(p, vm, dest, S32(WrapS32(n)));
    case Variable(x) =>
      if RegOf(env, x) == dest {
        out := vm;
        ReachesZero(p, vm);
      } else {
        InstructionAt(p, vm.ip, code, 0);
        InstructionAt(p, vm.ip, code, 1);
        out := CopyVariable(p, env, x, dest, vm, st);
      }
  }

  lemma ScratchNotFree(d: nat)
    requires d < SCRATCH_COUNT
    ensures !FreeScratch(Scratch(d), d + 1)
  {
  }

  /** A binary operator splits into its left operand, its right operand and the operation. */
  lemma BinaryReady(p: Program, env: Env, e: Expr, dest: u8, d: nat, vm: Vm, st: State)
    requires Ready(p, env, e, dest, d, vm, st) && e.Binary?
    ensures d < SCRATCH_COUNT && ExprVerdict(env, e.right, d + 1) == Accepted
    ensures var d' := if IsArithOp(e.op) then d else d + 1;
            var mid := vm.ip + ExprSize(env, e.left, dest, d');
            && Ready(p, env, e.left, dest, d', vm, st)
            && ExprSize(env, e, dest, d) == ExprSize(env, e.left, dest, d') + ExprSize(env, e.right, Scratch(d), d + 1) + 1
            && CodeAt(p, mid, ExprCode(env, e.right, Scratch(d), d + 1, mid))
            && CodeAt(p, mid + ExprSize(env, e.right, Scratch(d), d + 1), [Arith3(ArithOpcode(e.op), dest, Scratch(d), dest)])
  {
    hide Run, Op32, Matches, CodeAt, ValidEnv, ExprCode, ExprSize, ExprVerdict;
    var d' := if IsArithOp(e.op) then d else d + 1;
    OperatorVerdict(env, e, d);
    OperatorCode(env, e, dest, d, vm.ip);
    var lc := ExprCode(env, e.left, dest, d', vm.ip);
    var rc := ExprCode(env, e.right, Scratch(d), d + 1, vm.ip + |lc|);
    CodeSplit(p, vm.ip, lc + rc, [Arith3(ArithOpcode(e.op), dest, Scratch(d), dest)]);
    CodeSplit(p, vm.ip, lc, rc);
  }

  /** After the left operand: evaluate the right one and combine. */
  lemma BinaryFinish(p: Program, env: Env, e: Expr, dest: u8, d: nat, vm: Vm, vm1: Vm, vm0: State, st: State, v: i32) returns (out: Vm)
    requires Ready(p, env, e, dest, d, vm, vm0) && e.Binary? && d < SCRATCH_COUNT
    requires Computed(p, env, e.left, dest, if IsArithOp(e.op) then d else d + 1, vm, vm1, v)
    requires Matches(env, st, vm1) && !Aborts(e.right, st.vars) && !Overflows(e.op, v, Eval(e.right, st.vars))
    ensures Computed(p, env, e, dest, d, vm, out, Op32(ArithOf(e.op), v, Eval(e.right, st.vars)))
    decreases e, 0
  {
    hide Run, Op32, Eval, Matches, CodeAt, ValidEnv, ExprVerdict, ExprCode, ExprSize, Disturbs, FreeScratch, Aborts, Overflows;
    var d' := if IsArithOp(e.op) then d else d + 1;
    BinaryReady(p, env, e, dest, d, vm, vm0);
    ScratchNotFree(d);
    out := OperandAndOp(p, env, e.right, e.op, dest, d, vm1, st);
    DisturbsTrans(vm, vm1, out, dest, d, d');
    ReachesTrans(p, vm, ExprSize(env, e.left, dest, d'), vm1, ExprSize(env, e.right, Scratch(d), d + 1) + 1, out);
  }

  lemma UnaryReady(p: Program, env: Env, e: Expr, dest: u8, d: nat, vm: Vm, st: State)
    requires Ready(p, env, e, dest, d, vm, st) && e.Unary?
    ensures Ready(p, env, e.inner, dest, d, vm, st)
  {
    hide Run, Op32, ExprSize, Matches;
    var c := ExprCode(env, e.inner, dest, d, vm.ip);
    if e.uop == UNeg {
      CodeSplit(p, vm.ip, c, [LoadImm(Scratch(d), S32(0)), Arith3(Sub, Scratch(d), dest, dest)]);
    } else {
      CodeSplit(p, vm.ip, c, [Arith3(Not, dest, dest, dest)]);
    }
  }

  lemma UnaryFinish(p: Program, env: Env, e: Expr, dest: u8, d: nat, vm: Vm, vm1: Vm, st: State, v: i32) returns (out: Vm)
    requires Ready(p, env, e, dest, d, vm, st) && e.Unary?
    requires Computed(p, env, e.inner, dest, d, vm, vm1, v)
    ensures Computed(p, env, e, dest, d, vm, out, if e.uop == UNeg then Op32(Minus, 0, v) else -1 - v)
  {
    hide Run, Op32, Eval, Matches, CodeAt;
    var c := ExprCode(env, e.inner, dest, d, vm.ip);
    if e.uop == UNeg {
      CodeSplit(p, vm.ip, c, [LoadImm(Scratch(d), S32(0)), Arith3(Sub, Scratch(d), dest, dest)]);
      out := NegateInPlace(p, dest, d, vm1);
      ReachesTrans(p, vm, |c|, vm1, 2, out);
    } else {
      CodeSplit(p, vm.ip, c, [Arith3(Not, dest, dest, dest)]);
      InstructionAt(p, vm1.ip, [Arith3(Not, dest, dest, dest)], 0);
      StepComplement(p, vm1, dest);
      out := AdvanceIp(SetReg(vm1, dest, S32(-1 - v)));
      ReachesTrans(p, vm, |c|, vm1, 1, out);
    }
  }

  lemma CopyVariable(p: Program, env: Env, x: string, dest: u8, vm: Vm, st: State) returns (out: Vm)
    requires DintEnv(env) && x in env.registers && Matches(env, st, vm)
    requires dest < REGISTER_COUNT && env.registers[x] != dest && vm.ip + 1 < |p|
    requires p[vm.ip] == LoadImm(dest, ZeroFor(env, x)) && p[vm.ip + 1] == Arith3(Add, RegOf(env, x), dest, dest)
    ensures Reaches(p, vm, 2, out)
    ensures out == vm.(regs := vm.regs[dest := S32(st.vars[x])], ip := vm.ip + 2)
  {
    hide Run;
    var vm1 := AdvanceIp(SetReg(vm, dest, S32(0)));
    StepLoadImm(p, vm, dest, S32(0));
    StepArith(p, vm1, OpAdd, RegOf(env, x), dest, dest);
    out := vm.(regs := vm.regs[dest := S32(st.vars[x])], ip := vm.ip + 2);
    assert vm1.regs[dest := S32(st.vars[x])] == out.regs;
    ReachesTrans(p, vm, 1, vm1, 1, out);
  }

  /** Right operand into the next scratch register, then the operation into `dest`. */
  lemma {:induction false} OperandAndOp(p: Program, env: Env, r: Expr, op: BinOp, dest: u8, d: nat, vm: Vm, st: State)
    returns (out: Vm)
    requires d < SCRATCH_COUNT && Ready(p, env, r, Scratch(d), d + 1, vm, st) && (IsArithOp(op) || op == OpXor)
    requires dest < REGISTER_COUNT && !FreeScratch(dest, d) && vm.regs[dest].S32?
    requires !Aborts(r, st.vars) && !Overflows(op, vm.regs[dest].s32, Eval(r, st.vars))
    requires CodeAt(p, vm.ip + ExprSize(env, r, Scratch(d), d + 1), [Arith3(ArithOpcode(op), dest, Scratch(d), dest)])
    ensures Reaches(p, vm, ExprSize(env, r, Scratch(d), d + 1) + 1, out)
    ensures out.ip == vm.ip + ExprSize(env, r, Scratch(d), d + 1) + 1
    ensures out.regs[dest] == S32(Op32(ArithOf(op), vm.regs[dest].s32, Eval(r, st.vars)))
    ensures Disturbs(vm, out, dest, d)
    decreases r, 2
  {
    hide Run, Op32, Eval, ExprCode, ExprSize, ExprVerdict, CodeAt, Matches, Aborts;
    var vm1 := ScratchCorrect(p, env, r, Scratch(d), d + 1, vm, st);
    InstructionAt(p, vm1.ip, [Arith3(ArithOpcode(op), dest, Scratch(d), dest)], 0);
    StepArith(p, vm1, op, dest, Scratch(d), dest);
    out := AdvanceIp(SetReg(vm1, dest, S32(Op32(ArithOf(op), vm1.regs[dest].s32, vm1.regs[Scratch(d)].s32))));
    ReachesTrans(p, vm, ExprSize(env, r, Scratch(d), d + 1), vm1, 1, out);
  }

  lemma NegateInPlace(p: Program, dest: u8, d: nat, vm: Vm) returns (out: Vm)
    requires d < SCRATCH_COUNT && dest < REGISTER_COUNT && !FreeScratch(dest, d) && vm.regs[dest].S32?
    requires CodeAt(p, vm.ip, [LoadImm(Scratch(d), S32(0)), Arith3(Sub, Scratch(d), dest, dest)])
    ensures Reaches(p, vm, 2, out) && out.ip == vm.ip + 2
    ensures out.regs[dest] == S32(Op32(Minus, 0, vm.regs[dest].s32)) && Disturbs(vm, out, dest, d)
  {
    hide Run;
    var code := [LoadImm(Scratch(d), S32(0)), Arith3(Sub, Scratch(d), dest, dest)];
    InstructionAt(p, vm.ip, code, 0);
    InstructionAt(p, vm.ip, code, 1);
    assert FreeScratch(Scratch(d), d);
    StepLoadImm(p, vm, Scratch(d), S32(0));
    var vm1 := AdvanceIp(SetReg(vm, Scratch(d), S32(0)));
    StepArith(p, vm1, OpSub, Scratch(d), dest, dest);
    out := AdvanceIp(SetReg(vm1, dest, S32(Op32(Minus, 0, vm1.regs[dest].s32))));
    ReachesTrans(p, vm, 1, vm1, 1, out);
  }

  // ----- expressions into the register of a variable -----

  lemma MatchesUpdated(env: Env, st: State, vm: Vm, out: Vm, x: string, v: i32, d: nat)
    requires ValidEnv(env) && Matches(env, st, vm) && x in env.registers
    requires Disturbs(vm, out, env.registers[x], d) && out.regs[env.registers[x]] == S32(v)
    ensures Matches(env, Update(st, x, v), out)
  {
    hide *;
    var after := Update(st, x, v);
    UpdateIs(st, x, v);
    MatchesIs(env, st, vm);
    RegistersFit(env, out);
    forall y | y in env.registers
      ensures out.regs[env.registers[y]] == S32(after.vars[y])
    {
      OtherKept(env, vm, out, x, y, d);
    }
    SignalsKept(vm, out, env.registers[x], d);
    MatchesFrom(env, after, out);
  }

  lemma RegistersFit(env: Env, vm: Vm)
    requires ValidEnv(env)
    ensures forall y :: y in env.registers ==> env.registers[y] < |vm.regs|
  {
  }

  lemma UpdateIs(st: State, x: string, v: i32)
    ensures Update(st, x, v) == State(st.vars[x := v], st.signals)
  {
  }

  lemma MatchesIs(env: Env, st: State, vm: Vm)
    requires ValidEnv(env) && Matches(env, st, vm)
    ensures st.vars.Keys == env.registers.Keys && vm.signals == st.signals
    ensures forall x :: x in env.registers ==> vm.regs[env.registers[x]] == S32(st.vars[x])
  {
  }

  lemma MatchesFrom(env: Env, st: State, vm: Vm)
    requires ValidEnv(env) && st.vars.Keys == env.registers.Keys && vm.signals == st.signals
    requires forall x :: x in env.registers ==> vm.regs[env.registers[x]] == S32(st.vars[x])
    ensures Matches(env, st, vm)
  {
  }

  lemma OtherKept(env: Env, vm: Vm, out: Vm, x: string, y: string, d: nat)
    requires ValidEnv(env) && x in env.registers && y in env.registers && Disturbs(vm, out, env.registers[x], d)
    ensures y != x ==> out.regs[env.registers[y]] == vm.regs[env.registers[y]]
  {
  }

  lemma SignalsKept(vm: Vm, out: Vm, dest: u8, d: nat)
    requires Disturbs(vm, out, dest, d)
    ensures out.signals == vm.signals
  {
  }

  /** Evaluating `e` in the register of `x` leaves the in-place value there and nothing else changed. */
  lemma {:induction false} InPlaceCorrect(p: Program, env: Env, e: Expr, x: string, d: nat, vm: Vm, st: State) returns (out: Vm)
    requires ValidEnv(env) && x in env.registers && Ready(p, env, e, env.registers[x], d, vm, st)
    requires !AbortsInPlace(e, x, st.vars)
    ensures Computed(p, env, e, env.registers[x], d, vm, out, EvalInPlace(e, x, st.vars))
    ensures Matches(env, Update(st, x, EvalInPlace(e, x, st.vars)), out)
    decreases e
  {
    hide Run, Op32, WrapS32, CodeAt, Matches, ExprCode, ExprSize, ExprVerdict, ValidEnv, Eval, Aborts, Overflows;
    var dest := env.registers[x];
    match e {
      case Binary(l, op, r) =>
        BinaryReady(p, env, e, dest, d, vm, st);
        var vm1 := InPlaceCorrect(p, env, l, x, if IsArithOp(op) then d else d + 1, vm, st);
        var v := EvalInPlace(l, x, st.vars);
        out := BinaryFinish(p, env, e, dest, d, vm, vm1, st, Update(st, x, v), v);
      case Unary(_, inner) =>
        UnaryReady(p, env, e, dest, d, vm, st);
        var vm1 := InPlaceCorrect(p, env, inner, x, d, vm, st);
        out := UnaryFinish(p, env, e, dest, d, vm, vm1, st, EvalInPlace(inner, x, st.vars));
      case _ =>
        out := LeafCorrect(p, env, e, dest, d, vm, st);
    }
    MatchesUpdated(env, st, vm, out, x, EvalInPlace(e, x, st.vars), d);
  }

  // ----- expressions that abort -----

  /** An expression with an overflowing division aborts the machine. */
  lemma {:induction false} ScratchFaults(p: Program, env: Env, e: Expr, dest: u8, d: nat, vm: Vm, st: State) returns (k: nat)
    requires Ready(p, env, e, dest, d, vm, st) && dest >= MAX_VAR_REGS && Aborts(e, st.vars)
    ensures FaultsAfter(p, vm, k)
    decreases e, 1
  {
    hide Run, Op32, WrapS32, CodeAt, Matches, ExprCode, ExprSize, ExprVerdict, ValidEnv, FaultsAfter, Overflows, Eval;
    match e {
      case Binary(l, op, r) =>
        BinaryReady(p, env, e, dest, d, vm, st);
        var d' := if IsArithOp(op) then d else d + 1;
        if Aborts(l, st.vars) {
          k := ScratchFaults(p, env, l, dest, d', vm, st);
        } else {
          var vm1 := ScratchCorrect(p, env, l, dest, d', vm, st);
          k := OperandFaults(p, env, e, dest, d, vm, vm1, st, st, Eval(l, st.vars));
        }
      case Unary(_, inner) =>
        UnaryReady(p, env, e, dest, d, vm, st);
        k := ScratchFaults(p, env, inner, dest, d, vm, st);
    }
  }

  /** After the left operand: the right one aborts, or the operation does. */
  lemma {:induction false} OperandFaults(p: Program, env: Env, e: Expr, dest: u8, d: nat, vm: Vm, vm1: Vm, vm0: State, st: State, v: i32) returns (k: nat)
    requires Ready(p, env, e, dest, d, vm, vm0) && e.Binary? && d < SCRATCH_COUNT
    requires Computed(p, env, e.left, dest, if IsArithOp(e.op) then d else d + 1, vm, vm1, v)
    requires Matches(env, st, vm1) && (Aborts(e.right, st.vars) || Overflows(e.op, v, Eval(e.right, st.vars)))
    ensures FaultsAfter(p, vm, k)
    decreases e, 0
  {
    hide Run, Op32, Eval, Matches, CodeAt, ValidEnv, ExprVerdict, ExprCode, ExprSize, FaultsAfter, Aborts, Overflows, Disturbs, FreeScratch;
    BinaryReady(p, env, e, dest, d, vm, vm0);
    ScratchNotFree(d);
    if Aborts(e.right, st.vars) {
      k := ScratchFaults(p, env, e.right, Scratch(d), d + 1, vm1, st);
    } else {
      k := OperationFaults(p, env, e.right, e.op, dest, d, vm1, st);
    }
    FaultsLater(p, vm, ExprSize(env, e.left, dest, if IsArithOp(e.op) then d else d + 1), vm1, k);
    k := ExprSize(env, e.left, dest, if IsArithOp(e.op) then d else d + 1) + k;
  }

  lemma OperationFaults(p: Program, env: Env, r: Expr, op: BinOp, dest: u8, d: nat, vm: Vm, st: State) returns (k: nat)
    requires d < SCRATCH_COUNT && Ready(p, env, r, Scratch(d), d + 1, vm, st)
    requires dest < REGISTER_COUNT && !FreeScratch(dest, d) && vm.regs[dest].S32?
    requires !Aborts(r, st.vars) && Overflows(op, vm.regs[dest].s32, Eval(r, st.vars))
    requires CodeAt(p, vm.ip + ExprSize(env, r, Scratch(d), d + 1), [Arith3(ArithOpcode(op), dest, Scratch(d), dest)])
    ensures FaultsAfter(p, vm, k)
  {
    hide Run, Op32, Eval, ExprCode, ExprSize, ExprVerdict, CodeAt, Matches, Aborts, FaultsAfter;
    var vm1 := ScratchCorrect(p, env, r, Scratch(d), d + 1, vm, st);
    InstructionAt(p, vm1.ip, [Arith3(ArithOpcode(op), dest, Scratch(d), dest)], 0);
    StepOverflow(p, vm1, op, dest, Scratch(d), dest);
    FaultsLater(p, vm, ExprSize(env, r, Scratch(d), d + 1), vm1, 1);
    k := ExprSize(env, r, Scratch(d), d + 1) + 1;
  }

  lemma {:induction false} InPlaceFaults(p: Program, env: Env, e: Expr, x: string, d: nat, vm: Vm, st: State) returns (k: nat)
    requires ValidEnv(env) && x in env.registers && Ready(p, env, e, env.registers[x], d, vm, st)
    requires AbortsInPlace(e, x, st.vars)
    ensures FaultsAfter(p, vm, k)
    decreases e
  {
    hide Run, Op32, WrapS32, CodeAt, Matches, ExprCode, ExprSize, ExprVerdict, ValidEnv, Eval, FaultsAfter, Aborts, Overflows;
    var dest := env.registers[x];
    match e {
      case Binary(l, op, r) =>
        BinaryReady(p, env, e, dest, d, vm, st);
        var d' := if IsArithOp(op) then d else d + 1;
        if AbortsInPlace(l, x, st.vars) {
          k := InPlaceFaults(p, env, l, x, d', vm, st);
        } else {
          var vm1 := InPlaceCorrect(p, env, l, x, d', vm, st);
          var v := EvalInPlace(l, x, st.vars);
          k := OperandFaults(p, env, e, dest, d, vm, vm1, st, Update(st, x, v), v);
        }
      case Unary(_, inner) =>
        UnaryReady(p, env, e, dest, d, vm, st);
        k := InPlaceFaults(p, env, inner, x, d, vm, st);
    }
  }

  // ----- conditions -----

  function RouteTarget(route: Route, yes: nat, other: nat, end: nat): nat {
    match route
    case Yes => yes
    case Other => other
    case Fall => end
  }

  ghost predicate CondReady(p: Program, env: Env, c: Expr, vm: Vm, st: State, yes: nat, other: nat) {
    && DintEnv(env) && Condition(c) && CondVerdict(env, c) == Accepted && Matches(env, st, vm)
    && CodeAt(p, vm.ip, CondCode(env, c, vm.ip, yes, other))
    && yes < TWO_32 && other < TWO_32 && |p| < TWO_32
  }

  /** A run of the condition's code leaves by the predicted route, in at least one step. */
  ghost predicate Routed(p: Program, env: Env, c: Expr, vm: Vm, st: State, yes: nat, other: nat, k: nat, out: Vm)
    requires ValidEnv(env) && Condition(c)
  {
    && k > 0 && Reaches(p, vm, k, out) && Matches(env, st, out)
    && out.ip == RouteTarget(GeneratedRoute(c, st.vars), yes, other, vm.ip + CondSize(env, c))
  }

  lemma {:induction false} CondCorrect(p: Program, env: Env, c: Expr, vm: Vm, st: State, yes: nat, other: nat)
    returns (k: nat, out: Vm)
    requires CondReady(p, env, c, vm, st, yes, other) && !CondAborts(Generated, c, st.vars)
    ensures Routed(p, env, c, vm, st, yes, other, k, out)
    decreases c
  {
    hide Run, Op32, CodeAt, Matches, ExprCode, ExprSize, ExprVerdict, ValidEnv, Eval, CmpInt, Aborts;
    match c
    case Binary(l, op, r) =>
      if IsCmpOp(op) {
        k, out := ComparisonCorrect(p, env, c, vm, st, yes, other);
      } else {
        SplitCompound(p, env, c, vm, st, yes, other);
        var yes' := if op == OpAnd then yes else vm.ip + CondSize(env, l) + 1;
        k, out := CondCorrect(p, env, l, vm, st, yes', other);
        var left := GeneratedRoute(l, st.vars);
        if op == OpOr && left == Fall {
          StepJump(p, out, other);
          ReachesTrans(p, vm, k, out, 1, out.(ip := other));
          MatchesAnyIp(env, st, out, other);
          k, out := k + 1, out.(ip := other);
        } else if (op == OpAnd && left == Fall) || (op == OpOr && left == Yes) {
          var k2, out2 := CondCorrect(p, env, r, out, st, yes, other);
          ReachesTrans(p, vm, k, out, k2, out2);
          k, out := k + k2, out2;
        }
      }
    case Unary(_, inner) =>
      k, out := CondCorrect(p, env, inner, vm, st, other, yes);
    case BoolLiteral(b) =>
      k, out := ConstantCorrect(p, env, b, vm, st, yes, other);
  }

  lemma MatchesAnyIp(env: Env, st: State, vm: Vm, ip: nat)
    requires ValidEnv(env) && Matches(env, st, vm)
    ensures Matches(env, st, vm.(ip := ip))
  {
  }

  lemma MatchesAnyFlag(env: Env, st: State, vm: Vm, flag: bool)
    requires ValidEnv(env) && Matches(env, st, vm)
    ensures Matches(env, st, vm.(flag := flag))
  {
  }

  lemma CompoundParts(env: Env, c: Expr)
    requires Condition(c) && c.Binary? && !IsCmpOp(c.op) && CondVerdict(env, c) == Accepted
    ensures (c.op == OpAnd || c.op == OpOr) && Condition(c.left) && Condition(c.right)
    ensures CondVerdict(env, c.left) == Accepted && CondVerdict(env, c.right) == Accepted
  {
  }

  /** AND and OR: the code of the left part, a jump for OR, then the code of the right part. */
  lemma SplitCompound(p: Program, env: Env, c: Expr, vm: Vm, st: State, yes: nat, other: nat)
    requires CondReady(p, env, c, vm, st, yes, other) && c.Binary? && !IsCmpOp(c.op)
    ensures var mid := vm.ip + CondSize(env, c.left);
            if c.op == OpAnd then
              && CondReady(p, env, c.left, vm, st, yes, other)
              && CondVerdict(env, c.right) == Accepted
              && CodeAt(p, mid, CondCode(env, c.right, mid, yes, other))
              && CondSize(env, c) == CondSize(env, c.left) + CondSize(env, c.right)
            else
              && CondReady(p, env, c.left, vm, st, mid + 1, other)
              && mid < |p| && p[mid] == JumpTo(other)
              && CondVerdict(env, c.right) == Accepted
              && CodeAt(p, mid + 1, CondCode(env, c.right, mid + 1, yes, other))
              && CondSize(env, c) == CondSize(env, c.left) + 1 + CondSize(env, c.right)
  {
    hide Run, Op32, Matches, ValidEnv, ExprCode, ExprSize, ExprVerdict, CodeAt, CondCode, CondSize, CondVerdict, Condition, JumpTo;
    var mid := vm.ip + CondSize(env, c.left);
    CompoundParts(env, c);
    CompoundCode(env, c.left, c.op, c.right, vm.ip, yes, other);
    CodeBound(p, vm.ip, CondCode(env, c, vm.ip, yes, other));
    if c.op == OpAnd {
      CodeSplit(p, vm.ip, CondCode(env, c.left, vm.ip, yes, other), CondCode(env, c.right, mid, yes, other));
    } else {
      var lc := CondCode(env, c.left, vm.ip, mid + 1, other);
      CodeSplit(p, vm.ip, lc + [JumpTo(other)], CondCode(env, c.right, mid + 1, yes, other));
      CodeSplit(p, vm.ip, lc, [JumpTo(other)]);
      InstructionAt(p, mid, [JumpTo(other)], 0);
    }
  }

  /** Right operand into the first scratch register, left operand into the second, compare, jump. */
  lemma ComparisonCorrect(p: Program, env: Env, c: Expr, vm: Vm, st: State, yes: nat, other: nat)
    returns (k: nat, out: Vm)
    requires CondReady(p, env, c, vm, st, yes, other) && c.Binary? && IsCmpOp(c.op) && !CondAborts(Generated, c, st.vars)
    ensures Routed(p, env, c, vm, st, yes, other, k, out)
  {
    hide Run, Op32, CodeAt, Matches, ExprCode, ExprSize, ExprVerdict, ValidEnv, Eval, Disturbs, CmpInt, Aborts;
    SplitComparison(p, env, c, vm, st, yes, other);
    var vm1 := ScratchCorrect(p, env, c.right, Scratch(0), 1, vm, st);
    var vm2 := ScratchCorrect(p, env, c.left, Scratch(1), 2, vm1, st);
    Undisturbed(vm1, vm2, Scratch(1), 2, Scratch(0));
    ReachesTrans(p, vm, ExprSize(env, c.right, Scratch(0), 1), vm1, ExprSize(env, c.left, Scratch(1), 2), vm2);
    k := ExprSize(env, c.right, Scratch(0), 1) + ExprSize(env, c.left, Scratch(1), 2);
    var flag := Compare(CmpOf(c.op), vm2.regs[Scratch(1)], vm2.regs[Scratch(0)]);
    CompareDint(CmpOf(c.op), Eval(c.left, st.vars), Eval(c.right, st.vars));
    StepCompare(p, vm2, c.op, Scratch(1), Scratch(0));
    var vm3 := AdvanceIp(vm2.(flag := flag));
    ReachesTrans(p, vm, k, vm2, 1, vm3);
    StepJumpIf(p, vm3, yes);
    out := vm3.(ip := if flag then yes else vm3.ip + 1);
    ReachesTrans(p, vm, k + 1, vm3, 1, out);
    k := k + 2;
    MatchesAnyFlag(env, st, vm2, flag);
    MatchesAnyIp(env, st, vm2.(flag := flag), out.ip);
  }

  /** A condition of which an evaluated part overflows aborts the machine. */
  lemma {:induction false} CondFaults(p: Program, env: Env, c: Expr, vm: Vm, st: State, yes: nat, other: nat) returns (k: nat)
    requires CondReady(p, env, c, vm, st, yes, other) && CondAborts(Generated, c, st.vars)
    ensures FaultsAfter(p, vm, k)
    decreases c
  {
    hide Run, Op32, CodeAt, Matches, ExprCode, ExprSize, ExprVerdict, ValidEnv, Eval, CmpInt, Aborts, FaultsAfter;
    match c
    case Binary(l, op, r) =>
      if IsCmpOp(op) {
        k := ComparisonFaults(p, env, c, vm, st, yes, other);
      } else {
        SplitCompound(p, env, c, vm, st, yes, other);
        var yes' := if op == OpAnd then yes else vm.ip + CondSize(env, l) + 1;
        if CondAborts(Generated, l, st.vars) {
          k := CondFaults(p, env, l, vm, st, yes', other);
        } else {
          var j, mid := CondCorrect(p, env, l, vm, st, yes', other);
          k := CondFaults(p, env, r, mid, st, yes, other);
          FaultsLater(p, vm, j, mid, k);
          k := j + k;
        }
      }
    case Unary(_, inner) =>
      k := CondFaults(p, env, inner, vm, st, other, yes);
  }

  lemma ComparisonFaults(p: Program, env: Env, c: Expr, vm: Vm, st: State, yes: nat, other: nat) returns (k: nat)
    requires CondReady(p, env, c, vm, st, yes, other) && c.Binary? && IsCmpOp(c.op) && CondAborts(Generated, c, st.vars)
    ensures FaultsAfter(p, vm, k)
  {
    hide Run, Op32, CodeAt, Matches, ExprCode, ExprSize, ExprVerdict, ValidEnv, Eval, Disturbs, CmpInt, Aborts, FaultsAfter;
    SplitComparison(p, env, c, vm, st, yes, other);
    if Aborts(c.right, st.vars) {
      k := ScratchFaults(p, env, c.right, Scratch(0), 1, vm, st);
    } else {
      var vm1 := ScratchCorrect(p, env, c.right, Scratch(0), 1, vm, st);
      k := ScratchFaults(p, env, c.left, Scratch(1), 2, vm1, st);
      FaultsLater(p, vm, ExprSize(env, c.right, Scratch(0), 1), vm1, k);
      k := ExprSize(env, c.right, Scratch(0), 1) + k;
    }
  }

  lemma Undisturbed(vm: Vm, out: Vm, dest: u8, d: nat, r: u8)
    requires Disturbs(vm, out, dest, d) && r < REGISTER_COUNT && r != dest && !FreeScratch(r, d)
    ensures out.regs[r] == vm.regs[r]
  {
  }

  lemma CompareDint(op: CmpOp, a: i32, b: i32)
    ensures Compare(op, S32(a), S32(b)) == CmpInt(op, a, b)
  {
  }

  lemma ComparisonShape(env: Env, c: Expr, base: nat, yes: nat, other: nat)
    requires c.Binary? && IsCmpOp(c.op)
    ensures var size := ExprSize(env, c.right, Scratch(0), 1);
            && CondSize(env, c) == size + ExprSize(env, c.left, Scratch(1), 2) + 2
            && CondCode(env, c, base, yes, other)
               == ExprCode(env, c.right, Scratch(0), 1, base) + ExprCode(env, c.left, Scratch(1), 2, base + size)
                  + [Regs2(CmpOpcode(c.op), Scratch(1), Scratch(0)), JumpIfTo(yes)]
            && CondVerdict(env, c) == Then(ExprVerdict(env, c.right, 1), ExprVerdict(env, c.left, 2))
  {
    hide ExprCode, ExprSize, ExprVerdict, Regs2, JumpIfTo, CmpOpcode;
  }

  lemma SplitComparison(p: Program, env: Env, c: Expr, vm: Vm, st: State, yes: nat, other: nat)
    requires CondReady(p, env, c, vm, st, yes, other) && c.Binary? && IsCmpOp(c.op)
    ensures var mid := vm.ip + ExprSize(env, c.right, Scratch(0), 1);
            var end := mid + ExprSize(env, c.left, Scratch(1), 2);
            && Ready(p, env, c.right, Scratch(0), 1, vm, st)
            && DintExpr(c.left) && ExprVerdict(env, c.left, 2) == Accepted
            && CodeAt(p, mid, ExprCode(env, c.left, Scratch(1), 2, mid))
            && end + 1 < |p| && p[end] == Regs2(CmpOpcode(c.op), Scratch(1), Scratch(0)) && p[end + 1] == JumpIfTo(yes)
            && CondSize(env, c) == ExprSize(env, c.right, Scratch(0), 1) + ExprSize(env, c.left, Scratch(1), 2) + 2
  {
    hide Run, Op32, Matches, ValidEnv, CodeAt, ExprCode, ExprSize, ExprVerdict, CondCode, CondSize, CondVerdict, Regs2, JumpIfTo, CmpOpcode;
    ComparisonShape(env, c, vm.ip, yes, other);
    var rc := ExprCode(env, c.right, Scratch(0), 1, vm.ip);
    var lc := ExprCode(env, c.left, Scratch(1), 2, vm.ip + |rc|);
    var tail := [Regs2(CmpOpcode(c.op), Scratch(1), Scratch(0)), JumpIfTo(yes)];
    CodeSplit(p, vm.ip, rc + lc, tail);
    CodeSplit(p, vm.ip, rc, lc);
    InstructionAt(p, vm.ip + |rc| + |lc|, tail, 0);
    InstructionAt(p, vm.ip + |rc| + |lc|, tail, 1);
  }

  /** Loading a literal and TRUE and comparing them sets the flag to the literal. */
  lemma ConstantTest(p: Program, b: bool, vm: Vm) returns (out: Vm)
    requires vm.ip + 2 < |p| && p[vm.ip] == LoadImm(Scratch(0), Bool(b)) && p[vm.ip + 1] == LoadImm(Scratch(1), Bool(true))
    requires p[vm.ip + 2] == Regs2(Eq, Scratch(0), Scratch(1))
    ensures Reaches(p, vm, 3, out) && out.ip == vm.ip + 3 && out.flag == b && out.signals == vm.signals
    ensures forall r: u8 :: r < REGISTER_COUNT && r != Scratch(0) && r != Scratch(1) ==> out.regs[r] == vm.regs[r]
  {
    hide Run, Execute;
    StepLoadImm(p, vm, Scratch(0), Bool(b));
    var vm1 := AdvanceIp(SetReg(vm, Scratch(0), Bool(b)));
    StepLoadImm(p, vm1, Scratch(1), Bool(true));
    var vm2 := AdvanceIp(SetReg(vm1, Scratch(1), Bool(true)));
    ReachesTrans(p, vm, 1, vm1, 1, vm2);
    StepCompare(p, vm2, OpEq, Scratch(0), Scratch(1));
    out := AdvanceIp(vm2.(flag := b));
    ReachesTrans(p, vm, 2, vm2, 1, out);
  }

  lemma ConstantShape(env: Env, b: bool, base: nat, yes: nat, other: nat)
    ensures CondSize(env, BoolLiteral(b)) == 4
    ensures CondCode(env, BoolLiteral(b), base, yes, other)
         == [LoadImm(Scratch(0), Bool(b)), LoadImm(Scratch(1), Bool(true)), Regs2(Eq, Scratch(0), Scratch(1)), JumpIfTo(yes)]
  {
  }

  /** Variables do not live in scratch registers. */
  lemma MatchesBesideScratch(env: Env, st: State, vm: Vm, out: Vm)
    requires ValidEnv(env) && Matches(env, st, vm) && out.signals == vm.signals
    requires forall r: u8 :: r < REGISTER_COUNT && r != Scratch(0) && r != Scratch(1) ==> out.regs[r] == vm.regs[r]
    ensures Matches(env, st, out)
  {
  }

  lemma ConstantCorrect(p: Program, env: Env, b: bool, vm: Vm, st: State, yes: nat, other: nat) returns (k: nat, out: Vm)
    requires CondReady(p, env, BoolLiteral(b), vm, st, yes, other)
    ensures Routed(p, env, BoolLiteral(b), vm, st, yes, other, k, out)
  {
    hide Run, CodeAt, Execute, CondCode, CondSize, CondVerdict, Matches, ValidEnv;
    ConstantShape(env, b, vm.ip, yes, other);
    var code := CondCode(env, BoolLiteral(b), vm.ip, yes, other);
    InstructionAt(p, vm.ip, code, 0);
    InstructionAt(p, vm.ip, code, 1);
    InstructionAt(p, vm.ip, code, 2);
    InstructionAt(p, vm.ip, code, 3);
    var mid := ConstantTest(p, b, vm);
    StepJumpIf(p, mid, yes);
    out := mid.(ip := if b then yes else mid.ip + 1);
    ReachesTrans(p, vm, 3, mid, 1, out);
    MatchesBesideScratch(env, st, vm, out);
    k := 4;
  }
}
