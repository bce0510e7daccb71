/**
 The Structured Text code generator as it runs: it appends instructions to one
 list, takes scratch registers from a table of three flags, emits jumps with
 placeholder targets and patches them once their labels are known. Every method
 is proved to produce the code of module `StCode`.
 */
module StCodegen {
  import opened Options
  import opened Values
  import opened Machine
  import opened StSyntax
  import opened StCode
  import opened StPatching

  /** Index of the first set flag from `i` on, or the number of flags. */
  function FirstFree(avail: seq<bool>, i: nat): (k: nat)
    requires i <= |avail|
    ensures i <= k <= |avail| && (k < |avail| ==> avail[k]) && forall j :: i <= j < k ==> !avail[j]
    decreases |avail| - i
  {
    if i == |avail| || avail[i] then i else FirstFree(avail, i + 1)
  }

  class Codegen {
    const env: Env
    var instructions: seq<Instruction>
    var scratchAvail: seq<bool>
    var loopExits: seq<seq<nat>>

    constructor (vars: seq<Declaration>)
      requires |vars| <= MAX_VAR_REGS
      ensures env == Declare(vars) && instructions == [] && AtDepth(0) && loopExits == []
    {
      env := Declare(vars);
      instructions := [];
      scratchAvail := [true, true, true];
      loopExits := [];
    }

    /** The first `d` scratch registers are in use and the others are free. */
    ghost predicate AtDepth(d: nat)
      reads this`scratchAvail
    {
      d <= SCRATCH_COUNT && scratchAvail == [d <= 0, d <= 1, d <= 2]
    }

    method Emit(inst: Instruction) returns (idx: nat)
      modifies this`instructions
      ensures instructions == old(instructions) + [inst] && idx == |old(instructions)|
    {
      idx := |instructions|;
      instructions := instructions + [inst];
    }

    method PatchJump(idx: nat, target: nat)
      modifies this`instructions
      ensures instructions == Patched(old(instructions), 0, [idx], target)
    {
      if idx < |instructions| {
        instructions := instructions[idx := instructions[idx].(operands := [Target(target)])];
      }
    }

    /** Patches every recorded jump to the same target. */
    method PatchAll(js: seq<nat>, target: nat)
      modifies this`instructions
      ensures instructions == Patched(old(instructions), 0, js, target)
    {
      for i := 0 to |js|
        invariant instructions == Patched(old(instructions), 0, js[..i], target)
      {
        PatchJump(js[i], target);
        PatchedSnoc(old(instructions), js[..i], js[i], target);
        assert js[..i + 1] == js[..i] + [js[i]];
      }
      assert js[..|js|] == js;
    }

    /** Hands out the first free scratch register, if there is one; with `d` registers in use that is the next. */
    method AllocScratch(ghost d: nat) returns (ok: bool, reg: u8)
      requires |scratchAvail| == SCRATCH_COUNT
      modifies this`scratchAvail
      ensures |scratchAvail| == SCRATCH_COUNT
      ensures ok <==> FirstFree(old(scratchAvail), 0) < SCRATCH_COUNT
      ensures ok ==> reg == Scratch(FirstFree(old(scratchAvail), 0))
      ensures ok ==> scratchAvail == old(scratchAvail)[FirstFree(old(scratchAvail), 0) := false]
      ensures !ok ==> scratchAvail == old(scratchAvail)
      ensures old(AtDepth(d)) ==> (ok <==> d < SCRATCH_COUNT) && (ok ==> reg == Scratch(d) && AtDepth(d + 1))
    {
      ok, reg := false, 0;
      var i := 0;
      while i < SCRATCH_COUNT
        invariant i <= SCRATCH_COUNT && scratchAvail == old(scratchAvail)
        invariant forall j :: 0 <= j < i ==> !scratchAvail[j]
        invariant FirstFree(scratchAvail, i) == FirstFree(scratchAvail, 0)
      {
        if scratchAvail[i] {
          scratchAvail := scratchAvail[i := false];
          return true, Scratch(i);
        }
        i := i + 1;
      }
      assert !scratchAvail[2];
    }

    method FreeScratch(reg: u8)
      requires |scratchAvail| == SCRATCH_COUNT
      modifies this`scratchAvail
      ensures |scratchAvail| == SCRATCH_COUNT
      ensures forall i :: 0 <= i < SCRATCH_COUNT ==> (scratchAvail[i] <==> old(scratchAvail)[i] || reg == Scratch(i))
    {
      for i := 0 to SCRATCH_COUNT
        invariant |scratchAvail| == SCRATCH_COUNT
        invariant forall j :: 0 <= j < SCRATCH_COUNT ==>
          (scratchAvail[j] <==> old(scratchAvail)[j] || (j < i && reg == Scratch(j)))
      {
        if reg == Scratch(i) {
          scratchAvail := scratchAvail[i := true];
        }
      }
    }

    // ----- expressions -----

    method CompileExpr(e: Expr, dest: u8, ghost d: nat) returns (v: Verdict)
      requires AtDepth(d)
      modifies this`instructions, this`scratchAvail
      ensures v == ExprVerdict(env, e, d)
      ensures v.Accepted? ==> AtDepth(d)
      ensures v.Accepted? ==> instructions == old(instructions) + ExprCode(env, e, dest, d, |old(instructions)|)
      decreases e, 2
    {
      v := Accepted;
      match e
      case IntLiteral(n) =>
        var _ := Emit(LoadImm(dest, S32(WrapS32(n))));
      case RealLiteral(x) =>
        var _ := Emit(LoadImm(dest, F32(x)));
      case BoolLiteral(b) =>
        var _ := Emit(LoadImm(dest, Bool(b)));
      case Variable(x) =>
        v := CheckVar(env, x);
        if v.Accepted? && env.registers[x] != dest {
          var _ := Emit(LoadImm(dest, ZeroFor(env, x)));
          var _ := Emit(Arith3(Add, env.registers[x], dest, dest));
        }
      case Binary(_, op, _) =>
        if IsCmpOp(op) {
          v := CompileCmpExpr(e, dest, d);
        } else {
          v := CompileOperator(e, dest, d);
        }
      case Unary(UNeg, inner) =>
        v := CompileExpr(inner, dest, d);
        if !v.Accepted? { return; }
        var ok, zero := AllocScratch(d);
        if !ok { return ScratchOverflow; }
        var _ := Emit(LoadImm(zero, S32(0)));
        var _ := Emit(Arith3(Sub, zero, dest, dest));
        FreeScratch(zero);
      case Unary(UNot, inner) =>
        v := CompileExpr(inner, dest, d);
        if !v.Accepted? { return; }
        var _ := Emit(Arith3(Not, dest, dest, dest));
      case FieldAccess(_, _) =>
        v := CompileFieldAccess(e, dest, d);
      case ArrayAccess(_, _) =>
        v := CompileArrayAccess(e, dest, d);
    }

    method CompileArrayAccess(e: Expr, dest: u8, ghost d: nat) returns (v: Verdict)
      requires AtDepth(d) && e.ArrayAccess?
      modifies this`instructions, this`scratchAvail
      ensures v == ExprVerdict(env, e, d)
      ensures v.Accepted? ==> AtDepth(d)
      ensures v.Accepted? ==> instructions == old(instructions) + ExprCode(env, e, dest, d, |old(instructions)|)
      decreases e, 0
    {
      hide ExprCode, ExprSize, ExprVerdict;
      AccessCode(env, e, dest, d, |instructions|);
      v := CheckVar(env, e.name);
      if !v.Accepted? { return; }
      var ok, s := AllocScratch(d);
      if !ok { return ScratchOverflow; }
      v := CompileExpr(e.index, s, d + 1);
      if !v.Accepted? { return; }
      var _ := Emit(ElementLoad(dest, env.registers[e.name], s));
      FreeScratch(s);
    }

    method CompileOperator(e: Expr, dest: u8, ghost d: nat) returns (v: Verdict)
      requires AtDepth(d) && e.Binary? && !IsCmpOp(e.op)
      modifies this`instructions, this`scratchAvail
      ensures v == ExprVerdict(env, e, d)
      ensures v.Accepted? ==> AtDepth(d)
      ensures v.Accepted? ==> instructions == old(instructions) + ExprCode(env, e, dest, d, |old(instructions)|)
      decreases e, 0
    {
      hide ExprCode, ExprSize, ExprVerdict;
      OperatorCode(env, e, dest, d, |instructions|);
      OperatorVerdict(env, e, d);
      var ok, s;
      if IsArithOp(e.op) {
        v := CompileExpr(e.left, dest, d);
        if !v.Accepted? { return; }
        ok, s := AllocScratch(d);
        if !ok { return ScratchOverflow; }
      } else {
        ok, s := AllocScratch(d);
        if !ok { return ScratchOverflow; }
        v := CompileExpr(e.left, dest, d + 1);
        if !v.Accepted? { return; }
      }
      v := CompileExpr(e.right, s, d + 1);
      if !v.Accepted? { return; }
      var _ := Emit(Arith3(ArithOpcode(e.op), dest, s, dest));
      FreeScratch(s);
    }

    /** Both operands of a comparison into scratch registers, and the comparison itself. */
    method CompileComparison(e: Expr, ghost d: nat) returns (v: Verdict)
      requires AtDepth(d) && e.Binary? && IsCmpOp(e.op)
      modifies this`instructions, this`scratchAvail
      ensures v == Fits(d, Then(ExprVerdict(env, e.right, d + 1), Fits(d + 1, ExprVerdict(env, e.left, d + 2))))
      ensures v.Accepted? ==> AtDepth(d)
      ensures v.Accepted? ==>
        instructions == old(instructions) + ExprCode(env, e.right, Scratch(d), d + 1, |old(instructions)|)
          + ExprCode(env, e.left, Scratch(d + 1), d + 2, |old(instructions)| + ExprSize(env, e.right, Scratch(d), d + 1))
          + [Regs2(CmpOpcode(e.op), Scratch(d + 1), Scratch(d))]
      decreases e, 0
    {
      hide ExprCode, ExprSize, ExprVerdict;
      var ok, rs := AllocScratch(d);
      if !ok { return ScratchOverflow; }
      v := CompileExpr(e.right, rs, d + 1);
      if !v.Accepted? { return; }
      var ls;
      ok, ls := AllocScratch(d + 1);
      if !ok { return ScratchOverflow; }
      v := CompileExpr(e.left, ls, d + 2);
      if !v.Accepted? { return; }
      var _ := Emit(Regs2(CmpOpcode(e.op), ls, rs));
      FreeScratch(ls);
      FreeScratch(rs);
    }

    /** A comparison used as a value: flag to register, through a jump patched on the spot. */
    method CompileCmpExpr(e: Expr, dest: u8, ghost d: nat) returns (v: Verdict)
      requires AtDepth(d) && e.Binary? && IsCmpOp(e.op)
      modifies this`instructions, this`scratchAvail
      ensures v == ExprVerdict(env, e, d)
      ensures v.Accepted? ==> AtDepth(d)
      ensures v.Accepted? ==> instructions == old(instructions) + ExprCode(env, e, dest, d, |old(instructions)|)
      decreases e, 1
    {
      hide ExprCode, ExprSize, ExprVerdict, JumpIfTo, LoadImm, Regs2, Patched, CmpOpcode, Scratch;
      ComparisonCode(env, e, dest, d, |instructions|);
      ComparisonVerdict(env, e, d);
      v := CompileComparison(e, d);
      if !v.Accepted? { return; }
      var _ := Emit(LoadImm(dest, Bool(false)));
      ghost var before := instructions;
      var jmp := Emit(JumpIfTo(0));
      var _ := Emit(LoadImm(dest, Bool(true)));
      PatchedJump(before, 0, [LoadImm(dest, Bool(true))], |instructions|);
      PatchJump(jmp, |instructions|);
    }

    method CompileFieldAccess(e: Expr, dest: u8, ghost d: nat) returns (v: Verdict)
      requires AtDepth(d) && e.FieldAccess?
      modifies this`instructions, this`scratchAvail
      ensures v == ExprVerdict(env, e, d)
      ensures v.Accepted? ==> AtDepth(d)
      ensures v.Accepted? ==> instructions == old(instructions) + ExprCode(env, e, dest, d, |old(instructions)|)
    {
      v := CheckVar(env, e.name);
      if !v.Accepted? { return; }
      var i := Immediate(U32(env.registers[e.name]));
      if e.name in env.types && IsEdge(env.types[e.name]) {
        var _ := Emit(Instruction(ReadEdge, [i, Register(dest)]));
        return;
      }
      var ok, s := AllocScratch(d);
      if !ok { return ScratchOverflow; }
      if e.name in env.types && IsBistable(env.types[e.name]) {
        var q1 := if e.field == "Q2" then s else dest;
        var q2 := if e.field == "Q2" then dest else s;
        var _ := Emit(Instruction(ReadSr, [i, Register(q1), Register(q2)]));
      } else {
        var _ := Emit(Instruction(ReadTimer, [i, Register(dest), Register(s)]));
      }
      FreeScratch(s);
    }

    // ----- conditions -----

    /** Appends the code of a condition and its pending jumps to the two lists. */
    method CompileBoolCond(e: Expr, elseJumps: seq<nat>, endJumps: seq<nat>) returns (v: Verdict, yes: seq<nat>, other: seq<nat>)
      requires AtDepth(0)
      modifies this`instructions, this`scratchAvail
      ensures v == CondVerdict(env, e)
      ensures v.Accepted? ==>
        && AtDepth(0)
        && instructions == old(instructions) + CondCode(env, e, |old(instructions)|, 0, 0)
        && yes == elseJumps + YesJumps(env, e, |old(instructions)|)
        && other == endJumps + OtherJumps(env, e, |old(instructions)|)
      decreases e, 1
    {
      yes, other := elseJumps, endJumps;
      if e.Binary? && e.op == OpAnd {
        hide CondCode, CondSize, ExprVerdict;
        ghost var base := |instructions|;
        CompoundCode(env, e.left, OpAnd, e.right, base, 0, 0);
        v, yes, other := CompileBoolCond(e.left, yes, other);
        if !v.Accepted? { return; }
        v, yes, other := CompileBoolCond(e.right, yes, other);
      } else if e.Binary? && e.op == OpOr {
        v, yes, other := CompileOrCond(e, yes, other);
      } else if e.Unary? && e.uop == UNot {
        var innerElse, innerEnd;
        v, innerElse, innerEnd := CompileBoolCond(e.inner, [], []);
        yes, other := yes + innerEnd, other + innerElse;
      } else {
        v, yes := CompileSimpleCond(e, yes);
      }
    }

    method CompileOrCond(e: Expr, elseJumps: seq<nat>, endJumps: seq<nat>) returns (v: Verdict, yes: seq<nat>, other: seq<nat>)
      requires AtDepth(0) && e.Binary? && e.op == OpOr
      modifies this`instructions, this`scratchAvail
      ensures v == CondVerdict(env, e)
      ensures v.Accepted? ==>
        && AtDepth(0)
        && instructions == old(instructions) + CondCode(env, e, |old(instructions)|, 0, 0)
        && yes == elseJumps + YesJumps(env, e, |old(instructions)|)
        && other == endJumps + OtherJumps(env, e, |old(instructions)|)
      decreases e, 0
    {
      hide CondCode, CondSize, ExprVerdict, Patched;
      ghost var pre := instructions;
      CompoundCode(env, e.left, OpOr, e.right, |pre|, 0, 0);
      yes, other := elseJumps, endJumps;
      var rightElse;
      v, rightElse, other := CompileBoolCond(e.left, [], other);
      if !v.Accepted? { return; }
      var orThen := Emit(JumpTo(0));
      other := other + [orThen];
      var rightStart := |instructions|;
      assert rightElse == YesJumps(env, e.left, |pre|);
      CondJumpsWithin(env, e.left, |pre|);
      PatchedWithin(pre, CondCode(env, e.left, |pre|, 0, 0), [JumpTo(0)], rightElse, rightStart);
      PatchYes(env, e.left, |pre|, 0, rightStart, 0);
      PatchAll(rightElse, rightStart);
      assert instructions == pre + CondCode(env, e.left, |pre|, rightStart, 0) + [JumpTo(0)];
      v, yes, other := CompileBoolCond(e.right, yes, other);
    }

    /** One comparison, or any other expression tested against TRUE. */
    method CompileSimpleCond(e: Expr, elseJumps: seq<nat>) returns (v: Verdict, yes: seq<nat>)
      requires AtDepth(0) && !(e.Binary? && (e.op == OpAnd || e.op == OpOr)) && !(e.Unary? && e.uop == UNot)
      modifies this`instructions, this`scratchAvail
      ensures v == CondVerdict(env, e)
      ensures v.Accepted? ==>
        && AtDepth(0)
        && instructions == old(instructions) + CondCode(env, e, |old(instructions)|, 0, 0)
        && yes == elseJumps + YesJumps(env, e, |old(instructions)|)
        && OtherJumps(env, e, |old(instructions)|) == []
    {
      hide ExprCode, ExprSize, ExprVerdict;
      yes := elseJumps;
      if e.Binary? && IsCmpOp(e.op) {
        v := CompileComparison(e, 0);
      } else {
        v := CompileValueTest(e);
      }
      if !v.Accepted? { return; }
      var jmp := Emit(JumpIfTo(0));
      yes := yes + [jmp];
    }

    method CompileValueTest(e: Expr) returns (v: Verdict)
      requires AtDepth(0)
      modifies this`instructions, this`scratchAvail
      ensures v == ExprVerdict(env, e, 1)
      ensures v.Accepted? ==>
        && AtDepth(0)
        && instructions == old(instructions) + ExprCode(env, e, Scratch(0), 1, |old(instructions)|)
             + [LoadImm(Scratch(1), Bool(true)), Regs2(Eq, Scratch(0), Scratch(1))]
    {
      hide ExprCode, ExprSize, ExprVerdict;
      var _, s := AllocScratch(0);
      v := CompileExpr(e, s, 1);
      if !v.Accepted? { return; }
      var _, t := AllocScratch(1);
      var _ := Emit(LoadImm(t, Bool(true)));
      var _ := Emit(Regs2(Eq, s, t));
      FreeScratch(s);
      FreeScratch(t);
    }

    // ----- loops -----

    method PushLoop()
      modifies this`loopExits
      ensures loopExits == old(loopExits) + [[]]
    {
      loopExits := loopExits + [[]];
    }

    /** EXIT: a jump recorded with the innermost loop; aborts when there is none. */
    method RecordExit() returns (v: Verdict)
      modifies this`instructions, this`loopExits
      ensures v == if old(loopExits) == [] then ExitOutsideLoop else Accepted
      ensures v.Accepted? ==> instructions == old(instructions) + [JumpTo(0)]
      ensures v.Accepted? ==> loopExits == WithExits(old(loopExits), [|old(instructions)|])
    {
      var jmp := Emit(JumpTo(0));
      if |loopExits| == 0 { return ExitOutsideLoop; }
      var last := |loopExits| - 1;
      loopExits := loopExits[last := loopExits[last] + [jmp]];
      v := Accepted;
    }

    /** Ends the innermost loop: its EXIT jumps go to the next instruction. */
    method PopLoop()
      requires loopExits != []
      modifies this`instructions, this`loopExits
      ensures loopExits == old(loopExits)[..|old(loopExits)| - 1]
      ensures instructions == Patched(old(instructions), 0, old(loopExits)[|old(loopExits)| - 1], |old(instructions)|)
    {
      var exits := loopExits[|loopExits| - 1];
      loopExits := loopExits[..|loopExits| - 1];
      PatchAll(exits, |instructions|);
    }

    // ----- statements -----

    method CompileStmt(s: Stmt) returns (v: Verdict)
      requires AtDepth(0)
      modifies this
      ensures v == StmtVerdict(env, s, old(loopExits) != [])
      ensures v.Accepted? ==> AtDepth(0)
      ensures v.Accepted? ==> instructions == old(instructions) + StmtCode(env, s, |old(instructions)|, 0)
      ensures v.Accepted? ==> loopExits == WithExits(old(loopExits), Exits(env, s, |old(instructions)|))
      decreases s, 2
    {
      WithNoExits(loopExits);
      match s
      case Assign(_, _) => v := CompileAssign(s);
      case ArrayAssign(_, _, _) => v := CompileArrayAssign(s);
      case If(_, _, _) => v := CompileIf(s);
      case While(_, _) => v := CompileWhile(s);
      case For(_, _, _, _, _) => v := CompileFor(s);
      case Case(_, _) => v := CompileCase(s);
      case Repeat(_, _) => v := CompileRepeat(s);
      case Return =>
        var _ := Emit(HALT);
        v := Accepted;
      case Exit => v := RecordExit();
      case FunCall(_, _) => v := CompileCall(s);
    }

    method CompileAssign(s: Stmt) returns (v: Verdict)
      requires AtDepth(0) && s.Assign?
      modifies this`instructions, this`scratchAvail
      ensures v == StmtVerdict(env, s, old(loopExits) != [])
      ensures v.Accepted? ==> AtDepth(0)
      ensures v.Accepted? ==> instructions == old(instructions) + StmtCode(env, s, |old(instructions)|, 0)
    {
      hide ExprCode, ExprSize, ExprVerdict, CheckAssign;
      v := CheckAssign(env, s.name, s.value);
      if !v.Accepted? { return; }
      v := CheckVar(env, s.name);
      if !v.Accepted? { return; }
      v := CompileExpr(s.value, env.registers[s.name], 0);
      if !v.Accepted? { return; }
      var _ := Emit(StoreSignal(s.name, env.registers[s.name]));
    }

    /** Index and value are held in two scratch registers; nothing checks their types. */
    method CompileArrayAssign(s: Stmt) returns (v: Verdict)
      requires AtDepth(0) && s.ArrayAssign?
      modifies this`instructions, this`scratchAvail
      ensures v == StmtVerdict(env, s, old(loopExits) != [])
      ensures v.Accepted? ==> AtDepth(0)
      ensures v.Accepted? ==> instructions == old(instructions) + StmtCode(env, s, |old(instructions)|, 0)
    {
      hide ExprCode, ExprSize, ExprVerdict;
      v := CheckVar(env, s.name);
      if !v.Accepted? { return; }
      var _, idx := AllocScratch(0);
      v := CompileExpr(s.index, idx, 1);
      if !v.Accepted? { return; }
      var _, val := AllocScratch(1);
      v := CompileExpr(s.value, val, 2);
      if !v.Accepted? { return; }
      var _ := Emit(ElementStore(env.registers[s.name], idx, val));
      FreeScratch(idx);
      FreeScratch(val);
      var _ := Emit(StoreSignal(s.name, env.registers[s.name]));
    }

    method CompileBlock(body: Block) returns (v: Verdict)
      requires AtDepth(0)
      modifies this
      ensures v == BlockVerdict(env, body, old(loopExits) != [])
      ensures v.Accepted? ==> AtDepth(0)
      ensures v.Accepted? ==> instructions == old(instructions) + BlockCode(env, body, |old(instructions)|, 0)
      ensures v.Accepted? ==> loopExits == WithExits(old(loopExits), BlockExits(env, body, |old(instructions)|))
      decreases body, 0
    {
      hide StmtCode, StmtSize, StmtVerdict, Exits, WithExits;
      v := Accepted;
      var b := body;
      ghost var inLoop := loopExits != [];
      WithNoExits(loopExits);
      WithExitsKeepsLoops(loopExits);
      ghost var done: seq<nat> := [];
      while b.Cons?
        invariant v.Accepted? && AtDepth(0)
        invariant b == body || (body decreases to b)
        invariant BlockVerdict(env, body, inLoop) == BlockVerdict(env, b, inLoop)
        invariant old(instructions) + BlockCode(env, body, |old(instructions)|, 0) == instructions + BlockCode(env, b, |instructions|, 0)
        invariant loopExits == WithExits(old(loopExits), done)
        invariant done + BlockExits(env, b, |instructions|) == BlockExits(env, body, |old(instructions)|)
        decreases b
      {
        ghost var start := |instructions|;
        v := CompileStmt(b.head);
        if !v.Accepted? { return; }
        WithExitsTwice(old(loopExits), done, Exits(env, b.head, start));
        done := done + Exits(env, b.head, start);
        b := b.tail;
      }
      assert done + [] == done && instructions + [] == instructions;
    }

    /** The condition of an IF and the jump to its ELSE branch, still pending. */
    method CompileIfCondition(c: Expr) returns (v: Verdict, toElse: nat)
      requires AtDepth(0)
      modifies this`instructions, this`scratchAvail
      ensures v == CondVerdict(env, c)
      ensures v.Accepted? ==>
        var thenLabel := |old(instructions)| + CondSize(env, c) + 1;
        && AtDepth(0) && toElse == thenLabel - 1
        && instructions == old(instructions) + CondCode(env, c, |old(instructions)|, thenLabel, thenLabel) + [JumpTo(0)]
    {
      hide CondCode, CondSize, CondVerdict, Patched, YesJumps, OtherJumps;
      toElse := 0;
      ghost var pre := instructions;
      var elseJumps, endJumps;
      v, elseJumps, endJumps := CompileBoolCond(c, [], []);
      if !v.Accepted? { return; }
      toElse := Emit(JumpTo(0));
      var thenLabel := |instructions|;
      IfConditionPatched(env, c, pre, elseJumps, endJumps);
      PatchAll(elseJumps, thenLabel);
      PatchAll(endJumps, thenLabel);
    }

    /** The condition and THEN branch of an IF, and the jump past its ELSE branch, still pending. */
    method CompileThen(s: Stmt) returns (v: Verdict, toEnd: nat)
      requires AtDepth(0) && s.If?
      modifies this
      ensures v == Then(CondVerdict(env, s.cond), BlockVerdict(env, s.thenBody, old(loopExits) != []))
      ensures v.Accepted? ==>
        var thenLabel := |old(instructions)| + CondSize(env, s.cond) + 1;
        var elseLabel := thenLabel + BlockSize(env, s.thenBody) + 1;
        && AtDepth(0) && toEnd == elseLabel - 1
        && instructions == old(instructions) + CondCode(env, s.cond, |old(instructions)|, thenLabel, thenLabel) + [JumpTo(elseLabel)]
             + BlockCode(env, s.thenBody, thenLabel, 0) + [JumpTo(0)]
        && loopExits == WithExits(old(loopExits), BlockExits(env, s.thenBody, thenLabel))
      decreases s, 0
    {
      hide *;
      ThenIs();
      ghost var pre := instructions;
      toEnd := 0;
      var toElse;
      v, toElse := CompileIfCondition(s.cond);
      if !v.Accepted? { return; }
      var thenLabel := |instructions|;
      ghost var cond := CondCode(env, s.cond, |pre|, thenLabel, thenLabel);
      v := CompileBlock(s.thenBody);
      if !v.Accepted? { return; }
      ghost var thenCode := BlockCode(env, s.thenBody, thenLabel, 0);
      toEnd := Emit(JumpTo(0));
      var elseLabel := |instructions|;
      assert instructions == pre + cond + [JumpTo(0)] + (thenCode + [JumpTo(0)]);
      PatchedJump(pre + cond, 0, thenCode + [JumpTo(0)], elseLabel);
      PatchJump(toElse, elseLabel);
      assert pre + cond + [JumpTo(elseLabel)] + (thenCode + [JumpTo(0)]) == pre + cond + [JumpTo(elseLabel)] + thenCode + [JumpTo(0)];
    }

    method CompileIf(s: Stmt) returns (v: Verdict)
      requires AtDepth(0) && s.If?
      modifies this
      ensures v == StmtVerdict(env, s, old(loopExits) != [])
      ensures v.Accepted? ==> AtDepth(0)
      ensures v.Accepted? ==> instructions == old(instructions) + StmtCode(env, s, |old(instructions)|, 0)
      ensures v.Accepted? ==> loopExits == WithExits(old(loopExits), Exits(env, s, |old(instructions)|))
      decreases s, 1
    {
      hide *;
      ThenIs();
      ghost var pre := instructions;
      WithExitsKeepsLoops(loopExits);
      IfVerdict(env, s, loopExits != []);
      v := CheckCondition(env, s.cond);
      if !v.Accepted? { return; }
      var toEnd;
      v, toEnd := CompileThen(s);
      if !v.Accepted? { return; }
      ghost var head := instructions[..toEnd];
      var elseLabel := |instructions|;
      assert instructions == head + [JumpTo(0)];
      ghost var mid := loopExits;
      v := CompileBlock(s.elseBody);
      if !v.Accepted? { return; }
      ghost var thenLabel := |pre| + CondSize(env, s.cond) + 1;
      WithExitsTwice(old(loopExits), BlockExits(env, s.thenBody, thenLabel), BlockExits(env, s.elseBody, elseLabel));
      PatchedJump(head, 0, BlockCode(env, s.elseBody, elseLabel, 0), |instructions|);
      PatchJump(toEnd, |instructions|);
      IfExits(env, s, |pre|);
      IfAssembled(env, s, pre, thenLabel, elseLabel, |instructions|);
    }

    method CompileWhile(s: Stmt) returns (v: Verdict)
      requires AtDepth(0) && s.While?
      modifies this
      ensures v == StmtVerdict(env, s, old(loopExits) != [])
      ensures v.Accepted? ==> AtDepth(0)
      ensures v.Accepted? ==> instructions == old(instructions) + StmtCode(env, s, |old(instructions)|, 0)
      ensures v.Accepted? ==> loopExits == old(loopExits)
      decreases s, 0
    {
      hide *;
      ThenIs();
      ghost var pre := instructions;
      LoopVerdict(env, s, loopExits != []);
      v := CheckCondition(env, s.cond);
      if !v.Accepted? { return; }
      PushLoop();
      var loopStart := |instructions|;
      var elseJumps, endJumps;
      v, elseJumps, endJumps := CompileBoolCond(s.cond, [], []);
      if !v.Accepted? { return; }
      var exitJump := Emit(JumpTo(0));
      var bodyLabel := |instructions|;
      LoopConditionPatched(env, s.cond, pre, elseJumps, [JumpTo(0)], bodyLabel);
      PatchAll(elseJumps, bodyLabel);
      ghost var cond := CondCode(env, s.cond, |pre|, bodyLabel, 0);
      assert instructions == pre + cond + [JumpTo(0)];
      v := CompileBlock(s.body);
      if !v.Accepted? { return; }
      var _ := Emit(JumpTo(loopStart));
      ghost var body := BlockCode(env, s.body, bodyLabel, 0);
      var exitLabel := |instructions|;
      assert instructions == pre + cond + [JumpTo(0)] + (body + [JumpTo(loopStart)]);
      PatchedJump(pre + cond, 0, body + [JumpTo(loopStart)], exitLabel);
      PatchJump(exitJump, exitLabel);
      ghost var head := pre + cond + [JumpTo(exitLabel)];
      assert instructions == head + body + [JumpTo(loopStart)];
      FirstExits(old(loopExits), BlockExits(env, s.body, bodyLabel));
      ExitsPatched(env, s.body, head, [JumpTo(loopStart)], exitLabel);
      PopLoop();
      WhileCode(env, s, |pre|);
    }

    method CompileRepeat(s: Stmt) returns (v: Verdict)
      requires AtDepth(0) && s.Repeat?
      modifies this
      ensures v == StmtVerdict(env, s, old(loopExits) != [])
      ensures v.Accepted? ==> AtDepth(0)
      ensures v.Accepted? ==> instructions == old(instructions) + StmtCode(env, s, |old(instructions)|, 0)
      ensures v.Accepted? ==> loopExits == old(loopExits)
      decreases s, 0
    {
      hide *;
      ThenIs();
      ghost var pre := instructions;
      LoopVerdict(env, s, loopExits != []);
      v := CheckCondition(env, s.cond);
      if !v.Accepted? { return; }
      PushLoop();
      var loopStart := |instructions|;
      v := CompileBlock(s.body);
      if !v.Accepted? { return; }
      ghost var body := BlockCode(env, s.body, |pre|, 0);
      var elseJumps, endJumps;
      v, elseJumps, endJumps := CompileBoolCond(s.cond, [], []);
      if !v.Accepted? { return; }
      var toLoop := Emit(JumpTo(0));
      var exitLabel := |instructions|;
      LoopConditionPatched(env, s.cond, pre + body, elseJumps, [JumpTo(0)], exitLabel);
      PatchAll(elseJumps, exitLabel);
      ghost var cond := CondCode(env, s.cond, |pre + body|, exitLabel, 0);
      assert instructions == pre + body + cond + [JumpTo(0)] + [];
      PatchedJump(pre + body + cond, 0, [], loopStart);
      PatchJump(toLoop, loopStart);
      assert instructions == pre + body + (cond + [JumpTo(loopStart)]);
      FirstExits(old(loopExits), BlockExits(env, s.body, |pre|));
      ExitsPatched(env, s.body, pre, cond + [JumpTo(loopStart)], exitLabel);
      PopLoop();
      RepeatCode(env, s, |pre|);
    }

    method CompileFor(s: Stmt) returns (v: Verdict)
      requires AtDepth(0) && s.For?
      modifies this
      ensures v == StmtVerdict(env, s, old(loopExits) != [])
      ensures v.Accepted? ==> AtDepth(0)
      ensures v.Accepted? ==> instructions == old(instructions) + StmtCode(env, s, |old(instructions)|, 0)
      ensures v.Accepted? ==> loopExits == old(loopExits)
      decreases s, 1
    {
      hide *;
      ThenIs();
      ghost var pre := instructions;
      ForVerdict(env, s, loopExits != []);
      CheckedVariable(env, s.variable);
      v := CheckForVariable(env, s.variable);
      if !v.Accepted? { return; }
      v := CheckVar(env, s.variable);
      if !v.Accepted? { return; }
      var r := env.registers[s.variable];
      v := CompileExpr(s.start, r, 0);
      if !v.Accepted? { return; }
      PushLoop();
      var loopStart := |instructions|;
      v := CompileLimitTest(s.end, r);
      if !v.Accepted? { return; }
      ghost var exits := old(loopExits);
      v := CompileForLoop(s, r, loopStart, exits);
      if !v.Accepted? { return; }
      ForAssembled(env, s, pre, r, loopStart, loopStart + ExprSize(env, s.end, Scratch(0), 1) + 2, |instructions|);
    }

    /** The exit jump of a FOR loop, its body and its advance; then the jumps to its end are patched. */
    method CompileForLoop(s: Stmt, r: u8, loopStart: nat, ghost exits: seq<seq<nat>>) returns (v: Verdict)
      requires AtDepth(0) && s.For? && loopExits == exits + [[]]
      modifies this
      ensures v == Then(BlockVerdict(env, s.body, true), if s.step.Some? then ExprVerdict(env, s.step.value, 1) else Accepted)
      ensures v.Accepted? ==>
        var bodyLabel := |old(instructions)| + 1;
        var end := bodyLabel + BlockSize(env, s.body) + StepSize(env, s.step) + 2;
        && AtDepth(0) && loopExits == exits
        && instructions == old(instructions) + [JumpIfTo(end)] + BlockCode(env, s.body, bodyLabel, end)
             + (StepCode(env, s.step, bodyLabel + BlockSize(env, s.body)) + [Arith3(Add, r, Scratch(0), r), JumpTo(loopStart)])
      decreases s, 0
    {
      hide *;
      ThenIs();
      ghost var head := instructions;
      var exitJump := Emit(JumpIfTo(0));
      var bodyLabel := |instructions|;
      v := CompileBlock(s.body);
      if !v.Accepted? { return; }
      ghost var body := BlockCode(env, s.body, bodyLabel, 0);
      v := CompileAdvance(s.step, r, loopStart);
      if !v.Accepted? { return; }
      ghost var tail := StepCode(env, s.step, bodyLabel + |body|) + [Arith3(Add, r, Scratch(0), r), JumpTo(loopStart)];
      var exitLabel := |instructions|;
      assert instructions == head + [JumpIfTo(0)] + (body + tail);
      PatchedJump(head, 0, body + tail, exitLabel);
      PatchJump(exitJump, exitLabel);
      assert instructions == head + [JumpIfTo(exitLabel)] + body + tail;
      FirstExits(exits, BlockExits(env, s.body, bodyLabel));
      ExitsPatched(env, s.body, head + [JumpIfTo(exitLabel)], tail, exitLabel);
      PopLoop();
    }

    /** Limit into a scratch register and the comparison of the loop variable with it. */
    method CompileLimitTest(end: Expr, r: u8) returns (v: Verdict)
      requires AtDepth(0)
      modifies this`instructions, this`scratchAvail
      ensures v == ExprVerdict(env, end, 1)
      ensures v.Accepted? ==> AtDepth(0)
      ensures v.Accepted? ==> instructions == old(instructions) + (ExprCode(env, end, Scratch(0), 1, |old(instructions)|) + [Regs2(Gt, r, Scratch(0))])
    {
      hide ExprCode, ExprSize, ExprVerdict;
      var _, s := AllocScratch(0);
      v := CompileExpr(end, s, 1);
      if !v.Accepted? { return; }
      var _ := Emit(Regs2(Gt, r, s));
      FreeScratch(s);
    }

    /** Step into a scratch register, its addition to the loop variable, and the jump back. */
    method CompileAdvance(step: Option<Expr>, r: u8, loopStart: nat) returns (v: Verdict)
      requires AtDepth(0)
      modifies this`instructions, this`scratchAvail
      ensures v == if step.Some? then ExprVerdict(env, step.value, 1) else Accepted
      ensures v.Accepted? ==> AtDepth(0)
      ensures v.Accepted? ==> instructions == old(instructions) + (StepCode(env, step, |old(instructions)|) + [Arith3(Add, r, Scratch(0), r), JumpTo(loopStart)])
    {
      hide ExprCode, ExprSize, ExprVerdict;
      var _, s := AllocScratch(0);
      v := Accepted;
      if step.Some? {
        v := CompileExpr(step.value, s, 1);
        if !v.Accepted? { return; }
      } else {
        var _ := Emit(LoadImm(s, S32(1)));
      }
      var _ := Emit(Arith3(Add, r, s, r));
      FreeScratch(s);
      var _ := Emit(JumpTo(loopStart));
    }

    method CompileCase(s: Stmt) returns (v: Verdict)
      requires AtDepth(0) && s.Case?
      modifies this
      ensures v == StmtVerdict(env, s, old(loopExits) != [])
      ensures v.Accepted? ==> AtDepth(0)
      ensures v.Accepted? ==> instructions == old(instructions) + StmtCode(env, s, |old(instructions)|, 0)
      ensures v.Accepted? ==> loopExits == WithExits(old(loopExits), Exits(env, s, |old(instructions)|))
      decreases s, 0
    {
      hide CasesCode, CasesVerdict, CasesExits, CasesSize, EndJumps, WithExits, Patched, StmtCode, StmtVerdict, StmtSize, Exits;
      CaseCode(env, s, |instructions|, loopExits != []);
      v := CheckVar(env, s.variable);
      if !v.Accepted? { return; }
      var exitJumps;
      v, exitJumps := CompileCases(env.registers[s.variable], s.cases);
      if !v.Accepted? { return; }
      EndsPatched(env, env.registers[s.variable], s.cases, old(instructions), |instructions|);
      PatchAll(exitJumps, |instructions|);
    }

    /** All branches and the ELSE part; the jumps to the end are still pending. */
    method CompileCases(r: u8, cases: Cases) returns (v: Verdict, exitJumps: seq<nat>)
      requires AtDepth(0)
      modifies this
      ensures v == CasesVerdict(env, cases, old(loopExits) != [])
      ensures v.Accepted? ==>
        && AtDepth(0)
        && instructions == old(instructions) + CasesCode(env, r, cases, |old(instructions)|, 0, 0)
        && exitJumps == EndJumps(env, cases, |old(instructions)|)
        && loopExits == WithExits(old(loopExits), CasesExits(env, cases, |old(instructions)|))
      decreases cases, 1
    {
      hide *;
      ThenIs();
      v, exitJumps := Accepted, [];
      var cs := cases;
      ghost var pre, inLoop := instructions, loopExits != [];
      WithNoExits(loopExits);
      WithExitsKeepsLoops(loopExits);
      ghost var done: seq<nat> := [];
      while cs.Branch?
        invariant v.Accepted? && AtDepth(0)
        invariant cs == cases || (cases decreases to cs)
        invariant CasesVerdict(env, cases, inLoop) == CasesVerdict(env, cs, inLoop)
        invariant pre + CasesCode(env, r, cases, |pre|, 0, 0) == instructions + CasesCode(env, r, cs, |instructions|, 0, 0)
        invariant exitJumps + EndJumps(env, cs, |instructions|) == EndJumps(env, cases, |pre|)
        invariant loopExits == WithExits(old(loopExits), done)
        invariant done + CasesExits(env, cs, |instructions|) == CasesExits(env, cases, |pre|)
        decreases cs
      {
        ghost var start, before := |instructions|, instructions;
        BranchJumps(env, cs, start, inLoop);
        var exitJump;
        v, exitJump := CompileBranch(r, cs);
        if !v.Accepted? { return; }
        BranchDone(env, r, cs, before, instructions, start + 3 * |cs.values| + 1, |instructions|);
        exitJumps := exitJumps + [exitJump];
        ghost var exits := BlockExits(env, cs.body, start + 3 * |cs.values| + 1);
        WithExitsTwice(old(loopExits), done, exits);
        done := done + exits;
        cs := cs.rest;
      }
      ElseCode(env, r, cs, |instructions|, 0, 0);
      ElseJumps(env, cs, |instructions|, inLoop);
      WithExitsTwice(old(loopExits), done, CasesExits(env, cs, |instructions|));
      v := CompileBlock(cs.body);
      assert exitJumps + [] == exitJumps;
    }

    /** One CASE branch: label tests, a jump past the body, the body, and a pending jump to the end. */
    method CompileBranch(r: u8, cs: Cases) returns (v: Verdict, exitJump: nat)
      requires AtDepth(0) && cs.Branch?
      modifies this
      ensures v == BlockVerdict(env, cs.body, old(loopExits) != [])
      ensures v.Accepted? ==> AtDepth(0)
      ensures v.Accepted? ==>
        var bodyStart := |old(instructions)| + 3 * |cs.values| + 1;
        var next := bodyStart + BlockSize(env, cs.body) + 1;
        && exitJump == next - 1
        && instructions == old(instructions) + LabelTests(r, cs.values, bodyStart) + [JumpTo(next)]
             + BlockCode(env, cs.body, bodyStart, 0) + [JumpTo(0)]
        && loopExits == WithExits(old(loopExits), BlockExits(env, cs.body, bodyStart))
      decreases cs, 0
    {
      hide BlockCode, BlockSize, BlockVerdict, BlockExits, LabelTests, TestJumps, WithExits, Patched, JumpTo;
      ghost var pre := instructions;
      exitJump := 0;
      var jumpToBody := CompileLabelTests(r, cs.values);
      var skipBody := Emit(JumpTo(0));
      var bodyLabel := |instructions|;
      TestJumpsWithin(|cs.values|, |pre|);
      PatchedWithin(pre, LabelTests(r, cs.values, 0), [JumpTo(0)], jumpToBody, bodyLabel);
      PatchTests(r, cs.values, |pre|, 0, bodyLabel);
      PatchAll(jumpToBody, bodyLabel);
      ghost var tests := LabelTests(r, cs.values, bodyLabel);
      assert instructions == pre + tests + [JumpTo(0)];
      v := CompileBlock(cs.body);
      if !v.Accepted? { return; }
      exitJump := Emit(JumpTo(0));
      ghost var body := BlockCode(env, cs.body, bodyLabel, 0);
      assert instructions == pre + tests + [JumpTo(0)] + (body + [JumpTo(0)]);
      PatchedJump(pre + tests, 0, body + [JumpTo(0)], |instructions|);
      PatchJump(skipBody, |instructions|);
    }

    method CompileLabelTests(r: u8, vs: seq<int>) returns (jumps: seq<nat>)
      requires AtDepth(0)
      modifies this`instructions, this`scratchAvail
      ensures AtDepth(0)
      ensures instructions == old(instructions) + LabelTests(r, vs, 0)
      ensures jumps == TestJumps(|vs|, |old(instructions)|)
    {
      hide *;
      jumps := [];
      ghost var pre := instructions;
      NoTestsLeft(r, vs, |instructions|);
      for i := 0 to |vs|
        invariant AtDepth(0)
        invariant pre + LabelTests(r, vs, 0) == instructions + LabelTests(r, vs[i..], 0)
        invariant jumps + TestJumps(|vs| - i, |instructions|) == TestJumps(|vs|, |pre|)
      {
        NextTest(r, vs, i, |instructions|);
        ghost var before, rest := instructions, LabelTests(r, vs[i + 1..], 0);
        var j := CompileLabelTest(r, vs[i]);
        assert before + (LabelTest(r, vs[i]) + rest) == before + LabelTest(r, vs[i]) + rest;
        jumps := jumps + [j];
      }
      NoTestsLeft(r, vs, |instructions|);
      assert instructions + [] == instructions;
    }

    /** One label: compare with the selector, then a pending jump to the body. */
    method CompileLabelTest(r: u8, n: int) returns (jump: nat)
      requires AtDepth(0)
      modifies this`instructions, this`scratchAvail
      ensures AtDepth(0) && instructions == old(instructions) + LabelTest(r, n) && jump == |old(instructions)| + 2
    {
      var _, s := AllocScratch(0);
      var _ := Emit(LoadImm(s, S32(WrapS32(n))));
      var _ := Emit(Regs2(Eq, r, s));
      FreeScratch(s);
      jump := Emit(JumpIfTo(0));
    }

    // ----- function-block calls -----

    method CompileArg(e: Expr, s: u8, ghost d: nat) returns (v: Verdict)
      requires AtDepth(d)
      modifies this`instructions, this`scratchAvail
      ensures v == ExprVerdict(env, e, d)
      ensures v.Accepted? ==> AtDepth(d)
      ensures v.Accepted? ==> instructions == old(instructions) + ArgCode(env, e, s, d, |old(instructions)|)
    {
      if e.Variable? {
        v := CheckVar(env, e.name);
        if v.Accepted? {
          var _ := Emit(LoadReg(s, env.registers[e.name]));
        }
      } else {
        v := CompileExpr(e, s, d);
      }
    }

    method CompileCall(s: Stmt) returns (v: Verdict)
      requires AtDepth(0) && s.FunCall?
      modifies this`instructions, this`scratchAvail
      ensures v == StmtVerdict(env, s, old(loopExits) != [])
      ensures v.Accepted? ==> AtDepth(0)
      ensures v.Accepted? ==> instructions == old(instructions) + StmtCode(env, s, |old(instructions)|, 0)
    {
      hide ExprVerdict, ArgCode, ArgSize, GenericArgsCode, GenericArgsSize, GenericArgsVerdict;
      var shape := ShapeOf(env, s.name, |s.args|);
      if shape == GenericCall {
        v := CompileGenericArgs(s.args);
        if v.Accepted? {
          var _ := Emit(CallTo(0));
        }
      } else if shape == TimerCall || shape == EdgeCall {
        v := CompileOneInputCall(s);
      } else {
        v := CompileTwoInputCall(s);
      }
    }

    /** Timers and edge detectors. */
    method CompileOneInputCall(s: Stmt) returns (v: Verdict)
      requires AtDepth(0) && s.FunCall? && (var shape := ShapeOf(env, s.name, |s.args|); shape == TimerCall || shape == EdgeCall)
      modifies this`instructions, this`scratchAvail
      ensures v == CallVerdict(env, s.name, s.args)
      ensures v.Accepted? ==> AtDepth(0)
      ensures v.Accepted? ==> instructions == old(instructions) + CallCode(env, s.name, s.args, |old(instructions)|)
    {
      hide ExprVerdict, ArgCode, ArgSize;
      var x, args := s.name, s.args;
      v := CheckVar(env, x);
      if !v.Accepted? { return; }
      var i, kind := Immediate(U32(env.registers[x])), Immediate(U32(KindCode(env.types[x])));
      var _, a := AllocScratch(0);
      v := CompileArg(args[0], a, 1);
      if !v.Accepted? { return; }
      if ShapeOf(env, x, |args|) == TimerCall {
        var _ := Emit(Instruction(TimerRun, [i, Register(a), Immediate(U32(LiteralU32(args[1]))), kind]));
      } else {
        var _ := Emit(Instruction(EdgeRun, [i, Register(a), kind]));
      }
      FreeScratch(a);
    }

    /** Bistables and counters; a counter without a third argument never counts down. */
    method CompileTwoInputCall(s: Stmt) returns (v: Verdict)
      requires AtDepth(0) && s.FunCall? && (var shape := ShapeOf(env, s.name, |s.args|); shape == BistableCall || shape == CounterCall)
      modifies this`instructions, this`scratchAvail
      ensures v == CallVerdict(env, s.name, s.args)
      ensures v.Accepted? ==> AtDepth(0)
      ensures v.Accepted? ==> instructions == old(instructions) + CallCode(env, s.name, s.args, |old(instructions)|)
    {
      hide ExprVerdict, ArgCode, ArgSize;
      var x, args := s.name, s.args;
      v := CheckVar(env, x);
      if !v.Accepted? { return; }
      var i, kind := Immediate(U32(env.registers[x])), Immediate(U32(KindCode(env.types[x])));
      var _, a := AllocScratch(0);
      v := CompileArg(args[0], a, 1);
      if !v.Accepted? { return; }
      var _, b := AllocScratch(1);
      if ShapeOf(env, x, |args|) == BistableCall {
        v := CompileArg(args[1], b, 2);
        if !v.Accepted? { return; }
        var _ := Emit(Instruction(SrRun, [i, Register(a), Register(b), kind]));
      } else {
        if |args| >= 3 {
          v := CompileArg(args[2], b, 2);
          if !v.Accepted? { return; }
        } else {
          var _ := Emit(LoadImm(b, Bool(false)));
        }
        var _ := Emit(Instruction(CounterRun, [i, Register(a), Register(b), Immediate(U32(LiteralU32(args[1]))), kind]));
      }
      FreeScratch(b);
      FreeScratch(a);
    }

    method CompileGenericArgs(args: seq<Expr>) returns (v: Verdict)
      requires AtDepth(0)
      modifies this`instructions, this`scratchAvail
      ensures v == GenericArgsVerdict(env, args, 0)
      ensures v.Accepted? ==> AtDepth(0)
      ensures v.Accepted? ==> instructions == old(instructions) + GenericArgsCode(env, args, 0, |old(instructions)|)
    {
      hide ExprCode, ExprSize, ExprVerdict;
      v := Accepted;
      ghost var pre := instructions;
      for i := 0 to |args|
        invariant v.Accepted? && AtDepth(0)
        invariant GenericArgsVerdict(env, args, 0) == GenericArgsVerdict(env, args, i)
        invariant pre + GenericArgsCode(env, args, 0, |pre|) == instructions + GenericArgsCode(env, args, i, |instructions|)
      {
        if i < 4 {
          v := CompileExpr(args[i], i, 0);
          if !v.Accepted? { return; }
        }
      }
    }
  }

  /** Compiles a program without functions. */
  method Compile(vars: seq<Declaration>, body: Block) returns (v: Verdict, program: seq<Instruction>)
    ensures |vars| > MAX_VAR_REGS ==> v == Rejected(TooManyVariables(MAX_VAR_REGS))
    ensures |vars| <= MAX_VAR_REGS ==> v == BlockVerdict(Declare(vars), body, false)
    ensures v.Accepted? ==> |vars| <= MAX_VAR_REGS && program == ProgramCode(Declare(vars), body)
  {
    hide BlockCode, BlockSize, BlockVerdict, Declare, BlockExits;
    program := [];
    if |vars| > MAX_VAR_REGS {
      return Rejected(TooManyVariables(MAX_VAR_REGS)), [];
    }
    var cg := new Codegen(vars);
    v := cg.CompileBlock(body);
    if !v.Accepted? { return; }
    var _ := cg.Emit(HALT);
    program := cg.instructions;
  }

  lemma ForVerdict(env: Env, s: Stmt, inLoop: bool)
    requires s.For?
    ensures StmtVerdict(env, s, inLoop)
         == Then(CheckForVariable(env, s.variable), Then(CheckVar(env, s.variable), Then(ExprVerdict(env, s.start, 0),
              Then(ExprVerdict(env, s.end, 1), Then(BlockVerdict(env, s.body, true),
                if s.step.Some? then ExprVerdict(env, s.step.value, 1) else Accepted)))))
  {
  }

  lemma CheckedVariable(env: Env, x: string)
    ensures CheckVar(env, x).Accepted? ==> x in env.registers && RegOf(env, x) == env.registers[x]
  {
  }

  lemma ForAssembled(env: Env, s: Stmt, pre: seq<Instruction>, r: u8, loop: nat, bodyStart: nat, end: nat)
    requires s.For? && r == RegOf(env, s.variable) && loop == |pre| + ExprSize(env, s.start, r, 0)
    requires bodyStart == loop + ExprSize(env, s.end, Scratch(0), 1) + 2
    requires end == bodyStart + BlockSize(env, s.body) + StepSize(env, s.step) + 2
    ensures pre + ExprCode(env, s.start, r, 0, |pre|) + (ExprCode(env, s.end, Scratch(0), 1, loop) + [Regs2(Gt, r, Scratch(0))])
              + [JumpIfTo(end)] + BlockCode(env, s.body, bodyStart, end)
              + (StepCode(env, s.step, bodyStart + BlockSize(env, s.body)) + [Arith3(Add, r, Scratch(0), r), JumpTo(loop)])
            == pre + StmtCode(env, s, |pre|, 0)
  {
    hide *;
    var start, limit := ExprCode(env, s.start, r, 0, |pre|), ExprCode(env, s.end, Scratch(0), 1, loop) + [Regs2(Gt, r, Scratch(0))];
    var leave, body := [JumpIfTo(end)], BlockCode(env, s.body, bodyStart, end);
    var advance := StepCode(env, s.step, bodyStart + BlockSize(env, s.body)) + [Arith3(Add, r, Scratch(0), r), JumpTo(loop)];
    ForCode(env, s, |pre|, r, loop, bodyStart, end);
    Regroup(pre, start, limit, leave, body, advance, StmtCode(env, s, |pre|, 0));
  }

  lemma ForCode(env: Env, s: Stmt, base: nat, r: u8, loop: nat, bodyStart: nat, end: nat)
    requires s.For? && r == RegOf(env, s.variable) && loop == base + ExprSize(env, s.start, r, 0)
    requires bodyStart == loop + ExprSize(env, s.end, Scratch(0), 1) + 2
    requires end == bodyStart + BlockSize(env, s.body) + StepSize(env, s.step) + 2
    ensures StmtCode(env, s, base, 0)
         == ExprCode(env, s.start, r, 0, base) + (ExprCode(env, s.end, Scratch(0), 1, loop) + [Regs2(Gt, r, Scratch(0))])
            + [JumpIfTo(end)] + BlockCode(env, s.body, bodyStart, end)
            + (StepCode(env, s.step, bodyStart + BlockSize(env, s.body)) + [Arith3(Add, r, Scratch(0), r), JumpTo(loop)])
  {
    hide ExprCode, ExprSize, BlockCode, BlockSize, StepCode, StepSize, RegOf, Scratch, Regs2, JumpIfTo, JumpTo, Arith3;
  }

  lemma BranchJumps(env: Env, cs: Cases, base: nat, inLoop: bool)
    requires cs.Branch?
    ensures var bodyStart := base + 3 * |cs.values| + 1;
            var next := bodyStart + BlockSize(env, cs.body) + 1;
            && EndJumps(env, cs, base) == [next - 1] + EndJumps(env, cs.rest, next)
            && CasesExits(env, cs, base) == BlockExits(env, cs.body, bodyStart) + CasesExits(env, cs.rest, next)
            && CasesVerdict(env, cs, inLoop) == Then(BlockVerdict(env, cs.body, inLoop), CasesVerdict(env, cs.rest, inLoop))
  {
    hide BlockSize, BlockExits, BlockVerdict;
  }

  lemma ElseJumps(env: Env, cs: Cases, base: nat, inLoop: bool)
    requires cs.Else?
    ensures EndJumps(env, cs, base) == [] && CasesExits(env, cs, base) == BlockExits(env, cs.body, base)
    ensures CasesVerdict(env, cs, inLoop) == BlockVerdict(env, cs.body, inLoop)
  {
  }

  function LabelTest(r: u8, n: int): (code: seq<Instruction>)
    ensures |code| == 3
  {
    [LoadImm(Scratch(0), S32(WrapS32(n))), Regs2(Eq, r, Scratch(0)), JumpIfTo(0)]
  }

  lemma NextTest(r: u8, vs: seq<int>, i: nat, base: nat)
    requires i < |vs|
    ensures LabelTests(r, vs[i..], 0) == LabelTest(r, vs[i]) + LabelTests(r, vs[i + 1..], 0)
    ensures TestJumps(|vs| - i, base) == [base + 2] + TestJumps(|vs| - (i + 1), base + 3)
    ensures |LabelTest(r, vs[i])| == 3
  {
    hide WrapS32;
    assert vs[i..][0] == vs[i] && vs[i..][1..] == vs[i + 1..];
  }

  lemma NoTestsLeft(r: u8, vs: seq<int>, base: nat)
    ensures vs[0..] == vs && LabelTests(r, vs[|vs|..], 0) == [] && TestJumps(0, base) == []
  {
  }

  lemma IfAssembled(env: Env, s: Stmt, pre: seq<Instruction>, thenLabel: nat, elseLabel: nat, end: nat)
    requires s.If? && thenLabel == |pre| + CondSize(env, s.cond) + 1
    requires elseLabel == thenLabel + BlockSize(env, s.thenBody) + 1 && end == elseLabel + BlockSize(env, s.elseBody)
    ensures pre + CondCode(env, s.cond, |pre|, thenLabel, thenLabel) + [JumpTo(elseLabel)] + BlockCode(env, s.thenBody, thenLabel, 0)
              + [JumpTo(end)] + BlockCode(env, s.elseBody, elseLabel, 0)
            == pre + StmtCode(env, s, |pre|, 0)
  {
    hide *;
    IfCode(env, s, |pre|, thenLabel, elseLabel, end);
    Regroup(pre, CondCode(env, s.cond, |pre|, thenLabel, thenLabel), [JumpTo(elseLabel)], BlockCode(env, s.thenBody, thenLabel, 0),
            [JumpTo(end)], BlockCode(env, s.elseBody, elseLabel, 0), StmtCode(env, s, |pre|, 0));
  }

  /** What is left to emit after one branch of a CASE. */
  lemma BranchDone(env: Env, r: u8, cs: Cases, before: seq<Instruction>, after: seq<Instruction>, bodyStart: nat, next: nat)
    requires cs.Branch? && bodyStart == |before| + 3 * |cs.values| + 1 && next == bodyStart + BlockSize(env, cs.body) + 1
    requires after == before + LabelTests(r, cs.values, bodyStart) + [JumpTo(next)] + BlockCode(env, cs.body, bodyStart, 0) + [JumpTo(0)]
    ensures before + CasesCode(env, r, cs, |before|, 0, 0) == after + CasesCode(env, r, cs.rest, next, 0, 0)
  {
    hide *;
    BranchShape(env, r, cs, |before|, bodyStart, next);
    Regroup(before, LabelTests(r, cs.values, bodyStart), [JumpTo(next)], BlockCode(env, cs.body, bodyStart, 0), [JumpTo(0)],
            CasesCode(env, r, cs.rest, next, 0, 0), CasesCode(env, r, cs, |before|, 0, 0));
  }

  lemma BranchShape(env: Env, r: u8, cs: Cases, base: nat, bodyStart: nat, next: nat)
    requires cs.Branch? && bodyStart == base + 3 * |cs.values| + 1 && next == bodyStart + BlockSize(env, cs.body) + 1
    ensures CasesCode(env, r, cs, base, 0, 0)
         == LabelTests(r, cs.values, bodyStart) + [JumpTo(next)] + BlockCode(env, cs.body, bodyStart, 0) + [JumpTo(0)]
            + CasesCode(env, r, cs.rest, next, 0, 0)
  {
    hide BlockCode, BlockSize, LabelTests, JumpTo;
  }

  lemma Regroup(pre: seq<Instruction>, a: seq<Instruction>, b: seq<Instruction>, c: seq<Instruction>, d: seq<Instruction>, e: seq<Instruction>, code: seq<Instruction>)
    requires code == a + b + c + d + e
    ensures pre + a + b + c + d + e == pre + code
  {
  }

  lemma IfVerdict(env: Env, s: Stmt, inLoop: bool)
    requires s.If?
    ensures StmtVerdict(env, s, inLoop) == Then(CheckCondition(env, s.cond), Then(CondVerdict(env, s.cond),
              Then(BlockVerdict(env, s.thenBody, inLoop), BlockVerdict(env, s.elseBody, inLoop))))
  {
  }

  lemma IfExits(env: Env, s: Stmt, base: nat)
    requires s.If?
    ensures var thenStart := base + CondSize(env, s.cond) + 1;
            Exits(env, s, base)
            == BlockExits(env, s.thenBody, thenStart) + BlockExits(env, s.elseBody, thenStart + BlockSize(env, s.thenBody) + 1)
  {
  }

  lemma LoopVerdict(env: Env, s: Stmt, inLoop: bool)
    requires s.While? || s.Repeat?
    ensures StmtVerdict(env, s, inLoop) == Then(CheckCondition(env, s.cond),
              if s.While? then Then(CondVerdict(env, s.cond), BlockVerdict(env, s.body, true))
              else Then(BlockVerdict(env, s.body, true), CondVerdict(env, s.cond)))
  {
  }

  lemma WhileCode(env: Env, s: Stmt, base: nat)
    requires s.While?
    ensures var bodyStart := base + CondSize(env, s.cond) + 1;
            var end := bodyStart + BlockSize(env, s.body) + 1;
            StmtCode(env, s, base, 0)
            == CondCode(env, s.cond, base, bodyStart, 0) + [JumpTo(end)] + BlockCode(env, s.body, bodyStart, end) + [JumpTo(base)]
  {
    hide CondCode, CondSize, BlockCode, BlockSize, JumpTo;
  }

  lemma RepeatCode(env: Env, s: Stmt, base: nat)
    requires s.Repeat?
    ensures var mid := base + BlockSize(env, s.body);
            var end := mid + CondSize(env, s.cond) + 1;
            StmtCode(env, s, base, 0)
            == BlockCode(env, s.body, base, end) + CondCode(env, s.cond, mid, end, 0) + [JumpTo(base)]
  {
    hide CondCode, CondSize, BlockCode, BlockSize, JumpTo;
  }

  lemma CaseCode(env: Env, s: Stmt, base: nat, inLoop: bool)
    requires s.Case?
    ensures StmtCode(env, s, base, 0)
         == CasesCode(env, RegOf(env, s.variable), s.cases, base, base + CasesSize(env, s.cases), 0)
    ensures StmtVerdict(env, s, inLoop) == Then(CheckVar(env, s.variable), CasesVerdict(env, s.cases, inLoop))
    ensures Exits(env, s, base) == CasesExits(env, s.cases, base)
  {
    hide CasesCode, CasesSize, CasesVerdict, CasesExits;
  }

  lemma IfCode(env: Env, s: Stmt, base: nat, thenLabel: nat, elseLabel: nat, end: nat)
    requires s.If? && thenLabel == base + CondSize(env, s.cond) + 1
    requires elseLabel == thenLabel + BlockSize(env, s.thenBody) + 1 && end == elseLabel + BlockSize(env, s.elseBody)
    ensures StmtCode(env, s, base, 0)
            == CondCode(env, s.cond, base, thenLabel, thenLabel) + [JumpTo(elseLabel)] + BlockCode(env, s.thenBody, thenLabel, 0)
               + [JumpTo(end)] + BlockCode(env, s.elseBody, elseLabel, 0)
  {
    hide CondCode, CondSize, BlockCode, BlockSize, JumpTo;
  }

  /** Both jump lists of an IF condition lead to the THEN branch. */
  lemma IfConditionPatched(env: Env, c: Expr, pre: seq<Instruction>, yes: seq<nat>, other: seq<nat>)
    requires yes == YesJumps(env, c, |pre|) && other == OtherJumps(env, c, |pre|)
    ensures var t := |pre| + CondSize(env, c) + 1;
            Patched(Patched(pre + CondCode(env, c, |pre|, 0, 0) + [JumpTo(0)], 0, yes, t), 0, other, t)
            == pre + CondCode(env, c, |pre|, t, t) + [JumpTo(0)]
  {
    hide *;
    var t := |pre| + CondSize(env, c) + 1;
    CondJumpsWithin(env, c, |pre|);
    LoopConditionPatched(env, c, pre, yes, [JumpTo(0)], t);
    PatchedWithin(pre, CondCode(env, c, |pre|, t, 0), [JumpTo(0)], other, t);
    PatchOther(env, c, |pre|, t, 0, t);
  }

  /** A loop patches the first jump list only; the second keeps its placeholder. */
  lemma LoopConditionPatched(env: Env, c: Expr, pre: seq<Instruction>, yes: seq<nat>, post: seq<Instruction>, t: nat)
    requires yes == YesJumps(env, c, |pre|)
    ensures Patched(pre + CondCode(env, c, |pre|, 0, 0) + post, 0, yes, t) == pre + CondCode(env, c, |pre|, t, 0) + post
  {
    hide *;
    CondJumpsWithin(env, c, |pre|);
    PatchedWithin(pre, CondCode(env, c, |pre|, 0, 0), post, yes, t);
    PatchYes(env, c, |pre|, 0, t, 0);
  }

  lemma EndsPatched(env: Env, r: u8, cs: Cases, pre: seq<Instruction>, t: nat)
    ensures Patched(pre + CasesCode(env, r, cs, |pre|, 0, 0), 0, EndJumps(env, cs, |pre|), t)
         == pre + CasesCode(env, r, cs, |pre|, t, 0)
  {
    hide CasesCode, CasesSize, EndJumps, Patched;
    EndJumpsWithin(env, cs, |pre|);
    var code := CasesCode(env, r, cs, |pre|, 0, 0);
    PatchedWithin(pre, code, [], EndJumps(env, cs, |pre|), t);
    PatchEnds(env, r, cs, |pre|, 0, t, 0);
    assert pre + code + [] == pre + code;
    assert pre + CasesCode(env, r, cs, |pre|, t, 0) + [] == pre + CasesCode(env, r, cs, |pre|, t, 0);
  }

  lemma ExitsPatched(env: Env, b: Block, pre: seq<Instruction>, post: seq<Instruction>, t: nat)
    ensures Patched(pre + BlockCode(env, b, |pre|, 0) + post, 0, BlockExits(env, b, |pre|), t)
         == pre + BlockCode(env, b, |pre|, t) + post
  {
    hide BlockCode, BlockSize, BlockExits, Patched;
    BlockExitsWithin(env, b, |pre|);
    PatchedWithin(pre, BlockCode(env, b, |pre|, 0), post, BlockExits(env, b, |pre|), t);
    PatchBlockExits(env, b, |pre|, 0, t);
  }

  /** The exit stack after recording `js` with the innermost loop. */
  ghost function WithExits(exits: seq<seq<nat>>, js: seq<nat>): (r: seq<seq<nat>>)
  {
    if exits == [] then [] else exits[|exits| - 1 := exits[|exits| - 1] + js]
  }

  lemma WithNoExits(exits: seq<seq<nat>>)
    ensures WithExits(exits, []) == exits
  {
    if exits != [] {
      assert exits[|exits| - 1] + [] == exits[|exits| - 1];
    }
  }

  lemma WithExitsTwice(exits: seq<seq<nat>>, js: seq<nat>, ks: seq<nat>)
    ensures WithExits(WithExits(exits, js), ks) == WithExits(exits, js + ks)
  {
    if exits != [] {
      assert exits[|exits| - 1] + js + ks == exits[|exits| - 1] + (js + ks);
    }
  }

  lemma FirstExits(exits: seq<seq<nat>>, js: seq<nat>)
    ensures WithExits(exits + [[]], js) == exits + [js]
  {
    assert [] + js == js;
  }

  lemma WithExitsKeepsLoops(exits: seq<seq<nat>>)
    ensures forall js :: WithExits(exits, js) == [] <==> exits == []
  {
  }
}
