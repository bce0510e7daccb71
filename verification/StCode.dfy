/**
 What the Structured Text code generator emits, as functions of the syntax tree:
 which programs it accepts and the instructions of every construct with all of
 their jumps resolved. `StCodegen` proves that the backpatching generator
 produces exactly this code.

 The scratch allocator always holds its registers in stack order, so its state
 is one number: the depth `d` of registers in use.
 */
module StCode {
  import opened Options
  import opened Values
  import opened Machine
  import opened StSyntax

  const SCRATCH_COUNT: nat := 3
  const MAX_VAR_REGS: nat := 13

  /** The scratch registers in the order in which they are handed out. */
  function Scratch(d: nat): u8 { if d == 0 then 14 else if d == 1 then 15 else 13 }

  /** Register and type of every declared variable. */
  datatype Env = Env(registers: map<string, u8>, types: map<string, VarType>)

  datatype CodegenError =
    | UndefinedVariable(name: string)
    | TooManyVariables(max: nat)
    | TypeMismatch(expected: VarType, got: VarType)

  /** Outcome of generating code: success, a reported error, or an abort of the generator. */
  datatype Verdict = Accepted | Rejected(error: CodegenError) | ScratchOverflow | ExitOutsideLoop

  function Then(a: Verdict, b: Verdict): Verdict { if a.Accepted? then b else a }

  lemma ThenIs()
    ensures forall a, b :: Then(a, b) == if a.Accepted? then b else a
  {
  }

  function Fits(d: nat, v: Verdict): Verdict { if d < SCRATCH_COUNT then v else ScratchOverflow }

  ghost predicate ValidEnv(env: Env) {
    && env.registers.Keys == env.types.Keys
    && (forall x :: x in env.registers ==> env.registers[x] < MAX_VAR_REGS)
    && (forall x, y :: x in env.registers && y in env.registers && env.registers[x] == env.registers[y] ==> x == y)
  }

  /** `env` gives every name the register and type of its last declaration, and no other name any. */
  ghost predicate LastDeclarations(vars: seq<Declaration>, env: Env) {
    && env.registers.Keys == env.types.Keys
    && (forall i :: 0 <= i < |vars| ==> vars[i].name in env.registers && i <= env.registers[vars[i].name])
    && (forall x :: x in env.registers ==> env.registers[x] < |vars| && vars[env.registers[x]].name == x && vars[env.registers[x]].varType == env.types[x])
  }

  function Bind(env: Env, d: Declaration, r: u8): Env { Env(env.registers[d.name := r], env.types[d.name := d.varType]) }

  lemma BindLast(vars: seq<Declaration>, env: Env)
    requires 0 < |vars| <= MAX_VAR_REGS && LastDeclarations(vars[..|vars| - 1], env)
    ensures LastDeclarations(vars, Bind(env, vars[|vars| - 1], |vars| - 1))
  {
    var k := |vars| - 1;
    var d, out := vars[k], Bind(env, vars[k], k);
    assert out.registers.Keys == env.registers.Keys + {d.name} && out.types.Keys == env.types.Keys + {d.name};
    forall i | 0 <= i < |vars|
      ensures vars[i].name in out.registers && i <= out.registers[vars[i].name]
    {
      if i < k {
        assert vars[..k][i] == vars[i];
      }
    }
    forall x | x in out.registers
      ensures out.registers[x] < |vars| && vars[out.registers[x]].name == x && vars[out.registers[x]].varType == out.types[x]
    {
      if x != d.name {
        assert vars[..k][env.registers[x]] == vars[env.registers[x]];
      }
    }
  }

  lemma LastDeclarationsValid(vars: seq<Declaration>, env: Env)
    requires |vars| <= MAX_VAR_REGS && LastDeclarations(vars, env)
    ensures ValidEnv(env)
  {
  }

  /** The i-th declaration owns register i; a redeclared name keeps its last register. */
  function Declare(vars: seq<Declaration>): (env: Env)
    requires |vars| <= MAX_VAR_REGS
    ensures ValidEnv(env) && LastDeclarations(vars, env)
  {
    if |vars| == 0 then Env(map[], map[])
    else
      var k := |vars| - 1;
      var env := Declare(vars[..k]);
      var out := Bind(env, vars[k], k);
      BindLast(vars, env);
      LastDeclarationsValid(vars, out);
      out
  }

  function RegOf(env: Env, x: string): u8 { if x in env.registers then env.registers[x] else 0 }

  // ----- types -----

  predicate IsIntegerType(t: VarType) {
    t in {TInt, TDInt, TSInt, TUSInt, TUInt, TULInt, TLInt, TByte, TWord, TDWord, TTime, TDate, TTod, TDt}
  }

  predicate TypesCompatible(a: VarType, b: VarType) {
    || a == b
    || (a == TInt && IsIntegerType(b))
    || (b == TInt && IsIntegerType(a))
    || (a == TReal && b == TLReal)
    || (a == TLReal && b == TReal)
  }

  predicate IsTimer(t: VarType) { t in {TTon, TTof, TTp} }
  predicate IsCounter(t: VarType) { t in {TCtu, TCtd, TCtud} }
  predicate IsBistable(t: VarType) { t in {TSr, TRs} }
  predicate IsEdge(t: VarType) { t in {TRTrig, TFTrig} }

  datatype Typing = Typed(t: VarType) | IllTyped(error: CodegenError)

  function TypeOfName(env: Env, x: string): Typing {
    if x in env.types then Typed(env.types[x]) else IllTyped(UndefinedVariable(x))
  }

  function TypeOf(env: Env, e: Expr): Typing {
    match e
    case IntLiteral(_) => Typed(TInt)
    case RealLiteral(_) => Typed(TReal)
    case BoolLiteral(_) => Typed(TBool)
    case Variable(x) => TypeOfName(env, x)
    case FieldAccess(x, _) =>
      var t := TypeOfName(env, x);
      if t.Typed? && (IsTimer(t.t) || IsCounter(t.t) || IsBistable(t.t) || IsEdge(t.t)) then Typed(TBool) else t
    case ArrayAccess(x, _) =>
      var t := TypeOfName(env, x);
      if t == Typed(TArray) then Typed(TInt) else t
    case Binary(l, op, r) =>
      var lt := TypeOf(env, l);
      if lt.IllTyped? then lt else
      var rt := TypeOf(env, r);
      if rt.IllTyped? then rt
      else if op == OpAnd || op == OpOr then
        if lt.t != TBool then IllTyped(TypeMismatch(TBool, lt.t))
        else if rt.t != TBool then IllTyped(TypeMismatch(TBool, rt.t))
        else Typed(TBool)
      else if IsCmpOp(op) then Typed(TBool)
      else if TypesCompatible(lt.t, rt.t) then lt
      else if op == OpXor then IllTyped(TypeMismatch(rt.t, lt.t))
      else IllTyped(TypeMismatch(lt.t, rt.t))
    case Unary(UNeg, inner) =>
      var t := TypeOf(env, inner);
      if t.Typed? && t.t !in {TInt, TReal, TDInt, TLReal} then IllTyped(TypeMismatch(TInt, t.t)) else t
    case Unary(UNot, inner) =>
      var t := TypeOf(env, inner);
      if t.Typed? && !IsIntegerType(t.t) && t.t != TBool then IllTyped(TypeMismatch(TInt, t.t)) else t
  }

  function CheckAssign(env: Env, x: string, e: Expr): Verdict {
    var expected := TypeOfName(env, x);
    if expected.IllTyped? then Rejected(expected.error)
    else match e
      case IntLiteral(_) => if IsIntegerType(expected.t) then Accepted else Rejected(TypeMismatch(expected.t, TInt))
      case RealLiteral(_) =>
        if expected.t == TReal || expected.t == TLReal then Accepted else Rejected(TypeMismatch(expected.t, TReal))
      case _ =>
        var got := TypeOf(env, e);
        if got.IllTyped? then Rejected(got.error)
        else if TypesCompatible(got.t, expected.t) then Accepted
        else Rejected(TypeMismatch(expected.t, got.t))
  }

  function CheckCondition(env: Env, e: Expr): Verdict {
    var t := TypeOf(env, e);
    if t.IllTyped? then Rejected(t.error) else if t.t == TBool then Accepted else Rejected(TypeMismatch(TBool, t.t))
  }

  function CheckVar(env: Env, x: string): Verdict {
    if x in env.registers then Accepted else Rejected(UndefinedVariable(x))
  }

  /** The additive identity used to copy a variable. */
  function ZeroFor(env: Env, x: string): Value {
    var t := if x in env.types then env.types[x] else TInt;
    match t
    case TBool => Bool(false)
    case TSInt => S8(0)
    case TUSInt => U8(0)
    case TByte => U8(0)
    case TInt => S16(0)
    case TUInt => U16(0)
    case TWord => U16(0)
    case TDInt => S32(0)
    case TTime => S32(0)
    case TLInt => S64(0)
    case TReal => F32(0.0)
    case TLReal => F64(0.0)
    case TString => String([])
    case TArray => Array(PS32, [])
    case _ => U32(0)
  }

  // ----- opcodes -----

  function ArithOpcode(op: BinOp): Opcode {
    match op
    case OpAdd => Add
    case OpSub => Sub
    case OpMul => Mul
    case OpDiv => Div
    case OpMod => Mod
    case OpAnd => And
    case OpOr => Or
    case _ => Xor
  }

  function CmpOpcode(op: BinOp): Opcode {
    match op
    case OpEq => Eq
    case OpNeq => Neq
    case OpGt => Gt
    case OpLt => Lt
    case OpGte => Gte
    case _ => Lte
  }

  // ----- expressions -----

  function ExprVerdict(env: Env, e: Expr, d: nat): Verdict {
    match e
    case IntLiteral(_) => Accepted
    case RealLiteral(_) => Accepted
    case BoolLiteral(_) => Accepted
    case Variable(x) => CheckVar(env, x)
    case Binary(l, op, r) =>
      if IsArithOp(op) then Then(ExprVerdict(env, l, d), Fits(d, ExprVerdict(env, r, d + 1)))
      else if IsCmpOp(op) then Fits(d, Then(ExprVerdict(env, r, d + 1), Fits(d + 1, ExprVerdict(env, l, d + 2))))
      else Fits(d, Then(ExprVerdict(env, l, d + 1), ExprVerdict(env, r, d + 1)))
    case Unary(UNeg, inner) => Then(ExprVerdict(env, inner, d), Fits(d, Accepted))
    case Unary(UNot, inner) => ExprVerdict(env, inner, d)
    case FieldAccess(x, _) =>
      Then(CheckVar(env, x), if x in env.types && IsEdge(env.types[x]) then Accepted else Fits(d, Accepted))
    case ArrayAccess(x, i) => Then(CheckVar(env, x), Fits(d, ExprVerdict(env, i, d + 1)))
  }

  function ExprSize(env: Env, e: Expr, dest: u8, d: nat): nat {
    match e
    case Variable(x) => if RegOf(env, x) == dest then 0 else 2
    case Binary(l, op, r) =>
      if IsArithOp(op) then ExprSize(env, l, dest, d) + ExprSize(env, r, Scratch(d), d + 1) + 1
      else if IsCmpOp(op) then ExprSize(env, r, Scratch(d), d + 1) + ExprSize(env, l, Scratch(d + 1), d + 2) + 4
      else ExprSize(env, l, dest, d + 1) + ExprSize(env, r, Scratch(d), d + 1) + 1
    case Unary(UNeg, inner) => ExprSize(env, inner, dest, d) + 2
    case Unary(UNot, inner) => ExprSize(env, inner, dest, d) + 1
    case ArrayAccess(_, i) => ExprSize(env, i, Scratch(d), d + 1) + 1
    case _ => 1
  }

  /** Code that evaluates `e` into register `dest`, placed at instruction index `base`. */
  function ExprCode(env: Env, e: Expr, dest: u8, d: nat, base: nat): (code: seq<Instruction>)
    ensures |code| == ExprSize(env, e, dest, d)
  {
    match e
    case IntLiteral(n) => [LoadImm(dest, S32(WrapS32(n)))]
    case RealLiteral(x) => [LoadImm(dest, F32(x))]
    case BoolLiteral(b) => [LoadImm(dest, Bool(b))]
    case Variable(x) =>
      if RegOf(env, x) == dest then []
      else [LoadImm(dest, ZeroFor(env, x)), Arith3(Add, RegOf(env, x), dest, dest)]
    case Binary(l, op, r) =>
      if IsArithOp(op) then
        ExprCode(env, l, dest, d, base)
        + ExprCode(env, r, Scratch(d), d + 1, base + ExprSize(env, l, dest, d))
        + [Arith3(ArithOpcode(op), dest, Scratch(d), dest)]
      else if IsCmpOp(op) then
        ExprCode(env, r, Scratch(d), d + 1, base)
        + ExprCode(env, l, Scratch(d + 1), d + 2, base + ExprSize(env, r, Scratch(d), d + 1))
        + [Regs2(CmpOpcode(op), Scratch(d + 1), Scratch(d)),
           LoadImm(dest, Bool(false)),
           JumpIfTo(base + ExprSize(env, e, dest, d)),
           LoadImm(dest, Bool(true))]
      else
        ExprCode(env, l, dest, d + 1, base)
        + ExprCode(env, r, Scratch(d), d + 1, base + ExprSize(env, l, dest, d + 1))
        + [Arith3(ArithOpcode(op), dest, Scratch(d), dest)]
    case Unary(UNeg, inner) =>
      ExprCode(env, inner, dest, d, base)
      + [LoadImm(Scratch(d), S32(0)), Arith3(Sub, Scratch(d), dest, dest)]
    case Unary(UNot, inner) =>
      ExprCode(env, inner, dest, d, base) + [Arith3(Not, dest, dest, dest)]
    case FieldAccess(x, field) =>
      var i := Immediate(U32(RegOf(env, x)));
      if x in env.types && IsBistable(env.types[x]) then
        if field == "Q2" then [Instruction(ReadSr, [i, Register(Scratch(d)), Register(dest)])]
        else [Instruction(ReadSr, [i, Register(dest), Register(Scratch(d))])]
      else if x in env.types && IsEdge(env.types[x]) then [Instruction(ReadEdge, [i, Register(dest)])]
      else [Instruction(ReadTimer, [i, Register(dest), Register(Scratch(d))])]
    case ArrayAccess(x, i) =>
      ExprCode(env, i, Scratch(d), d + 1, base) + [ElementLoad(dest, RegOf(env, x), Scratch(d))]
  }

  /** Scratch registers that evaluating `e` takes at the same time. */
  function Need(env: Env, e: Expr): nat {
    match e
    case Binary(l, op, r) =>
      if IsArithOp(op) then Max(Need(env, l), 1 + Need(env, r))
      else if IsCmpOp(op) then Max(1 + Need(env, r), 2 + Need(env, l))
      else 1 + Max(Need(env, l), Need(env, r))
    case Unary(UNeg, inner) => Max(Need(env, inner), 1)
    case Unary(UNot, inner) => Need(env, inner)
    case FieldAccess(x, _) => if x in env.types && IsEdge(env.types[x]) then 0 else 1
    case ArrayAccess(_, i) => 1 + Need(env, i)
    case _ => 0
  }

  function Max(a: nat, b: nat): nat { if a < b then b else a }

  ghost predicate AllDeclared(env: Env, e: Expr) {
    match e
    case Variable(x) => x in env.registers
    case FieldAccess(x, _) => x in env.registers
    case ArrayAccess(x, i) => x in env.registers && AllDeclared(env, i)
    case Binary(l, _, r) => AllDeclared(env, l) && AllDeclared(env, r)
    case Unary(_, inner) => AllDeclared(env, inner)
    case _ => true
  }

  // ----- conditions -----

  function CondVerdict(env: Env, e: Expr): Verdict {
    match e
    case Binary(l, op, r) =>
      if IsCmpOp(op) then Then(ExprVerdict(env, r, 1), ExprVerdict(env, l, 2))
      else if op == OpAnd || op == OpOr then Then(CondVerdict(env, l), CondVerdict(env, r))
      else ExprVerdict(env, e, 1)
    case Unary(UNot, inner) => CondVerdict(env, inner)
    case _ => ExprVerdict(env, e, 1)
  }

  function CondSize(env: Env, e: Expr): nat {
    match e
    case Binary(l, op, r) =>
      if IsCmpOp(op) then ExprSize(env, r, Scratch(0), 1) + ExprSize(env, l, Scratch(1), 2) + 2
      else if op == OpAnd then CondSize(env, l) + CondSize(env, r)
      else if op == OpOr then CondSize(env, l) + 1 + CondSize(env, r)
      else ExprSize(env, e, Scratch(0), 1) + 3
    case Unary(UNot, inner) => CondSize(env, inner)
    case _ => ExprSize(env, e, Scratch(0), 1) + 3
  }

  function ValueTestCode(env: Env, e: Expr, base: nat, yes: nat): (code: seq<Instruction>)
    ensures |code| == ExprSize(env, e, Scratch(0), 1) + 3
  {
    ExprCode(env, e, Scratch(0), 1, base)
    + [LoadImm(Scratch(1), Bool(true)), Regs2(Eq, Scratch(0), Scratch(1)), JumpIfTo(yes)]
  }

  /** Code of a condition: leaves to `yes` or `other`, or falls through at its end. */
  function CondCode(env: Env, e: Expr, base: nat, yes: nat, other: nat): (code: seq<Instruction>)
    ensures |code| == CondSize(env, e)
  {
    match e
    case Binary(l, op, r) =>
      if IsCmpOp(op) then
        ExprCode(env, r, Scratch(0), 1, base)
        + ExprCode(env, l, Scratch(1), 2, base + ExprSize(env, r, Scratch(0), 1))
        + [Regs2(CmpOpcode(op), Scratch(1), Scratch(0)), JumpIfTo(yes)]
      else if op == OpAnd then
        CondCode(env, l, base, yes, other) + CondCode(env, r, base + CondSize(env, l), yes, other)
      else if op == OpOr then
        var rightStart := base + CondSize(env, l) + 1;
        CondCode(env, l, base, rightStart, other) + [JumpTo(other)] + CondCode(env, r, rightStart, yes, other)
      else ValueTestCode(env, e, base, yes)
    case Unary(UNot, inner) => CondCode(env, inner, base, other, yes)
    case _ => ValueTestCode(env, e, base, yes)
  }

  /** Indices of the jumps of a condition that wait for the `yes` target. */
  function YesJumps(env: Env, e: Expr, base: nat): seq<nat> {
    match e
    case Binary(l, op, r) =>
      if op == OpAnd then YesJumps(env, l, base) + YesJumps(env, r, base + CondSize(env, l))
      else if op == OpOr then YesJumps(env, r, base + CondSize(env, l) + 1)
      else [base + CondSize(env, e) - 1]
    case Unary(UNot, inner) => OtherJumps(env, inner, base)
    case _ => [base + CondSize(env, e) - 1]
  }

  /** Indices of the jumps of a condition that wait for the `other` target. */
  function OtherJumps(env: Env, e: Expr, base: nat): seq<nat> {
    match e
    case Binary(l, op, r) =>
      if op == OpAnd then OtherJumps(env, l, base) + OtherJumps(env, r, base + CondSize(env, l))
      else if op == OpOr then
        OtherJumps(env, l, base) + [base + CondSize(env, l)] + OtherJumps(env, r, base + CondSize(env, l) + 1)
      else []
    case Unary(UNot, inner) => YesJumps(env, inner, base)
    case _ => []
  }

  // ----- function-block calls -----

  function KindCode(t: VarType): u32 {
    match t
    case TTof => 1
    case TTp => 2
    case TCtd => 1
    case TCtud => 2
    case TRs => 1
    case TFTrig => 1
    case _ => 0
  }

  function LiteralU32(e: Expr): u32 { if e.IntLiteral? then WrapU32(e.n) else 0 }

  /** A block input: a variable is copied as it is, anything else is evaluated. */
  function ArgCode(env: Env, e: Expr, s: u8, d: nat, base: nat): (code: seq<Instruction>)
    ensures |code| == ArgSize(env, e, s, d)
  {
    if e.Variable? then [LoadReg(s, RegOf(env, e.name))] else ExprCode(env, e, s, d, base)
  }

  function ArgSize(env: Env, e: Expr, s: u8, d: nat): nat {
    if e.Variable? then 1 else ExprSize(env, e, s, d)
  }

  datatype CallShape = TimerCall | CounterCall | BistableCall | EdgeCall | GenericCall

  function ShapeOf(env: Env, x: string, argc: nat): CallShape {
    if x !in env.types then GenericCall
    else if IsTimer(env.types[x]) && argc >= 2 then TimerCall
    else if IsCounter(env.types[x]) && argc >= 2 then CounterCall
    else if IsBistable(env.types[x]) && argc >= 2 then BistableCall
    else if IsEdge(env.types[x]) && argc >= 1 then EdgeCall
    else GenericCall
  }

  function GenericArgsCode(env: Env, args: seq<Expr>, i: nat, base: nat): (code: seq<Instruction>)
    requires i <= |args|
    ensures |code| == GenericArgsSize(env, args, i)
    decreases |args| - i
  {
    if i == |args| || i >= 4 then []
    else ExprCode(env, args[i], i, 0, base) + GenericArgsCode(env, args, i + 1, base + ExprSize(env, args[i], i, 0))
  }

  function GenericArgsSize(env: Env, args: seq<Expr>, i: nat): nat
    requires i <= |args|
    decreases |args| - i
  {
    if i == |args| || i >= 4 then 0 else ExprSize(env, args[i], i, 0) + GenericArgsSize(env, args, i + 1)
  }

  function GenericArgsVerdict(env: Env, args: seq<Expr>, i: nat): Verdict
    requires i <= |args|
    decreases |args| - i
  {
    if i == |args| || i >= 4 then Accepted
    else Then(ExprVerdict(env, args[i], 0), GenericArgsVerdict(env, args, i + 1))
  }

  function CallVerdict(env: Env, x: string, args: seq<Expr>): Verdict {
    match ShapeOf(env, x, |args|)
    case TimerCall => Then(CheckVar(env, x), ExprVerdict(env, args[0], 1))
    case CounterCall =>
      Then(CheckVar(env, x), Then(ExprVerdict(env, args[0], 1), if |args| >= 3 then ExprVerdict(env, args[2], 2) else Accepted))
    case BistableCall => Then(CheckVar(env, x), Then(ExprVerdict(env, args[0], 1), ExprVerdict(env, args[1], 2)))
    case EdgeCall => Then(CheckVar(env, x), ExprVerdict(env, args[0], 1))
    case GenericCall => GenericArgsVerdict(env, args, 0)
  }

  function CallSize(env: Env, x: string, args: seq<Expr>): nat {
    match ShapeOf(env, x, |args|)
    case TimerCall => ArgSize(env, args[0], Scratch(0), 1) + 1
    case CounterCall =>
      ArgSize(env, args[0], Scratch(0), 1) + (if |args| >= 3 then ArgSize(env, args[2], Scratch(1), 2) else 1) + 1
    case BistableCall => ArgSize(env, args[0], Scratch(0), 1) + ArgSize(env, args[1], Scratch(1), 2) + 1
    case EdgeCall => ArgSize(env, args[0], Scratch(0), 1) + 1
    case GenericCall => GenericArgsSize(env, args, 0) + 1
  }

  function CallCode(env: Env, x: string, args: seq<Expr>, base: nat): (code: seq<Instruction>)
    ensures |code| == CallSize(env, x, args)
  {
    var i := Immediate(U32(RegOf(env, x)));
    match ShapeOf(env, x, |args|)
    case TimerCall =>
      ArgCode(env, args[0], Scratch(0), 1, base)
      + [Instruction(TimerRun, [i, Register(Scratch(0)), Immediate(U32(LiteralU32(args[1]))), Immediate(U32(KindCode(env.types[x])))])]
    case CounterCall =>
      ArgCode(env, args[0], Scratch(0), 1, base)
      + (if |args| >= 3 then ArgCode(env, args[2], Scratch(1), 2, base + ArgSize(env, args[0], Scratch(0), 1))
         else [LoadImm(Scratch(1), Bool(false))])
      + [Instruction(CounterRun, [i, Register(Scratch(0)), Register(Scratch(1)), Immediate(U32(LiteralU32(args[1]))), Immediate(U32(KindCode(env.types[x])))])]
    case BistableCall =>
      ArgCode(env, args[0], Scratch(0), 1, base)
      + ArgCode(env, args[1], Scratch(1), 2, base + ArgSize(env, args[0], Scratch(0), 1))
      + [Instruction(SrRun, [i, Register(Scratch(0)), Register(Scratch(1)), Immediate(U32(KindCode(env.types[x])))])]
    case EdgeCall =>
      ArgCode(env, args[0], Scratch(0), 1, base)
      + [Instruction(EdgeRun, [i, Register(Scratch(0)), Immediate(U32(KindCode(env.types[x])))])]
    case GenericCall => GenericArgsCode(env, args, 0, base) + [CallTo(0)]
  }

  // ----- statements -----

  function StmtVerdict(env: Env, s: Stmt, inLoop: bool): Verdict {
    match s
    case Assign(x, e) => Then(CheckAssign(env, x, e), Then(CheckVar(env, x), ExprVerdict(env, e, 0)))
    case ArrayAssign(x, i, e) => Then(CheckVar(env, x), Then(ExprVerdict(env, i, 1), ExprVerdict(env, e, 2)))
    case If(c, t, f) =>
      Then(CheckCondition(env, c), Then(CondVerdict(env, c), Then(BlockVerdict(env, t, inLoop), BlockVerdict(env, f, inLoop))))
    case While(c, b) => Then(CheckCondition(env, c), Then(CondVerdict(env, c), BlockVerdict(env, b, true)))
    case For(x, start, end, step, b) =>
      Then(CheckForVariable(env, x), Then(CheckVar(env, x), Then(ExprVerdict(env, start, 0), Then(ExprVerdict(env, end, 1),
        Then(BlockVerdict(env, b, true), if step.Some? then ExprVerdict(env, step.value, 1) else Accepted)))))
    case Case(x, cs) => Then(CheckVar(env, x), CasesVerdict(env, cs, inLoop))
    case Repeat(b, c) => Then(CheckCondition(env, c), Then(BlockVerdict(env, b, true), CondVerdict(env, c)))
    case Return => Accepted
    case Exit => if inLoop then Accepted else ExitOutsideLoop
    case FunCall(x, args) => CallVerdict(env, x, args)
  }

  function CheckForVariable(env: Env, x: string): Verdict {
    var t := TypeOfName(env, x);
    if t.IllTyped? then Rejected(t.error)
    else if t.t == TInt || t.t == TDInt then Accepted
    else Rejected(TypeMismatch(TInt, t.t))
  }

  function BlockVerdict(env: Env, b: Block, inLoop: bool): Verdict {
    match b
    case Nil => Accepted
    case Cons(s, rest) => Then(StmtVerdict(env, s, inLoop), BlockVerdict(env, rest, inLoop))
  }

  function CasesVerdict(env: Env, cs: Cases, inLoop: bool): Verdict {
    match cs
    case Else(b) => BlockVerdict(env, b, inLoop)
    case Branch(_, b, rest) => Then(BlockVerdict(env, b, inLoop), CasesVerdict(env, rest, inLoop))
  }

  function StmtSize(env: Env, s: Stmt): nat {
    match s
    case Assign(x, e) => ExprSize(env, e, RegOf(env, x), 0) + 1
    case ArrayAssign(_, i, e) => ExprSize(env, i, Scratch(0), 1) + ExprSize(env, e, Scratch(1), 2) + 2
    case If(c, t, f) => CondSize(env, c) + 1 + BlockSize(env, t) + 1 + BlockSize(env, f)
    case While(c, b) => CondSize(env, c) + 1 + BlockSize(env, b) + 1
    case For(x, start, end, step, b) =>
      ExprSize(env, start, RegOf(env, x), 0) + ExprSize(env, end, Scratch(0), 1) + 2 + BlockSize(env, b) + StepSize(env, step) + 2
    case Case(_, cs) => CasesSize(env, cs)
    case Repeat(b, c) => BlockSize(env, b) + CondSize(env, c) + 1
    case Return => 1
    case Exit => 1
    case FunCall(x, args) => CallSize(env, x, args)
  }

  function StepSize(env: Env, step: Option<Expr>): nat {
    if step.Some? then ExprSize(env, step.value, Scratch(0), 1) else 1
  }

  function StepCode(env: Env, step: Option<Expr>, base: nat): (code: seq<Instruction>)
    ensures |code| == StepSize(env, step)
  {
    if step.Some? then ExprCode(env, step.value, Scratch(0), 1, base) else [LoadImm(Scratch(0), S32(1))]
  }

  function BlockSize(env: Env, b: Block): nat {
    match b
    case Nil => 0
    case Cons(s, rest) => StmtSize(env, s) + BlockSize(env, rest)
  }

  function CasesSize(env: Env, cs: Cases): nat {
    match cs
    case Else(b) => BlockSize(env, b)
    case Branch(vs, b, rest) => 3 * |vs| + 1 + BlockSize(env, b) + 1 + CasesSize(env, rest)
  }

  /** Compare-and-jump chain over the labels of one CASE branch. */
  function LabelTests(r: u8, vs: seq<int>, body: nat): (code: seq<Instruction>)
    ensures |code| == 3 * |vs|
  {
    if vs == [] then []
    else [LoadImm(Scratch(0), S32(WrapS32(vs[0]))), Regs2(Eq, r, Scratch(0)), JumpIfTo(body)] + LabelTests(r, vs[1..], body)
  }

  /** Code of a statement at `base`; an EXIT in it leaves to `exit`. */
  function StmtCode(env: Env, s: Stmt, base: nat, exit: nat): (code: seq<Instruction>)
    ensures |code| == StmtSize(env, s)
    decreases s
  {
    match s
    case Assign(x, e) => ExprCode(env, e, RegOf(env, x), 0, base) + [StoreSignal(x, RegOf(env, x))]
    case ArrayAssign(x, i, e) =>
      ExprCode(env, i, Scratch(0), 1, base)
      + ExprCode(env, e, Scratch(1), 2, base + ExprSize(env, i, Scratch(0), 1))
      + [ElementStore(RegOf(env, x), Scratch(0), Scratch(1)), StoreSignal(x, RegOf(env, x))]
    case If(c, t, f) =>
      var thenStart := base + CondSize(env, c) + 1;
      var elseStart := thenStart + BlockSize(env, t) + 1;
      CondCode(env, c, base, thenStart, thenStart) + [JumpTo(elseStart)]
      + BlockCode(env, t, thenStart, exit) + [JumpTo(base + StmtSize(env, s))]
      + BlockCode(env, f, elseStart, exit)
    case While(c, b) =>
      var bodyStart := base + CondSize(env, c) + 1;
      var end := base + StmtSize(env, s);
      CondCode(env, c, base, bodyStart, 0) + [JumpTo(end)] + BlockCode(env, b, bodyStart, end) + [JumpTo(base)]
    case For(x, start, stop, step, b) =>
      var r, end := RegOf(env, x), base + StmtSize(env, s);
      var loop := base + ExprSize(env, start, r, 0);
      var bodyStart := loop + ExprSize(env, stop, Scratch(0), 1) + 2;
      ExprCode(env, start, r, 0, base)
      + ExprCode(env, stop, Scratch(0), 1, loop) + [Regs2(Gt, r, Scratch(0)), JumpIfTo(end)]
      + BlockCode(env, b, bodyStart, end)
      + StepCode(env, step, bodyStart + BlockSize(env, b)) + [Arith3(Add, r, Scratch(0), r), JumpTo(loop)]
    case Case(x, cs) => CasesCode(env, RegOf(env, x), cs, base, base + StmtSize(env, s), exit)
    case Repeat(b, c) =>
      var end := base + StmtSize(env, s);
      BlockCode(env, b, base, end) + CondCode(env, c, base + BlockSize(env, b), end, 0) + [JumpTo(base)]
    case Return => [HALT]
    case Exit => [JumpTo(exit)]
    case FunCall(x, args) => CallCode(env, x, args, base)
  }

  function BlockCode(env: Env, b: Block, base: nat, exit: nat): (code: seq<Instruction>)
    ensures |code| == BlockSize(env, b)
    decreases b
  {
    match b
    case Nil => []
    case Cons(s, rest) => StmtCode(env, s, base, exit) + BlockCode(env, rest, base + StmtSize(env, s), exit)
  }

  /** Branches of a CASE; a branch that ran leaves to `end`. */
  function CasesCode(env: Env, r: u8, cs: Cases, base: nat, end: nat, exit: nat): (code: seq<Instruction>)
    ensures |code| == CasesSize(env, cs)
    decreases cs
  {
    match cs
    case Else(b) => BlockCode(env, b, base, exit)
    case Branch(vs, b, rest) =>
      var bodyStart := base + 3 * |vs| + 1;
      var next := bodyStart + BlockSize(env, b) + 1;
      LabelTests(r, vs, bodyStart) + [JumpTo(next)] + BlockCode(env, b, bodyStart, exit) + [JumpTo(end)]
      + CasesCode(env, r, rest, next, end, exit)
  }

  /** Code of a whole program without functions. */
  function ProgramCode(env: Env, body: Block): seq<Instruction> {
    BlockCode(env, body, 0, 0) + [HALT]
  }

  // ----- one level of the code of compound constructs -----

  /** Size and code of an arithmetic or bitwise expression in terms of its operands. */
  lemma OperatorCode(env: Env, e: Expr, dest: u8, d: nat, base: nat)
    requires e.Binary? && !IsCmpOp(e.op)
    ensures var rs := ExprSize(env, e.right, Scratch(d), d + 1);
            var d' := if IsArithOp(e.op) then d else d + 1;
            var ls := ExprSize(env, e.left, dest, d');
            && ExprSize(env, e, dest, d) == ls + rs + 1
            && ExprCode(env, e, dest, d, base)
               == ExprCode(env, e.left, dest, d', base) + ExprCode(env, e.right, Scratch(d), d + 1, base + ls)
                  + [Arith3(ArithOpcode(e.op), dest, Scratch(d), dest)]
  {
    hide Scratch, LoadImm, Regs2, Arith3, JumpIfTo, ArithOpcode, CmpOpcode, RegOf, ZeroFor;
  }

  /** Size and code of a comparison used as a value. */
  lemma ComparisonCode(env: Env, e: Expr, dest: u8, d: nat, base: nat)
    requires e.Binary? && IsCmpOp(e.op)
    ensures var rs := ExprSize(env, e.right, Scratch(d), d + 1);
            && ExprSize(env, e, dest, d) == rs + ExprSize(env, e.left, Scratch(d + 1), d + 2) + 4
            && ExprCode(env, e, dest, d, base)
               == ExprCode(env, e.right, Scratch(d), d + 1, base) + ExprCode(env, e.left, Scratch(d + 1), d + 2, base + rs)
                  + [Regs2(CmpOpcode(e.op), Scratch(d + 1), Scratch(d)), LoadImm(dest, Bool(false)),
                     JumpIfTo(base + ExprSize(env, e, dest, d)), LoadImm(dest, Bool(true))]
  {
    hide Scratch, LoadImm, Regs2, Arith3, JumpIfTo, ArithOpcode, CmpOpcode, RegOf, ZeroFor;
  }

  lemma AccessCode(env: Env, e: Expr, dest: u8, d: nat, base: nat)
    requires e.ArrayAccess?
    ensures ExprSize(env, e, dest, d) == ExprSize(env, e.index, Scratch(d), d + 1) + 1
    ensures ExprCode(env, e, dest, d, base)
         == ExprCode(env, e.index, Scratch(d), d + 1, base) + [ElementLoad(dest, RegOf(env, e.name), Scratch(d))]
    ensures ExprVerdict(env, e, d) == Then(CheckVar(env, e.name), Fits(d, ExprVerdict(env, e.index, d + 1)))
  {
    hide Scratch, LoadImm, Regs2, Arith3, JumpIfTo, ArithOpcode, CmpOpcode, RegOf, ZeroFor, ElementLoad;
  }

  lemma UnaryCode(env: Env, e: Expr, dest: u8, d: nat)
    requires e.Unary?
    ensures ExprSize(env, e.inner, dest, d) < ExprSize(env, e, dest, d)
  {
  }

  lemma OperatorVerdict(env: Env, e: Expr, d: nat)
    requires e.Binary? && !IsCmpOp(e.op)
    ensures ExprVerdict(env, e, d) ==
            if IsArithOp(e.op) then Then(ExprVerdict(env, e.left, d), Fits(d, ExprVerdict(env, e.right, d + 1)))
            else Fits(d, Then(ExprVerdict(env, e.left, d + 1), ExprVerdict(env, e.right, d + 1)))
  {
  }

  lemma ComparisonVerdict(env: Env, e: Expr, d: nat)
    requires e.Binary? && IsCmpOp(e.op)
    ensures ExprVerdict(env, e, d)
         == Fits(d, Then(ExprVerdict(env, e.right, d + 1), Fits(d + 1, ExprVerdict(env, e.left, d + 2))))
  {
  }

  lemma CompoundCode(env: Env, l: Expr, op: BinOp, r: Expr, base: nat, yes: nat, other: nat)
    requires op == OpAnd || op == OpOr
    ensures var e := Binary(l, op, r);
            var mid := base + CondSize(env, l);
            if op == OpAnd then
              && CondSize(env, e) == CondSize(env, l) + CondSize(env, r)
              && CondCode(env, e, base, yes, other) == CondCode(env, l, base, yes, other) + CondCode(env, r, mid, yes, other)
            else
              && CondSize(env, e) == CondSize(env, l) + 1 + CondSize(env, r)
              && CondCode(env, e, base, yes, other)
                 == CondCode(env, l, base, mid + 1, other) + [JumpTo(other)] + CondCode(env, r, mid + 1, yes, other)
  {
    hide ExprCode, ExprSize, JumpTo, JumpIfTo, Regs2, LoadImm;
  }

  lemma NotCode(env: Env, inner: Expr, base: nat, yes: nat, other: nat)
    ensures CondSize(env, Unary(UNot, inner)) == CondSize(env, inner)
    ensures CondCode(env, Unary(UNot, inner), base, yes, other) == CondCode(env, inner, base, other, yes)
  {
  }

  lemma BranchCode(env: Env, r: u8, cs: Cases, base: nat, end: nat, exit: nat)
    requires cs.Branch?
    ensures var bodyStart := base + 3 * |cs.values| + 1;
            var next := bodyStart + BlockSize(env, cs.body) + 1;
            && CasesSize(env, cs) == next - base + CasesSize(env, cs.rest)
            && CasesCode(env, r, cs, base, end, exit)
               == LabelTests(r, cs.values, bodyStart) + [JumpTo(next)] + BlockCode(env, cs.body, bodyStart, exit)
                  + [JumpTo(end)] + CasesCode(env, r, cs.rest, next, end, exit)
  {
    hide BlockCode, BlockSize, LabelTests, JumpTo;
  }

  lemma ElseCode(env: Env, r: u8, cs: Cases, base: nat, end: nat, exit: nat)
    requires cs.Else?
    ensures CasesSize(env, cs) == BlockSize(env, cs.body)
    ensures CasesCode(env, r, cs, base, end, exit) == BlockCode(env, cs.body, base, exit)
  {
  }

  // ----- the scratch allocator is exact -----

  /** Code generation for an expression overflows exactly when its demand exceeds the free registers. */
  lemma {:induction false} OverflowIffDemandExceedsFree(env: Env, e: Expr, d: nat)
    requires d <= SCRATCH_COUNT && AllDeclared(env, e)
    ensures ExprVerdict(env, e, d) == if d + Need(env, e) <= SCRATCH_COUNT then Accepted else ScratchOverflow
  {
    hide ExprVerdict, Need;
    match e
    case Binary(l, op, r) =>
      BinaryNeed(env, e);
      if IsCmpOp(op) {
        ComparisonVerdict(env, e, d);
        if d < SCRATCH_COUNT {
          OverflowIffDemandExceedsFree(env, r, d + 1);
        }
        if d + 1 < SCRATCH_COUNT {
          OverflowIffDemandExceedsFree(env, l, d + 2);
        }
      } else {
        OperatorVerdict(env, e, d);
        OverflowIffDemandExceedsFree(env, l, d);
        if d < SCRATCH_COUNT {
          OverflowIffDemandExceedsFree(env, l, d + 1);
          OverflowIffDemandExceedsFree(env, r, d + 1);
        }
      }
    case Unary(_, inner) =>
      UnaryDemand(env, e, d);
      OverflowIffDemandExceedsFree(env, inner, d);
    case ArrayAccess(_, i) =>
      AccessDemand(env, e, d);
      if d < SCRATCH_COUNT {
        OverflowIffDemandExceedsFree(env, i, d + 1);
      }
    case _ =>
      LeafDemand(env, e, d);
  }

  lemma UnaryDemand(env: Env, e: Expr, d: nat)
    requires e.Unary?
    ensures Need(env, e) == if e.uop == UNeg then Max(Need(env, e.inner), 1) else Need(env, e.inner)
    ensures ExprVerdict(env, e, d) ==
            if e.uop == UNeg then Then(ExprVerdict(env, e.inner, d), Fits(d, Accepted)) else ExprVerdict(env, e.inner, d)
  {
  }

  lemma AccessDemand(env: Env, e: Expr, d: nat)
    requires e.ArrayAccess?
    ensures Need(env, e) == 1 + Need(env, e.index)
    ensures ExprVerdict(env, e, d) == Then(CheckVar(env, e.name), Fits(d, ExprVerdict(env, e.index, d + 1)))
  {
  }

  lemma LeafDemand(env: Env, e: Expr, d: nat)
    requires !e.Binary? && !e.Unary? && !e.ArrayAccess? && d <= SCRATCH_COUNT && AllDeclared(env, e)
    ensures ExprVerdict(env, e, d) == if d + Need(env, e) <= SCRATCH_COUNT then Accepted else ScratchOverflow
  {
  }

  lemma BinaryNeed(env: Env, e: Expr)
    requires e.Binary?
    ensures Need(env, e) == if IsArithOp(e.op) then Max(Need(env, e.left), 1 + Need(env, e.right))
                            else if IsCmpOp(e.op) then Max(1 + Need(env, e.right), 2 + Need(env, e.left))
                            else 1 + Max(Need(env, e.left), Need(env, e.right))
  {
  }
}
