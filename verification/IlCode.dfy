/**
 Instruction List of section 3.2 of IEC 61131-3:2003: statements, the code the
 IL compiler emits for each of them, and label resolution. r14 is the accumulator,
 r15 holds TRUE, r12 is a temporary and variables live in r0 to r9.
 */
module IlCode {
  import opened Values
  import opened Machine

  const USER_REGISTERS: nat := 10
  const TEMP: u8 := 12
  const CR: u8 := 14
  const TRUE_REG: u8 := 15

  datatype IlOp = IXor | IAdd | ISub | IMul | IDiv | IMod
  datatype FbKind = FTon | FTof | FTp | FCtu | FCtd | FRTrig | FFTrig | FSr | FRs

  datatype IlStmt =
    | Load(v: string) | LoadNot(v: string) | Store(v: string)
    | And(v: string) | AndNot(v: string) | Or(v: string) | OrNot(v: string)
    | Compute(op: IlOp, v: string)
    | Cmp(cmp: CmpOp, v: string)
    | Jump(target: string) | JumpIf(target: string) | JumpIfNot(target: string)
    | CallFb(target: string) | Return
    | Set(v: string) | Reset(v: string)
    | Invert
    | RunFb(kind: FbKind, v: string)
    | Label(name: string)

  /** Statements that allocate a register for their variable; a plain store does not. */
  predicate UsesRegister(s: IlStmt) {
    match s
    case Store(_) => false
    case Jump(_) => false
    case JumpIf(_) => false
    case JumpIfNot(_) => false
    case CallFb(_) => false
    case Return => false
    case Invert => false
    case Label(_) => false
    case _ => true
  }

  // ----- registers in order of first use -----

  function Extend(order: seq<string>, s: IlStmt): seq<string> {
    if UsesRegister(s) && s.v !in order then order + [s.v] else order
  }

  function OrderFrom(order: seq<string>, stmts: seq<IlStmt>): (r: seq<string>)
    ensures order <= r
    decreases |stmts|
  {
    if stmts == [] then order else OrderFrom(Extend(order, stmts[0]), stmts[1..])
  }

  /** The variables of a program in order of first use; the i-th one lives in register i. */
  function VarOrder(stmts: seq<IlStmt>): seq<string> { OrderFrom([], stmts) }

  function RegisterOf(order: seq<string>, x: string): nat {
    if order == [] || order[0] == x then 0 else 1 + RegisterOf(order[1..], x)
  }

  lemma {:induction false} RegisterOfStable(order: seq<string>, more: seq<string>, x: string)
    requires order <= more && x in order
    ensures RegisterOf(more, x) == RegisterOf(order, x) < |order|
    decreases |order|
  {
    if order[0] != x {
      RegisterOfStable(order[1..], more[1..], x);
    }
  }

  lemma {:induction false} RegisterOfNew(order: seq<string>, x: string)
    requires x !in order
    ensures RegisterOf(order + [x], x) == |order|
    decreases |order|
  {
    if order != [] {
      assert (order + [x])[1..] == order[1..] + [x];
      RegisterOfNew(order[1..], x);
    }
  }

  lemma {:induction false} OrderCoversUses(order: seq<string>, stmts: seq<IlStmt>, i: nat)
    requires i < |stmts| && UsesRegister(stmts[i])
    ensures stmts[i].v in OrderFrom(order, stmts)
    decreases |stmts|
  {
    if i == 0 {
      assert stmts[0].v in Extend(order, stmts[0]);
    } else {
      OrderCoversUses(Extend(order, stmts[0]), stmts[1..], i - 1);
    }
  }

  // ----- code -----

  function SizeOf(s: IlStmt): nat {
    match s
    case Label(_) => 0
    case Load(_) => 2
    case LoadNot(_) => 3
    case And(_) => 2
    case AndNot(_) => 4
    case OrNot(_) => 3
    case Cmp(_, _) => 5
    case JumpIf(_) => 2
    case JumpIfNot(_) => 2
    case _ => 1
  }

  function ComputeOpcode(op: IlOp): Opcode {
    match op
    case IXor => Xor
    case IAdd => Add
    case ISub => Sub
    case IMul => Mul
    case IDiv => Div
    case IMod => Mod
  }

  function CompareOpcode(op: CmpOp): Opcode {
    match op
    case CmpEq => Eq
    case CmpNeq => Neq
    case CmpGt => Gt
    case CmpLt => Lt
    case CmpGte => Gte
    case CmpLte => Lte
  }

  function FbOpcode(kind: FbKind): Opcode {
    match kind
    case FTon => TimerRun
    case FTof => TimerRun
    case FTp => TimerRun
    case FCtu => CounterRun
    case FCtd => CounterRun
    case FRTrig => EdgeRun
    case FFTrig => EdgeRun
    case FSr => SrRun
    case FRs => SrRun
  }

  /** Code of one statement at `base`, with variable register `r` and jump target `t`. */
  function StmtCode(s: IlStmt, r: u8, base: nat, t: nat): (code: seq<Instruction>)
    ensures |code| == SizeOf(s)
  {
    match s
    case Label(_) => []
    case Load(x) => [LoadSignal(r, x), LoadReg(CR, r)]
    case LoadNot(x) => [LoadSignal(r, x), LoadReg(CR, r), Regs2(Not, CR, CR)]
    case Store(x) => [StoreSignal(x, CR)]
    case And(x) => [LoadSignal(r, x), Arith3(Opcode.And, CR, r, CR)]
    case AndNot(x) => [LoadSignal(r, x), LoadReg(TEMP, r), Regs2(Not, TEMP, TEMP), Arith3(Opcode.And, CR, TEMP, CR)]
    case Or(_) => [Arith3(Opcode.Or, CR, r, CR)]
    case OrNot(_) => [LoadReg(TEMP, r), Regs2(Not, TEMP, TEMP), Arith3(Opcode.Or, CR, TEMP, CR)]
    case Compute(op, _) => [Arith3(ComputeOpcode(op), CR, r, CR)]
    case Cmp(op, _) =>
      [Regs2(CompareOpcode(op), CR, r), JumpIfTo(base + 4), LoadImm(CR, Bool(false)), JumpTo(base + 6), LoadImm(CR, Bool(true))]
    case Jump(_) => [JumpTo(t)]
    case JumpIf(_) => [Regs2(Eq, CR, TRUE_REG), JumpIfTo(t)]
    case JumpIfNot(_) => [Regs2(Neq, CR, TRUE_REG), JumpIfTo(t)]
    case CallFb(_) => [CallTo(t)]
    case Return => [Instruction(Ret, [])]
    case Set(_) => [LoadImm(r, Bool(true))]
    case Reset(_) => [LoadImm(r, Bool(false))]
    case Invert => [Regs2(Not, CR, CR)]
    case RunFb(kind, _) => [Instruction(FbOpcode(kind), [Register(r)])]
  }

  function RegisterFor(order: seq<string>, s: IlStmt): u8 {
    if UsesRegister(s) && RegisterOf(order, s.v) < USER_REGISTERS then RegisterOf(order, s.v) else 0
  }

  // ----- labels -----

  /** Instruction address of the i-th statement; instruction 0 loads TRUE. */
  function Addr(stmts: seq<IlStmt>, i: nat): (a: nat)
    requires i <= |stmts|
    ensures a >= 1
  {
    if i == 0 then 1 else Addr(stmts, i - 1) + SizeOf(stmts[i - 1])
  }

  /** Index of the last definition of a label, or of the end of the program. */
  function LabelIndex(stmts: seq<IlStmt>, name: string): (i: nat)
    ensures i <= |stmts|
    ensures i < |stmts| ==> stmts[i] == Label(name)
    ensures i < |stmts| ==> forall j :: i < j < |stmts| ==> stmts[j] != Label(name)
    ensures i == |stmts| ==> forall j :: 0 <= j < |stmts| ==> stmts[j] != Label(name)
  {
    LastLabel(stmts, name, |stmts|)
  }

  function LastLabel(stmts: seq<IlStmt>, name: string, n: nat): (i: nat)
    requires n <= |stmts|
    requires forall j :: n <= j < |stmts| ==> stmts[j] != Label(name)
    ensures i <= |stmts|
    ensures i < |stmts| ==> stmts[i] == Label(name)
    ensures forall j :: 0 <= j < |stmts| && (j > i || i == |stmts|) ==> stmts[j] != Label(name)
    decreases n
  {
    if n == 0 then |stmts| else if stmts[n - 1] == Label(name) then n - 1 else LastLabel(stmts, name, n - 1)
  }

  function TargetOf(stmts: seq<IlStmt>, s: IlStmt): nat {
    match s
    case Jump(l) => Addr(stmts, LabelIndex(stmts, l))
    case JumpIf(l) => Addr(stmts, LabelIndex(stmts, l))
    case JumpIfNot(l) => Addr(stmts, LabelIndex(stmts, l))
    case CallFb(l) => Addr(stmts, LabelIndex(stmts, l))
    case _ => 0
  }

  /** Code of the statements from the i-th on. */
  function CodeFrom(stmts: seq<IlStmt>, i: nat): (code: seq<Instruction>)
    requires i <= |stmts|
    decreases |stmts| - i
  {
    if i == |stmts| then []
    else
      StmtCode(stmts[i], RegisterFor(VarOrder(stmts), stmts[i]), Addr(stmts, i), TargetOf(stmts, stmts[i])) + CodeFrom(stmts, i + 1)
  }

  function IlProgram(stmts: seq<IlStmt>): seq<Instruction> {
    [LoadImm(TRUE_REG, Bool(true))] + CodeFrom(stmts, 0) + [HALT]
  }

  lemma {:induction false} CodeFromSize(stmts: seq<IlStmt>, i: nat)
    requires i <= |stmts|
    ensures Addr(stmts, i) + |CodeFrom(stmts, i)| == Addr(stmts, |stmts|)
    decreases |stmts| - i
  {
    if i < |stmts| {
      CodeFromSize(stmts, i + 1);
    }
  }

  lemma {:induction false} AddrMonotone(stmts: seq<IlStmt>, i: nat, j: nat)
    requires i <= j <= |stmts|
    ensures Addr(stmts, i) <= Addr(stmts, j)
    decreases j
  {
    if i < j {
      AddrMonotone(stmts, i, j - 1);
    }
  }

  /** In the program, the code of statement i stands at its address. */
  lemma {:induction false} StatementInProgram(stmts: seq<IlStmt>, i: nat, j: nat)
    requires i < |stmts| && j < SizeOf(stmts[i])
    ensures Addr(stmts, i) + j < |IlProgram(stmts)| - 1
    ensures IlProgram(stmts)[Addr(stmts, i) + j]
         == StmtCode(stmts[i], RegisterFor(VarOrder(stmts), stmts[i]), Addr(stmts, i), TargetOf(stmts, stmts[i]))[j]
  {
    hide CodeFrom, StmtCode, Addr, VarOrder, RegisterFor, TargetOf, SizeOf;
    HaltAtEnd(stmts);
    CodeFromSize(stmts, 0);
    CodeFromPrefix(stmts, i, j);
    var a := Addr(stmts, i) + j;
    assert IlProgram(stmts)[a] == CodeFrom(stmts, 0)[a - 1];
    CodeFromBound(stmts);
  }

  lemma CodeFromBound(stmts: seq<IlStmt>)
    ensures |IlProgram(stmts)| == |CodeFrom(stmts, 0)| + 2
  {
    hide CodeFrom;
  }

  lemma {:induction false} CodeFromPrefix(stmts: seq<IlStmt>, i: nat, j: nat)
    requires i < |stmts| && j < SizeOf(stmts[i])
    ensures Addr(stmts, i) + j - 1 < |CodeFrom(stmts, 0)|
    ensures CodeFrom(stmts, 0)[Addr(stmts, i) + j - 1]
         == StmtCode(stmts[i], RegisterFor(VarOrder(stmts), stmts[i]), Addr(stmts, i), TargetOf(stmts, stmts[i]))[j]
  {
    hide StmtCode, VarOrder;
    SuffixInside(stmts, i);
    var code := StmtCode(stmts[i], RegisterFor(VarOrder(stmts), stmts[i]), Addr(stmts, i), TargetOf(stmts, stmts[i]));
    assert CodeFrom(stmts, i) == code + CodeFrom(stmts, i + 1);
    assert CodeFrom(stmts, 0)[Addr(stmts, i) - 1..][j] == CodeFrom(stmts, i)[j];
  }

  lemma {:induction false} SuffixInside(stmts: seq<IlStmt>, i: nat)
    requires i <= |stmts|
    ensures Addr(stmts, i) - 1 <= |CodeFrom(stmts, 0)|
    ensures CodeFrom(stmts, 0)[Addr(stmts, i) - 1..] == CodeFrom(stmts, i)
    decreases i
  {
    hide StmtCode, VarOrder;
    if i > 0 {
      SuffixInside(stmts, i - 1);
      var a := Addr(stmts, i - 1) - 1;
      var code := StmtCode(stmts[i - 1], RegisterFor(VarOrder(stmts), stmts[i - 1]), Addr(stmts, i - 1), TargetOf(stmts, stmts[i - 1]));
      assert CodeFrom(stmts, i - 1) == code + CodeFrom(stmts, i);
      assert CodeFrom(stmts, 0)[a..][|code|..] == CodeFrom(stmts, 0)[a + |code|..];
    }
  }

  /** The halt instruction stands at the address after the last statement. */
  lemma HaltAtEnd(stmts: seq<IlStmt>)
    ensures |IlProgram(stmts)| == Addr(stmts, |stmts|) + 1
    ensures IlProgram(stmts)[Addr(stmts, |stmts|)] == HALT
    ensures IlProgram(stmts)[0] == LoadImm(TRUE_REG, Bool(true))
  {
    CodeFromSize(stmts, 0);
  }
}
