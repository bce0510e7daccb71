/**
 The IL compiler as it runs: one pass over the statements that appends
 instructions, allocates variable registers on first use, records label addresses
 and emits jumps with placeholder targets, then a pass that patches those jumps.
 */
module IlCodegen {
  import opened Values
  import opened Machine
  import opened IlCode

  /** A pending jump: its instruction and the label it goes to. */
  datatype LabelRef = LabelRef(at: nat, label_: string)

  // ----- what the first pass emits -----

  function Refs(s: IlStmt, base: nat): seq<LabelRef> {
    match s
    case Jump(l) => [LabelRef(base, l)]
    case CallFb(l) => [LabelRef(base, l)]
    case JumpIf(l) => [LabelRef(base + 1, l)]
    case JumpIfNot(l) => [LabelRef(base + 1, l)]
    case _ => []
  }

  function RefsFrom(stmts: seq<IlStmt>, i: nat): seq<LabelRef>
    requires i <= |stmts|
    decreases |stmts| - i
  {
    if i == |stmts| then [] else Refs(stmts[i], Addr(stmts, i)) + RefsFrom(stmts, i + 1)
  }

  /** The code of the statements from the i-th on, with placeholder targets. */
  function DraftFrom(stmts: seq<IlStmt>, i: nat): seq<Instruction>
    requires i <= |stmts|
    decreases |stmts| - i
  {
    if i == |stmts| then []
    else StmtCode(stmts[i], RegisterFor(VarOrder(stmts), stmts[i]), Addr(stmts, i), 0) + DraftFrom(stmts, i + 1)
  }

  /** Addresses of the labels defined before statement `n`; a later definition replaces an earlier one. */
  function LabelsBefore(stmts: seq<IlStmt>, n: nat): map<string, nat>
    requires n <= |stmts|
  {
    if n == 0 then map[]
    else if stmts[n - 1].Label? then LabelsBefore(stmts, n - 1)[stmts[n - 1].name := Addr(stmts, n - 1)]
    else LabelsBefore(stmts, n - 1)
  }

  function Resolve(labels: map<string, nat>, halt: nat, name: string): nat {
    if name in labels then labels[name] else halt
  }

  lemma {:induction false} LabelsResolve(stmts: seq<IlStmt>, n: nat, name: string)
    requires n <= |stmts| && forall j :: n <= j < |stmts| ==> stmts[j] != Label(name)
    ensures var i := LastLabel(stmts, name, n);
            Resolve(LabelsBefore(stmts, n), Addr(stmts, |stmts|), name) == Addr(stmts, i)
    decreases n
  {
    if n > 0 && stmts[n - 1] != Label(name) {
      LabelsResolve(stmts, n - 1, name);
    }
  }

  // ----- backpatching -----

  function PatchOne(code: seq<Instruction>, at: nat, t: nat): seq<Instruction>
    requires at < |code|
  {
    code[at := match code[at].opcode
               case Jump => JumpTo(t)
               case JumpIf => JumpIfTo(t)
               case Call => CallTo(t)
               case _ => code[at]]
  }

  /** Patching the pending jumps of one statement resolves its code. */
  lemma PatchStatement(stmts: seq<IlStmt>, s: IlStmt, r: u8, pre: seq<Instruction>, post: seq<Instruction>)
    ensures var refs := Refs(s, |pre|);
            var draft := pre + StmtCode(s, r, |pre|, 0) + post;
            var final := pre + StmtCode(s, r, |pre|, TargetOf(stmts, s)) + post;
            if refs == [] then draft == final
            else |refs| == 1 && refs[0].at < |draft| && PatchOne(draft, refs[0].at, Addr(stmts, LabelIndex(stmts, refs[0].label_))) == final
  {
    hide LabelIndex, Addr;
  }

  class Codegen {
    var instructions: seq<Instruction>
    var varMap: map<string, u8>
    var nextReg: nat
    var labels: map<string, nat>
    var labelRefs: seq<LabelRef>

    constructor ()
      ensures instructions == [] && varMap == map[] && nextReg == 0 && labels == map[] && labelRefs == []
    {
      instructions, varMap, nextReg, labels, labelRefs := [], map[], 0, map[], [];
    }

    /** The register table lists the variables in order of first use. */
    ghost predicate Holds(order: seq<string>)
      reads this
    {
      && nextReg == |order| <= USER_REGISTERS
      && (forall x :: x in varMap <==> x in order)
      && (forall x :: x in varMap ==> varMap[x] == RegisterOf(order, x))
    }

    lemma HoldsNothing()
      requires varMap == map[] && nextReg == 0
      ensures Holds([])
    {
    }

    lemma HoldsFew(order: seq<string>)
      requires Holds(order)
      ensures |order| <= USER_REGISTERS
    {
    }

    /** The register of a variable, allocated on first use; fails when all ten are taken. */
    method GetVarReg(x: string, ghost order: seq<string>) returns (ok: bool, r: u8)
      requires Holds(order)
      modifies this`varMap, this`nextReg
      ensures ok <==> x in order || |order| < USER_REGISTERS
      ensures ok ==> Holds(if x in order then order else order + [x])
      ensures ok ==> r == RegisterOf(if x in order then order else order + [x], x)
    {
      if x in varMap {
        return true, varMap[x];
      }
      if nextReg >= USER_REGISTERS {
        return false, 0;
      }
      r, ok := nextReg, true;
      nextReg := nextReg + 1;
      varMap := varMap[x := r];
      RegisterOfNew(order, x);
      forall y | y in order
        ensures RegisterOf(order + [x], y) == RegisterOf(order, y)
      {
        RegisterOfStable(order, order + [x], y);
      }
    }

    method Emit(inst: Instruction) returns (idx: nat)
      modifies this`instructions
      ensures instructions == old(instructions) + [inst] && idx == |old(instructions)|
    {
      idx := |instructions|;
      instructions := instructions + [inst];
    }

    /** Turns the comparison flag into a Boolean in the accumulator; the continuation is taken to be five
        instructions on, although only four are emitted. */
    method MaterializeFlag()
      modifies this`instructions
      ensures var ip := |old(instructions)|;
              instructions == old(instructions)
                + [JumpIfTo(ip + 3), LoadImm(CR, Bool(false)), JumpTo(ip + 5), LoadImm(CR, Bool(true))]
    {
      var whenTrue, done := |instructions| + 3, |instructions| + 5;
      var _ := Emit(JumpIfTo(whenTrue));
      var _ := Emit(LoadImm(CR, Bool(false)));
      var _ := Emit(JumpTo(done));
      var _ := Emit(LoadImm(CR, Bool(true)));
    }

    method TestAndJump(target: string, negate: bool)
      modifies this`instructions, this`labelRefs
      ensures instructions == old(instructions) + [Regs2(if negate then Neq else Eq, CR, TRUE_REG), JumpIfTo(0)]
      ensures labelRefs == old(labelRefs) + [LabelRef(|old(instructions)| + 1, target)]
    {
      var _ := Emit(Regs2(if negate then Neq else Eq, CR, TRUE_REG));
      var at := Emit(JumpIfTo(0));
      labelRefs := labelRefs + [LabelRef(at, target)];
    }

    /** Loads, stores and Boolean operators. */
    method EmitLogic(s: IlStmt, r: u8)
      requires s.Load? || s.LoadNot? || s.Store? || s.And? || s.AndNot? || s.Or? || s.OrNot? || s.Invert?
      modifies this`instructions
      ensures instructions == old(instructions) + StmtCode(s, r, |old(instructions)|, 0)
    {
      match s
      case Load(x) =>
        var _ := Emit(LoadSignal(r, x));
        var _ := Emit(LoadReg(CR, r));
      case LoadNot(x) =>
        var _ := Emit(LoadSignal(r, x));
        var _ := Emit(LoadReg(CR, r));
        var _ := Emit(Regs2(Not, CR, CR));
      case Store(x) =>
        var _ := Emit(StoreSignal(x, CR));
      case And(x) =>
        var _ := Emit(LoadSignal(r, x));
        var _ := Emit(Arith3(Opcode.And, CR, r, CR));
      case AndNot(x) =>
        var _ := Emit(LoadSignal(r, x));
        var _ := Emit(LoadReg(TEMP, r));
        var _ := Emit(Regs2(Not, TEMP, TEMP));
        var _ := Emit(Arith3(Opcode.And, CR, TEMP, CR));
      case Or(_) =>
        var _ := Emit(Arith3(Opcode.Or, CR, r, CR));
      case OrNot(_) =>
        var _ := Emit(LoadReg(TEMP, r));
        var _ := Emit(Regs2(Not, TEMP, TEMP));
        var _ := Emit(Arith3(Opcode.Or, CR, TEMP, CR));
      case Invert =>
        var _ := Emit(Regs2(Not, CR, CR));
    }

    /** The instructions of one statement, its label and its pending jump. */
    method EmitStatement(s: IlStmt, r: u8)
      modifies this`instructions, this`labels, this`labelRefs
      ensures instructions == old(instructions) + StmtCode(s, r, |old(instructions)|, 0)
      ensures labelRefs == old(labelRefs) + Refs(s, |old(instructions)|)
      ensures labels == if s.Label? then old(labels)[s.name := |old(instructions)|] else old(labels)
    {
      match s
      case Label(name) =>
        labels := labels[name := |instructions|];
      case Compute(op, _) =>
        var _ := Emit(Arith3(ComputeOpcode(op), CR, r, CR));
      case Cmp(op, _) =>
        var _ := Emit(Regs2(CompareOpcode(op), CR, r));
        MaterializeFlag();
      case Jump(l) =>
        var at := Emit(JumpTo(0));
        labelRefs := labelRefs + [LabelRef(at, l)];
      case JumpIf(l) => TestAndJump(l, false);
      case JumpIfNot(l) => TestAndJump(l, true);
      case CallFb(l) =>
        var at := Emit(CallTo(0));
        labelRefs := labelRefs + [LabelRef(at, l)];
      case Return =>
        var _ := Emit(Instruction(Ret, []));
      case Set(_) =>
        var _ := Emit(LoadImm(r, Bool(true)));
      case Reset(_) =>
        var _ := Emit(LoadImm(r, Bool(false)));
      case RunFb(kind, _) =>
        var _ := Emit(Instruction(FbOpcode(kind), [Register(r)]));
      case _ => EmitLogic(s, r);
    }

    /** Compiles one statement: the register of its variable, then its instructions. */
    method CompileStatement(s: IlStmt, ghost order: seq<string>) returns (ok: bool)
      requires Holds(order)
      modifies this
      ensures ok <==> |Extend(order, s)| <= USER_REGISTERS
      ensures ok ==> Holds(Extend(order, s))
      ensures ok ==> instructions == old(instructions) + StmtCode(s, RegisterFor(Extend(order, s), s), |old(instructions)|, 0)
      ensures ok ==> labelRefs == old(labelRefs) + Refs(s, |old(instructions)|)
      ensures ok ==> labels == if s.Label? then old(labels)[s.name := |old(instructions)|] else old(labels)
    {
      hide StmtCode, Refs, RegisterOf;
      ok := true;
      var r: u8 := 0;
      if UsesRegister(s) {
        ok, r := GetVarReg(s.v, order);
        if !ok { return; }
        RegisterBelow(Extend(order, s), s);
      }
      EmitStatement(s, r);
    }
  }

  lemma RegisterBelow(order: seq<string>, s: IlStmt)
    requires UsesRegister(s) && s.v in order && |order| <= USER_REGISTERS
    ensures RegisterFor(order, s) == RegisterOf(order, s.v)
  {
    RegisterOfStable(order, order, s.v);
  }

  lemma {:induction false} OrderSplit(order: seq<string>, stmts: seq<IlStmt>, i: nat)
    requires i < |stmts|
    ensures OrderFrom(OrderFrom(order, stmts[..i]), stmts[i..]) == OrderFrom(order, stmts)
    ensures OrderFrom(order, stmts[..i + 1]) == Extend(OrderFrom(order, stmts[..i]), stmts[i])
    decreases i
  {
    if i == 0 {
      assert stmts[..0] == [] && stmts[0..] == stmts && stmts[..1] == [stmts[0]] && [stmts[0]][1..] == [];
    } else {
      OrderSplit(Extend(order, stmts[0]), stmts[1..], i - 1);
      assert stmts[..i][0] == stmts[0] && stmts[..i][1..] == stmts[1..][..i - 1] && stmts[i..] == stmts[1..][i - 1..];
      assert stmts[..i + 1][1..] == stmts[1..][..i];
    }
  }

  /** The register of a statement does not depend on the statements after it. */
  lemma RegisterStable(stmts: seq<IlStmt>, i: nat)
    requires i < |stmts| && |VarOrder(stmts)| <= USER_REGISTERS
    ensures var order := OrderFrom([], stmts[..i + 1]);
            order <= VarOrder(stmts) && RegisterFor(order, stmts[i]) == RegisterFor(VarOrder(stmts), stmts[i])
  {
    OrderSplit([], stmts, i);
    var order := OrderFrom([], stmts[..i + 1]);
    PrefixOrder(stmts, i + 1);
    if UsesRegister(stmts[i]) {
      assert stmts[i].v in order;
      RegisterOfStable(order, VarOrder(stmts), stmts[i].v);
    }
  }

  lemma OrderOfNothing(stmts: seq<IlStmt>)
    ensures OrderFrom([], stmts[..0]) == [] && OrderFrom([], stmts[..|stmts|]) == VarOrder(stmts)
  {
    assert stmts[..|stmts|] == stmts;
  }

  lemma PrefixOrder(stmts: seq<IlStmt>, i: nat)
    requires i <= |stmts|
    ensures OrderFrom([], stmts[..i]) <= VarOrder(stmts)
  {
    if i < |stmts| {
      OrderSplit([], stmts, i);
    } else {
      assert stmts[..i] == stmts;
    }
  }

  /** Compiles IL statements; fails when the program uses more than ten variables. */
  method Compile(stmts: seq<IlStmt>) returns (ok: bool, program: seq<Instruction>)
    ensures ok <==> |VarOrder(stmts)| <= USER_REGISTERS
    ensures ok ==> program == IlProgram(stmts)
  {
    hide *;
    program := [];
    OrderOfNothing(stmts);
    var cg := new Codegen();
    cg.instructions := [LoadImm(TRUE_REG, Bool(true))];
    cg.HoldsNothing();
    ghost var draft := [LoadImm(TRUE_REG, Bool(true))];
    FirstAddress(stmts);
    for i := 0 to |stmts|
      invariant cg.Holds(OrderFrom([], stmts[..i]))
      invariant |cg.instructions| == Addr(stmts, i)
      invariant |VarOrder(stmts)| <= USER_REGISTERS ==> cg.instructions + DraftFrom(stmts, i) == draft + DraftFrom(stmts, 0)
      invariant cg.labelRefs + RefsFrom(stmts, i) == RefsFrom(stmts, 0)
      invariant cg.labels == LabelsBefore(stmts, i)
    {
      ghost var order := OrderFrom([], stmts[..i]);
      OrderSplit([], stmts, i);
      PrefixOrder(stmts, i + 1);
      ghost var before := cg.instructions;
      ghost var refs := cg.labelRefs;
      ok := cg.CompileStatement(stmts[i], order);
      if !ok {
        return;
      }
      ghost var r := RegisterFor(OrderFrom([], stmts[..i + 1]), stmts[i]);
      DraftNext(stmts, i, before, StmtCode(stmts[i], r, Addr(stmts, i), 0), refs);
    }
    assert stmts[..|stmts|] == stmts && cg.instructions + [] == cg.instructions;
    DraftEnd(stmts, cg.labelRefs);
    cg.HoldsFew(VarOrder(stmts));
    var haltIp := |cg.instructions|;
    program := Backpatch(stmts, cg.instructions + [HALT], cg.labelRefs, cg.labels, haltIp);
    ok := true;
  }

  lemma FirstAddress(stmts: seq<IlStmt>)
    ensures Addr(stmts, 0) == 1 && LabelsBefore(stmts, 0) == map[]
    ensures [] + RefsFrom(stmts, 0) == RefsFrom(stmts, 0)
  {
  }

  lemma DraftEnd(stmts: seq<IlStmt>, refs: seq<LabelRef>)
    ensures DraftFrom(stmts, |stmts|) == [] && RefsFrom(stmts, |stmts|) == [] && refs + [] == refs
  {
  }

  /** What the draft, the pending jumps and the labels are after one more statement. */
  lemma DraftNext(stmts: seq<IlStmt>, i: nat, before: seq<Instruction>, code: seq<Instruction>, refs: seq<LabelRef>)
    requires i < |stmts|
    requires code == StmtCode(stmts[i], RegisterFor(OrderFrom([], stmts[..i + 1]), stmts[i]), Addr(stmts, i), 0)
    ensures Addr(stmts, i) + |code| == Addr(stmts, i + 1)
    ensures |VarOrder(stmts)| <= USER_REGISTERS ==> before + DraftFrom(stmts, i) == before + code + DraftFrom(stmts, i + 1)
    ensures refs + RefsFrom(stmts, i) == refs + Refs(stmts[i], Addr(stmts, i)) + RefsFrom(stmts, i + 1)
    ensures LabelsBefore(stmts, i + 1)
         == if stmts[i].Label? then LabelsBefore(stmts, i)[stmts[i].name := Addr(stmts, i)] else LabelsBefore(stmts, i)
  {
    hide StmtCode, OrderFrom, RegisterFor, VarOrder, Extend, Refs;
    if |VarOrder(stmts)| <= USER_REGISTERS {
      RegisterStable(stmts, i);
      assert before + (code + DraftFrom(stmts, i + 1)) == before + code + DraftFrom(stmts, i + 1);
    }
    assert refs + (Refs(stmts[i], Addr(stmts, i)) + RefsFrom(stmts, i + 1)) == refs + Refs(stmts[i], Addr(stmts, i)) + RefsFrom(stmts, i + 1);
  }

  method Backpatch(ghost stmts: seq<IlStmt>, code: seq<Instruction>, refs: seq<LabelRef>, labels: map<string, nat>, haltIp: nat)
    returns (result: seq<Instruction>)
    requires code == [LoadImm(TRUE_REG, Bool(true))] + DraftFrom(stmts, 0) + [HALT]
    requires refs == RefsFrom(stmts, 0) && labels == LabelsBefore(stmts, |stmts|) && haltIp == Addr(stmts, |stmts|)
    ensures result == IlProgram(stmts)
  {
    hide StmtCode, VarOrder, RegisterFor, PatchOne, LabelIndex, LabelsBefore, Refs, TargetOf;
    result := code;
    ghost var j: nat := 0;
    ghost var done := [LoadImm(TRUE_REG, Bool(true))];
    for k := 0 to |refs|
      invariant j <= |stmts| && |done| == Addr(stmts, j)
      invariant result == done + DraftFrom(stmts, j) + [HALT]
      invariant refs[k..] == RefsFrom(stmts, j)
      invariant done + CodeFrom(stmts, j) + [HALT] == IlProgram(stmts)
    {
      j, done := SkipPlain(stmts, j, done);
      var ref := refs[k];
      assert ref == refs[k..][0];
      PatchHead(stmts, j, done, ref, labels, haltIp);
      result := PatchOne(result, ref.at, if ref.label_ in labels then labels[ref.label_] else haltIp);
      done := done + StmtCode(stmts[j], RegisterFor(VarOrder(stmts), stmts[j]), Addr(stmts, j), TargetOf(stmts, stmts[j]));
      j := j + 1;
      assert refs[k..][1..] == refs[k + 1..];
    }
    j, done := SkipPlain(stmts, j, done);
  }

  /** Statements without pending jumps need no patching. */
  lemma {:induction false} SkipPlain(stmts: seq<IlStmt>, j0: nat, done0: seq<Instruction>) returns (j: nat, done: seq<Instruction>)
    requires j0 <= |stmts| && |done0| == Addr(stmts, j0)
    ensures j0 <= j <= |stmts| && |done| == Addr(stmts, j)
    ensures done + DraftFrom(stmts, j) + [HALT] == done0 + DraftFrom(stmts, j0) + [HALT]
    ensures RefsFrom(stmts, j) == RefsFrom(stmts, j0)
    ensures done + CodeFrom(stmts, j) + [HALT] == done0 + CodeFrom(stmts, j0) + [HALT]
    ensures j < |stmts| ==> Refs(stmts[j], Addr(stmts, j)) != []
    decreases |stmts| - j0
  {
    hide *;
    j, done := j0, done0;
    if j < |stmts| && Refs(stmts[j], Addr(stmts, j)) == [] {
      var code := StmtCode(stmts[j], RegisterFor(VarOrder(stmts), stmts[j]), Addr(stmts, j), 0);
      PlainShape(stmts, j0, done0, code);
      j, done := SkipPlain(stmts, j0 + 1, done0 + code);
    }
  }

  lemma PlainShape(stmts: seq<IlStmt>, j: nat, done: seq<Instruction>, code: seq<Instruction>)
    requires j < |stmts| && Refs(stmts[j], Addr(stmts, j)) == []
    requires code == StmtCode(stmts[j], RegisterFor(VarOrder(stmts), stmts[j]), Addr(stmts, j), 0)
    ensures |code| == SizeOf(stmts[j]) && Addr(stmts, j + 1) == Addr(stmts, j) + SizeOf(stmts[j])
    ensures done + code + DraftFrom(stmts, j + 1) + [HALT] == done + DraftFrom(stmts, j) + [HALT]
    ensures done + code + CodeFrom(stmts, j + 1) + [HALT] == done + CodeFrom(stmts, j) + [HALT]
    ensures RefsFrom(stmts, j) == RefsFrom(stmts, j + 1)
  {
    hide StmtCode, VarOrder, RegisterFor, SizeOf, TargetOf, Refs;
    PlainCode(stmts, stmts[j], RegisterFor(VarOrder(stmts), stmts[j]), Addr(stmts, j));
    assert done + code + DraftFrom(stmts, j + 1) == done + (code + DraftFrom(stmts, j + 1));
    assert done + code + CodeFrom(stmts, j + 1) == done + (code + CodeFrom(stmts, j + 1));
    assert [] + RefsFrom(stmts, j + 1) == RefsFrom(stmts, j + 1);
  }

  lemma PlainCode(stmts: seq<IlStmt>, s: IlStmt, r: u8, base: nat)
    requires Refs(s, base) == []
    ensures StmtCode(s, r, base, 0) == StmtCode(s, r, base, TargetOf(stmts, s))
  {
  }

  /** Patching the first pending jump resolves the statement it belongs to. */
  lemma PatchHead(stmts: seq<IlStmt>, j: nat, done: seq<Instruction>, ref: LabelRef, labels: map<string, nat>, haltIp: nat)
    requires j <= |stmts| && |done| == Addr(stmts, j) && RefsFrom(stmts, j) != [] && ref == RefsFrom(stmts, j)[0]
    requires j < |stmts| ==> Refs(stmts[j], Addr(stmts, j)) != []
    requires labels == LabelsBefore(stmts, |stmts|) && haltIp == Addr(stmts, |stmts|)
    ensures j < |stmts| && RefsFrom(stmts, j)[1..] == RefsFrom(stmts, j + 1)
    ensures var before := done + DraftFrom(stmts, j) + [HALT];
            var code := StmtCode(stmts[j], RegisterFor(VarOrder(stmts), stmts[j]), Addr(stmts, j), TargetOf(stmts, stmts[j]));
            && ref.at < |before|
            && PatchOne(before, ref.at, Resolve(labels, haltIp, ref.label_)) == done + code + DraftFrom(stmts, j + 1) + [HALT]
            && done + code + CodeFrom(stmts, j + 1) == done + CodeFrom(stmts, j)
  {
    hide *;
    RefsShape(stmts, j);
    var s, r := stmts[j], RegisterFor(VarOrder(stmts), stmts[j]);
    LabelTarget(stmts, ref.label_);
    PatchStatement(stmts, s, r, done, DraftFrom(stmts, j + 1) + [HALT]);
    var draft, code := StmtCode(s, r, Addr(stmts, j), 0), StmtCode(s, r, Addr(stmts, j), TargetOf(stmts, s));
    FromShape(stmts, j, draft, code);
    assert done + (draft + DraftFrom(stmts, j + 1)) + [HALT] == done + draft + (DraftFrom(stmts, j + 1) + [HALT]);
    assert done + code + DraftFrom(stmts, j + 1) + [HALT] == done + code + (DraftFrom(stmts, j + 1) + [HALT]);
    assert done + code + CodeFrom(stmts, j + 1) == done + (code + CodeFrom(stmts, j + 1));
  }

  lemma RefsShape(stmts: seq<IlStmt>, j: nat)
    requires j <= |stmts| && RefsFrom(stmts, j) != [] && (j < |stmts| ==> Refs(stmts[j], Addr(stmts, j)) != [])
    ensures j < |stmts| && RefsFrom(stmts, j) == Refs(stmts[j], Addr(stmts, j)) + RefsFrom(stmts, j + 1)
    ensures |Refs(stmts[j], Addr(stmts, j))| == 1 && RefsFrom(stmts, j)[0] == Refs(stmts[j], Addr(stmts, j))[0]
    ensures RefsFrom(stmts, j)[1..] == RefsFrom(stmts, j + 1)
  {
  }

  lemma FromShape(stmts: seq<IlStmt>, j: nat, draft: seq<Instruction>, code: seq<Instruction>)
    requires j < |stmts|
    requires draft == StmtCode(stmts[j], RegisterFor(VarOrder(stmts), stmts[j]), Addr(stmts, j), 0)
    requires code == StmtCode(stmts[j], RegisterFor(VarOrder(stmts), stmts[j]), Addr(stmts, j), TargetOf(stmts, stmts[j]))
    ensures DraftFrom(stmts, j) == draft + DraftFrom(stmts, j + 1) && CodeFrom(stmts, j) == code + CodeFrom(stmts, j + 1)
  {
    hide StmtCode, VarOrder, RegisterFor, TargetOf;
  }

  /** The table built by the first pass resolves a label to its last definition, or to the halt. */
  lemma LabelTarget(stmts: seq<IlStmt>, name: string)
    ensures Resolve(LabelsBefore(stmts, |stmts|), Addr(stmts, |stmts|), name) == Addr(stmts, LabelIndex(stmts, name))
  {
    LabelsResolve(stmts, |stmts|, name);
  }
}
