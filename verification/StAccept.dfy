/**
 Which programs the code generator accepts: over DINT variables, exactly those that
 declare their variables, fit into the scratch registers and leave loops only from
 inside; and which variables may be copied into which.
 */
module StAccept {
  import opened Options
  import opened StSyntax
  import opened StCode
  import opened StSemantics
  import opened StExprCorrect

  // ----- the three conditions -----

  ghost predicate DeclaresAll(env: Env, s: Stmt) {
    match s
    case Assign(x, e) => x in env.registers && AllDeclared(env, e)
    case ArrayAssign(x, i, e) => x in env.registers && AllDeclared(env, i) && AllDeclared(env, e)
    case If(c, t, f) => AllDeclared(env, c) && DeclaresAllIn(env, t) && DeclaresAllIn(env, f)
    case While(c, b) => AllDeclared(env, c) && DeclaresAllIn(env, b)
    case For(x, start, end, step, b) =>
      && x in env.registers && AllDeclared(env, start) && AllDeclared(env, end)
      && (step.Some? ==> AllDeclared(env, step.value)) && DeclaresAllIn(env, b)
    case Case(x, cs) => x in env.registers && DeclaresAllInCases(env, cs)
    case Repeat(b, c) => DeclaresAllIn(env, b) && AllDeclared(env, c)
    case Return => true
    case Exit => true
    case FunCall(x, args) => forall i :: 0 <= i < |args| ==> AllDeclared(env, args[i])
  }

  ghost predicate DeclaresAllIn(env: Env, b: Block) {
    match b
    case Nil => true
    case Cons(s, rest) => DeclaresAll(env, s) && DeclaresAllIn(env, rest)
  }

  ghost predicate DeclaresAllInCases(env: Env, cs: Cases) {
    match cs
    case Else(b) => DeclaresAllIn(env, b)
    case Branch(_, b, rest) => DeclaresAllIn(env, b) && DeclaresAllInCases(env, rest)
  }

  /** Scratch registers a condition needs: one for the right side of a comparison, a second for the left. */
  function CondDemand(env: Env, c: Expr): nat {
    match c
    case Binary(l, op, r) =>
      if IsCmpOp(op) then Max(1 + Need(env, r), 2 + Need(env, l)) else Max(CondDemand(env, l), CondDemand(env, r))
    case Unary(_, inner) => CondDemand(env, inner)
    case _ => 0
  }

  function Demand(env: Env, s: Stmt): nat {
    match s
    case Assign(_, e) => Need(env, e)
    case If(c, t, f) => Max(CondDemand(env, c), Max(DemandIn(env, t), DemandIn(env, f)))
    case While(c, b) => Max(CondDemand(env, c), DemandIn(env, b))
    case For(_, start, end, step, b) =>
      Max(Max(Need(env, start), 1 + Need(env, end)), Max(if step.Some? then 1 + Need(env, step.value) else 0, DemandIn(env, b)))
    case Case(_, cs) => DemandInCases(env, cs)
    case Repeat(b, c) => Max(DemandIn(env, b), CondDemand(env, c))
    case _ => 0
  }

  function DemandIn(env: Env, b: Block): nat {
    match b
    case Nil => 0
    case Cons(s, rest) => Max(Demand(env, s), DemandIn(env, rest))
  }

  function DemandInCases(env: Env, cs: Cases): nat {
    match cs
    case Else(b) => DemandIn(env, b)
    case Branch(_, b, rest) => Max(DemandIn(env, b), DemandInCases(env, rest))
  }

  /** Every EXIT stands in a loop. */
  predicate ExitsInLoops(s: Stmt, inLoop: bool) {
    match s
    case If(_, t, f) => ExitsInLoopsIn(t, inLoop) && ExitsInLoopsIn(f, inLoop)
    case While(_, b) => ExitsInLoopsIn(b, true)
    case For(_, _, _, _, b) => ExitsInLoopsIn(b, true)
    case Case(_, cs) => ExitsInLoopsInCases(cs, inLoop)
    case Repeat(b, _) => ExitsInLoopsIn(b, true)
    case Exit => inLoop
    case _ => true
  }

  predicate ExitsInLoopsIn(b: Block, inLoop: bool) {
    match b
    case Nil => true
    case Cons(s, rest) => ExitsInLoops(s, inLoop) && ExitsInLoopsIn(rest, inLoop)
  }

  predicate ExitsInLoopsInCases(cs: Cases, inLoop: bool) {
    match cs
    case Else(b) => ExitsInLoopsIn(b, inLoop)
    case Branch(_, b, rest) => ExitsInLoopsIn(b, inLoop) && ExitsInLoopsInCases(rest, inLoop)
  }

  // ----- expressions -----

  lemma {:induction false} AcceptedIsDeclared(env: Env, e: Expr, d: nat)
    requires ExprVerdict(env, e, d) == Accepted
    ensures AllDeclared(env, e)
    decreases e
  {
    match e
    case Binary(l, op, r) =>
      AcceptedParts(env, e, d);
      AcceptedIsDeclared(env, l, if IsArithOp(op) then d else if IsCmpOp(op) then d + 2 else d + 1);
      AcceptedIsDeclared(env, r, d + 1);
    case Unary(_, inner) => AcceptedIsDeclared(env, inner, d);
    case ArrayAccess(_, i) => AcceptedIsDeclared(env, i, d + 1);
    case _ =>
  }

  lemma AcceptedParts(env: Env, e: Expr, d: nat)
    requires e.Binary? && ExprVerdict(env, e, d) == Accepted
    ensures ExprVerdict(env, e.left, if IsArithOp(e.op) then d else if IsCmpOp(e.op) then d + 2 else d + 1) == Accepted
    ensures ExprVerdict(env, e.right, d + 1) == Accepted
  {
  }

  /** An expression is accepted when its variables are declared and its demand fits. */
  lemma {:induction false} ExprAccepted(env: Env, e: Expr, d: nat)
    requires d <= 3
    ensures ExprVerdict(env, e, d) == Accepted <==> AllDeclared(env, e) && d + Need(env, e) <= 3
  {
    hide ExprVerdict, AllDeclared, Need;
    ThreeScratch();
    if AllDeclared(env, e) {
      OverflowIffDemandExceedsFree(env, e, d);
    } else if ExprVerdict(env, e, d) == Accepted {
      AcceptedIsDeclared(env, e, d);
    }
  }

  lemma ThreeScratch()
    ensures SCRATCH_COUNT == 3
  {
  }

  /** Over DINT variables every expression is an integer. */
  lemma {:induction false} DintTyped(env: Env, e: Expr)
    requires DintEnv(env) && DintExpr(e) && AllDeclared(env, e)
    ensures TypeOf(env, e).Typed? && TypeOf(env, e).t in {TInt, TDInt}
    decreases e
  {
    match e
    case Binary(l, op, r) =>
      DintTyped(env, l);
      DintTyped(env, r);
    case Unary(_, inner) => DintTyped(env, inner);
    case _ =>
  }

  lemma {:induction false} ConditionTyped(env: Env, c: Expr)
    requires DintEnv(env) && Condition(c) && AllDeclared(env, c)
    ensures TypeOf(env, c) == Typed(TBool)
    decreases c
  {
    match c
    case Binary(l, op, r) =>
      if IsCmpOp(op) {
        DintTyped(env, l);
        DintTyped(env, r);
      } else {
        ConditionTyped(env, l);
        ConditionTyped(env, r);
      }
    case Unary(_, inner) => ConditionTyped(env, inner);
    case _ =>
  }

  lemma {:induction false} ConditionVerdict(env: Env, c: Expr)
    requires Condition(c)
    ensures CondVerdict(env, c) == Accepted <==> AllDeclared(env, c) && CondDemand(env, c) <= 3
    decreases c
  {
    hide ExprVerdict, Need;
    match c
    case Binary(l, op, r) =>
      if IsCmpOp(op) {
        ExprAccepted(env, r, 1);
        ExprAccepted(env, l, 2);
      } else {
        ConditionVerdict(env, l);
        ConditionVerdict(env, r);
      }
    case Unary(_, inner) => ConditionVerdict(env, inner);
    case BoolLiteral(_) => ConstantAccepted(env, c);
  }

  lemma ConstantAccepted(env: Env, c: Expr)
    requires c.BoolLiteral?
    ensures ExprVerdict(env, c, 1) == Accepted
  {
  }

  /** A condition over DINT variables is accepted when its variables are declared and its demand fits. */
  lemma {:induction false} ConditionAccepted(env: Env, c: Expr)
    requires DintEnv(env) && Condition(c)
    ensures CheckCondition(env, c) == Accepted && CondVerdict(env, c) == Accepted <==> AllDeclared(env, c) && CondDemand(env, c) <= 3
  {
    hide CondVerdict, CondDemand, AllDeclared, TypeOf;
    ConditionVerdict(env, c);
    if AllDeclared(env, c) {
      ConditionTyped(env, c);
    }
  }

  lemma {:induction false} AssignmentAccepted(env: Env, x: string, e: Expr)
    requires DintEnv(env) && DintExpr(e) && x in env.registers && AllDeclared(env, e)
    ensures CheckAssign(env, x, e) == Accepted
  {
    DintTyped(env, e);
    assert env.types[x] == TDInt;
  }

  lemma UndeclaredTarget(env: Env, x: string, e: Expr)
    requires DintEnv(env) && x !in env.registers
    ensures CheckAssign(env, x, e) != Accepted && CheckVar(env, x) != Accepted && CheckForVariable(env, x) != Accepted
  {
  }

  // ----- statements -----

  lemma {:induction false} StmtAccepted(env: Env, s: Stmt, inLoop: bool)
    requires DintEnv(env) && DintStmt(s)
    ensures StmtVerdict(env, s, inLoop) == Accepted <==> DeclaresAll(env, s) && Demand(env, s) <= 3 && ExitsInLoops(s, inLoop)
    decreases s
  {
    hide ExprVerdict, CondVerdict, CheckAssign, CheckCondition, Need, CondDemand, AllDeclared, DintEnv, Condition, DintExpr;
    match s
    case Assign(x, e) =>
      ExprAccepted(env, e, 0);
      if x !in env.registers {
        UndeclaredTarget(env, x, e);
      } else if AllDeclared(env, e) {
        AssignmentAccepted(env, x, e);
      }
    case If(c, t, f) =>
      ConditionAccepted(env, c);
      BlockAccepted(env, t, inLoop);
      BlockAccepted(env, f, inLoop);
    case While(c, b) =>
      ConditionAccepted(env, c);
      BlockAccepted(env, b, true);
    case For(x, start, end, step, b) =>
      ExprAccepted(env, start, 0);
      ExprAccepted(env, end, 1);
      if step.Some? {
        ExprAccepted(env, step.value, 1);
      }
      BlockAccepted(env, b, true);
      LoopVariableAccepted(env, x);
    case Case(x, cs) =>
      CasesAccepted(env, cs, inLoop);
    case Repeat(b, c) =>
      ConditionAccepted(env, c);
      BlockAccepted(env, b, true);
    case _ =>
  }

  lemma LoopVariableAccepted(env: Env, x: string)
    requires DintEnv(env)
    ensures CheckForVariable(env, x) == Accepted <==> x in env.registers
  {
  }

  lemma {:induction false} BlockAccepted(env: Env, b: Block, inLoop: bool)
    requires DintEnv(env) && DintBlock(b)
    ensures BlockVerdict(env, b, inLoop) == Accepted <==> DeclaresAllIn(env, b) && DemandIn(env, b) <= 3 && ExitsInLoopsIn(b, inLoop)
    decreases b
  {
    hide StmtVerdict, DeclaresAll, Demand, ExitsInLoops, DintEnv, DintStmt;
    if b.Cons? {
      StmtAccepted(env, b.head, inLoop);
      BlockAccepted(env, b.tail, inLoop);
    }
  }

  lemma {:induction false} CasesAccepted(env: Env, cs: Cases, inLoop: bool)
    requires DintEnv(env) && DintCases(cs)
    ensures CasesVerdict(env, cs, inLoop) == Accepted <==> DeclaresAllInCases(env, cs) && DemandInCases(env, cs) <= 3 && ExitsInLoopsInCases(cs, inLoop)
    decreases cs
  {
    hide BlockVerdict, DeclaresAllIn, DemandIn, ExitsInLoopsIn, DintEnv, DintBlock;
    BlockAccepted(env, cs.body, inLoop);
    if cs.Branch? {
      CasesAccepted(env, cs.rest, inLoop);
    }
  }

  /** Over DINT variables the generator accepts a program exactly when every variable in it is declared,
      no expression or condition needs more than three scratch registers, and every EXIT stands in a loop. */
  lemma {:induction false} DintProgramAccepted(env: Env, body: Block)
    requires DintEnv(env) && DintBlock(body)
    ensures BlockVerdict(env, body, false) == Accepted <==>
              DeclaresAllIn(env, body) && DemandIn(env, body) <= 3 && ExitsInLoopsIn(body, false)
  {
    BlockAccepted(env, body, false);
  }

  // ----- other types -----

  /** Types whose values are integers to the generator. */
  const INTEGER_TYPES: set<VarType> := {TInt, TDInt, TSInt, TUSInt, TUInt, TULInt, TLInt, TByte, TWord, TDWord, TTime, TDate, TTod, TDt}

  /** One variable may be copied into another exactly when their types are the same, or one of them is INT
      and the other an integer type, or both are real types. */
  lemma CopyAccepted(env: Env, x: string, y: string)
    requires ValidEnv(env) && x in env.registers && y in env.registers
    ensures StmtVerdict(env, Assign(x, Variable(y)), false) == Accepted <==>
              || env.types[x] == env.types[y]
              || (env.types[x] == TInt && env.types[y] in INTEGER_TYPES) || (env.types[y] == TInt && env.types[x] in INTEGER_TYPES)
              || (env.types[x] in {TReal, TLReal} && env.types[y] in {TReal, TLReal})
  {
  }

  /** A variable is a condition exactly when it is a BOOL, and counts a FOR loop exactly when it is INT or DINT. */
  lemma VariableAccepted(env: Env, x: string)
    requires ValidEnv(env) && x in env.registers
    ensures CheckCondition(env, Variable(x)) == Accepted <==> env.types[x] == TBool
    ensures CheckForVariable(env, x) == Accepted <==> env.types[x] in {TInt, TDInt}
  {
  }
}
