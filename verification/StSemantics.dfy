/**
 Big-step semantics of Structured Text over DINT variables, in two readings.
 `Standard` is the meaning of the language. `Generated` is the meaning of the
 code the generator emits, which evaluates an assignment in the register of its
 target and routes compound conditions through two jump lists. `MeaningsAgree`
 shows for which programs the two are the same.
 */
module StSemantics {
  import opened Options
  import opened Values
  import opened StSyntax

  type Store = map<string, i32>

  /** Variables and the signals published by assignments. */
  datatype State = State(vars: Store, signals: map<string, Value>)

  datatype Meaning = Standard | Generated

  /** How a statement ends; `Restarted` is a jump back to the first instruction, `Aborted` a division
      whose quotient does not fit. */
  datatype Outcome =
    | Normal(st: State) | Exited(st: State) | Returned(st: State) | Restarted(st: State) | Aborted | Timeout

  // ----- the DINT fragment -----

  /** Expressions whose value is a DINT when every variable is. */
  predicate DintExpr(e: Expr) {
    match e
    case IntLiteral(_) => true
    case Variable(_) => true
    case Binary(l, op, r) => (IsArithOp(op) || op == OpXor) && DintExpr(l) && DintExpr(r)
    case Unary(_, inner) => DintExpr(inner)
    case _ => false
  }

  /** A condition that is one comparison or a constant. */
  predicate SimpleCondition(c: Expr) {
    match c
    case Binary(l, op, r) => IsCmpOp(op) && DintExpr(l) && DintExpr(r)
    case BoolLiteral(_) => true
    case _ => false
  }

  /** Simple conditions and their combinations by AND, OR and NOT. */
  predicate Condition(c: Expr) {
    match c
    case Binary(l, op, r) =>
      if IsCmpOp(op) then DintExpr(l) && DintExpr(r)
      else (op == OpAnd || op == OpOr) && Condition(l) && Condition(r)
    case Unary(UNot, inner) => Condition(inner)
    case BoolLiteral(_) => true
    case _ => false
  }

  predicate DintStmt(s: Stmt) {
    match s
    case Assign(_, e) => DintExpr(e)
    case ArrayAssign(_, _, _) => false
    case If(c, t, f) => Condition(c) && DintBlock(t) && DintBlock(f)
    case While(c, b) => Condition(c) && DintBlock(b)
    case For(_, start, end, step, b) =>
      DintExpr(start) && DintExpr(end) && (step.Some? ==> DintExpr(step.value)) && DintBlock(b)
    case Case(_, cs) => DintCases(cs)
    case Repeat(b, c) => DintBlock(b) && Condition(c)
    case Return => true
    case Exit => true
    case FunCall(_, _) => false
  }

  predicate DintBlock(b: Block) {
    match b
    case Nil => true
    case Cons(s, rest) => DintStmt(s) && DintBlock(rest)
  }

  predicate DintCases(cs: Cases) {
    match cs
    case Else(b) => DintBlock(b)
    case Branch(_, b, rest) => DintBlock(b) && DintCases(rest)
  }

  // ----- expressions -----

  function Lookup(vars: Store, x: string): i32 { if x in vars then vars[x] else 0 }

  function ArithOf(op: BinOp): ArithOp {
    match op
    case OpAdd => Plus
    case OpSub => Minus
    case OpMul => Times
    case OpDiv => Over
    case OpMod => Rem
    case _ => BitXor
  }

  function CmpOf(op: BinOp): CmpOp {
    match op
    case OpEq => CmpEq
    case OpNeq => CmpNeq
    case OpGt => CmpGt
    case OpLt => CmpLt
    case OpGte => CmpGte
    case _ => CmpLte
  }

  function Eval(e: Expr, vars: Store): i32
    requires DintExpr(e)
  {
    match e
    case IntLiteral(n) => WrapS32(n)
    case Variable(x) => Lookup(vars, x)
    case Binary(l, op, r) => Op32(ArithOf(op), Eval(l, vars), Eval(r, vars))
    case Unary(UNeg, inner) => Op32(Minus, 0, Eval(inner, vars))
    case Unary(UNot, inner) => -1 - Eval(inner, vars)
  }

  /** The value left in x's register by code that evaluates `e` in that register. */
  function EvalInPlace(e: Expr, x: string, vars: Store): i32
    requires DintExpr(e)
  {
    match e
    case Binary(l, op, r) =>
      var v := EvalInPlace(l, x, vars);
      Op32(ArithOf(op), v, Eval(r, vars[x := v]))
    case Unary(UNeg, inner) => Op32(Minus, 0, EvalInPlace(inner, x, vars))
    case Unary(UNot, inner) => -1 - EvalInPlace(inner, x, vars)
    case _ => Eval(e, vars)
  }

  /** The one quotient that is not a DINT: the smallest DINT by -1. */
  predicate Overflows(op: BinOp, a: i32, b: i32) { (op == OpDiv || op == OpMod) && a == -0x8000_0000 && b == -1 }

  /** Some division of `e` overflows. */
  predicate Aborts(e: Expr, vars: Store)
    requires DintExpr(e)
  {
    match e
    case Binary(l, op, r) => Aborts(l, vars) || Aborts(r, vars) || Overflows(op, Eval(l, vars), Eval(r, vars))
    case Unary(_, inner) => Aborts(inner, vars)
    case _ => false
  }

  /** Some division of `e` overflows when `e` is evaluated in x's register. */
  predicate AbortsInPlace(e: Expr, x: string, vars: Store)
    requires DintExpr(e)
  {
    match e
    case Binary(l, op, r) =>
      var v := EvalInPlace(l, x, vars);
      var after := vars[x := v];
      AbortsInPlace(l, x, vars) || Aborts(r, after) || Overflows(op, v, Eval(r, after))
    case Unary(_, inner) => AbortsInPlace(inner, x, vars)
    case _ => false
  }

  predicate Mentions(e: Expr, x: string) {
    match e
    case Variable(y) => x == y
    case Binary(l, _, r) => Mentions(l, x) || Mentions(r, x)
    case Unary(_, inner) => Mentions(inner, x)
    case _ => false
  }

  /** `x` is read before anything is written to its register. */
  predicate InPlaceSafe(e: Expr, x: string) {
    match e
    case Binary(l, _, r) => InPlaceSafe(l, x) && (Mentions(r, x) ==> l == Variable(x))
    case Unary(_, inner) => InPlaceSafe(inner, x)
    case _ => true
  }

  lemma {:induction false} EvalUnmentioned(e: Expr, x: string, v: i32, vars: Store)
    requires DintExpr(e) && !Mentions(e, x)
    ensures Eval(e, vars[x := v]) == Eval(e, vars) && Aborts(e, vars[x := v]) == Aborts(e, vars)
  {
    match e
    case Binary(l, _, r) =>
      EvalUnmentioned(l, x, v, vars);
      EvalUnmentioned(r, x, v, vars);
    case Unary(_, inner) =>
      EvalUnmentioned(inner, x, v, vars);
    case _ =>
  }

  /** Evaluating in place gives the value of the expression when the target is read in time. */
  lemma {:induction false} InPlaceIsStandard(e: Expr, x: string, vars: Store)
    requires DintExpr(e) && InPlaceSafe(e, x) && x in vars
    ensures EvalInPlace(e, x, vars) == Eval(e, vars) && AbortsInPlace(e, x, vars) == Aborts(e, vars)
  {
    match e
    case Binary(l, op, r) =>
      InPlaceIsStandard(l, x, vars);
      var v := EvalInPlace(l, x, vars);
      if l == Variable(x) {
        assert vars[x := v] == vars;
      } else {
        EvalUnmentioned(r, x, v, vars);
      }
    case Unary(_, inner) =>
      InPlaceIsStandard(inner, x, vars);
    case _ =>
  }

  /** `x := 1 + x` overwrites x before reading it: the generated code always leaves 2. */
  lemma InPlaceClobbers(x: string, vars: Store)
    ensures var e := Binary(IntLiteral(1), OpAdd, Variable(x)); DintExpr(e) && EvalInPlace(e, x, vars) == 2
    ensures !InPlaceSafe(Binary(IntLiteral(1), OpAdd, Variable(x)), x)
  {
    assert DintExpr(Variable(x));
  }

  // ----- conditions -----

  predicate Holds(c: Expr, vars: Store)
    requires Condition(c)
  {
    match c
    case Binary(l, op, r) =>
      if IsCmpOp(op) then CmpInt(CmpOf(op), Eval(l, vars), Eval(r, vars))
      else if op == OpAnd then Holds(l, vars) && Holds(r, vars)
      else Holds(l, vars) || Holds(r, vars)
    case Unary(_, inner) => !Holds(inner, vars)
    case BoolLiteral(b) => b
  }

  /** Ways out of the code of a condition: either jump list, or its end. */
  datatype Route = Yes | Other | Fall

  function GeneratedRoute(c: Expr, vars: Store): Route
    requires Condition(c)
  {
    match c
    case Binary(l, op, r) =>
      if IsCmpOp(op) then (if Holds(c, vars) then Yes else Fall)
      else if op == OpAnd then (var a := GeneratedRoute(l, vars); if a == Fall then GeneratedRoute(r, vars) else a)
      else (if GeneratedRoute(l, vars) == Yes then GeneratedRoute(r, vars) else Other)
    case Unary(_, inner) =>
      (match GeneratedRoute(inner, vars) case Yes => Other case Other => Yes case Fall => Fall)
    case BoolLiteral(b) => if b then Yes else Fall
  }

  function RouteOf(m: Meaning, c: Expr, vars: Store): Route
    requires Condition(c)
  {
    if m == Generated then GeneratedRoute(c, vars) else if Holds(c, vars) then Yes else Fall
  }

  /** An IF runs its THEN branch when the condition is left by either jump list. */
  predicate IfTaken(m: Meaning, c: Expr, vars: Store)
    requires Condition(c)
  {
    RouteOf(m, c, vars) != Fall
  }

  /** A division overflows in the parts of a condition that are evaluated. */
  predicate CondAborts(m: Meaning, c: Expr, vars: Store)
    requires Condition(c)
  {
    match c
    case Binary(l, op, r) =>
      if IsCmpOp(op) then Aborts(l, vars) || Aborts(r, vars)
      else
        var left := RouteOf(m, l, vars);
        CondAborts(m, l, vars) || (left == RightNeeded(m, op) && CondAborts(m, r, vars))
    case Unary(_, inner) => CondAborts(m, inner, vars)
    case BoolLiteral(_) => false
  }

  /** The way out of the left part of an AND or OR on which its right part is evaluated. */
  function RightNeeded(m: Meaning, op: BinOp): Route { if (m == Generated) == (op == OpAnd) then Fall else Yes }

  /** The generated code leaves the condition as the language says. */
  predicate RoutesAgree(c: Expr, vars: Store)
    requires Condition(c)
  {
    RouteOf(Generated, c, vars) == RouteOf(Standard, c, vars)
  }

  lemma SimpleConditionsAgree(c: Expr, vars: Store)
    requires SimpleCondition(c)
    ensures Condition(c) && RoutesAgree(c, vars) && CondAborts(Generated, c, vars) == CondAborts(Standard, c, vars)
  {
  }

  /** Where the parts are routed right, AND is exactly when both have the same truth value, OR exactly
      when both hold, and NOT never. */
  lemma CompoundRoutesExact(l: Expr, r: Expr, vars: Store)
    requires Condition(l) && Condition(r) && RoutesAgree(l, vars) && RoutesAgree(r, vars)
    ensures Condition(Binary(l, OpAnd, r)) && Condition(Binary(l, OpOr, r)) && Condition(Unary(UNot, l))
    ensures RoutesAgree(Binary(l, OpAnd, r), vars) <==> Holds(l, vars) == Holds(r, vars)
    ensures RoutesAgree(Binary(l, OpOr, r), vars) <==> Holds(l, vars) && Holds(r, vars)
    ensures !RoutesAgree(Unary(UNot, l), vars)
  {
  }

  /** In an IF, where either jump list leads to THEN: AND is compiled as OR, OR as implication, NOT has no effect. */
  lemma CompoundIfExact(l: Expr, r: Expr, vars: Store)
    requires Condition(l) && Condition(r) && RoutesAgree(l, vars) && RoutesAgree(r, vars)
    ensures Condition(Binary(l, OpAnd, r)) && Condition(Binary(l, OpOr, r)) && Condition(Unary(UNot, l))
    ensures IfTaken(Generated, Binary(l, OpAnd, r), vars) <==> Holds(l, vars) || Holds(r, vars)
    ensures IfTaken(Generated, Binary(l, OpAnd, r), vars) == Holds(Binary(l, OpAnd, r), vars)
      <==> Holds(l, vars) == Holds(r, vars)
    ensures IfTaken(Generated, Binary(l, OpOr, r), vars) <==> (Holds(l, vars) ==> Holds(r, vars))
    ensures IfTaken(Generated, Binary(l, OpOr, r), vars) == Holds(Binary(l, OpOr, r), vars) <==> Holds(r, vars)
    ensures IfTaken(Generated, Unary(UNot, l), vars) != Holds(Unary(UNot, l), vars)
  {
  }

  /** From the truth of the comparisons in it alone: the code of `c` jumps by its first list. */
  predicate Takes(c: Expr, vars: Store)
    requires Condition(c)
  {
    match c
    case Binary(l, op, r) =>
      if IsCmpOp(op) then Holds(c, vars)
      else if op == OpAnd then Takes(l, vars) || (Falls(l, vars) && Takes(r, vars))
      else Takes(l, vars) && Takes(r, vars)
    case Unary(_, inner) => !Takes(inner, vars) && !Falls(inner, vars)
    case BoolLiteral(b) => b
  }

  /** Likewise: the code of `c` runs off its end. */
  predicate Falls(c: Expr, vars: Store)
    requires Condition(c)
  {
    match c
    case Binary(l, op, r) =>
      if IsCmpOp(op) then !Holds(c, vars)
      else if op == OpAnd then Falls(l, vars) && Falls(r, vars)
      else Takes(l, vars) && Falls(r, vars)
    case Unary(_, inner) => Falls(inner, vars)
    case BoolLiteral(b) => !b
  }

  /** However deeply a condition is nested, it is routed right exactly when it holds and is taken,
      or does not hold and falls through; and an IF goes right exactly when it falls through or holds. */
  lemma {:induction false} NestedRoutesExact(c: Expr, vars: Store)
    requires Condition(c)
    ensures Takes(c, vars) <==> GeneratedRoute(c, vars) == Yes
    ensures Falls(c, vars) <==> GeneratedRoute(c, vars) == Fall
    ensures RoutesAgree(c, vars) <==> if Holds(c, vars) then Takes(c, vars) else Falls(c, vars)
    ensures IfTaken(Generated, c, vars) == IfTaken(Standard, c, vars) <==> Falls(c, vars) != Holds(c, vars)
  {
    match c
    case Binary(l, op, r) =>
      if !IsCmpOp(op) {
        NestedRoutesExact(l, vars);
        NestedRoutesExact(r, vars);
      }
    case Unary(_, inner) =>
      NestedRoutesExact(inner, vars);
    case _ =>
  }

  // ----- statements -----

  function Publish(st: State, x: string, v: i32): State {
    State(st.vars[x := v], st.signals[x := S32(v)])
  }

  function Update(st: State, x: string, v: i32): State { st.(vars := st.vars[x := v]) }

  function AssignedValue(m: Meaning, e: Expr, x: string, vars: Store): i32
    requires DintExpr(e)
  {
    if m == Generated then EvalInPlace(e, x, vars) else Eval(e, vars)
  }

  function StepValue(step: Option<Expr>, vars: Store): i32
    requires step.Some? ==> DintExpr(step.value)
  {
    if step.Some? then Eval(step.value, vars) else 1
  }

  /** Labels are truncated to 32 bits. */
  predicate Labelled(vs: seq<int>, v: i32) {
    exists i :: 0 <= i < |vs| && WrapS32(vs[i]) == v
  }

  predicate AssignAborts(m: Meaning, e: Expr, x: string, vars: Store)
    requires DintExpr(e)
  {
    if m == Generated then AbortsInPlace(e, x, vars) else Aborts(e, vars)
  }

  predicate StepAborts(step: Option<Expr>, vars: Store)
    requires step.Some? ==> DintExpr(step.value)
  {
    step.Some? && Aborts(step.value, vars)
  }

  /** A FOR loop ends once its variable has passed the limit in the direction of the step (section
      3.3.2.4 of IEC 61131-3:2003); the generated code always tests upwards. */
  predicate ForDone(m: Meaning, s: Stmt, vars: Store)
    requires s.For? && DintStmt(s)
  {
    var v, limit := Lookup(vars, s.variable), Eval(s.end, vars);
    if m == Standard && StepValue(s.step, vars) < 0 then v < limit else v > limit
  }

  /** The two tests agree exactly on steps that are not negative, and at the limit itself. */
  lemma ForTestExact(s: Stmt, vars: Store)
    requires s.For? && DintStmt(s)
    ensures ForDone(Generated, s, vars) == ForDone(Standard, s, vars) <==>
              StepValue(s.step, vars) >= 0 || Lookup(vars, s.variable) == Eval(s.end, vars)
  {
  }

  predicate ForTestAborts(m: Meaning, s: Stmt, vars: Store)
    requires s.For? && DintStmt(s)
  {
    Aborts(s.end, vars) || (m == Standard && StepAborts(s.step, vars))
  }

  /** `fuel` bounds the loop iterations along any path; running out of it is `Timeout`. */
  function Exec(m: Meaning, fuel: nat, s: Stmt, st: State): Outcome
    requires DintStmt(s)
    decreases fuel, s, 1
  {
    match s
    case Assign(x, e) =>
      if AssignAborts(m, e, x, st.vars) then Aborted else Normal(Publish(st, x, AssignedValue(m, e, x, st.vars)))
    case If(c, t, f) =>
      if CondAborts(m, c, st.vars) then Aborted
      else if IfTaken(m, c, st.vars) then ExecBlock(m, fuel, t, st)
      else ExecBlock(m, fuel, f, st)
    case While(c, b) =>
      if fuel == 0 then Timeout
      else if CondAborts(m, c, st.vars) then Aborted
      else
      (match RouteOf(m, c, st.vars)
       case Fall => Normal(st)
       case Other => Restarted(st)
       case Yes =>
         match ExecBlock(m, fuel, b, st)
         case Normal(st') => Exec(m, fuel - 1, s, st')
         case Exited(st') => Normal(st')
         case other => other)
    case For(x, start, _, _, _) =>
      if AssignAborts(m, start, x, st.vars) then Aborted
      else ExecFor(m, fuel, s, Update(st, x, AssignedValue(m, start, x, st.vars)))
    case Case(x, cs) => ExecCases(m, fuel, Lookup(st.vars, x), cs, st)
    case Repeat(b, c) =>
      if fuel == 0 then Timeout else
      (match ExecBlock(m, fuel, b, st)
       case Normal(st') =>
         if CondAborts(m, c, st'.vars) then Aborted else
         (match RouteOf(m, c, st'.vars)
          case Yes => Normal(st')
          case Other => Restarted(st')
          case Fall => Exec(m, fuel - 1, s, st'))
       case Exited(st') => Normal(st')
       case other => other)
    case Return => Returned(st)
    case Exit => Exited(st)
  }

  /** The iterations of a FOR loop: limit and step are evaluated afresh in each of them. */
  function ExecFor(m: Meaning, fuel: nat, s: Stmt, st: State): Outcome
    requires s.For? && DintStmt(s)
    decreases fuel, s, 0
  {
    if fuel == 0 then Timeout
    else if ForTestAborts(m, s, st.vars) then Aborted
    else if ForDone(m, s, st.vars) then Normal(st)
    else match ExecBlock(m, fuel, s.body, st)
      case Normal(st') =>
        if StepAborts(s.step, st'.vars) then Aborted
        else ExecFor(m, fuel - 1, s, NextTurn(s, st'))
      case Exited(st') => Normal(st')
      case other => other
  }

  /** The loop variable moved on by one step. */
  function NextTurn(s: Stmt, st: State): State
    requires s.For? && DintStmt(s)
  {
    Update(st, s.variable, Op32(Plus, Lookup(st.vars, s.variable), StepValue(s.step, st.vars)))
  }

  function ExecBlock(m: Meaning, fuel: nat, b: Block, st: State): Outcome
    requires DintBlock(b)
    decreases fuel, b, 0
  {
    match b
    case Nil => Normal(st)
    case Cons(s, rest) =>
      match Exec(m, fuel, s, st)
      case Normal(st') => ExecBlock(m, fuel, rest, st')
      case other => other
  }

  function ExecCases(m: Meaning, fuel: nat, v: i32, cs: Cases, st: State): Outcome
    requires DintCases(cs)
    decreases fuel, cs, 0
  {
    match cs
    case Else(b) => ExecBlock(m, fuel, b, st)
    case Branch(vs, b, rest) => if Labelled(vs, v) then ExecBlock(m, fuel, b, st) else ExecCases(m, fuel, v, rest, st)
  }

  /** A whole program: it ends at its last statement or at a RETURN. */
  function ExecProgram(m: Meaning, fuel: nat, body: Block, st: State): Outcome
    requires DintBlock(body)
    decreases fuel
  {
    match ExecBlock(m, fuel, body, st)
    case Normal(st') => Returned(st')
    case Restarted(st') => if fuel == 0 then Timeout else ExecProgram(m, fuel - 1, body, st')
    case other => other
  }

  // ----- programs whose two meanings agree -----

  predicate WellBehaved(s: Stmt) {
    match s
    case Assign(x, e) => InPlaceSafe(e, x)
    case If(c, t, f) => SimpleCondition(c) && WellBehavedBlock(t) && WellBehavedBlock(f)
    case While(c, b) => SimpleCondition(c) && WellBehavedBlock(b)
    case For(x, start, _, step, b) => InPlaceSafe(start, x) && CountsUp(step) && WellBehavedBlock(b)
    case Case(_, cs) => WellBehavedCases(cs)
    case Repeat(b, c) => WellBehavedBlock(b) && SimpleCondition(c)
    case _ => true
  }

  /** No BY, or a literal that is not negative. */
  predicate CountsUp(step: Option<Expr>) {
    step.Some? ==> step.value.IntLiteral? && WrapS32(step.value.n) >= 0
  }

  predicate WellBehavedBlock(b: Block) {
    match b
    case Nil => true
    case Cons(s, rest) => WellBehaved(s) && WellBehavedBlock(rest)
  }

  predicate WellBehavedCases(cs: Cases) {
    match cs
    case Else(b) => WellBehavedBlock(b)
    case Branch(_, b, rest) => WellBehavedBlock(b) && WellBehavedCases(rest)
  }

  /** Every variable the statement assigns is declared. */
  predicate Declared(s: Stmt, names: set<string>) {
    match s
    case Assign(x, _) => x in names
    case If(_, t, f) => DeclaredBlock(t, names) && DeclaredBlock(f, names)
    case While(_, b) => DeclaredBlock(b, names)
    case For(x, _, _, _, b) => x in names && DeclaredBlock(b, names)
    case Case(_, cs) => DeclaredCases(cs, names)
    case Repeat(b, _) => DeclaredBlock(b, names)
    case _ => true
  }

  predicate DeclaredBlock(b: Block, names: set<string>) {
    match b
    case Nil => true
    case Cons(s, rest) => Declared(s, names) && DeclaredBlock(rest, names)
  }

  predicate DeclaredCases(cs: Cases, names: set<string>) {
    match cs
    case Else(b) => DeclaredBlock(b, names)
    case Branch(_, b, rest) => DeclaredBlock(b, names) && DeclaredCases(rest, names)
  }

  /** Same outcome under both meanings, and the set of variables does not change. */
  ghost predicate Agree(a: Outcome, b: Outcome, names: set<string>) {
    a == b && (!a.Timeout? && !a.Aborted? ==> a.st.vars.Keys == names)
  }

  lemma {:induction false} StatementsAgree(fuel: nat, s: Stmt, st: State)
    requires DintStmt(s) && WellBehaved(s) && Declared(s, st.vars.Keys)
    ensures Agree(Exec(Generated, fuel, s, st), Exec(Standard, fuel, s, st), st.vars.Keys)
    decreases fuel, s, 1
  {
    match s
    case Assign(x, e) =>
      InPlaceIsStandard(e, x, st.vars);
    case If(c, t, f) =>
      SimpleConditionsAgree(c, st.vars);
      BlocksAgree(fuel, t, st);
      BlocksAgree(fuel, f, st);
    case While(c, b) =>
      SimpleConditionsAgree(c, st.vars);
      BlocksAgree(fuel, b, st);
      var o := ExecBlock(Standard, fuel, b, st);
      if fuel > 0 && o.Normal? {
        StatementsAgree(fuel - 1, s, o.st);
      }
    case For(x, start, _, _, _) =>
      InPlaceIsStandard(start, x, st.vars);
      var st' := Update(st, x, Eval(start, st.vars));
      assert st'.vars.Keys == st.vars.Keys;
      ForsAgree(fuel, s, st');
    case Case(x, cs) =>
      CasesAgree(fuel, Lookup(st.vars, x), cs, st);
    case Repeat(b, c) =>
      BlocksAgree(fuel, b, st);
      var o := ExecBlock(Standard, fuel, b, st);
      if fuel > 0 && o.Normal? {
        SimpleConditionsAgree(c, o.st.vars);
        StatementsAgree(fuel - 1, s, o.st);
      }
    case _ =>
  }

  lemma {:induction false} ForsAgree(fuel: nat, s: Stmt, st: State)
    requires s.For? && DintStmt(s) && WellBehaved(s) && Declared(s, st.vars.Keys)
    ensures Agree(ExecFor(Generated, fuel, s, st), ExecFor(Standard, fuel, s, st), st.vars.Keys)
    decreases fuel, s, 0
  {
    ForTestExact(s, st.vars);
    BlocksAgree(fuel, s.body, st);
    var o := ExecBlock(Standard, fuel, s.body, st);
    if fuel > 0 && o.Normal? {
      assert NextTurn(s, o.st).vars.Keys == st.vars.Keys;
      ForsAgree(fuel - 1, s, NextTurn(s, o.st));
    }
  }

  lemma {:induction false} BlocksAgree(fuel: nat, b: Block, st: State)
    requires DintBlock(b) && WellBehavedBlock(b) && DeclaredBlock(b, st.vars.Keys)
    ensures Agree(ExecBlock(Generated, fuel, b, st), ExecBlock(Standard, fuel, b, st), st.vars.Keys)
    decreases fuel, b, 0
  {
    if b.Cons? {
      StatementsAgree(fuel, b.head, st);
      var o := Exec(Standard, fuel, b.head, st);
      if o.Normal? {
        BlocksAgree(fuel, b.tail, o.st);
      }
    }
  }

  lemma {:induction false} CasesAgree(fuel: nat, v: i32, cs: Cases, st: State)
    requires DintCases(cs) && WellBehavedCases(cs) && DeclaredCases(cs, st.vars.Keys)
    ensures Agree(ExecCases(Generated, fuel, v, cs, st), ExecCases(Standard, fuel, v, cs, st), st.vars.Keys)
    decreases fuel, cs, 0
  {
    match cs
    case Else(b) => BlocksAgree(fuel, b, st);
    case Branch(_, b, rest) =>
      BlocksAgree(fuel, b, st);
      CasesAgree(fuel, v, rest, st);
  }

  /** The generated code of a well-behaved program means what the program means. */
  lemma {:induction false} MeaningsAgree(fuel: nat, body: Block, st: State)
    requires DintBlock(body) && WellBehavedBlock(body) && DeclaredBlock(body, st.vars.Keys)
    ensures ExecProgram(Generated, fuel, body, st) == ExecProgram(Standard, fuel, body, st)
    decreases fuel
  {
    BlocksAgree(fuel, body, st);
    var o := ExecBlock(Standard, fuel, body, st);
    if o.Restarted? && fuel > 0 {
      MeaningsAgree(fuel - 1, body, o.st);
    }
  }

  // ----- where they differ -----

  /** FOR i := 3 TO 1 BY -1 DO k := i END_FOR */
  function Descending(i: string, k: string): Stmt {
    For(i, IntLiteral(3), IntLiteral(1), Some(Unary(UNeg, IntLiteral(1))), Cons(Assign(k, Variable(i)), Nil))
  }

  lemma MinusOne(vars: Store)
    ensures var e := Unary(UNeg, IntLiteral(1)); DintExpr(e) && Eval(e, vars) == -1 && !Aborts(e, vars)
  {
    assert DintExpr(IntLiteral(1)) && Eval(IntLiteral(1), vars) == 1 && Op32(Minus, 0, 1) == -1;
  }

  lemma DescendingIsDint(i: string, k: string)
    ensures DintStmt(Descending(i, k)) && DintBlock(Descending(i, k).body) && !WellBehaved(Descending(i, k))
  {
    var s := Descending(i, k);
    MinusOne(map[]);
    assert DintExpr(Variable(i)) && DintExpr(IntLiteral(1)) && DintExpr(IntLiteral(3));
    assert DintStmt(s.body.head) && DintBlock(s.body.tail);
  }

  lemma DescendingBody(i: string, k: string, fuel: nat, st: State)
    ensures DintBlock(Descending(i, k).body)
    ensures ExecBlock(Standard, fuel, Descending(i, k).body, st) == Normal(Publish(st, k, Lookup(st.vars, i)))
  {
    DescendingIsDint(i, k);
    var after := Publish(st, k, Lookup(st.vars, i));
    assert DintExpr(Variable(i)) && Eval(Variable(i), st.vars) == Lookup(st.vars, i);
    assert Exec(Standard, fuel, Assign(k, Variable(i)), st) == Normal(after);
    assert ExecBlock(Standard, fuel, Nil, after) == Normal(after);
  }

  /** One turn of the loop by the language. */
  lemma DescendingTurn(i: string, k: string, fuel: nat, n: i32, st: State)
    requires i != k && fuel > 0 && Lookup(st.vars, i) == n && -3 <= n <= 3
    ensures DintStmt(Descending(i, k))
    ensures ExecFor(Standard, fuel, Descending(i, k), st)
         == if n < 1 then Normal(st) else ExecFor(Standard, fuel - 1, Descending(i, k), Update(Publish(st, k, n), i, n - 1))
  {
    hide Op32, ExecBlock, Exec;
    var s := Descending(i, k);
    DescendingIsDint(i, k);
    DescendingBody(i, k, fuel, st);
    MinusOne(st.vars);
    assert DintExpr(s.end) && Eval(s.end, st.vars) == 1 && !Aborts(s.end, st.vars);
    var after := Publish(st, k, n);
    MinusOne(after.vars);
    DownByOne(n);
    assert Lookup(after.vars, i) == n;
    assert NextTurn(s, after) == Update(after, i, n - 1);
  }

  lemma DownByOne(n: i32)
    requires -3 <= n
    ensures Op32(Plus, n, -1) == n - 1
  {
  }

  /** By the language the descending loop runs three times and ends with i = 0 and k = 1;
      the generated code leaves it at once with i = 3. */
  lemma DescendingLoopSkipped(i: string, k: string, st: State)
    requires i != k
    ensures var s := Descending(i, k);
            && DintStmt(s) && !WellBehaved(s)
            && Exec(Generated, 4, s, st) == Normal(Update(st, i, 3))
            && Exec(Standard, 4, s, st) == Normal(State(st.vars[k := 1][i := 0], st.signals[k := S32(1)]))
  {
    hide *;
    DescendingIsDint(i, k);
    DescendingStart(i, k, st);
    Turns(i, k, st, 3);
    DescendingTurn(i, k, 4, 3, Update(st, i, 3));
    Turns(i, k, st, 2);
    DescendingTurn(i, k, 3, 2, Turned(i, k, st, 3));
    Turns(i, k, st, 1);
    DescendingTurn(i, k, 2, 1, Turned(i, k, st, 2));
    DescendingTurn(i, k, 1, 0, Turned(i, k, st, 1));
    TurnedIs(i, k, st);
  }

  /** The state after a turn with i = n. */
  function Turned(i: string, k: string, st: State, n: i32): State
    requires n > -0x8000_0000
  {
    State(st.vars[k := n][i := n - 1], st.signals[k := S32(n)])
  }

  lemma TurnedIs(i: string, k: string, st: State)
    ensures Turned(i, k, st, 1) == State(st.vars[k := 1][i := 0], st.signals[k := S32(1)])
  {
  }

  lemma Turns(i: string, k: string, st: State, n: i32)
    requires i != k && 0 < n <= 3
    ensures Lookup(Update(st, i, n).vars, i) == n && Lookup(Turned(i, k, st, n).vars, i) == n - 1
    ensures Update(Publish(Update(st, i, n), k, n), i, n - 1) == Turned(i, k, st, n)
    ensures Update(Publish(Turned(i, k, st, n + 1), k, n), i, n - 1) == Turned(i, k, st, n)
  {
    assert st.vars[i := n][k := n][i := n - 1] == st.vars[k := n][i := n - 1];
    assert st.vars[k := n + 1][i := n][k := n][i := n - 1] == st.vars[k := n][i := n - 1];
    assert st.signals[k := S32(n + 1)][k := S32(n)] == st.signals[k := S32(n)];
  }

  lemma DescendingStart(i: string, k: string, st: State)
    ensures var s := Descending(i, k);
            && DintStmt(s)
            && Exec(Standard, 4, s, st) == ExecFor(Standard, 4, s, Update(st, i, 3))
            && Exec(Generated, 4, s, st) == Normal(Update(st, i, 3))
  {
    var s := Descending(i, k);
    DescendingIsDint(i, k);
    assert Eval(s.end, Update(st, i, 3).vars) == 1;
  }

  /** WHILE x > 0 OR y > 0 DO END_WHILE */
  function EitherPositive(x: string, y: string): Expr {
    Binary(Binary(Variable(x), OpGt, IntLiteral(0)), OpOr, Binary(Variable(y), OpGt, IntLiteral(0)))
  }

  lemma EitherPositiveRoutes(x: string, y: string, vars: Store)
    requires Lookup(vars, x) <= 0
    ensures var c := EitherPositive(x, y);
            && Condition(c) && GeneratedRoute(c, vars) == Other && !CondAborts(Generated, c, vars) && !CondAborts(Standard, c, vars)
            && (Lookup(vars, y) <= 0 ==> !Holds(c, vars))
  {
    var c := EitherPositive(x, y);
    assert DintExpr(Variable(x)) && DintExpr(Variable(y)) && DintExpr(IntLiteral(0));
    assert Eval(IntLiteral(0), vars) == 0 && Eval(Variable(x), vars) == Lookup(vars, x) && Eval(Variable(y), vars) == Lookup(vars, y);
    assert Condition(c.left) && Condition(c.right);
    assert !Holds(c.left, vars);
    assert !CondAborts(Generated, c.left, vars) && !CondAborts(Standard, c.left, vars) && !CondAborts(Standard, c.right, vars);
  }

  /** With x not positive the loop's condition sends the machine back to the first instruction. */
  lemma WhileOrRestarts(x: string, y: string, body: Block, fuel: nat, st: State)
    requires DintBlock(body) && fuel > 0 && Lookup(st.vars, x) <= 0
    ensures var s := While(EitherPositive(x, y), body);
            && DintStmt(s) && Exec(Generated, fuel, s, st) == Restarted(st)
            && (Lookup(st.vars, y) <= 0 ==> Exec(Standard, fuel, s, st) == Normal(st))
  {
    hide CondAborts, Holds, Condition, EitherPositive, GeneratedRoute;
    EitherPositiveRoutes(x, y, st.vars);
  }

  /** So a program that starts with such a loop never ends, although by the language it ends at once. */
  lemma {:induction false} WhileOrLoopsForever(x: string, y: string, body: Block, fuel: nat, st: State)
    requires DintBlock(body) && Lookup(st.vars, x) <= 0 && Lookup(st.vars, y) <= 0
    ensures var program := Cons(While(EitherPositive(x, y), body), Nil);
            && DintBlock(program) && ExecProgram(Generated, fuel, program, st) == Timeout
            && (fuel > 0 ==> ExecProgram(Standard, fuel, program, st) == Returned(st))
    decreases fuel
  {
    hide EitherPositive, Lookup;
    var s := While(EitherPositive(x, y), body);
    WhileOrRestarts(x, y, body, fuel + 1, st);
    if fuel > 0 {
      WhileOrRestarts(x, y, body, fuel, st);
      WhileOrLoopsForever(x, y, body, fuel - 1, st);
      assert ExecBlock(Standard, fuel, Nil, st) == Normal(st);
    } else {
      assert Exec(Generated, 0, s, st) == Timeout;
    }
    OneStatement(Generated, fuel, s, st);
    OneStatement(Standard, fuel, s, st);
  }

  lemma OneStatement(m: Meaning, fuel: nat, s: Stmt, st: State)
    requires DintStmt(s)
    ensures DintBlock(Cons(s, Nil)) && ExecBlock(m, fuel, Cons(s, Nil), st) == Exec(m, fuel, s, st)
  {
    hide Exec;
    assert DintBlock(Nil);
    if Exec(m, fuel, s, st).Normal? {
      assert ExecBlock(m, fuel, Nil, Exec(m, fuel, s, st).st) == Exec(m, fuel, s, st);
    }
  }

  // ----- divisions that cannot overflow -----

  /** Every divisor is a literal other than -1. */
  predicate LiteralDivisors(e: Expr) {
    match e
    case Binary(l, op, r) =>
      && LiteralDivisors(l) && LiteralDivisors(r)
      && (op == OpDiv || op == OpMod ==> r.IntLiteral? && WrapS32(r.n) != -1)
    case Unary(_, inner) => LiteralDivisors(inner)
    case _ => true
  }

  predicate DividesSafely(s: Stmt) {
    match s
    case Assign(_, e) => LiteralDivisors(e)
    case If(c, t, f) => LiteralDivisors(c) && DividesSafelyIn(t) && DividesSafelyIn(f)
    case While(c, b) => LiteralDivisors(c) && DividesSafelyIn(b)
    case For(_, start, end, step, b) =>
      LiteralDivisors(start) && LiteralDivisors(end) && (step.Some? ==> LiteralDivisors(step.value)) && DividesSafelyIn(b)
    case Case(_, cs) => DividesSafelyInCases(cs)
    case Repeat(b, c) => DividesSafelyIn(b) && LiteralDivisors(c)
    case _ => true
  }

  predicate DividesSafelyIn(b: Block) {
    match b
    case Nil => true
    case Cons(s, rest) => DividesSafely(s) && DividesSafelyIn(rest)
  }

  predicate DividesSafelyInCases(cs: Cases) {
    match cs
    case Else(b) => DividesSafelyIn(b)
    case Branch(_, b, rest) => DividesSafelyIn(b) && DividesSafelyInCases(rest)
  }

  lemma {:induction false} LiteralDivisorsNeverAbort(e: Expr, x: string, vars: Store)
    requires DintExpr(e) && LiteralDivisors(e)
    ensures !Aborts(e, vars) && !AbortsInPlace(e, x, vars)
  {
    hide Op32, WrapS32;
    match e
    case Binary(l, _, r) =>
      LiteralDivisorsNeverAbort(l, x, vars);
      LiteralDivisorsNeverAbort(r, x, vars);
      LiteralDivisorsNeverAbort(r, x, vars[x := EvalInPlace(l, x, vars)]);
    case Unary(_, inner) =>
      LiteralDivisorsNeverAbort(inner, x, vars);
    case _ =>
  }

  lemma {:induction false} ConditionsNeverAbort(m: Meaning, c: Expr, vars: Store)
    requires Condition(c) && LiteralDivisors(c)
    ensures !CondAborts(m, c, vars)
  {
    hide Op32, Eval, GeneratedRoute, Holds;
    match c
    case Binary(l, op, r) =>
      if IsCmpOp(op) {
        LiteralDivisorsNeverAbort(l, "", vars);
        LiteralDivisorsNeverAbort(r, "", vars);
      } else {
        ConditionsNeverAbort(m, l, vars);
        ConditionsNeverAbort(m, r, vars);
      }
    case Unary(_, inner) =>
      ConditionsNeverAbort(m, inner, vars);
    case _ =>
  }

  lemma {:induction false} NeverAborts(m: Meaning, fuel: nat, s: Stmt, st: State)
    requires DintStmt(s) && DividesSafely(s)
    ensures Exec(m, fuel, s, st) != Aborted
    decreases fuel, s, 1
  {
    hide Op32, Eval, EvalInPlace, Aborts, AbortsInPlace, CondAborts, RouteOf, LiteralDivisors;
    match s
    case Assign(x, e) =>
      LiteralDivisorsNeverAbort(e, x, st.vars);
    case If(c, t, f) =>
      ConditionsNeverAbort(m, c, st.vars);
      NeverAbortsIn(m, fuel, t, st);
      NeverAbortsIn(m, fuel, f, st);
    case While(c, b) =>
      ConditionsNeverAbort(m, c, st.vars);
      NeverAbortsIn(m, fuel, b, st);
      var o := ExecBlock(m, fuel, b, st);
      if fuel > 0 && o.Normal? {
        NeverAborts(m, fuel - 1, s, o.st);
      }
    case For(x, start, _, _, _) =>
      LiteralDivisorsNeverAbort(start, x, st.vars);
      NeverAbortsFor(m, fuel, s, Update(st, x, AssignedValue(m, start, x, st.vars)));
    case Case(x, cs) =>
      NeverAbortsCases(m, fuel, Lookup(st.vars, x), cs, st);
    case Repeat(b, c) =>
      NeverAbortsIn(m, fuel, b, st);
      var o := ExecBlock(m, fuel, b, st);
      if fuel > 0 && o.Normal? {
        ConditionsNeverAbort(m, c, o.st.vars);
        NeverAborts(m, fuel - 1, s, o.st);
      }
    case _ =>
  }

  lemma {:induction false} NeverAbortsFor(m: Meaning, fuel: nat, s: Stmt, st: State)
    requires s.For? && DintStmt(s) && DividesSafely(s)
    ensures ExecFor(m, fuel, s, st) != Aborted
    decreases fuel, s, 0
  {
    hide Op32, Eval, Aborts, LiteralDivisors;
    LiteralDivisorsNeverAbort(s.end, "", st.vars);
    if s.step.Some? {
      LiteralDivisorsNeverAbort(s.step.value, "", st.vars);
    }
    NeverAbortsIn(m, fuel, s.body, st);
    var o := ExecBlock(m, fuel, s.body, st);
    if fuel > 0 && o.Normal? {
      if s.step.Some? {
        LiteralDivisorsNeverAbort(s.step.value, "", o.st.vars);
      }
      NeverAbortsFor(m, fuel - 1, s, NextTurn(s, o.st));
    }
  }

  lemma {:induction false} NeverAbortsIn(m: Meaning, fuel: nat, b: Block, st: State)
    requires DintBlock(b) && DividesSafelyIn(b)
    ensures ExecBlock(m, fuel, b, st) != Aborted
    decreases fuel, b, 0
  {
    if b.Cons? {
      NeverAborts(m, fuel, b.head, st);
      var o := Exec(m, fuel, b.head, st);
      if o.Normal? {
        NeverAbortsIn(m, fuel, b.tail, o.st);
      }
    }
  }

  lemma {:induction false} NeverAbortsCases(m: Meaning, fuel: nat, v: i32, cs: Cases, st: State)
    requires DintCases(cs) && DividesSafelyInCases(cs)
    ensures ExecCases(m, fuel, v, cs, st) != Aborted
    decreases fuel, cs, 0
  {
    NeverAbortsIn(m, fuel, cs.body, st);
    if cs.Branch? {
      NeverAbortsCases(m, fuel, v, cs.rest, st);
    }
  }

  lemma {:induction false} ProgramNeverAborts(m: Meaning, fuel: nat, body: Block, st: State)
    requires DintBlock(body) && DividesSafelyIn(body)
    ensures ExecProgram(m, fuel, body, st) != Aborted
    decreases fuel
  {
    NeverAbortsIn(m, fuel, body, st);
    var o := ExecBlock(m, fuel, body, st);
    if o.Restarted? && fuel > 0 {
      ProgramNeverAborts(m, fuel - 1, body, o.st);
    }
  }

  /** y := x / z aborts under both meanings when x is the smallest DINT and z is -1. */
  lemma QuotientAborts(x: string, y: string, z: string, fuel: nat, m: Meaning, st: State)
    requires Lookup(st.vars, x) == -0x8000_0000 && Lookup(st.vars, z) == -1 && y != z
    ensures var program := Cons(Assign(y, Binary(Variable(x), OpDiv, Variable(z))), Nil);
            DintBlock(program) && ExecProgram(m, fuel, program, st) == Aborted
  {
    var e := Binary(Variable(x), OpDiv, Variable(z));
    assert DintExpr(Variable(x)) && DintExpr(Variable(z)) && DintExpr(e);
    assert DintStmt(Assign(y, e)) && DintBlock(Nil) && DintBlock(Cons(Assign(y, e), Nil));
    assert AbortsInPlace(e, y, st.vars) && Aborts(e, st.vars);
    assert Exec(m, fuel, Assign(y, e), st) == Aborted;
    assert ExecBlock(m, fuel, Cons(Assign(y, e), Nil), st) == Aborted;
  }
}
