/**
 Correctness of compiled Structured Text. A run of the code of a statement
 simulates the big-step semantics, for every store and every loop bound: the
 machine arrives where the outcome says with the store in its registers, it
 aborts when a division overflows, and when the semantics runs out of fuel it is
 still running after at least that many instructions.
 */
module StCorrect {
  import opened Options
  import opened Values
  import opened Machine
  import opened Runs
  import opened StSyntax
  import opened StCode
  import opened StSemantics
  import opened StExprCorrect

  ghost predicate CodeFits(p: Program, exit: nat) { |p| < TWO_32 && exit < TWO_32 }

  ghost predicate StmtReady(p: Program, env: Env, s: Stmt, inLoop: bool, vm: Vm, st: State, exit: nat) {
    && DintEnv(env) && DintStmt(s) && StmtVerdict(env, s, inLoop) == Accepted && Matches(env, st, vm)
    && CodeAt(p, vm.ip, StmtCode(env, s, vm.ip, exit)) && CodeFits(p, exit)
  }

  ghost predicate BlockReady(p: Program, env: Env, b: Block, inLoop: bool, vm: Vm, st: State, exit: nat) {
    && DintEnv(env) && DintBlock(b) && BlockVerdict(env, b, inLoop) == Accepted && Matches(env, st, vm)
    && CodeAt(p, vm.ip, BlockCode(env, b, vm.ip, exit)) && CodeFits(p, exit)
  }

  ghost predicate CasesReady(p: Program, env: Env, r: u8, cs: Cases, inLoop: bool, vm: Vm, st: State, end: nat, exit: nat) {
    && DintEnv(env) && DintCases(cs) && CasesVerdict(env, cs, inLoop) == Accepted && Matches(env, st, vm)
    && CodeAt(p, vm.ip, CasesCode(env, r, cs, vm.ip, end, exit)) && CodeFits(p, exit) && end < TWO_32
  }

  /** After `k` instructions the machine is in the state the outcome `o` prescribes. */
  ghost predicate Simulates(p: Program, env: Env, vm: Vm, o: Outcome, end: nat, exit: nat, fuel: nat, k: nat, out: Vm)
    requires ValidEnv(env)
  {
    match o
    case Normal(st) => Reaches(p, vm, k, out) && out.ip == end && Matches(env, st, out)
    case Exited(st) => Reaches(p, vm, k, out) && out.ip == exit && Matches(env, st, out)
    case Returned(st) => Reaches(p, vm, k, out) && out.ip < |p| && p[out.ip] == HALT && Matches(env, st, out)
    case Restarted(st) => Reaches(p, vm, k, out) && out.ip == 0 && k > 0 && Matches(env, st, out)
    case Aborted => FaultsAfter(p, vm, k)
    case Timeout => Reaches(p, vm, k, out) && k >= fuel
  }

  /** Instructions executed before a simulation belong to it. */
  lemma Prepend(p: Program, env: Env, vm: Vm, j: nat, mid: Vm, o: Outcome, end: nat, exit: nat, fuel: nat, fuel': nat, k: nat, out: Vm)
    requires ValidEnv(env) && Reaches(p, vm, j, mid) && Simulates(p, env, mid, o, end, exit, fuel', k, out) && fuel <= fuel' + j
    ensures Simulates(p, env, vm, o, end, exit, fuel, j + k, out)
  {
    hide Run, Matches, FaultsAfter;
    if o.Aborted? {
      FaultsLater(p, vm, j, mid, k);
    } else {
      ReachesTrans(p, vm, j, mid, k, out);
    }
  }

  /** An unconditional jump at the end of a simulation that ended normally. */
  lemma JumpAfter(p: Program, env: Env, vm: Vm, st: State, k: nat, mid: Vm, target: nat) returns (out: Vm)
    requires ValidEnv(env) && Reaches(p, vm, k, mid) && Matches(env, st, mid)
    requires mid.ip < |p| && p[mid.ip] == JumpTo(target) && target < TWO_32
    ensures Reaches(p, vm, k + 1, out) && Matches(env, st, out) && out == mid.(ip := target)
  {
    hide Run;
    StepJump(p, mid, target);
    out := mid.(ip := target);
    ReachesTrans(p, vm, k, mid, 1, out);
  }

  // ----- statements -----

  lemma {:induction false} StmtCorrect(p: Program, env: Env, fuel: nat, s: Stmt, inLoop: bool, vm: Vm, st: State, exit: nat)
    returns (k: nat, out: Vm)
    requires StmtReady(p, env, s, inLoop, vm, st, exit)
    ensures Simulates(p, env, vm, Exec(Generated, fuel, s, st), vm.ip + StmtSize(env, s), exit, fuel, k, out)
    decreases fuel, s, 2
  {
    hide Run, Matches, ValidEnv, CodeAt;
    match s
    case Assign(x, e) => k, out := AssignCorrect(p, env, fuel, s, inLoop, vm, st, exit);
    case If(_, _, _) => k, out := IfCorrect(p, env, fuel, s, inLoop, vm, st, exit);
    case While(_, _) => k, out := WhileCorrect(p, env, fuel, s, inLoop, vm, st, exit);
    case For(_, _, _, _, _) => k, out := ForStart(p, env, fuel, s, inLoop, vm, st, exit);
    case Case(x, cs) =>
      SelectorReady(p, env, s, inLoop, vm, st, exit);
      k, out := CasesCorrect(p, env, fuel, env.registers[x], Lookup(st.vars, x), cs, inLoop, vm, st, vm.ip + StmtSize(env, s), exit);
    case Repeat(_, _) => k, out := RepeatCorrect(p, env, fuel, s, inLoop, vm, st, exit);
    case Return =>
      InstructionAt(p, vm.ip, [HALT], 0);
      ReachesZero(p, vm);
      k, out := 0, vm;
    case Exit =>
      InstructionAt(p, vm.ip, [JumpTo(exit)], 0);
      ReachesZero(p, vm);
      out := JumpAfter(p, env, vm, st, 0, vm, exit);
      k := 1;
  }

  lemma MatchesPublished(env: Env, st: State, vm: Vm, x: string, out: Vm)
    requires ValidEnv(env) && Matches(env, st, vm) && x in env.registers
    requires out == AdvanceIp(vm.(signals := vm.signals[x := vm.regs[env.registers[x]]]))
    ensures Matches(env, Publish(st, x, st.vars[x]), out)
  {
    hide Run;
    assert st.vars[x := st.vars[x]] == st.vars;
  }

  lemma AssignCorrect(p: Program, env: Env, fuel: nat, s: Stmt, inLoop: bool, vm: Vm, st: State, exit: nat)
    returns (k: nat, out: Vm)
    requires StmtReady(p, env, s, inLoop, vm, st, exit) && s.Assign?
    ensures Simulates(p, env, vm, Exec(Generated, fuel, s, st), vm.ip + StmtSize(env, s), exit, fuel, k, out)
  {
    hide Run, CodeAt, ExprCode, ExprSize, ExprVerdict, EvalInPlace, AbortsInPlace, Matches, ValidEnv, FaultsAfter;
    var x, e := s.name, s.value;
    VariableValue(env, st, vm, x);
    var r := env.registers[x];
    var code := ExprCode(env, e, r, 0, vm.ip);
    CodeSplit(p, vm.ip, code, [StoreSignal(x, r)]);
    if AbortsInPlace(e, x, st.vars) {
      k := InPlaceFaults(p, env, e, x, 0, vm, st);
      return k, vm;
    }
    var mid := InPlaceCorrect(p, env, e, x, 0, vm, st);
    InstructionAt(p, mid.ip, [StoreSignal(x, r)], 0);
    StepStore(p, mid, x, r);
    out := AdvanceIp(mid.(signals := mid.signals[x := mid.regs[r]]));
    k := ExprSize(env, e, r, 0) + 1;
    ReachesTrans(p, vm, k - 1, mid, 1, out);
    var st' := Update(st, x, EvalInPlace(e, x, st.vars));
    MatchesPublished(env, st', mid, x, out);
    assert Publish(st', x, st'.vars[x]) == Publish(st, x, st'.vars[x]);
  }

  lemma {:induction false} BlockCorrect(p: Program, env: Env, fuel: nat, b: Block, inLoop: bool, vm: Vm, st: State, exit: nat)
    returns (k: nat, out: Vm)
    requires BlockReady(p, env, b, inLoop, vm, st, exit)
    ensures Simulates(p, env, vm, ExecBlock(Generated, fuel, b, st), vm.ip + BlockSize(env, b), exit, fuel, k, out)
    decreases fuel, b, 1
  {
    hide Run, Matches, ValidEnv, CodeAt, StmtCode, StmtSize, StmtVerdict, Exec;
    match b
    case Nil =>
      ReachesZero(p, vm);
      k, out := 0, vm;
    case Cons(s, rest) =>
      CodeSplit(p, vm.ip, StmtCode(env, s, vm.ip, exit), BlockCode(env, rest, vm.ip + StmtSize(env, s), exit));
      k, out := StmtCorrect(p, env, fuel, s, inLoop, vm, st, exit);
      var o := Exec(Generated, fuel, s, st);
      if o.Normal? {
        var j, mid := k, out;
        k, out := BlockCorrect(p, env, fuel, rest, inLoop, mid, o.st, exit);
        Prepend(p, env, vm, j, mid, ExecBlock(Generated, fuel, b, st), vm.ip + BlockSize(env, b), exit, fuel, fuel, k, out);
        k := j + k;
      }
  }

  // ----- one step of the semantics -----

  lemma ZeroFuel(s: Stmt, st: State)
    requires DintStmt(s) && (s.While? || s.Repeat?)
    ensures Exec(Generated, 0, s, st) == Timeout
  {
  }

  lemma IfUnfold(fuel: nat, s: Stmt, st: State)
    requires DintStmt(s) && s.If?
    ensures Condition(s.cond) && DintBlock(s.thenBody) && DintBlock(s.elseBody)
    ensures Exec(Generated, fuel, s, st)
         == if CondAborts(Generated, s.cond, st.vars) then Aborted
            else ExecBlock(Generated, fuel, if GeneratedRoute(s.cond, st.vars) == Fall then s.elseBody else s.thenBody, st)
  {
  }

  lemma WhileUnfold(fuel: nat, s: Stmt, st: State)
    requires DintStmt(s) && s.While? && fuel > 0
    ensures Condition(s.cond) && DintBlock(s.body)
    ensures Exec(Generated, fuel, s, st) ==
            if CondAborts(Generated, s.cond, st.vars) then Aborted else
            match GeneratedRoute(s.cond, st.vars)
            case Fall => Normal(st)
            case Other => Restarted(st)
            case Yes =>
              match ExecBlock(Generated, fuel, s.body, st)
              case Normal(st') => Exec(Generated, fuel - 1, s, st')
              case Exited(st') => Normal(st')
              case other => other
  {
  }

  lemma RepeatUnfold(fuel: nat, s: Stmt, st: State)
    requires DintStmt(s) && s.Repeat? && fuel > 0
    ensures Condition(s.cond) && DintBlock(s.body)
    ensures Exec(Generated, fuel, s, st) ==
            match ExecBlock(Generated, fuel, s.body, st)
            case Normal(st') =>
              if CondAborts(Generated, s.cond, st'.vars) then Aborted else
              (match GeneratedRoute(s.cond, st'.vars)
               case Yes => Normal(st')
               case Other => Restarted(st')
               case Fall => Exec(Generated, fuel - 1, s, st'))
            case Exited(st') => Normal(st')
            case other => other
  {
  }

  // ----- IF -----

  lemma SplitIf(p: Program, env: Env, s: Stmt, inLoop: bool, vm: Vm, st: State, exit: nat)
    requires StmtReady(p, env, s, inLoop, vm, st, exit) && s.If?
    ensures var thenStart := vm.ip + CondSize(env, s.cond) + 1;
            var elseStart := thenStart + BlockSize(env, s.thenBody) + 1;
            var end := vm.ip + StmtSize(env, s);
            && CondReady(p, env, s.cond, vm, st, thenStart, thenStart)
            && BlockVerdict(env, s.thenBody, inLoop) == Accepted && BlockVerdict(env, s.elseBody, inLoop) == Accepted
            && thenStart <= elseStart - 1 < |p| && p[thenStart - 1] == JumpTo(elseStart) && p[elseStart - 1] == JumpTo(end)
            && CodeAt(p, thenStart, BlockCode(env, s.thenBody, thenStart, exit))
            && CodeAt(p, elseStart, BlockCode(env, s.elseBody, elseStart, exit))
            && end == elseStart + BlockSize(env, s.elseBody) < TWO_32
  {
    hide Run, Matches, ValidEnv, CondCode, CondSize, CondVerdict, BlockCode, BlockSize, BlockVerdict, CodeAt;
    var thenStart := vm.ip + CondSize(env, s.cond) + 1;
    var elseStart := thenStart + BlockSize(env, s.thenBody) + 1;
    var c := CondCode(env, s.cond, vm.ip, thenStart, thenStart);
    var t := BlockCode(env, s.thenBody, thenStart, exit);
    var f := BlockCode(env, s.elseBody, elseStart, exit);
    var end := vm.ip + StmtSize(env, s);
    CodeBound(p, vm.ip, StmtCode(env, s, vm.ip, exit));
    CodeSplit5(p, vm.ip, c, [JumpTo(elseStart)], t, [JumpTo(end)], f);
    InstructionAt(p, thenStart - 1, [JumpTo(elseStart)], 0);
    InstructionAt(p, elseStart - 1, [JumpTo(end)], 0);
  }

  lemma {:induction false} IfCorrect(p: Program, env: Env, fuel: nat, s: Stmt, inLoop: bool, vm: Vm, st: State, exit: nat)
    returns (k: nat, out: Vm)
    requires StmtReady(p, env, s, inLoop, vm, st, exit) && s.If?
    ensures Simulates(p, env, vm, Exec(Generated, fuel, s, st), vm.ip + StmtSize(env, s), exit, fuel, k, out)
    decreases fuel, s, 1
  {
    hide Run, Matches, ValidEnv, CodeAt, StmtCode, StmtSize, StmtVerdict, BlockCode, BlockSize, BlockVerdict, CondCode, CondSize, CondVerdict, GeneratedRoute, Exec, ExecBlock, DintStmt, DintBlock, Condition, CondAborts, FaultsAfter;
    SplitIf(p, env, s, inLoop, vm, st, exit);
    IfUnfold(fuel, s, st);
    var thenStart := vm.ip + CondSize(env, s.cond) + 1;
    var elseStart := thenStart + BlockSize(env, s.thenBody) + 1;
    var end := vm.ip + StmtSize(env, s);
    if CondAborts(Generated, s.cond, st.vars) {
      k := CondFaults(p, env, s.cond, vm, st, thenStart, thenStart);
      return k, vm;
    }
    var j, mid := CondCorrect(p, env, s.cond, vm, st, thenStart, thenStart);
    if GeneratedRoute(s.cond, st.vars) == Fall {
      mid := JumpAfter(p, env, vm, st, j, mid, elseStart);
      j := j + 1;
      k, out := BlockCorrect(p, env, fuel, s.elseBody, inLoop, mid, st, exit);
      Prepend(p, env, vm, j, mid, ExecBlock(Generated, fuel, s.elseBody, st), end, exit, fuel, fuel, k, out);
      k := j + k;
    } else {
      k, out := BlockCorrect(p, env, fuel, s.thenBody, inLoop, mid, st, exit);
      var o := ExecBlock(Generated, fuel, s.thenBody, st);
      Prepend(p, env, vm, j, mid, o, elseStart - 1, exit, fuel, fuel, k, out);
      k := j + k;
      if o.Normal? {
        out := JumpAfter(p, env, vm, o.st, k, out, end);
        k := k + 1;
      }
    }
  }

  // ----- WHILE -----

  lemma SplitWhile(p: Program, env: Env, s: Stmt, inLoop: bool, vm: Vm, st: State, exit: nat)
    requires StmtReady(p, env, s, inLoop, vm, st, exit) && s.While?
    ensures var bodyStart := vm.ip + CondSize(env, s.cond) + 1;
            var bodyEnd := bodyStart + BlockSize(env, s.body);
            && CondReady(p, env, s.cond, vm, st, bodyStart, 0)
            && BlockVerdict(env, s.body, true) == Accepted
            && vm.ip + StmtSize(env, s) == bodyEnd + 1
            && bodyStart <= bodyEnd < |p| && p[bodyStart - 1] == JumpTo(bodyEnd + 1) && p[bodyEnd] == JumpTo(vm.ip)
            && CodeAt(p, bodyStart, BlockCode(env, s.body, bodyStart, bodyEnd + 1))
  {
    hide Run, Matches, ValidEnv, CondCode, CondSize, CondVerdict, BlockCode, BlockSize, BlockVerdict, CodeAt;
    var bodyStart := vm.ip + CondSize(env, s.cond) + 1;
    var bodyEnd := bodyStart + BlockSize(env, s.body);
    var c := CondCode(env, s.cond, vm.ip, bodyStart, 0);
    var b := BlockCode(env, s.body, bodyStart, bodyEnd + 1);
    CodeBound(p, vm.ip, StmtCode(env, s, vm.ip, exit));
    assert StmtCode(env, s, vm.ip, exit) == c + [JumpTo(bodyEnd + 1)] + b + [JumpTo(vm.ip)];
    CodeSplit(p, vm.ip, c + [JumpTo(bodyEnd + 1)] + b, [JumpTo(vm.ip)]);
    CodeSplit3(p, vm.ip, c, [JumpTo(bodyEnd + 1)], b);
    InstructionAt(p, bodyStart - 1, [JumpTo(bodyEnd + 1)], 0);
    InstructionAt(p, bodyEnd, [JumpTo(vm.ip)], 0);
  }

  lemma {:induction false} WhileCorrect(p: Program, env: Env, fuel: nat, s: Stmt, inLoop: bool, vm: Vm, st: State, exit: nat)
    returns (k: nat, out: Vm)
    requires StmtReady(p, env, s, inLoop, vm, st, exit) && s.While?
    ensures Simulates(p, env, vm, Exec(Generated, fuel, s, st), vm.ip + StmtSize(env, s), exit, fuel, k, out)
    decreases fuel, s, 1
  {
    hide Run, Matches, ValidEnv, CodeAt, StmtCode, StmtSize, StmtVerdict, BlockCode, BlockSize, BlockVerdict, CondCode, CondSize, CondVerdict, GeneratedRoute, Exec, ExecBlock, DintStmt, DintBlock, Condition, CondAborts, FaultsAfter;
    SplitWhile(p, env, s, inLoop, vm, st, exit);
    if fuel == 0 {
      ZeroFuel(s, st);
      ReachesZero(p, vm);
      return 0, vm;
    }
    WhileUnfold(fuel, s, st);
    var bodyStart := vm.ip + CondSize(env, s.cond) + 1;
    var bodyEnd := bodyStart + BlockSize(env, s.body);
    if CondAborts(Generated, s.cond, st.vars) {
      k := CondFaults(p, env, s.cond, vm, st, bodyStart, 0);
      return k, vm;
    }
    k, out := CondCorrect(p, env, s.cond, vm, st, bodyStart, 0);
    match GeneratedRoute(s.cond, st.vars)
    case Fall =>
      out := JumpAfter(p, env, vm, st, k, out, bodyEnd + 1);
      k := k + 1;
    case Other =>
    case Yes =>
      var j, mid := k, out;
      k, out := BlockCorrect(p, env, fuel, s.body, true, mid, st, bodyEnd + 1);
      var o := ExecBlock(Generated, fuel, s.body, st);
      Prepend(p, env, vm, j, mid, o, bodyEnd, bodyEnd + 1, fuel, fuel, k, out);
      k := j + k;
      if o.Normal? {
        mid := JumpAfter(p, env, vm, o.st, k, out, vm.ip);
        j := k + 1;
        k, out := StmtCorrect(p, env, fuel - 1, s, inLoop, mid, o.st, exit);
        Prepend(p, env, vm, j, mid, Exec(Generated, fuel - 1, s, o.st), bodyEnd + 1, exit, fuel, fuel - 1, k, out);
        k := j + k;
      }
  }

  // ----- REPEAT -----

  lemma SplitRepeat(p: Program, env: Env, s: Stmt, inLoop: bool, vm: Vm, st: State, exit: nat)
    requires StmtReady(p, env, s, inLoop, vm, st, exit) && s.Repeat?
    ensures var mid := vm.ip + BlockSize(env, s.body);
            var end := mid + CondSize(env, s.cond) + 1;
            && BlockReady(p, env, s.body, true, vm, st, end)
            && CondVerdict(env, s.cond) == Accepted
            && vm.ip + StmtSize(env, s) == end
            && CodeAt(p, mid, CondCode(env, s.cond, mid, end, 0))
            && end - 1 < |p| && p[end - 1] == JumpTo(vm.ip)
  {
    hide Run, Matches, ValidEnv, CondCode, CondSize, CondVerdict, BlockCode, BlockSize, BlockVerdict;
    var mid := vm.ip + BlockSize(env, s.body);
    var end := mid + CondSize(env, s.cond) + 1;
    var b := BlockCode(env, s.body, vm.ip, end);
    var c := CondCode(env, s.cond, mid, end, 0);
    CodeSplit(p, vm.ip, b + c, [JumpTo(vm.ip)]);
    CodeSplit(p, vm.ip, b, c);
    InstructionAt(p, end - 1, [JumpTo(vm.ip)], 0);
  }

  lemma {:induction false} RepeatCorrect(p: Program, env: Env, fuel: nat, s: Stmt, inLoop: bool, vm: Vm, st: State, exit: nat)
    returns (k: nat, out: Vm)
    requires StmtReady(p, env, s, inLoop, vm, st, exit) && s.Repeat?
    ensures Simulates(p, env, vm, Exec(Generated, fuel, s, st), vm.ip + StmtSize(env, s), exit, fuel, k, out)
    decreases fuel, s, 1
  {
    hide Run, Matches, ValidEnv, CodeAt, StmtCode, StmtSize, StmtVerdict, BlockCode, BlockSize, BlockVerdict, CondCode, CondSize, CondVerdict, GeneratedRoute, Exec, ExecBlock, DintStmt, DintBlock, Condition, CondAborts, FaultsAfter;
    SplitRepeat(p, env, s, inLoop, vm, st, exit);
    if fuel == 0 {
      ZeroFuel(s, st);
      ReachesZero(p, vm);
      return 0, vm;
    }
    RepeatUnfold(fuel, s, st);
    var end := vm.ip + StmtSize(env, s);
    k, out := BlockCorrect(p, env, fuel, s.body, true, vm, st, end);
    var o := ExecBlock(Generated, fuel, s.body, st);
    if o.Normal? {
      if CondAborts(Generated, s.cond, o.st.vars) {
        var f := CondFaults(p, env, s.cond, out, o.st, end, 0);
        FaultsLater(p, vm, k, out, f);
        return k + f, vm;
      }
      var j, mid := CondCorrect(p, env, s.cond, out, o.st, end, 0);
      ReachesTrans(p, vm, k, out, j, mid);
      k, out := k + j, mid;
      if GeneratedRoute(s.cond, o.st.vars) == Fall {
        mid := JumpAfter(p, env, vm, o.st, k, out, vm.ip);
        j := k + 1;
        k, out := StmtCorrect(p, env, fuel - 1, s, inLoop, mid, o.st, exit);
        Prepend(p, env, vm, j, mid, Exec(Generated, fuel - 1, s, o.st), end, exit, fuel, fuel - 1, k, out);
        k := j + k;
      }
    }
  }

  // ----- FOR -----

  ghost predicate ForAccepted(env: Env, s: Stmt)
    requires s.For?
  {
    && s.variable in env.registers && RegOf(env, s.variable) < MAX_VAR_REGS
    && ExprVerdict(env, s.start, 0) == Accepted && ExprVerdict(env, s.end, 1) == Accepted
    && BlockVerdict(env, s.body, true) == Accepted
    && (s.step.Some? ==> ExprVerdict(env, s.step.value, 1) == Accepted)
  }

  /** Where the pieces of a FOR statement compiled at `base` are. */
  ghost predicate ForPlaces(p: Program, env: Env, s: Stmt, base: nat)
    requires s.For?
  {
    var r := RegOf(env, s.variable);
    var loop := base + ExprSize(env, s.start, r, 0);
    var test := loop + ExprSize(env, s.end, Scratch(0), 1);
    var bodyStart := test + 2;
    var bodyEnd := bodyStart + BlockSize(env, s.body);
    var add := bodyEnd + StepSize(env, s.step);
    && base + StmtSize(env, s) == add + 2 <= |p|
    && CodeAt(p, base, ExprCode(env, s.start, r, 0, base))
    && CodeAt(p, loop, ExprCode(env, s.end, Scratch(0), 1, loop))
    && p[test] == Regs2(Gt, r, Scratch(0)) && p[test + 1] == JumpIfTo(add + 2)
    && CodeAt(p, bodyStart, BlockCode(env, s.body, bodyStart, add + 2))
    && CodeAt(p, bodyEnd, StepCode(env, s.step, bodyEnd))
    && p[add] == Arith3(Add, r, Scratch(0), r) && p[add + 1] == JumpTo(loop)
  }

  ghost predicate ForLayout(p: Program, env: Env, s: Stmt, base: nat)
    requires s.For?
  {
    ForAccepted(env, s) && ForPlaces(p, env, s, base) && |p| < TWO_32
  }

  lemma SplitFor(p: Program, env: Env, s: Stmt, inLoop: bool, vm: Vm, st: State, exit: nat)
    requires StmtReady(p, env, s, inLoop, vm, st, exit) && s.For?
    ensures ForLayout(p, env, s, vm.ip) && Ready(p, env, s.start, env.registers[s.variable], 0, vm, st)
  {
    hide Run, CodeAt, StmtCode, StmtSize, Matches, ForPlaces, ExprCode, ExprSize, ExprVerdict;
    PlaceFor(p, env, s, vm.ip, exit);
    PlaceForStart(p, env, s, vm.ip);
  }

  lemma PlaceForStart(p: Program, env: Env, s: Stmt, base: nat)
    requires s.For? && ForPlaces(p, env, s, base)
    ensures CodeAt(p, base, ExprCode(env, s.start, RegOf(env, s.variable), 0, base))
  {
  }

  lemma ForShape(env: Env, s: Stmt, base: nat, exit: nat, r: u8, loop: nat, bodyStart: nat, bodyEnd: nat, add: nat)
    requires s.For? && r == RegOf(env, s.variable) && loop == base + ExprSize(env, s.start, r, 0)
    requires bodyStart == loop + ExprSize(env, s.end, Scratch(0), 1) + 2 && bodyEnd == bodyStart + BlockSize(env, s.body)
    requires add == bodyEnd + StepSize(env, s.step)
    ensures base + StmtSize(env, s) == add + 2
    ensures StmtCode(env, s, base, exit)
         == ExprCode(env, s.start, r, 0, base) + ExprCode(env, s.end, Scratch(0), 1, loop) + [Regs2(Gt, r, Scratch(0)), JumpIfTo(add + 2)]
            + BlockCode(env, s.body, bodyStart, add + 2) + StepCode(env, s.step, bodyEnd) + [Arith3(Add, r, Scratch(0), r), JumpTo(loop)]
  {
    hide ExprCode, ExprSize, BlockCode, BlockSize, StepCode, StepSize, RegOf, Scratch, Regs2, JumpIfTo, JumpTo, Arith3;
  }

  lemma PlaceFor(p: Program, env: Env, s: Stmt, base: nat, exit: nat)
    requires s.For? && CodeAt(p, base, StmtCode(env, s, base, exit))
    ensures ForPlaces(p, env, s, base)
  {
    hide CodeAt, ExprCode, ExprSize, BlockCode, BlockSize, StepCode, StepSize, RegOf, StmtCode, StmtSize, Scratch, Regs2, JumpIfTo, JumpTo, Arith3;
    var r := RegOf(env, s.variable);
    var loop := base + ExprSize(env, s.start, r, 0);
    var test := loop + ExprSize(env, s.end, Scratch(0), 1);
    var bodyStart := test + 2;
    var bodyEnd := bodyStart + BlockSize(env, s.body);
    var add := bodyEnd + StepSize(env, s.step);
    var c0 := ExprCode(env, s.start, r, 0, base);
    var c1 := ExprCode(env, s.end, Scratch(0), 1, loop);
    var t := [Regs2(Gt, r, Scratch(0)), JumpIfTo(add + 2)];
    var b := BlockCode(env, s.body, bodyStart, add + 2);
    var c2 := StepCode(env, s.step, bodyEnd);
    var u := [Arith3(Add, r, Scratch(0), r), JumpTo(loop)];
    ForShape(env, s, base, exit, r, loop, bodyStart, bodyEnd, add);
    CodeBound(p, base, StmtCode(env, s, base, exit));
    CodeSplit(p, base, c0 + c1 + t + b + c2, u);
    CodeSplit5(p, base, c0, c1, t, b, c2);
    InstructionAt(p, test, t, 0);
    InstructionAt(p, test, t, 1);
    InstructionAt(p, add, u, 0);
    InstructionAt(p, add, u, 1);
  }

  lemma VariableValue(env: Env, st: State, vm: Vm, x: string)
    requires ValidEnv(env) && Matches(env, st, vm) && x in env.registers
    ensures RegOf(env, x) == env.registers[x] < MAX_VAR_REGS && vm.regs[env.registers[x]] == S32(Lookup(st.vars, x))
  {
    hide Run;
  }

  /** Evaluate the limit, compare, and leave the loop when the variable exceeds it. */
  lemma ForTest(p: Program, env: Env, s: Stmt, base: nat, vm: Vm, st: State) returns (k: nat, out: Vm)
    requires DintEnv(env) && s.For? && DintStmt(s) && Matches(env, st, vm) && ForLayout(p, env, s, base)
    requires vm.ip == base + ExprSize(env, s.start, RegOf(env, s.variable), 0) && !ForTestAborts(Generated, s, st.vars)
    ensures k > 0 && Reaches(p, vm, k, out) && Matches(env, st, out)
    ensures out.ip == if ForDone(Generated, s, st.vars) then base + StmtSize(env, s)
                      else vm.ip + ExprSize(env, s.end, Scratch(0), 1) + 2
  {
    hide Run, Eval, Aborts, ExprCode, ExprSize, ExprVerdict, BlockCode, BlockSize, BlockVerdict, StepCode, CodeAt, StmtSize, Matches, ValidEnv;
    var r := RegOf(env, s.variable);
    var test := ExprSize(env, s.end, Scratch(0), 1);
    var vm1 := ScratchCorrect(p, env, s.end, Scratch(0), 1, vm, st);
    VariableValue(env, st, vm1, s.variable);
    var flag := Compare(CmpGt, vm1.regs[r], vm1.regs[Scratch(0)]);
    CompareDint(CmpGt, Lookup(st.vars, s.variable), Eval(s.end, st.vars));
    StepCompare(p, vm1, OpGt, r, Scratch(0));
    var vm2 := AdvanceIp(vm1.(flag := flag));
    ReachesTrans(p, vm, test, vm1, 1, vm2);
    StepJumpIf(p, vm2, base + StmtSize(env, s));
    out := vm2.(ip := if flag then base + StmtSize(env, s) else vm2.ip + 1);
    ReachesTrans(p, vm, test + 1, vm2, 1, out);
    k := test + 2;
    MatchesAnyFlag(env, st, vm1, flag);
    MatchesAnyIp(env, st, vm1.(flag := flag), out.ip);
  }

  /** Evaluate the step, add it to the variable, and jump back. */
  lemma ForAdvance(p: Program, env: Env, s: Stmt, base: nat, vm: Vm, st: State) returns (k: nat, out: Vm)
    requires DintEnv(env) && s.For? && DintStmt(s) && Matches(env, st, vm) && ForLayout(p, env, s, base)
    requires vm.ip == base + ExprSize(env, s.start, RegOf(env, s.variable), 0) + ExprSize(env, s.end, Scratch(0), 1) + 2 + BlockSize(env, s.body)
    requires !StepAborts(s.step, st.vars)
    ensures Reaches(p, vm, k, out)
    ensures Matches(env, NextTurn(s, st), out)
    ensures out.ip == base + ExprSize(env, s.start, RegOf(env, s.variable), 0)
  {
    hide Run, Eval, Aborts, ExprCode, ExprSize, ExprVerdict, BlockCode, BlockSize, BlockVerdict, CodeAt, StmtSize, Op32, Matches, ValidEnv;
    var r := RegOf(env, s.variable);
    k := StepSize(env, s.step);
    var vm1;
    if s.step.Some? {
      vm1 := ScratchCorrect(p, env, s.step.value, Scratch(0), 1, vm, st);
    } else {
      InstructionAt(p, vm.ip, [LoadImm(Scratch(0), S32(1))], 0);
      StepLoadImm(p, vm, Scratch(0), S32(1));
      vm1 := AdvanceIp(SetReg(vm, Scratch(0), S32(1)));
      MatchesUndisturbed(env, st, vm, vm1, Scratch(0), 1);
    }
    VariableValue(env, st, vm1, s.variable);
    StepArith(p, vm1, OpAdd, r, Scratch(0), r);
    var v := Op32(Plus, vm1.regs[r].s32, vm1.regs[Scratch(0)].s32);
    var vm2 := AdvanceIp(SetReg(vm1, r, S32(v)));
    ReachesTrans(p, vm, k, vm1, 1, vm2);
    MatchesUpdated(env, st, vm1, vm2, s.variable, v, 0);
    out := JumpAfter(p, env, vm, Update(st, s.variable, v), k + 1, vm2, base + ExprSize(env, s.start, r, 0));
    k := k + 2;
  }

  lemma ForTestFaults(p: Program, env: Env, s: Stmt, base: nat, vm: Vm, st: State) returns (k: nat)
    requires DintEnv(env) && s.For? && DintStmt(s) && Matches(env, st, vm) && ForLayout(p, env, s, base)
    requires vm.ip == base + ExprSize(env, s.start, RegOf(env, s.variable), 0) && ForTestAborts(Generated, s, st.vars)
    ensures FaultsAfter(p, vm, k)
  {
    hide Run, Eval, Aborts, ExprCode, ExprSize, ExprVerdict, BlockCode, BlockSize, BlockVerdict, StepCode, CodeAt, StmtSize, Matches, ValidEnv, FaultsAfter;
    k := ScratchFaults(p, env, s.end, Scratch(0), 1, vm, st);
  }

  lemma ForStepFaults(p: Program, env: Env, s: Stmt, base: nat, vm: Vm, st: State) returns (k: nat)
    requires DintEnv(env) && s.For? && DintStmt(s) && Matches(env, st, vm) && ForLayout(p, env, s, base)
    requires vm.ip == base + ExprSize(env, s.start, RegOf(env, s.variable), 0) + ExprSize(env, s.end, Scratch(0), 1) + 2 + BlockSize(env, s.body)
    requires StepAborts(s.step, st.vars)
    ensures FaultsAfter(p, vm, k)
  {
    hide Run, Eval, Aborts, ExprCode, ExprSize, ExprVerdict, BlockCode, BlockSize, BlockVerdict, CodeAt, StmtSize, Matches, ValidEnv, FaultsAfter;
    k := ScratchFaults(p, env, s.step.value, Scratch(0), 1, vm, st);
  }

  /** The parts of the layout that the loop itself needs. */
  lemma ForParts(p: Program, env: Env, s: Stmt, base: nat)
    requires s.For? && ForLayout(p, env, s, base)
    ensures var bodyStart := base + ExprSize(env, s.start, RegOf(env, s.variable), 0) + ExprSize(env, s.end, Scratch(0), 1) + 2;
            && BlockVerdict(env, s.body, true) == Accepted && |p| < TWO_32 && base + StmtSize(env, s) <= |p|
            && CodeAt(p, bodyStart, BlockCode(env, s.body, bodyStart, base + StmtSize(env, s)))
  {
    hide ExprCode, ExprSize, ExprVerdict, BlockCode, BlockSize, BlockVerdict, CodeAt, StmtSize;
  }

  lemma {:induction false} ForCorrect(p: Program, env: Env, fuel: nat, s: Stmt, base: nat, vm: Vm, st: State, exit: nat)
    returns (k: nat, out: Vm)
    requires DintEnv(env) && s.For? && DintStmt(s) && Matches(env, st, vm) && ForLayout(p, env, s, base)
    requires vm.ip == base + ExprSize(env, s.start, RegOf(env, s.variable), 0)
    ensures Simulates(p, env, vm, ExecFor(Generated, fuel, s, st), base + StmtSize(env, s), exit, fuel, k, out)
    decreases fuel, s, 0
  {
    hide Run, Matches, ValidEnv, CodeAt, StmtCode, StmtSize, StmtVerdict, BlockCode, BlockSize, BlockVerdict, ExprCode, ExprSize, ExprVerdict, Eval, Op32, FaultsAfter, ForDone, ForTestAborts, StepAborts, NextTurn, ForLayout;
    if fuel == 0 {
      ReachesZero(p, vm);
      return 0, vm;
    }
    var end := base + StmtSize(env, s);
    ForParts(p, env, s, base);
    if ForTestAborts(Generated, s, st.vars) {
      k := ForTestFaults(p, env, s, base, vm, st);
      return k, vm;
    }
    k, out := ForTest(p, env, s, base, vm, st);
    if !ForDone(Generated, s, st.vars) {
      var j, mid := k, out;
      k, out := BlockCorrect(p, env, fuel, s.body, true, mid, st, end);
      var o := ExecBlock(Generated, fuel, s.body, st);
      Prepend(p, env, vm, j, mid, o, mid.ip + BlockSize(env, s.body), end, fuel, fuel, k, out);
      k := j + k;
      if o.Normal? {
        if StepAborts(s.step, o.st.vars) {
          var f := ForStepFaults(p, env, s, base, out, o.st);
          FaultsLater(p, vm, k, out, f);
          return k + f, vm;
        }
        j, mid := ForAdvance(p, env, s, base, out, o.st);
        ReachesTrans(p, vm, k, out, j, mid);
        j := k + j;
        var st' := NextTurn(s, o.st);
        k, out := ForCorrect(p, env, fuel - 1, s, base, mid, st', exit);
        Prepend(p, env, vm, j, mid, ExecFor(Generated, fuel - 1, s, st'), end, exit, fuel, fuel - 1, k, out);
        k := j + k;
      }
    }
  }

  lemma {:induction false} ForStart(p: Program, env: Env, fuel: nat, s: Stmt, inLoop: bool, vm: Vm, st: State, exit: nat)
    returns (k: nat, out: Vm)
    requires StmtReady(p, env, s, inLoop, vm, st, exit) && s.For?
    ensures Simulates(p, env, vm, Exec(Generated, fuel, s, st), vm.ip + StmtSize(env, s), exit, fuel, k, out)
    decreases fuel, s, 1
  {
    hide Run, Matches, ValidEnv, CodeAt, StmtCode, StmtSize, StmtVerdict, ExprCode, ExprSize, ExprVerdict, BlockCode, BlockSize, BlockVerdict, EvalInPlace, AbortsInPlace, FaultsAfter;
    SplitFor(p, env, s, inLoop, vm, st, exit);
    var x := s.variable;
    if AbortsInPlace(s.start, x, st.vars) {
      k := InPlaceFaults(p, env, s.start, x, 0, vm, st);
      return k, vm;
    }
    var mid := InPlaceCorrect(p, env, s.start, x, 0, vm, st);
    k, out := ForCorrect(p, env, fuel, s, vm.ip, mid, Update(st, x, EvalInPlace(s.start, x, st.vars)), exit);
    var j := ExprSize(env, s.start, env.registers[x], 0);
    Prepend(p, env, vm, j, mid, Exec(Generated, fuel, s, st), vm.ip + StmtSize(env, s), exit, fuel, fuel, k, out);
    k := j + k;
  }

  // ----- CASE -----

  /** The label tests of one branch jump to its body exactly when the selector is among the labels. */
  lemma {:induction false} LabelTestsCorrect(p: Program, env: Env, r: u8, v: i32, vs: seq<int>, body: nat, vm: Vm, st: State)
    returns (k: nat, out: Vm)
    requires DintEnv(env) && Matches(env, st, vm) && r < MAX_VAR_REGS && vm.regs[r] == S32(v)
    requires CodeAt(p, vm.ip, LabelTests(r, vs, body)) && body < TWO_32
    ensures Reaches(p, vm, k, out) && Matches(env, st, out) && out.regs[r] == S32(v)
    ensures out.ip == if Labelled(vs, v) then body else vm.ip + 3 * |vs|
    decreases |vs|
  {
    hide Run, CodeAt, WrapS32;
    if vs == [] {
      ReachesZero(p, vm);
      return 0, vm;
    }
    var test := [LoadImm(Scratch(0), S32(WrapS32(vs[0]))), Regs2(Eq, r, Scratch(0)), JumpIfTo(body)];
    CodeSplit(p, vm.ip, test, LabelTests(r, vs[1..], body));
    k := 3;
    out := TestLabel(p, env, r, v, vs[0], body, vm, st);
    LabelledStep(vs, v);
    if WrapS32(vs[0]) != v {
      var j, mid := LabelTestsCorrect(p, env, r, v, vs[1..], body, out, st);
      ReachesTrans(p, vm, k, out, j, mid);
      k, out := k + j, mid;
    }
  }

  lemma LabelledStep(vs: seq<int>, v: i32)
    requires vs != []
    ensures Labelled(vs, v) <==> WrapS32(vs[0]) == v || Labelled(vs[1..], v)
  {
    hide WrapS32;
    if Labelled(vs, v) && WrapS32(vs[0]) != v {
      var i :| 0 <= i < |vs| && WrapS32(vs[i]) == v;
      assert vs[1..][i - 1] == vs[i];
    }
    if Labelled(vs[1..], v) {
      var i :| 0 <= i < |vs[1..]| && WrapS32(vs[1..][i]) == v;
      assert vs[i + 1] == vs[1..][i];
    }
  }

  lemma TestLabel(p: Program, env: Env, r: u8, v: i32, n: int, body: nat, vm: Vm, st: State) returns (out: Vm)
    requires DintEnv(env) && Matches(env, st, vm) && r < MAX_VAR_REGS && vm.regs[r] == S32(v) && body < TWO_32
    requires CodeAt(p, vm.ip, [LoadImm(Scratch(0), S32(WrapS32(n))), Regs2(Eq, r, Scratch(0)), JumpIfTo(body)])
    ensures Reaches(p, vm, 3, out) && Matches(env, st, out) && out.regs[r] == S32(v)
    ensures out.ip == if WrapS32(n) == v then body else vm.ip + 3
  {
    hide Run, CodeAt, WrapS32, Matches;
    var code := [LoadImm(Scratch(0), S32(WrapS32(n))), Regs2(Eq, r, Scratch(0)), JumpIfTo(body)];
    InstructionAt(p, vm.ip, code, 0);
    InstructionAt(p, vm.ip, code, 1);
    InstructionAt(p, vm.ip, code, 2);
    StepLoadImm(p, vm, Scratch(0), S32(WrapS32(n)));
    var vm1 := AdvanceIp(SetReg(vm, Scratch(0), S32(WrapS32(n))));
    StepCompare(p, vm1, OpEq, r, Scratch(0));
    var vm2 := AdvanceIp(vm1.(flag := WrapS32(n) == v));
    ReachesTrans(p, vm, 1, vm1, 1, vm2);
    StepJumpIf(p, vm2, body);
    out := vm2.(ip := if vm2.flag then body else vm2.ip + 1);
    ReachesTrans(p, vm, 2, vm2, 1, out);
    MatchesUndisturbed(env, st, vm, out, Scratch(0), 1);
  }

  lemma SelectorReady(p: Program, env: Env, s: Stmt, inLoop: bool, vm: Vm, st: State, exit: nat)
    requires StmtReady(p, env, s, inLoop, vm, st, exit) && s.Case?
    ensures s.variable in env.registers && env.registers[s.variable] < MAX_VAR_REGS
    ensures vm.regs[env.registers[s.variable]] == S32(Lookup(st.vars, s.variable))
    ensures CasesReady(p, env, env.registers[s.variable], s.cases, inLoop, vm, st, vm.ip + StmtSize(env, s), exit)
  {
    hide Run, CasesCode, CasesVerdict, CasesSize;
  }

  lemma SplitBranch(p: Program, env: Env, r: u8, cs: Cases, inLoop: bool, vm: Vm, st: State, end: nat, exit: nat)
    requires CasesReady(p, env, r, cs, inLoop, vm, st, end, exit) && cs.Branch?
    ensures var bodyStart := vm.ip + 3 * |cs.values| + 1;
            var next := bodyStart + BlockSize(env, cs.body) + 1;
            && CodeAt(p, vm.ip, LabelTests(r, cs.values, bodyStart))
            && BlockVerdict(env, cs.body, inLoop) == Accepted && CasesVerdict(env, cs.rest, inLoop) == Accepted
            && next - 1 < |p| && p[bodyStart - 1] == JumpTo(next) && p[next - 1] == JumpTo(end)
            && CodeAt(p, bodyStart, BlockCode(env, cs.body, bodyStart, exit))
            && CodeAt(p, next, CasesCode(env, r, cs.rest, next, end, exit))
            && CasesSize(env, cs) == next - vm.ip + CasesSize(env, cs.rest)
  {
    hide Run, Matches, ValidEnv, BlockCode, BlockSize, BlockVerdict, LabelTests, CodeAt;
    var bodyStart := vm.ip + 3 * |cs.values| + 1;
    var next := bodyStart + BlockSize(env, cs.body) + 1;
    var t := LabelTests(r, cs.values, bodyStart);
    var b := BlockCode(env, cs.body, bodyStart, exit);
    var rest := CasesCode(env, r, cs.rest, next, end, exit);
    CodeSplit5(p, vm.ip, t, [JumpTo(next)], b, [JumpTo(end)], rest);
    InstructionAt(p, bodyStart - 1, [JumpTo(next)], 0);
    InstructionAt(p, next - 1, [JumpTo(end)], 0);
  }

  lemma {:induction false} CasesCorrect(p: Program, env: Env, fuel: nat, r: u8, v: i32, cs: Cases, inLoop: bool, vm: Vm, st: State, end: nat, exit: nat)
    returns (k: nat, out: Vm)
    requires CasesReady(p, env, r, cs, inLoop, vm, st, end, exit)
    requires r < MAX_VAR_REGS && vm.regs[r] == S32(v) && end == vm.ip + CasesSize(env, cs)
    ensures Simulates(p, env, vm, ExecCases(Generated, fuel, v, cs, st), end, exit, fuel, k, out)
    decreases fuel, cs, 2
  {
    hide Run, Matches, ValidEnv, CodeAt, BlockCode, BlockSize, BlockVerdict, Labelled, LabelTests;
    if cs.Else? {
      k, out := BlockCorrect(p, env, fuel, cs.body, inLoop, vm, st, exit);
      return;
    }
    SplitBranch(p, env, r, cs, inLoop, vm, st, end, exit);
    var bodyStart := vm.ip + 3 * |cs.values| + 1;
    var next := bodyStart + BlockSize(env, cs.body) + 1;
    var j, mid := LabelTestsCorrect(p, env, r, v, cs.values, bodyStart, vm, st);
    if Labelled(cs.values, v) {
      k, out := BlockCorrect(p, env, fuel, cs.body, inLoop, mid, st, exit);
      var o := ExecBlock(Generated, fuel, cs.body, st);
      Prepend(p, env, vm, j, mid, o, next - 1, exit, fuel, fuel, k, out);
      k := j + k;
      if o.Normal? {
        out := JumpAfter(p, env, vm, o.st, k, out, end);
        k := k + 1;
      }
    } else {
      mid := JumpAfter(p, env, vm, st, j, mid, next);
      j := j + 1;
      k, out := CasesCorrect(p, env, fuel, r, v, cs.rest, inLoop, mid, st, end, exit);
      Prepend(p, env, vm, j, mid, ExecCases(Generated, fuel, v, cs.rest, st), end, exit, fuel, fuel, k, out);
      k := j + k;
    }
  }
}
