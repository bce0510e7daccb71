/**
 The compiler theorem for whole Structured Text programs over DINT variables:
 the machine halts exactly when the program terminates, with the program's final
 values in its registers and in the signal table, and it aborts exactly when a
 division of the program overflows.
 */
module StProgram {
  import opened Values
  import opened Machine
  import opened Runs
  import opened StSyntax
  import opened StCode
  import opened StSemantics
  import opened StExprCorrect
  import opened StCorrect

  // ----- an accepted program has no EXIT outside a loop -----

  lemma {:induction false} NoStrayExit(env: Env, m: Meaning, fuel: nat, s: Stmt, st: State)
    requires DintStmt(s) && StmtVerdict(env, s, false) == Accepted
    ensures !Exec(m, fuel, s, st).Exited?
    decreases fuel, s
  {
    hide CondVerdict, ExprVerdict, CheckCondition, CheckAssign, GeneratedRoute, Holds, Eval, EvalInPlace, Aborts, AbortsInPlace, CondAborts;
    match s
    case If(_, t, f) =>
      NoStrayExitBlock(env, m, fuel, t, st);
      NoStrayExitBlock(env, m, fuel, f, st);
    case Case(x, cs) =>
      NoStrayExitCases(env, m, fuel, Lookup(st.vars, x), cs, st);
    case While(c, b) =>
      if fuel > 0 && RouteOf(m, c, st.vars) == Yes && ExecBlock(m, fuel, b, st).Normal? {
        NoStrayExit(env, m, fuel - 1, s, ExecBlock(m, fuel, b, st).st);
      }
    case Repeat(b, c) =>
      if fuel > 0 && ExecBlock(m, fuel, b, st).Normal? {
        NoStrayExit(env, m, fuel - 1, s, ExecBlock(m, fuel, b, st).st);
      }
    case For(x, start, _, _, _) =>
      NoStrayExitFor(m, fuel, s, Update(st, x, AssignedValue(m, start, x, st.vars)));
    case _ =>
  }

  lemma {:induction false} NoStrayExitFor(m: Meaning, fuel: nat, s: Stmt, st: State)
    requires s.For? && DintStmt(s)
    ensures !ExecFor(m, fuel, s, st).Exited?
    decreases fuel
  {
    if fuel > 0 && ExecBlock(m, fuel, s.body, st).Normal? {
      NoStrayExitFor(m, fuel - 1, s, NextTurn(s, ExecBlock(m, fuel, s.body, st).st));
    }
  }

  lemma {:induction false} NoStrayExitBlock(env: Env, m: Meaning, fuel: nat, b: Block, st: State)
    requires DintBlock(b) && BlockVerdict(env, b, false) == Accepted
    ensures !ExecBlock(m, fuel, b, st).Exited?
    decreases fuel, b
  {
    if b.Cons? {
      NoStrayExit(env, m, fuel, b.head, st);
      if Exec(m, fuel, b.head, st).Normal? {
        NoStrayExitBlock(env, m, fuel, b.tail, Exec(m, fuel, b.head, st).st);
      }
    }
  }

  lemma {:induction false} NoStrayExitCases(env: Env, m: Meaning, fuel: nat, v: i32, cs: Cases, st: State)
    requires DintCases(cs) && CasesVerdict(env, cs, false) == Accepted
    ensures !ExecCases(m, fuel, v, cs, st).Exited?
    decreases fuel, cs
  {
    NoStrayExitBlock(env, m, fuel, cs.body, st);
    if cs.Branch? {
      NoStrayExitCases(env, m, fuel, v, cs.rest, st);
    }
  }

  // ----- an accepted program assigns declared variables only -----

  lemma {:induction false} AcceptedDeclares(env: Env, s: Stmt, inLoop: bool)
    requires StmtVerdict(env, s, inLoop) == Accepted
    ensures Declared(s, env.registers.Keys)
    decreases s
  {
    match s
    case If(_, t, f) =>
      AcceptedDeclaresBlock(env, t, inLoop);
      AcceptedDeclaresBlock(env, f, inLoop);
    case While(_, b) => AcceptedDeclaresBlock(env, b, true);
    case For(_, _, _, _, b) => AcceptedDeclaresBlock(env, b, true);
    case Case(_, cs) => AcceptedDeclaresCases(env, cs, inLoop);
    case Repeat(b, _) => AcceptedDeclaresBlock(env, b, true);
    case _ =>
  }

  lemma {:induction false} AcceptedDeclaresBlock(env: Env, b: Block, inLoop: bool)
    requires BlockVerdict(env, b, inLoop) == Accepted
    ensures DeclaredBlock(b, env.registers.Keys)
    decreases b
  {
    if b.Cons? {
      AcceptedDeclares(env, b.head, inLoop);
      AcceptedDeclaresBlock(env, b.tail, inLoop);
    }
  }

  lemma {:induction false} AcceptedDeclaresCases(env: Env, cs: Cases, inLoop: bool)
    requires CasesVerdict(env, cs, inLoop) == Accepted
    ensures DeclaredCases(cs, env.registers.Keys)
    decreases cs
  {
    AcceptedDeclaresBlock(env, cs.body, inLoop);
    if cs.Branch? {
      AcceptedDeclaresCases(env, cs.rest, inLoop);
    }
  }

  // ----- whole programs -----

  /** A program the compiler accepts, over DINT variables, short enough for its 32-bit jump targets. */
  ghost predicate Compiles(env: Env, body: Block) {
    && DintEnv(env) && DintBlock(body) && BlockVerdict(env, body, false) == Accepted
    && |ProgramCode(env, body)| < TWO_32
  }

  /** The machine before the first instruction, with the store in its registers. */
  ghost predicate Loaded(env: Env, vm: Vm, st: State)
    requires ValidEnv(env)
  {
    vm.ip == 0 && Matches(env, st, vm)
  }

  function InitialState(env: Env): State {
    State(map x | x in env.registers :: 0, map[])
  }

  lemma FreshMachineIsLoaded(env: Env, vm: Vm)
    requires ValidEnv(env)
    ensures Loaded(env, Reset(vm), InitialState(env)) && Loaded(env, NewVm(), InitialState(env))
  {
  }

  /** One pass of the machine over the whole program, for any bound on the loop iterations. */
  lemma {:induction false} ProgramCorrect(env: Env, body: Block, fuel: nat, vm: Vm, st: State) returns (k: nat, out: Vm)
    requires Compiles(env, body) && Loaded(env, vm, st)
    ensures match ExecProgram(Generated, fuel, body, st)
            case Returned(st') => Run(ProgramCode(env, body), vm, k) == Halted(out) && Matches(env, st', out)
            case Aborted => Run(ProgramCode(env, body), vm, k) == Faulted(DivisionOverflow)
            case Timeout => k >= fuel && Run(ProgramCode(env, body), vm, k) == Running(out)
            case _ => false
    decreases fuel
  {
    hide Run, Matches, ValidEnv, BlockCode, BlockVerdict, DintBlock;
    var p := ProgramCode(env, body);
    assert CodeAt(p, 0, BlockCode(env, body, 0, 0));
    k, out := BlockCorrect(p, env, fuel, body, false, vm, st, 0);
    var o := ExecBlock(Generated, fuel, body, st);
    NoStrayExitBlock(env, Generated, fuel, body, st);
    if o.Restarted? && fuel > 0 {
      var j, mid := k, out;
      k, out := ProgramCorrect(env, body, fuel - 1, mid, o.st);
      RunAppend(p, vm, j, mid, k);
      k := j + k;
    } else if o.Normal? || o.Returned? {
      HaltStep(p, out);
      RunAppend(p, vm, k, out, 1);
      MatchesAnyIp(env, o.st, out, out.ip + 1);
      k, out := k + 1, AdvanceIp(out);
    }
  }

  /** The machine's run settles in at most one way. */
  lemma SettlesOnce(p: Program, vm: Vm, j: nat, k: nat)
    requires !Run(p, vm, j).Running? && !Run(p, vm, k).Running?
    ensures Run(p, vm, j) == Run(p, vm, k)
  {
    hide Run;
    if j <= k {
      RunSettles(p, vm, j, k);
    } else {
      RunSettles(p, vm, k, j);
    }
  }

  /** Every run of a compiled program, of whatever length, is one the semantics accounts for. */
  lemma RunAccountedFor(env: Env, body: Block, k: nat, vm: Vm, st: State)
    requires Compiles(env, body) && Loaded(env, vm, st) && !Run(ProgramCode(env, body), vm, k).Running?
    ensures match Run(ProgramCode(env, body), vm, k)
            case Halted(out) =>
              ExecProgram(Generated, k + 1, body, st).Returned? && Matches(env, ExecProgram(Generated, k + 1, body, st).st, out)
            case Faulted(f) => ExecProgram(Generated, k + 1, body, st) == Aborted && f == DivisionOverflow
  {
    hide Run, Matches, ValidEnv, ProgramCode, ExecProgram, BlockVerdict, DintBlock;
    var p := ProgramCode(env, body);
    var j, out := ProgramCorrect(env, body, k + 1, vm, st);
    if ExecProgram(Generated, k + 1, body, st).Timeout? {
      RunSettles(p, vm, k, j);
      assert false;
    }
    SettlesOnce(p, vm, j, k);
  }

  /** A run of the compiled program aborts. */
  ghost predicate Faults(env: Env, body: Block, vm: Vm) { exists k: nat :: Run(ProgramCode(env, body), vm, k).Faulted? }

  ghost predicate AbortsProgram(m: Meaning, body: Block, st: State)
    requires DintBlock(body)
  {
    exists fuel: nat :: ExecProgram(m, fuel, body, st) == Aborted
  }

  /** The machine aborts exactly when the program does, by overflowing a division; no run of any
      length leaves the program or the register file. */
  lemma FaultsExactlyWhenAborted(env: Env, body: Block, vm: Vm, st: State)
    requires Compiles(env, body) && Loaded(env, vm, st)
    ensures Faults(env, body, vm) <==> AbortsProgram(Generated, body, st)
    ensures forall k: nat :: Run(ProgramCode(env, body), vm, k).Faulted? ==> Run(ProgramCode(env, body), vm, k).fault == DivisionOverflow
  {
    hide Run, Matches, ValidEnv, ProgramCode, ExecProgram, BlockVerdict, DintBlock;
    forall k: nat | Run(ProgramCode(env, body), vm, k).Faulted?
      ensures Run(ProgramCode(env, body), vm, k).fault == DivisionOverflow && AbortsProgram(Generated, body, st)
    {
      RunAccountedFor(env, body, k, vm, st);
    }
    if AbortsProgram(Generated, body, st) {
      var fuel: nat :| ExecProgram(Generated, fuel, body, st) == Aborted;
      var k, out := ProgramCorrect(env, body, fuel, vm, st);
      assert Run(ProgramCode(env, body), vm, k).Faulted?;
    }
  }

  /** A program that divides by literals other than -1 only never aborts the machine. */
  lemma NeverFaults(env: Env, body: Block, k: nat, vm: Vm, st: State)
    requires Compiles(env, body) && Loaded(env, vm, st) && DividesSafelyIn(body)
    ensures !Run(ProgramCode(env, body), vm, k).Faulted?
  {
    hide Run, Matches, ValidEnv, ProgramCode, ExecProgram, BlockVerdict, DintBlock, DividesSafelyIn;
    if Run(ProgramCode(env, body), vm, k).Faulted? {
      RunAccountedFor(env, body, k, vm, st);
      ProgramNeverAborts(Generated, k + 1, body, st);
      assert false;
    }
  }

  /** The failing input: y := x / z with the smallest DINT in x and -1 in z aborts the machine. */
  lemma QuotientFaults(env: Env, x: string, y: string, z: string, vm: Vm, st: State)
    requires y != z && Lookup(st.vars, x) == -0x8000_0000 && Lookup(st.vars, z) == -1
    requires var body := Cons(Assign(y, Binary(Variable(x), OpDiv, Variable(z))), Nil);
             Compiles(env, body) && Loaded(env, vm, st)
    ensures Faults(env, Cons(Assign(y, Binary(Variable(x), OpDiv, Variable(z))), Nil), vm)
  {
    hide *;
    var body := Cons(Assign(y, Binary(Variable(x), OpDiv, Variable(z))), Nil);
    QuotientAborts(x, y, z, 0, Generated, st);
    FaultsExactlyWhenAborted(env, body, vm, st);
    AbortedWithin(Generated, body, st, 0);
  }

  lemma AbortedWithin(m: Meaning, body: Block, st: State, fuel: nat)
    requires DintBlock(body) && ExecProgram(m, fuel, body, st) == Aborted
    ensures AbortsProgram(m, body, st)
  {
  }

  /** The machine halts on the compiled program with final store `st'` in registers and signals. */
  ghost predicate HaltsWith(env: Env, body: Block, vm: Vm, st': State)
    requires ValidEnv(env)
  {
    exists k: nat :: Run(ProgramCode(env, body), vm, k).Halted? && Matches(env, st', Run(ProgramCode(env, body), vm, k).vm)
  }

  ghost predicate TerminatesWith(m: Meaning, body: Block, st: State, st': State)
    requires DintBlock(body)
  {
    exists fuel: nat :: ExecProgram(m, fuel, body, st) == Returned(st')
  }

  /** The generated code does what its meaning says: same final states, same aborts, same divergence. */
  lemma GeneratedCodeExact(env: Env, body: Block, vm: Vm, st: State, st': State)
    requires Compiles(env, body) && Loaded(env, vm, st)
    ensures TerminatesWith(Generated, body, st, st') <==> HaltsWith(env, body, vm, st')
    ensures AbortsProgram(Generated, body, st) <==> Faults(env, body, vm)
  {
    FaultsExactlyWhenAborted(env, body, vm, st);
    hide Run, Matches, ValidEnv, ProgramCode, ExecProgram, BlockVerdict, DintBlock;
    var p := ProgramCode(env, body);
    if TerminatesWith(Generated, body, st, st') {
      var fuel: nat :| ExecProgram(Generated, fuel, body, st) == Returned(st');
      var k, out := ProgramCorrect(env, body, fuel, vm, st);
      assert Run(p, vm, k).Halted?;
    }
    if HaltsWith(env, body, vm, st') {
      var k: nat :| Run(p, vm, k).Halted? && Matches(env, st', Run(p, vm, k).vm);
      RunAccountedFor(env, body, k, vm, st);
      MatchesUnique(env, st', ExecProgram(Generated, k + 1, body, st).st, Run(p, vm, k).vm);
    }
  }

  lemma MatchesUnique(env: Env, a: State, b: State, vm: Vm)
    requires ValidEnv(env) && Matches(env, a, vm) && Matches(env, b, vm)
    ensures a == b
  {
    hide Run;
    forall x | x in env.registers
      ensures a.vars[x] == b.vars[x]
    {
      assert vm.regs[env.registers[x]] == S32(a.vars[x]);
    }
    assert a.vars == b.vars;
  }

  /** Compilation preserves the meaning of the language: a well-behaved program
      terminates with a final state exactly when its compiled code halts with it, and
      aborts exactly when the code does. */
  lemma CompilationPreservesMeaning(env: Env, body: Block, vm: Vm, st: State, st': State)
    requires Compiles(env, body) && WellBehavedBlock(body) && Loaded(env, vm, st)
    ensures TerminatesWith(Standard, body, st, st') <==> HaltsWith(env, body, vm, st')
    ensures AbortsProgram(Standard, body, st) <==> Faults(env, body, vm)
  {
    GeneratedCodeExact(env, body, vm, st, st');
    hide Run, ValidEnv, ProgramCode, ExecProgram, DintBlock, HaltsWith, Faults;
    AcceptedDeclaresBlock(env, body, false);
    forall fuel: nat
      ensures ExecProgram(Generated, fuel, body, st) == ExecProgram(Standard, fuel, body, st)
    {
      MeaningsAgree(fuel, body, st);
    }
  }

  // ----- compound loop conditions on the machine -----

  /** A program that starts with WHILE x > 0 OR y > 0 runs forever when neither is positive,
      although by the language it ends at once. */
  lemma CompoundLoopNeverHalts(env: Env, x: string, y: string, body: Block, vm: Vm, st: State, k: nat)
    requires Lookup(st.vars, x) <= 0 && Lookup(st.vars, y) <= 0 && DintBlock(body)
    requires Compiles(env, Cons(While(EitherPositive(x, y), body), Nil)) && Loaded(env, vm, st)
    ensures DintBlock(Cons(While(EitherPositive(x, y), body), Nil))
    ensures Run(ProgramCode(env, Cons(While(EitherPositive(x, y), body), Nil)), vm, k).Running?
    ensures TerminatesWith(Standard, Cons(While(EitherPositive(x, y), body), Nil), st, st)
  {
    hide *;
    var program := Cons(While(EitherPositive(x, y), body), Nil);
    WhileOrLoopsForever(x, y, body, k + 1, st);
    if !Run(ProgramCode(env, program), vm, k).Running? {
      RunAccountedFor(env, program, k, vm, st);
      assert false;
    }
    EndsWithin(Standard, program, st, st, k + 1);
  }

  lemma EndsWithin(m: Meaning, body: Block, st: State, st': State, fuel: nat)
    requires DintBlock(body) && ExecProgram(m, fuel, body, st) == Returned(st')
    ensures TerminatesWith(m, body, st, st')
  {
  }
}
