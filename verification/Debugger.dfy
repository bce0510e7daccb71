/**
 The debugger around the machine: breakpoints, single steps, resume and an
 instruction trace, and the theorem that debugging is transparent.
 */
module Debugger {
  import opened Options
  import opened Values
  import opened Blocks
  import opened Machine

  /** Instruction pointer and opcode of an executed instruction, and register 0 after it. */
  datatype TraceEntry = TraceEntry(ip: nat, opcode: Opcode, r0: Value)

  datatype Session = Session(vm: Vm, debug: bool, breakpoints: set<nat>, trace: seq<TraceEntry>)

  datatype Outcome = Continue | Stopped | Breaked | Panicked(fault: Fault)

  function NewSession(): Session { Session(NewVm(), false, {}, []) }

  /** One call of `step`: bounds check, breakpoint check, execution, trace, advance. */
  function StepSession(p: Program, s: Session): (Outcome, Session) {
    if s.vm.ip >= |p| then (Panicked(IpOutOfBounds), s)
    else if s.debug && s.vm.ip in s.breakpoints then (Breaked, s)
    else match Step(p, s.vm)
      case Faulted(f) => (Panicked(f), s)
      case Running(vm) => (Continue, Recorded(p, s, vm))
      case Halted(vm) => (Stopped, Recorded(p, s, vm))
  }

  function Recorded(p: Program, s: Session, vm: Vm): Session
    requires s.vm.ip < |p|
  {
    s.(vm := vm, trace := if s.debug then s.trace + [TraceEntry(s.vm.ip, p[s.vm.ip].opcode, vm.regs[0])] else s.trace)
  }

  /** Resume steps with debug mode off and leaves debug mode on. */
  function ResumeSession(p: Program, s: Session): (Outcome, Session) {
    var (outcome, s') := StepSession(p, s.(debug := false));
    if outcome.Panicked? then (outcome, s) else (outcome, s'.(debug := true))
  }

  datatype Command =
    | DoStep | DoResume | Enable | Disable
    | AddBreakpoint(at: nat) | RemoveBreakpoint(at: nat) | ClearBreakpoints | ClearTrace

  /** The session after a command; nothing when the machine panics. */
  function Perform(p: Program, s: Session, c: Command): Option<Session> {
    match c
    case DoStep => var (outcome, s') := StepSession(p, s); if outcome.Panicked? then None else Some(s')
    case DoResume => var (outcome, s') := ResumeSession(p, s); if outcome.Panicked? then None else Some(s')
    case Enable => Some(s.(debug := true))
    case Disable => Some(s.(debug := false))
    case AddBreakpoint(at) => Some(s.(breakpoints := s.breakpoints + {at}))
    case RemoveBreakpoint(at) => Some(s.(breakpoints := s.breakpoints - {at}))
    case ClearBreakpoints => Some(s.(breakpoints := {}))
    case ClearTrace => Some(s.(trace := []))
  }

  function PerformAll(p: Program, s: Session, commands: seq<Command>): Option<Session> {
    if commands == [] then Some(s)
    else
      var before := PerformAll(p, s, commands[..|commands| - 1]);
      if before.None? then None else Perform(p, before.value, commands[|commands| - 1])
  }

  // ----- the undebugged run -----

  /** The machine after `n` instructions, stepping on past halt instructions as the executor does. */
  function Drive(p: Program, vm: Vm, n: nat): Option<Vm> {
    if n == 0 then Some(vm)
    else
      var before := Drive(p, vm, n - 1);
      if before.None? then None
      else match Step(p, before.value)
        case Running(next) => Some(next)
        case Halted(next) => Some(next)
        case Faulted(_) => None
  }

  /** Until it halts, that is the plain run of the machine. */
  lemma {:induction false} DriveIsRun(p: Program, vm: Vm, n: nat)
    requires Run(p, vm, n).Running?
    ensures Drive(p, vm, n) == Some(Run(p, vm, n).vm)
    decreases n
  {
    hide Step;
    if n > 0 {
      if !Run(p, vm, n - 1).Running? {
        RunSettles(p, vm, n - 1, n);
      }
      DriveIsRun(p, vm, n - 1);
      RunAppend(p, vm, n - 1, Run(p, vm, n - 1).vm, 1);
      OneStep(p, Run(p, vm, n - 1).vm);
    }
  }

  lemma OneStep(p: Program, vm: Vm)
    ensures Run(p, vm, 1) == Step(p, vm)
  {
  }

  // ----- a debugger that only knows a position in the undebugged run -----

  /** `n` instructions executed; `traced` lists which of them were recorded. */
  datatype Cursor = Cursor(n: nat, debug: bool, breakpoints: set<nat>, traced: seq<nat>)

  /** Whether the next step stops at a breakpoint. */
  predicate AtBreakpoint(p: Program, vm: Vm, c: Cursor) {
    var now := Drive(p, vm, c.n);
    now.Some? && c.debug && now.value.ip in c.breakpoints
  }

  function MoveCursor(p: Program, vm: Vm, c: Cursor, command: Command): Cursor {
    match command
    case DoStep =>
      if AtBreakpoint(p, vm, c) then c
      else c.(n := c.n + 1, traced := if c.debug then c.traced + [c.n] else c.traced)
    case DoResume => c.(n := c.n + 1, debug := true)
    case Enable => c.(debug := true)
    case Disable => c.(debug := false)
    case AddBreakpoint(at) => c.(breakpoints := c.breakpoints + {at})
    case RemoveBreakpoint(at) => c.(breakpoints := c.breakpoints - {at})
    case ClearBreakpoints => c.(breakpoints := {})
    case ClearTrace => c.(traced := [])
  }

  function MoveAll(p: Program, vm: Vm, c: Cursor, commands: seq<Command>): Cursor {
    if commands == [] then c
    else MoveCursor(p, vm, MoveAll(p, vm, c, commands[..|commands| - 1]), commands[|commands| - 1])
  }

  /** The trace entry of the n-th instruction of the undebugged run. */
  function EntryAt(p: Program, vm: Vm, n: nat): Option<TraceEntry> {
    var before, after := Drive(p, vm, n), Drive(p, vm, n + 1);
    if before.None? || after.None? || before.value.ip >= |p| then None
    else Some(TraceEntry(before.value.ip, p[before.value.ip].opcode, after.value.regs[0]))
  }

  /** The session is at the cursor's position of the undebugged run from `vm`, and its trace
      consists of the entries of exactly the instructions the cursor lists. */
  ghost predicate Mirrors(p: Program, vm: Vm, s: Session, c: Cursor) {
    && Drive(p, vm, c.n) == Some(s.vm)
    && s.debug == c.debug && s.breakpoints == c.breakpoints
    && |s.trace| == |c.traced|
    && forall i :: 0 <= i < |s.trace| ==> EntryAt(p, vm, c.traced[i]) == Some(s.trace[i])
  }

  lemma StepMirrored(p: Program, vm: Vm, s: Session, c: Cursor)
    requires Mirrors(p, vm, s, c) && !StepSession(p, s).0.Panicked?
    ensures Mirrors(p, vm, StepSession(p, s).1, MoveCursor(p, vm, c, DoStep))
  {
    hide Step;
    if !AtBreakpoint(p, vm, c) {
      var s' := StepSession(p, s).1;
      assert Drive(p, vm, c.n + 1) == Some(s'.vm);
    }
  }

  lemma ResumeMirrored(p: Program, vm: Vm, s: Session, c: Cursor)
    requires Mirrors(p, vm, s, c) && !ResumeSession(p, s).0.Panicked?
    ensures Mirrors(p, vm, ResumeSession(p, s).1, MoveCursor(p, vm, c, DoResume))
  {
    hide Step;
    var s' := ResumeSession(p, s).1;
    assert Drive(p, vm, c.n + 1) == Some(s'.vm);
  }

  /** For every schedule of commands that does not panic, the machine states visited are those of
      the undebugged run, in order, and the trace lists exactly the instructions executed by steps
      while debug mode was on. */
  lemma {:induction false} DebuggingIsTransparent(p: Program, s: Session, commands: seq<Command>)
    requires PerformAll(p, s, commands).Some? && s.trace == []
    ensures Mirrors(p, s.vm, PerformAll(p, s, commands).value, MoveAll(p, s.vm, Cursor(0, s.debug, s.breakpoints, []), commands))
    decreases |commands|
  {
    hide StepSession, ResumeSession, Drive, EntryAt;
    var c := Cursor(0, s.debug, s.breakpoints, []);
    if commands == [] {
      DriveNothing(p, s.vm);
    } else {
      var k := |commands| - 1;
      DebuggingIsTransparent(p, s, commands[..k]);
      var s1, c1 := PerformAll(p, s, commands[..k]).value, MoveAll(p, s.vm, c, commands[..k]);
      match commands[k] {
        case DoStep => StepMirrored(p, s.vm, s1, c1);
        case DoResume => ResumeMirrored(p, s.vm, s1, c1);
        case _ =>
      }
    }
  }

  lemma DriveNothing(p: Program, vm: Vm)
    ensures Drive(p, vm, 0) == Some(vm)
  {
  }

  /** The cursor moves by at most one instruction per command and lists instructions in order. */
  lemma {:induction false} CursorMovesForward(p: Program, vm: Vm, c: Cursor, commands: seq<Command>)
    requires c.traced == []
    ensures var e := MoveAll(p, vm, c, commands);
            && c.n <= e.n <= c.n + |commands|
            && (forall i :: 0 <= i < |e.traced| ==> c.n <= e.traced[i] < e.n)
            && (forall i, j :: 0 <= i < j < |e.traced| ==> e.traced[i] < e.traced[j])
    decreases |commands|
  {
    hide Drive;
    if commands != [] {
      CursorMovesForward(p, vm, c, commands[..|commands| - 1]);
    }
  }

  /** A step that stops at a breakpoint changes nothing at all. */
  lemma BreakChangesNothing(p: Program, s: Session)
    ensures StepSession(p, s).0 == Breaked <==> s.vm.ip < |p| && s.debug && s.vm.ip in s.breakpoints
    ensures StepSession(p, s).0 == Breaked ==> StepSession(p, s).1 == s
  {
    hide Step;
  }

  // ----- run to halt -----

  /** Steps until something other than Continue happens, at most `bound` times. */
  function RunSession(p: Program, s: Session, bound: nat): (nat, Outcome, Session)
    decreases bound
  {
    if bound == 0 then (0, Continue, s)
    else
      var (outcome, s') := StepSession(p, s);
      if outcome != Continue then (1, outcome, s')
      else
        var (n, last, end) := RunSession(p, s', bound - 1);
        (n + 1, last, end)
  }

  /** With debug mode off, running to halt is the machine's own run. */
  lemma {:induction false} RunToHaltIsRun(p: Program, s: Session, bound: nat)
    requires !s.debug
    ensures var (n, outcome, end) := RunSession(p, s, bound);
            match Run(p, s.vm, bound)
            case Running(vm) => n == bound && outcome == Continue && end == s.(vm := vm)
            case Halted(vm) => outcome == Stopped && end == s.(vm := vm) && Run(p, s.vm, n) == Halted(vm)
            case Faulted(f) => outcome == Panicked(f)
    decreases bound
  {
    hide Step;
    if bound > 0 {
      FaultOutside(p, s.vm);
      var (outcome, s') := StepSession(p, s);
      if outcome == Continue {
        RunToHaltIsRun(p, s', bound - 1);
      }
    }
  }

  lemma FaultOutside(p: Program, vm: Vm)
    ensures vm.ip >= |p| ==> Step(p, vm) == Faulted(IpOutOfBounds)
  {
  }
}
