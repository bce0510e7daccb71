/**
 Ladder programs run through the ladder compiler, the IL compiler and the virtual
 machine leave exactly the signals that the ladder evaluator leaves.
 */
module LdCorrect {
  import opened Values
  import opened Machine
  import opened IlCode
  import opened IlCorrect
  import LG = LadderGraph
  import opened LadderFlow
  import opened LadderScan
  import opened LdCode
  import IlCodegen

  // ----- straight-line IL -----

  datatype Acc = Acc(acc: Value, signals: map<string, Value>)

  predicate Straight(s: IlStmt) { Core(s) && !Jumping(s) && !s.Label? }

  predicate AllStraight(stmts: seq<IlStmt>) { forall i :: 0 <= i < |stmts| ==> Straight(stmts[i]) }

  function Exec(s: IlStmt, a: Acc): Acc {
    var r := IlStep([s], Il(0, a.acc, a.signals));
    Acc(r.acc, r.signals)
  }

  function ExecAll(stmts: seq<IlStmt>, a: Acc): Acc
    decreases |stmts|
  {
    if stmts == [] then a else ExecAll(stmts[1..], Exec(stmts[0], a))
  }

  lemma {:induction false} ExecAppend(s: seq<IlStmt>, t: seq<IlStmt>, a: Acc)
    ensures ExecAll(s + t, a) == ExecAll(t, ExecAll(s, a))
    decreases |s|
  {
    if s == [] {
      assert s + t == t;
    } else {
      assert (s + t)[1..] == s[1..] + t && (s + t)[0] == s[0];
      ExecAppend(s[1..], t, Exec(s[0], a));
    }
  }

  /** Without jumps, IL statements run once each, in order. */
  lemma {:induction false} StraightRun(stmts: seq<IlStmt>, pc: nat, a: Acc)
    requires AllStraight(stmts) && pc <= |stmts|
    ensures IlRun(stmts, Il(pc, a.acc, a.signals), |stmts| - pc)
         == var end := ExecAll(stmts[pc..], a); Il(|stmts|, end.acc, end.signals)
    decreases |stmts| - pc
  {
    hide Complement, Arith;
    if pc < |stmts| {
      StraightRun(stmts, pc + 1, Exec(stmts[pc], a));
      assert Straight(stmts[pc]) && stmts[pc..][1..] == stmts[pc + 1..];
    }
  }

  // ----- the fragment -----

  /** Normally open and normally closed contacts in series, at least one, then OUT coils. */
  predicate SerialNetwork(net: seq<Element>) { net != [] && net[0].Series? && ContactsThenCoils(net) }

  predicate ContactsThenCoils(net: seq<Element>)
    decreases |net|
  {
    net == [] || (net[0].Series? && ContactsThenCoils(net[1..])) || OnlyOuts(net)
  }

  predicate OnlyOuts(net: seq<Element>) { forall i :: 0 <= i < |net| ==> net[i].CoilLine? && net[i].kind == OutCoil }

  function ContactsOf(net: seq<Element>): seq<LG.Contact>
    decreases |net|
  {
    if net == [] then []
    else (if net[0].Series? then [if net[0].normallyOpen then LG.No(net[0].v) else LG.Nc(net[0].v)] else []) + ContactsOf(net[1..])
  }

  function CoilsOf(net: seq<Element>): seq<Coil>
    decreases |net|
  {
    if net == [] then []
    else (if net[0].CoilLine? then [Coil(net[0].v, Out)] else []) + CoilsOf(net[1..])
  }

  function RungOf(net: seq<Element>): Rung { Rung(SerialGraph(ContactsOf(net)), |ContactsOf(net)|, CoilsOf(net)) }

  function RungsOf(networks: seq<seq<Element>>): seq<Rung> {
    seq(|networks|, i requires 0 <= i < |networks| => RungOf(networks[i]))
  }

  predicate LadderProgram(networks: seq<seq<Element>>) {
    forall i :: 0 <= i < |networks| ==> SerialNetwork(networks[i])
  }

  /** A Boolean variable store as a signal table. */
  function Table(vars: Snapshot): map<string, Value> { map x | x in vars :: Bool(vars[x]) }

  lemma TableGet(vars: Snapshot, x: string)
    ensures SignalOf(Table(vars), x) == Bool(GetBool(vars, x))
  {
  }

  lemma TableSet(vars: Snapshot, x: string, b: bool)
    ensures Table(vars)[x := Bool(b)] == Table(vars[x := b])
  {
  }

  // ----- one network -----

  /** The accumulator carries the power so far; coils store it. */
  lemma {:induction false} RestOfNetwork(net: seq<Element>, power: bool, held: Snapshot, vars: Snapshot)
    requires ContactsThenCoils(net)
    ensures ExecAll(NetworkIl(net, false), Acc(Bool(power), Table(vars))).signals
         == Table(ApplyCoils(CoilsOf(net), power && AllClosed(ContactsOf(net), vars), held, vars))
    decreases |net|
  {
    hide Table, Closed, AllClosed;
    if net == [] {
      assert AllClosed(ContactsOf(net), vars) by { NothingClosed(vars); }
    } else {
      var e, rest := net[0], net[1..];
      var a := Acc(Bool(power), Table(vars));
      ExecAppend(ElementIl(e, false), NetworkIl(rest, false), a);
      if e.Series? {
        ContactStep(e, power, vars);
        var c := if e.normallyOpen then LG.No(e.v) else LG.Nc(e.v);
        ConsClosed(c, ContactsOf(rest), vars);
        RestOfNetwork(rest, power && Closed(c, vars), held, vars);
        assert CoilsOf(net) == CoilsOf(rest) && ContactsOf(net) == [c] + ContactsOf(rest);
      } else {
        assert OnlyOuts(net);
        OutsHaveNoContacts(net);
        OutsHaveNoContacts(rest);
        NothingClosed(vars);
        NothingClosed(vars[e.v := power]);
        CoilStep(e, power, vars);
        RestOfNetwork(rest, power, held, vars[e.v := power]);
        var cs := CoilsOf(net);
        assert cs[0] == Coil(e.v, Out) && cs[1..] == CoilsOf(rest);
      }
    }
  }

  lemma NothingClosed(vars: Snapshot)
    ensures AllClosed([], vars)
  {
  }

  lemma {:induction false} OutsHaveNoContacts(net: seq<Element>)
    requires OnlyOuts(net)
    ensures ContactsOf(net) == [] && ContactsThenCoils(net)
    decreases |net|
  {
    if net != [] {
      OutsHaveNoContacts(net[1..]);
    }
  }

  lemma ConsClosed(c: LG.Contact, cs: seq<LG.Contact>, vars: Snapshot)
    ensures AllClosed([c] + cs, vars) <==> Closed(c, vars) && AllClosed(cs, vars)
  {
    if AllClosed([c] + cs, vars) {
      assert ([c] + cs)[0] == c;
      forall i | 0 <= i < |cs|
        ensures Closed(cs[i], vars)
      {
        assert ([c] + cs)[i + 1] == cs[i];
      }
    }
  }

  lemma ContactStep(e: Element, power: bool, vars: Snapshot)
    requires e.Series?
    ensures var c := if e.normallyOpen then LG.No(e.v) else LG.Nc(e.v);
            ExecAll(ElementIl(e, false), Acc(Bool(power), Table(vars))) == Acc(Bool(power && Closed(c, vars)), Table(vars))
  {
    hide Table;
    TableGet(vars, e.v);
    ExecOne(ElementIl(e, false)[0], Acc(Bool(power), Table(vars)));
  }

  lemma FirstStep(e: Element, a: Acc, vars: Snapshot)
    requires e.Series? && a.signals == Table(vars)
    ensures var c := if e.normallyOpen then LG.No(e.v) else LG.Nc(e.v);
            ExecAll(ElementIl(e, true), a) == Acc(Bool(Closed(c, vars)), Table(vars))
  {
    hide Table;
    TableGet(vars, e.v);
    ExecOne(ElementIl(e, true)[0], a);
  }

  lemma CoilStep(e: Element, power: bool, vars: Snapshot)
    requires e.CoilLine? && e.kind == OutCoil
    ensures ExecAll(ElementIl(e, false), Acc(Bool(power), Table(vars))) == Acc(Bool(power), Table(vars[e.v := power]))
  {
    hide Table;
    TableSet(vars, e.v, power);
    ExecOne(ElementIl(e, false)[0], Acc(Bool(power), Table(vars)));
  }

  lemma ExecOne(s: IlStmt, a: Acc)
    ensures ExecAll([s], a) == Exec(s, a)
  {
    assert [s][1..] == [];
  }

  /** One network does to the signals what its rung does to the variables. */
  lemma NetworkCorrect(net: seq<Element>, a: Acc, s: Scan)
    requires SerialNetwork(net) && a.signals == Table(s.vars)
    ensures ValidRung(RungOf(net))
    ensures ExecAll(NetworkIl(net, true), a).signals == Table(RunRung(RungOf(net), s).vars)
    ensures RunRung(RungOf(net), s).prev == s.prev
  {
    hide Table, PowerFlow, ApplyCoils, ExecAll, Powered, AllClosed, Exec;
    var e, rest := net[0], net[1..];
    ExecAppend(ElementIl(e, true), NetworkIl(rest, false), a);
    FirstStep(e, a, s.vars);
    var c := if e.normallyOpen then LG.No(e.v) else LG.Nc(e.v);
    assert NetworkIl(net, true) == ElementIl(e, true) + NetworkIl(rest, false);
    assert ContactsThenCoils(rest);
    RestOfNetwork(rest, Closed(c, s.vars), s.vars, s.vars);
    ConsClosed(c, ContactsOf(rest), s.vars);
    ContactsPlain(net);
    SerialIsConjunction(ContactsOf(net), s.vars, s.prev);
    assert CoilsOf(net) == CoilsOf(rest);
  }

  lemma RungsValid(networks: seq<seq<Element>>)
    requires LadderProgram(networks)
    ensures forall i :: 0 <= i < |networks| ==> ValidRung(RungsOf(networks)[i])
  {
    hide SerialNetwork, ValidRung, RungOf;
    forall i | 0 <= i < |networks|
      ensures ValidRung(RungsOf(networks)[i])
    {
      NetworkCorrect(networks[i], Acc(Bool(false), Table(map[])), Scan(map[], map[]));
    }
  }

  lemma {:induction false} ContactsPlain(net: seq<Element>)
    ensures AllPlain(ContactsOf(net))
    decreases |net|
  {
    if net != [] {
      ContactsPlain(net[1..]);
    }
  }

  // ----- the whole program -----

  lemma {:induction false} ProgramRun(networks: seq<seq<Element>>, k: nat, a: Acc, vars: Snapshot)
    requires LadderProgram(networks) && k <= |networks| && a.signals == Table(vars)
    ensures forall i :: 0 <= i < |networks| ==> ValidRung(RungsOf(networks)[i])
    ensures var s := RunRungs(RungsOf(networks), k, Scan(vars, map[]));
            ExecAll(ProgramIl(networks[..k]), a).signals == Table(s.vars) && s.prev == map[]
    decreases k
  {
    hide Table, RunRung, ExecAll, SerialNetwork, ValidRung, RungOf;
    RungsValid(networks);
    if k == 0 {
      ExecNothing(a);
    } else {
      ProgramRun(networks, k - 1, a, vars);
      assert networks[..k][..k - 1] == networks[..k - 1];
      ExecAppend(ProgramIl(networks[..k - 1]), NetworkIl(networks[k - 1], true), a);
      NetworkCorrect(networks[k - 1], ExecAll(ProgramIl(networks[..k - 1]), a), RunRungs(RungsOf(networks), k - 1, Scan(vars, map[])));
    }
  }

  lemma ExecNothing(a: Acc)
    ensures ExecAll([], a) == a
  {
  }

  lemma {:induction false} NetworkStraight(net: seq<Element>, first: bool)
    requires ContactsThenCoils(net)
    ensures AllStraight(NetworkIl(net, first))
    decreases |net|
  {
    if net != [] {
      if !net[0].Series? {
        OutsHaveNoContacts(net[1..]);
      }
      NetworkStraight(net[1..], first && !Loads(net[0]));
    }
  }

  lemma {:induction false} ProgramStraight(networks: seq<seq<Element>>)
    requires LadderProgram(networks)
    ensures AllStraight(ProgramIl(networks))
    decreases |networks|
  {
    if networks != [] {
      var k := |networks| - 1;
      ProgramStraight(networks[..k]);
      assert SerialNetwork(networks[k]);
      NetworkStraight(networks[k], true);
    }
  }

  // ----- registers -----

  function NetworkVars(net: seq<Element>): set<string> {
    set i | 0 <= i < |net| && net[i].Series? :: net[i].v
  }

  /** The variables read by contacts. */
  function ContactVars(networks: seq<seq<Element>>): set<string> {
    if networks == [] then {}
    else ContactVars(networks[..|networks| - 1]) + NetworkVars(networks[|networks| - 1])
  }

  function Used(stmts: seq<IlStmt>): set<string> {
    set i | 0 <= i < |stmts| && UsesRegister(stmts[i]) :: stmts[i].v
  }

  lemma UsedAppend(s: seq<IlStmt>, t: seq<IlStmt>)
    ensures Used(s + t) == Used(s) + Used(t)
  {
    forall x | x in Used(s) + Used(t)
      ensures x in Used(s + t)
    {
      if x in Used(s) {
        var i :| 0 <= i < |s| && UsesRegister(s[i]) && s[i].v == x;
        assert (s + t)[i] == s[i];
      } else {
        var i :| 0 <= i < |t| && UsesRegister(t[i]) && t[i].v == x;
        assert (s + t)[|s| + i] == t[i];
      }
    }
    forall x | x in Used(s + t)
      ensures x in Used(s) + Used(t)
    {
      var i :| 0 <= i < |s + t| && UsesRegister((s + t)[i]) && (s + t)[i].v == x;
      assert if i < |s| then (s + t)[i] == s[i] else (s + t)[i] == t[i - |s|];
    }
  }

  lemma UsedByElement(e: Element, first: bool)
    requires e.Series? || (e.CoilLine? && e.kind == OutCoil)
    ensures Used(ElementIl(e, first)) == if e.Series? then {e.v} else {}
  {
    var s := ElementIl(e, first);
    if e.Series? {
      assert UsesRegister(s[0]) && s[0].v == e.v;
    }
  }

  lemma NetworkVarsCons(net: seq<Element>)
    requires net != []
    ensures NetworkVars(net) == (if net[0].Series? then {net[0].v} else {}) + NetworkVars(net[1..])
  {
    forall x | x in NetworkVars(net[1..])
      ensures x in NetworkVars(net)
    {
      var i :| 0 <= i < |net[1..]| && net[1..][i].Series? && net[1..][i].v == x;
      assert net[i + 1] == net[1..][i];
    }
    forall x | x in NetworkVars(net)
      ensures x in (if net[0].Series? then {net[0].v} else {}) + NetworkVars(net[1..])
    {
      var i :| 0 <= i < |net| && net[i].Series? && net[i].v == x;
      if i > 0 {
        assert net[1..][i - 1] == net[i];
      }
    }
  }

  lemma {:induction false} UsedByNetwork(net: seq<Element>, first: bool)
    requires ContactsThenCoils(net)
    ensures Used(NetworkIl(net, first)) == NetworkVars(net)
    decreases |net|
  {
    hide Used, NetworkVars;
    if net == [] {
      UsedByNothing();
    } else {
      if !net[0].Series? {
        OutsHaveNoContacts(net[1..]);
      }
      UsedByNetwork(net[1..], first && !Loads(net[0]));
      UsedAppend(ElementIl(net[0], first), NetworkIl(net[1..], first && !Loads(net[0])));
      UsedByElement(net[0], first);
      NetworkVarsCons(net);
    }
  }

  lemma UsedByNothing()
    ensures Used([]) == {} && NetworkVars([]) == {}
  {
  }

  lemma {:induction false} UsedByProgram(networks: seq<seq<Element>>)
    requires LadderProgram(networks)
    ensures Used(ProgramIl(networks)) == ContactVars(networks)
    decreases |networks|
  {
    hide Used, NetworkVars;
    if networks == [] {
      UsedByNothing();
    } else {
      var k := |networks| - 1;
      UsedByProgram(networks[..k]);
      assert SerialNetwork(networks[k]);
      UsedByNetwork(networks[k], true);
      UsedAppend(ProgramIl(networks[..k]), NetworkIl(networks[k], true));
    }
  }

  ghost predicate NoRepeats(s: seq<string>) { forall i, j :: 0 <= i < j < |s| ==> s[i] != s[j] }

  lemma {:induction false} OrderLists(order: seq<string>, stmts: seq<IlStmt>)
    requires NoRepeats(order)
    ensures NoRepeats(OrderFrom(order, stmts))
    ensures forall x :: x in OrderFrom(order, stmts) <==> x in order || x in Used(stmts)
    decreases |stmts|
  {
    if stmts != [] {
      var next := Extend(order, stmts[0]);
      OrderLists(next, stmts[1..]);
      assert stmts == [stmts[0]] + stmts[1..];
      UsedAppend([stmts[0]], stmts[1..]);
      forall x
        ensures x in next <==> x in order || x in Used([stmts[0]])
      {
        if UsesRegister(stmts[0]) {
          assert [stmts[0]][0] == stmts[0];
        }
      }
    }
  }

  lemma {:induction false} SeqSize(s: seq<string>, items: set<string>)
    requires NoRepeats(s) && forall x :: x in s <==> x in items
    ensures |s| == |items|
    decreases |s|
  {
    if s == [] {
      assert items == {};
    } else {
      var k := |s| - 1;
      assert s[k] in items;
      forall x
        ensures x in s[..k] <==> x in items - {s[k]}
      {
        if x in s && x != s[k] {
          var i :| 0 <= i < |s| && s[i] == x;
          assert s[..k][i] == x;
        }
      }
      SeqSize(s[..k], items - {s[k]});
    }
  }

  /** The IL compiler needs exactly one register per contact variable. */
  lemma OneRegisterPerContactVariable(networks: seq<seq<Element>>)
    requires LadderProgram(networks)
    ensures |VarOrder(ProgramIl(networks))| == |ContactVars(networks)|
  {
    hide OrderFrom, Used, ContactVars;
    UsedByProgram(networks);
    OrderLists([], ProgramIl(networks));
    SeqSize(VarOrder(ProgramIl(networks)), ContactVars(networks));
  }

  // ----- end to end -----

  /** From any Boolean signal table, the compiled ladder program halts and leaves exactly the
      signals that one scan of the corresponding rungs leaves. */
  lemma LadderCompilationCorrect(networks: seq<seq<Element>>, vm: Vm, vars: Snapshot) returns (k: nat, out: Vm)
    requires LadderProgram(networks) && |ContactVars(networks)| <= USER_REGISTERS
    requires vm.ip == 0 && vm.signals == Table(vars)
    ensures k <= 5 * |ProgramIl(networks)| + 2
    ensures Run(IlProgram(ProgramIl(networks)), vm, k) == Halted(out)
    ensures forall i :: 0 <= i < |networks| ==> ValidRung(RungsOf(networks)[i])
    ensures out.signals == Table(Cycle(RungsOf(networks), vars))
  {
    hide Run, IlProgram, ExecAll, RunRungs, Table, ContactVars, VarOrder, IlRun, SerialNetwork, ValidRung, ProgramIl;
    var stmts := ProgramIl(networks);
    var a := Acc(vm.regs[CR], vm.signals);
    OneRegisterPerContactVariable(networks);
    ProgramStraight(networks);
    assert CoreProgram(stmts);
    assert stmts[0..] == stmts && networks[..|networks|] == networks && |RungsOf(networks)| == |networks|;
    StraightRun(stmts, 0, a);
    ProgramRun(networks, |networks|, a, vars);
    k, out := CompiledProgramHalts(stmts, vm, |stmts|);
  }
}
