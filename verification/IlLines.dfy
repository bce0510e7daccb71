/**
 Instruction List from its text to the machine: a source is parsed line by line, and what
 the code of each kind of line does, written out for the spelling of the line.
 */
module IlLines {
  import opened Options
  import opened Values
  import opened Machine
  import opened Runs
  import opened Text
  import opened IlCode
  import opened IlText
  import IlCorrect
  import Operators

  /** The statements of one line. */
  function LineStatements(line: string): seq<IlStmt> { Parsed(LineTokens(line), 0) }

  function SourceStatements(lines: seq<string>): seq<IlStmt> {
    if lines == [] then [] else SourceStatements(lines[..|lines| - 1]) + LineStatements(lines[|lines| - 1])
  }

  predicate StartsWell(tokens: seq<Token>) { tokens != [] ==> !tokens[0].Ident? }

  lemma {:induction false} ParsedAppend(a: seq<Token>, b: seq<Token>, i: nat)
    requires i <= |a| && StartsWell(b)
    ensures Parsed(a + b, i) == Parsed(a, i) + Parsed(b, 0)
    decreases |a| - i
  {
    hide StatementOf;
    if i == |a| {
      ParsedSuffix(a, b, |a|);
      assert (a + b)[|a|..] == b;
    } else {
      assert (a + b)[i] == a[i];
      assert i + 1 < |a| ==> (a + b)[i + 1] == a[i + 1];
      assert i + 1 == |a| && b != [] ==> (a + b)[i + 1] == b[0];
      assert StatementAt(a + b, i) == StatementAt(a, i);
      ParsedAppend(a, b, StatementAt(a, i).1);
    }
  }

  lemma {:induction false} ParsedSuffix(a: seq<Token>, b: seq<Token>, i: nat)
    requires |a| <= i <= |a + b|
    ensures Parsed(a + b, i) == Parsed(b, i - |a|)
    decreases |a + b| - i
  {
    hide StatementAt;
    if i < |a + b| {
      SuffixStatement(a, b, i);
      ParsedSuffix(a, b, StatementAt(a + b, i).1);
    }
  }

  lemma SuffixStatement(a: seq<Token>, b: seq<Token>, i: nat)
    requires |a| <= i < |a + b|
    ensures StatementAt(a + b, i).0 == StatementAt(b, i - |a|).0 && StatementAt(a + b, i).1 == StatementAt(b, i - |a|).1 + |a|
  {
    hide StatementOf;
    assert (a + b)[i] == b[i - |a|];
    assert i + 1 < |a + b| ==> (a + b)[i + 1] == b[i + 1 - |a|];
  }

  lemma LineStartsWell(line: string)
    ensures StartsWell(LineTokens(line))
  {
    hide ParseMnemonic, Words, Uncomment, Trim, Upper;
  }

  /** A source is parsed line by line: no operand is ever taken from the next line. */
  lemma {:induction false} SourceParsesLineByLine(lines: seq<string>)
    ensures Parsed(TokensOf(lines), 0) == SourceStatements(lines)
    decreases |lines|
  {
    hide LineTokens, StartsWell, StatementAt;
    if lines != [] {
      var k := |lines| - 1;
      SourceParsesLineByLine(lines[..k]);
      LineStartsWell(lines[k]);
      ParsedAppend(TokensOf(lines[..k]), LineTokens(lines[k]), 0);
    }
  }

  // ----- lines -----

  lemma OperandLine(m: Mnemonic, x: string)
    requires GoodName(x) && TakesOperand(m)
    ensures LineStatements(Spelling(m) + " " + x) == [StatementOf(m, x)]
  {
    hide LineTokens, StatementOf, GoodName, Spelling;
    LineRoundTrip(m, x);
    var tokens := [Op(m), Ident(x)];
    assert LineTokens(LineOf(m, x)) == tokens;
    assert StatementAt(tokens, 0) == ([StatementOf(m, x)], 2);
    assert Parsed(tokens, 2) == [];
  }

  lemma WordLine(w: string)
    requires Word(w) && NoBracket(w)
    ensures LineTokens(w) == PartTokens([w])
  {
    WordEnds(w);
    UncommentNothing(w, 0);
    assert w[0..] == w && !OpensAt(w, 0);
    OneWord(w);
    hide *;
    LineOfWords(w);
  }

  lemma {:induction false} LineOfWords(w: string)
    requires w != "" && Trim(w) == w && !OpensAt(w, 0)
    ensures LineTokens(w) == PartTokens(Words(Uncomment(w, 0, false)))
  {
    hide Trim, Words, Uncomment, PartTokens;
  }

  lemma WordEnds(w: string)
    requires Word(w)
    ensures Trim(w) == w
  {
    TrimNothing(w);
  }

  /** A label is a word and a colon. */
  lemma LabelLine(l: string)
    requires GoodName(l)
    ensures LineStatements(l + ":") == [Label(l)]
  {
    hide Trim, Uncomment, Words;
    var w := l + ":";
    LabelWord(l);
    WordLine(w);
    hide LineTokens, White;
    NoMnemonicEndsInColon(w);
    LabelTokens(w, l);
    assert StatementAt([LabelMark(l)], 0) == ([Label(l)], 1);
    assert Parsed([LabelMark(l)], 1) == [];
  }

  lemma LabelWord(l: string)
    requires GoodName(l)
    ensures Word(l + ":") && NoBracket(l + ":")
  {
    var w := l + ":";
    forall i | 0 <= i < |w|
      ensures !White(w[i]) && !OpensAt(w, i)
    {
      if i < |l| {
        assert w[i] == l[i] && !OpensAt(l, i);
        assert i + 1 < |l| ==> w[i + 1] == l[i + 1];
      }
    }
  }

  lemma LabelTokens(w: string, l: string)
    requires w == l + ":" && ParseMnemonic(Upper(w)).None?
    ensures PartTokens([w]) == [LabelMark(l)]
  {
    hide ParseMnemonic, Upper;
    var rest: seq<string> := [w][1..];
    assert w[..|w| - 1] == l && rest == [];
    assert LabelledTokens([]) == [];
  }

  lemma NoMnemonicEndsInColon(w: string)
    requires w != "" && w[|w| - 1] == ':'
    ensures ParseMnemonic(Upper(w)).None?
  {
    var u := Upper(w);
    assert |u| == |w| && u[|u| - 1] == ':';
    hide ParseMnemonic;
    if |u| <= 2 {
      NoShortMnemonic(u);
    } else if |u| == 3 {
      NoThreeLetterMnemonic(u);
    } else {
      NoLongMnemonic(u);
    }
  }

  lemma NoShortMnemonic(u: string)
    requires 1 <= |u| <= 2 && u[|u| - 1] == ':'
    ensures ParseMnemonic(u).None?
  {
  }

  lemma NoThreeLetterMnemonic(u: string)
    requires |u| == 3 && u[2] == ':'
    ensures ParseMnemonic(u).None?
  {
  }

  lemma NoLongMnemonic(u: string)
    requires |u| > 3 && u[|u| - 1] == ':'
    ensures ParseMnemonic(u).None?
  {
  }

  /** NOT and RET stand alone. */
  lemma BareLine(m: Mnemonic)
    requires !TakesOperand(m)
    ensures LineStatements(Spelling(m)) == [StatementOf(m, "")]
  {
    hide Trim, Uncomment, Words, ParseMnemonic, Spelling, Upper, StatementOf, White;
    var w := Spelling(m);
    SpellingShape(m);
    SpellingParses(m);
    WordLine(w);
    hide LineTokens;
    BareTokens(w, m);
    assert StatementAt([Op(m)], 0) == ([StatementOf(m, "")], 1);
    assert Parsed([Op(m)], 1) == [];
  }

  lemma BareTokens(w: string, m: Mnemonic)
    requires w != "" && w[|w| - 1] != ':' && Upper(w) == w && ParseMnemonic(w) == Some(m)
    ensures PartTokens([w]) == [Op(m)]
  {
    hide ParseMnemonic, Upper;
  }

  // ----- comments and labelled lines -----

  lemma {:induction false} BeforeComment(s: string, a: string, i: nat)
    requires i <= |a| && |a| + 2 <= |s| && s[..|a|] == a && s[|a|] == '(' && s[|a| + 1] == '*' && NoBracket(a)
    ensures Uncomment(s, i, false) == a[i..] + Uncomment(s, |a| + 2, true)
    decreases |a| - i
  {
    if i < |a| {
      assert s[i] == a[i] && (i + 1 < |a| ==> s[i + 1] == a[i + 1]);
      assert !OpensAt(a, i);
      BeforeComment(s, a, i + 1);
    }
  }

  lemma {:induction false} InsideComment(s: string, at: nat, c: string, i: nat)
    requires i <= |c| && at + |c| + 2 <= |s| && s[at..at + |c|] == c && s[at + |c|] == '*' && s[at + |c| + 1] == ')'
    requires NoBracket(c + "*") && forall j :: 0 <= j < |c| ==> !ClosesAt(c, j)
    ensures Uncomment(s, at + i, true) == Uncomment(s, at + |c| + 2, false)
    decreases |c| - i
  {
    if i < |c| {
      assert s[at + i] == s[at..at + |c|][i] == (c + "*")[i];
      assert i + 1 < |c| ==> s[at + i + 1] == s[at..at + |c|][i + 1];
      assert s[at + i + 1] == (c + "*")[i + 1];
      assert !OpensAt(c + "*", i) && !ClosesAt(c, i);
      InsideComment(s, at, c, i + 1);
    }
  }

  lemma SameBrackets(s: string, b: string, at: nat, i: nat)
    requires at <= |s| && s[at..] == b
    ensures OpensAt(s, at + i) == OpensAt(b, i) && ClosesAt(s, at + i) == ClosesAt(b, i)
  {
    if i + 1 < |b| {
      assert s[at + i] == b[i] && s[at + i + 1] == b[i + 1];
    }
  }

  lemma {:induction false} AfterComment(s: string, b: string, at: nat, i: nat, inside: bool)
    requires at + i <= |s| && s[at..] == b
    ensures Uncomment(s, at + i, inside) == Uncomment(b, i, inside)
    decreases |b| - i
  {
    if i < |b| {
      SameBrackets(s, b, at, i);
      assert s[at + i] == b[i];
      if OpensAt(b, i) {
        AfterComment(s, b, at, i + 2, true);
      } else if inside && ClosesAt(b, i) {
        AfterComment(s, b, at, i + 2, false);
      } else {
        AfterComment(s, b, at, i + 1, inside);
      }
    }
  }

  /** A comment inside a line leaves no trace; its text must not open or close another one. */
  lemma {:induction false} CommentIsDropped(a: string, c: string, b: string)
    requires NoBracket(a) && NoBracket(c + "*") && forall j :: 0 <= j < |c| ==> !ClosesAt(c, j)
    ensures Uncomment(a + "(*" + c + "*)" + b, 0, false) == a + Uncomment(b, 0, false)
  {
    hide Uncomment, NoBracket;
    var s := a + "(*" + c + "*)" + b;
    BeforeComment(s, a, 0);
    InsideComment(s, |a| + 2, c, 0);
    assert s[|a| + |c| + 4..] == b;
    AfterComment(s, b, |a| + |c| + 4, 0, false);
    assert a[0..] == a;
  }

  /** A line that starts with a comment is dropped with everything behind the comment. */
  lemma LeadingCommentDropsLine(c: string, code: string)
    requires GoodName(code)
    ensures LineStatements("(*" + c + "*)" + " " + code) == []
  {
    var line := "(*" + c + "*)" + " " + code;
    assert line[|line| - 1] == code[|code| - 1] && line[0] == '(' && line[1] == '*';
    TrimNothing(line);
    hide Trim, Words, Uncomment, PartTokens;
    assert LineTokens(line) == [];
    assert Parsed(LineTokens(line), 0) == [];
  }

  lemma LabelledTokensAre(l: string, m: Mnemonic, x: string)
    requires TakesOperand(m) && ParseMnemonic(Upper(x)).None? && ParseMnemonic(Upper(l + ":")).None?
    ensures PartTokens([l + ":", Spelling(m), x]) == [LabelMark(l), Op(m), Ident(x)]
  {
    hide ParseMnemonic, Upper, Spelling;
    SpellingParses(m);
    SpellingShape(m);
    var parts := [l + ":", Spelling(m), x];
    assert parts[1..] == [Spelling(m), x];
    assert (l + ":")[..|l + ":"| - 1] == l;
    assert LabelledTokens([Spelling(m), x]) == [Op(m), Ident(x)];
  }

  lemma LabelledWords(l: string, m: Mnemonic, x: string)
    requires GoodName(l) && GoodName(x)
    ensures var line := l + ":" + " " + (Spelling(m) + " " + x);
            LineTokens(line) == PartTokens([l + ":", Spelling(m), x])
  {
    hide Spelling, Words, White, PartTokens, Trim, Uncomment;
    var w, line := l + ":", l + ":" + " " + (Spelling(m) + " " + x);
    LabelWord(l);
    SpellingShape(m);
    GoodIsWord(x);
    ThreeWords(w, Spelling(m), x);
    LineHasNoBracket(m, x);
    JoinedNoBracket(w, LineOf(m, x));
    UncommentNothing(line, 0);
    assert line[0] == w[0] && line[|line| - 1] == x[|x| - 1] && line[0..] == line;
    TrimNothing(line);
    LineOfWords(line);
  }

  lemma GoodIsWord(x: string)
    requires GoodName(x)
    ensures Word(x)
  {
  }

  lemma JoinedNoBracket(a: string, b: string)
    requires NoBracket(a) && NoBracket(b)
    ensures NoBracket(a + " " + b)
  {
    var s := a + " " + b;
    forall i | 0 <= i < |s|
      ensures !OpensAt(s, i)
    {
      if i < |a| {
        assert !OpensAt(a, i);
      } else if i > |a| {
        assert !OpensAt(b, i - |a| - 1);
      }
    }
  }

  /** A label may stand before an instruction, whose operand must then not be spelled like a mnemonic. */
  lemma LabelledLine(l: string, m: Mnemonic, x: string)
    requires GoodName(l) && GoodName(x) && TakesOperand(m) && ParseMnemonic(Upper(x)).None?
    ensures LineStatements(l + ":" + " " + (Spelling(m) + " " + x)) == [Label(l)] + LineStatements(Spelling(m) + " " + x)
  {
    hide Spelling, StatementOf, ParseMnemonic, Upper, GoodName, LineTokens, PartTokens;
    NoMnemonicEndsInColon(l + ":");
    LabelledWords(l, m, x);
    LabelledTokensAre(l, m, x);
    OperandLine(m, x);
    var tokens := [LabelMark(l), Op(m), Ident(x)];
    assert StatementAt(tokens, 0) == ([Label(l)], 1) && StatementAt(tokens, 1) == ([StatementOf(m, x)], 3);
    assert Parsed(tokens, 3) == [] && Parsed(tokens, 1) == [StatementOf(m, x)];
  }

  // ----- what a line does -----

  /** The machine stands before the code of statement `i`, which is the one of the line. */
  ghost predicate AtLine(stmts: seq<IlStmt>, i: nat, line: string, vm: Vm) {
    && i < |stmts| && LineStatements(line) == [stmts[i]] && vm.ip == Addr(stmts, i)
    && |VarOrder(stmts)| <= USER_REGISTERS && |IlProgram(stmts)| < TWO_32
  }

  /** The register of a variable: its place in order of first use. */
  function RegisterAt(stmts: seq<IlStmt>, x: string): nat { RegisterOf(VarOrder(stmts), x) }

  /** Register access for any number; only sixteen registers exist. */
  function Get(vm: Vm, r: nat): Value { if r < REGISTER_COUNT then vm.regs[r] else S32(0) }

  function Put(vm: Vm, r: nat, v: Value): Vm { if r < REGISTER_COUNT then vm.(regs := vm.regs[r := v]) else vm }

  function RegFor(stmts: seq<IlStmt>, s: IlStmt): u8 { if UsesRegister(s) then RegisterAt(stmts, s.v) % 10 else 0 }

  lemma LineCode(stmts: seq<IlStmt>, i: nat, m: Mnemonic, x: string, vm: Vm)
    requires AtLine(stmts, i, Spelling(m) + " " + x, vm) && GoodName(x) && TakesOperand(m)
    ensures i < |stmts| && stmts[i] == StatementOf(m, x)
    ensures UsesRegister(stmts[i]) && stmts[i].v == x ==> RegisterAt(stmts, x) < 10 && RegFor(stmts, stmts[i]) == RegisterAt(stmts, x)
    ensures CodeAt(IlProgram(stmts), vm.ip, StmtCode(StatementOf(m, x), RegFor(stmts, stmts[i]), vm.ip, TargetOf(stmts, stmts[i])))
  {
    OperandLine(m, x);
    hide LineStatements, Spelling, GoodName, StatementOf, IlProgram, StmtCode, TargetOf, VarOrder;
    RegisterInRange(stmts, i);
    CodeInPlace(stmts, i);
  }

  lemma RegisterInRange(stmts: seq<IlStmt>, i: nat)
    requires i < |stmts| && |VarOrder(stmts)| <= USER_REGISTERS
    ensures UsesRegister(stmts[i]) ==> RegisterAt(stmts, stmts[i].v) < 10
    ensures RegisterFor(VarOrder(stmts), stmts[i]) == RegFor(stmts, stmts[i])
  {
    if UsesRegister(stmts[i]) {
      OrderCoversUses([], stmts, i);
      RegisterOfStable(VarOrder(stmts), VarOrder(stmts), stmts[i].v);
    }
  }

  lemma {:induction false} CodeInPlace(stmts: seq<IlStmt>, i: nat)
    requires i < |stmts|
    ensures CodeAt(IlProgram(stmts), Addr(stmts, i),
                   StmtCode(stmts[i], RegisterFor(VarOrder(stmts), stmts[i]), Addr(stmts, i), TargetOf(stmts, stmts[i])))
  {
    hide StmtCode, IlProgram, VarOrder, RegisterFor, TargetOf, Addr, SizeOf;
    var p, a := IlProgram(stmts), Addr(stmts, i);
    var code := StmtCode(stmts[i], RegisterFor(VarOrder(stmts), stmts[i]), a, TargetOf(stmts, stmts[i]));
    HaltAtEnd(stmts);
    AddrMonotone(stmts, i, |stmts|);
    forall j | 0 <= j < |code|
      ensures a + j < |p| && p[a + j] == code[j]
    {
      StatementInProgram(stmts, i, j);
    }
    if code != [] {
      StatementInProgram(stmts, i, |code| - 1);
    }
    assert p[a..a + |code|] == code;
  }

  lemma FirstInstruction(p: Program, at: nat, inst: Instruction)
    requires CodeAt(p, at, [inst])
    ensures at < |p| && p[at] == inst
  {
    InstructionAt(p, at, [inst], 0);
  }

  /** One straight instruction of a line. */
  lemma OneStep(p: Program, vm: Vm, inst: Instruction, next: Vm)
    requires CodeAt(p, vm.ip, [inst]) && !IsJump(inst.opcode) && Execute(vm, inst) == Running(next) && next.ip == vm.ip
    ensures Reaches(p, vm, 1, next.(ip := vm.ip + 1))
  {
    hide Execute, CodeAt;
    FirstInstruction(p, vm.ip, inst);
    StepOne(p, vm, next);
  }

  lemma OneFault(p: Program, vm: Vm, inst: Instruction, f: Fault)
    requires CodeAt(p, vm.ip, [inst]) && Execute(vm, inst) == Faulted(f)
    ensures Step(p, vm) == Faulted(f)
  {
    hide Execute, CodeAt;
    FirstInstruction(p, vm.ip, inst);
  }

  // ----- arithmetic lines -----

  lemma RingSpellings(op: string)
    requires op in {"ADD", "SUB", "MUL"}
    ensures var m := if op == "ADD" then MAdd else if op == "SUB" then MSub else MMul;
            Spelling(m) == op && TakesOperand(m)
  {
  }

  lemma RingLineCode(op: string, x: string, r: u8, base: nat, t: nat)
    requires op in {"ADD", "SUB", "MUL"}
    ensures var m := if op == "ADD" then MAdd else if op == "SUB" then MSub else MMul;
            && UsesRegister(StatementOf(m, x)) && StatementOf(m, x).v == x
            && StmtCode(StatementOf(m, x), r, base, t)
               == [Instruction(if op == "ADD" then Add else if op == "SUB" then Sub else Mul, [Register(14), Register(r), Register(14)])]
  {
  }

  /** ADD x, SUB x and MUL x leave in r14 the number congruent to the sum, the difference and the product
      of r14 and the register of x. */
  lemma RingLine(stmts: seq<IlStmt>, i: nat, op: string, x: string, vm: Vm, t: PinType, a: int, b: int) returns (n: int)
    requires op in {"ADD", "SUB", "MUL"} && GoodName(x) && AtLine(stmts, i, op + " " + x, vm)
    requires Operators.IsInteger(t) && Operators.InRange(t, a) && Operators.InRange(t, b)
    requires Get(vm, 14) == Operators.Of(t, a) && Get(vm, RegisterAt(stmts, x)) == Operators.Of(t, b)
    ensures Operators.InRange(t, n)
    ensures op == "ADD" ==> Operators.Congruent(n, a + b, Operators.Size(t))
    ensures op == "SUB" ==> Operators.Congruent(n, a - b, Operators.Size(t))
    ensures op == "MUL" ==> Operators.Congruent(n, a * b, Operators.Size(t))
    ensures Reaches(IlProgram(stmts), vm, 1, Put(vm, 14, Operators.Of(t, n)).(ip := vm.ip + 1))
  {
    hide *;
    Registers();
    RingSpellings(op);
    var m := if op == "ADD" then MAdd else if op == "SUB" then MSub else MMul;
    LineCode(stmts, i, m, x, vm);
    var r := RegisterAt(stmts, x);
    RingLineCode(op, x, RegFor(stmts, stmts[i]), vm.ip, TargetOf(stmts, stmts[i]));
    var sum, difference, product := Operators.RingInstructions(vm, 14, r, 14, t, a, b);
    n := if op == "ADD" then sum else if op == "SUB" then difference else product;
    OneStep(IlProgram(stmts), vm, Instruction(if op == "ADD" then Add else if op == "SUB" then Sub else Mul, [Register(14), Register(r), Register(14)]),
            vm.(regs := vm.regs[14 := Operators.Of(t, n)]));
  }

  lemma Registers()
    ensures REGISTER_COUNT == 16 && USER_REGISTERS == 10
    ensures forall vm: Vm, r: nat :: r < 16 ==> Get(vm, r) == vm.regs[r]
    ensures forall vm: Vm, r: nat, v: Value :: r < 16 ==> Put(vm, r, v) == vm.(regs := vm.regs[r := v])
    ensures forall op :: op in {Add, Sub, Mul, Div, Mod, Opcode.And, Opcode.Or, Xor, Not, Eq, Neq, Gt, Lt, Gte, Lte, Opcode.Load, Opcode.Store} ==> !IsJump(op)
  {
  }

  lemma QuotientSpellings(op: string)
    requires op in {"DIV", "MOD"}
    ensures var m := if op == "DIV" then MDiv else MMod; Spelling(m) == op && TakesOperand(m)
  {
  }

  lemma QuotientLineCode(op: string, x: string, r: u8, base: nat, t: nat)
    requires op in {"DIV", "MOD"}
    ensures var m := if op == "DIV" then MDiv else MMod;
            && UsesRegister(StatementOf(m, x)) && StatementOf(m, x).v == x
            && StmtCode(StatementOf(m, x), r, base, t) == [Instruction(if op == "DIV" then Div else Mod, [Register(14), Register(r), Register(14)])]
  {
  }

  /** DIV x leaves in r14 the quotient of r14 by the register of x, truncated toward zero, MOD x its
      remainder; both leave zero for a DINT divided by zero and abort for other integers divided by zero
      and when the quotient does not fit. */
  lemma QuotientLine(stmts: seq<IlStmt>, i: nat, op: string, x: string, vm: Vm, t: PinType, a: int, b: int) returns (q: int, r: int)
    requires op in {"DIV", "MOD"} && GoodName(x) && AtLine(stmts, i, op + " " + x, vm)
    requires Operators.IsInteger(t) && Operators.InRange(t, a) && Operators.InRange(t, b)
    requires Get(vm, 14) == Operators.Of(t, a) && Get(vm, RegisterAt(stmts, x)) == Operators.Of(t, b)
    ensures var p, n := IlProgram(stmts), if op == "DIV" then q else r;
            if b == 0 && t == PS32 then Reaches(p, vm, 1, Put(vm, 14, S32(0)).(ip := vm.ip + 1))
            else if b == 0 then Step(p, vm) == Faulted(DivisionByZero)
            else if Operators.Signed(t) && 2 * a == -Operators.Size(t) && b == -1 then Step(p, vm) == Faulted(DivisionOverflow)
            else
              && Operators.InRange(t, n) && Reaches(p, vm, 1, Put(vm, 14, Operators.Of(t, n)).(ip := vm.ip + 1))
              && a == b * q + r && Operators.Abs(r) < Operators.Abs(b) && (a >= 0 ==> r >= 0) && (a <= 0 ==> r <= 0)
  {
    hide *;
    Registers();
    QuotientSpellings(op);
    var m := if op == "DIV" then MDiv else MMod;
    LineCode(stmts, i, m, x, vm);
    var v := RegisterAt(stmts, x);
    QuotientLineCode(op, x, RegFor(stmts, stmts[i]), vm.ip, TargetOf(stmts, stmts[i]));
    q, r := Operators.DivisionInstructions(vm, 14, v, 14, t, a, b);
    var p, inst := IlProgram(stmts), Instruction(if op == "DIV" then Div else Mod, [Register(14), Register(v), Register(14)]);
    if b == 0 && t == PS32 {
      OneStep(p, vm, inst, vm.(regs := vm.regs[14 := S32(0)]));
    } else if b == 0 {
      OneFault(p, vm, inst, DivisionByZero);
    } else if Operators.Signed(t) && 2 * a == -Operators.Size(t) && b == -1 {
      OneFault(p, vm, inst, DivisionOverflow);
    } else {
      OneStep(p, vm, inst, vm.(regs := vm.regs[14 := Operators.Of(t, if op == "DIV" then q else r)]));
    }
  }

  // ----- bitwise lines -----

  lemma BitLineCode(x: string, r: u8, base: nat, t: nat)
    ensures Spelling(MXor) == "XOR" && Spelling(MOr) == "OR" && Spelling(MOrn) == "ORN"
    ensures TakesOperand(MXor) && TakesOperand(MOr) && TakesOperand(MOrn)
    ensures UsesRegister(StatementOf(MXor, x)) && UsesRegister(StatementOf(MOr, x)) && UsesRegister(StatementOf(MOrn, x))
    ensures StatementOf(MXor, x).v == x && StatementOf(MOr, x).v == x && StatementOf(MOrn, x).v == x
    ensures StmtCode(StatementOf(MXor, x), r, base, t) == [Instruction(Xor, [Register(14), Register(r), Register(14)])]
    ensures StmtCode(StatementOf(MOr, x), r, base, t) == [Instruction(Opcode.Or, [Register(14), Register(r), Register(14)])]
    ensures StmtCode(StatementOf(MOrn, x), r, base, t)
         == [Instruction(Opcode.Load, [Register(12), Register(r)]), Instruction(Not, [Register(12), Register(12)]),
             Instruction(Opcode.Or, [Register(14), Register(12), Register(14)])]
  {
  }

  /** OR x and XOR x combine r14 with the register of x, bit by bit, or as Booleans. */
  lemma BitLine(stmts: seq<IlStmt>, i: nat, op: string, x: string, vm: Vm, t: PinType, a: int, b: int) returns (n: int)
    requires op in {"OR", "XOR"} && GoodName(x) && AtLine(stmts, i, op + " " + x, vm)
    requires Operators.IsInteger(t) && Operators.InRange(t, a) && Operators.InRange(t, b)
    requires Get(vm, 14) == Operators.Of(t, a) && Get(vm, RegisterAt(stmts, x)) == Operators.Of(t, b)
    ensures Operators.InRange(t, n)
    ensures forall k :: 0 <= k < Operators.Bits(t) ==>
              (Operators.Place(n, k) <==> if op == "OR" then Operators.Place(a, k) || Operators.Place(b, k) else Operators.Place(a, k) != Operators.Place(b, k))
    ensures Reaches(IlProgram(stmts), vm, 1, Put(vm, 14, Operators.Of(t, n)).(ip := vm.ip + 1))
  {
    hide *;
    Registers();
    var r := RegisterAt(stmts, x);
    BitLineCode(x, 0, vm.ip, 0);
    LineCode(stmts, i, if op == "OR" then MOr else MXor, x, vm);
    BitLineCode(x, RegFor(stmts, stmts[i]), vm.ip, TargetOf(stmts, stmts[i]));
    var both, either, one := Operators.BitInstructions(vm, 14, r, 14, t, a, b);
    n := if op == "OR" then either else one;
    OneStep(IlProgram(stmts), vm, Instruction(if op == "OR" then Opcode.Or else Xor, [Register(14), Register(r), Register(14)]),
            vm.(regs := vm.regs[14 := Operators.Of(t, n)]));
  }

  lemma BoolInstructions(vm: Vm, r: u8, a: bool, b: bool)
    requires r < 16 && vm.regs[14] == Bool(a) && vm.regs[r] == Bool(b)
    ensures Execute(vm, Instruction(Opcode.Or, [Register(14), Register(r), Register(14)])) == Running(vm.(regs := vm.regs[14 := Bool(a || b)]))
    ensures Execute(vm, Instruction(Xor, [Register(14), Register(r), Register(14)])) == Running(vm.(regs := vm.regs[14 := Bool(a != b)]))
    ensures Execute(vm, Instruction(Opcode.And, [Register(14), Register(r), Register(14)])) == Running(vm.(regs := vm.regs[14 := Bool(a && b)]))
  {
    Operators.BoolLaws(a, b);
    hide Arith;
    Operators.ThreeOperands(vm, Opcode.Or, 14, r, 14);
    Operators.ThreeOperands(vm, Xor, 14, r, 14);
    Operators.ThreeOperands(vm, Opcode.And, 14, r, 14);
    hide Execute;
  }

  lemma BoolLine(stmts: seq<IlStmt>, i: nat, op: string, x: string, vm: Vm, a: bool, b: bool)
    requires op in {"OR", "XOR"} && GoodName(x) && AtLine(stmts, i, op + " " + x, vm)
    requires Get(vm, 14) == Bool(a) && Get(vm, RegisterAt(stmts, x)) == Bool(b)
    ensures Reaches(IlProgram(stmts), vm, 1, Put(vm, 14, Bool(if op == "OR" then a || b else a != b)).(ip := vm.ip + 1))
  {
    hide *;
    Registers();
    var r := RegisterAt(stmts, x);
    BitLineCode(x, 0, vm.ip, 0);
    LineCode(stmts, i, if op == "OR" then MOr else MXor, x, vm);
    BitLineCode(x, RegFor(stmts, stmts[i]), vm.ip, TargetOf(stmts, stmts[i]));
    BoolInstructions(vm, r, a, b);
    OneStep(IlProgram(stmts), vm, Instruction(if op == "OR" then Opcode.Or else Xor, [Register(14), Register(r), Register(14)]),
            vm.(regs := vm.regs[14 := Bool(if op == "OR" then a || b else a != b)]));
  }

  lemma LoadAndFlip(vm: Vm, r: u8, b: bool)
    requires r < 10 && vm.regs[r] == Bool(b)
    ensures Execute(vm, Instruction(Opcode.Load, [Register(12), Register(r)])) == Running(vm.(regs := vm.regs[12 := Bool(b)]))
    ensures vm.regs[12] == Bool(b) ==> Execute(vm, Instruction(Not, [Register(12), Register(12)])) == Running(vm.(regs := vm.regs[12 := Bool(!b)]))
  {
  }

  /** ORN x combines r14 with the negated register of x, through r12. */
  lemma OrNotLine(stmts: seq<IlStmt>, i: nat, x: string, vm: Vm, a: bool, b: bool)
    requires GoodName(x) && AtLine(stmts, i, "ORN" + " " + x, vm)
    requires Get(vm, 14) == Bool(a) && Get(vm, RegisterAt(stmts, x)) == Bool(b)
    ensures Reaches(IlProgram(stmts), vm, 3, Put(Put(vm, 12, Bool(!b)), 14, Bool(a || !b)).(ip := vm.ip + 3))
  {
    hide *;
    Registers();
    var r, p := RegisterAt(stmts, x), IlProgram(stmts);
    BitLineCode(x, 0, vm.ip, 0);
    LineCode(stmts, i, MOrn, x, vm);
    BitLineCode(x, RegFor(stmts, stmts[i]), vm.ip, TargetOf(stmts, stmts[i]));
    var c1, c2, c3 := Instruction(Opcode.Load, [Register(12), Register(r)]), Instruction(Not, [Register(12), Register(12)]), Instruction(Opcode.Or, [Register(14), Register(12), Register(14)]);
    assert [c1, c2, c3] == [c1] + [c2] + [c3];
    CodeSplit3(p, vm.ip, [c1], [c2], [c3]);
    LoadAndFlip(vm, r, b);
    OneStep(p, vm, c1, vm.(regs := vm.regs[12 := Bool(b)]));
    var v1 := vm.(ip := vm.ip + 1, regs := vm.regs[12 := Bool(b)]);
    LoadAndFlip(v1, r, b);
    OneStep(p, v1, c2, v1.(regs := v1.regs[12 := Bool(!b)]));
    var v2 := v1.(ip := v1.ip + 1, regs := v1.regs[12 := Bool(!b)]);
    assert v2.regs == vm.regs[12 := Bool(!b)];
    BoolInstructions(v2, 12, a, !b);
    OneStep(p, v2, c3, v2.(regs := v2.regs[14 := Bool(a || !b)]));
    var v3 := v2.(ip := v2.ip + 1, regs := v2.regs[14 := Bool(a || !b)]);
    ReachesTrans(p, vm, 1, v1, 1, v2);
    ReachesTrans(p, vm, 2, v2, 1, v3);
  }

  // ----- comparisons -----

  lemma ComparisonSpellings(op: string)
    requires op in {"GT", "GE", "EQ", "NE", "LE", "LT"}
    ensures Spelling(ComparisonMnemonic(op)) == op && TakesOperand(ComparisonMnemonic(op))
  {
  }

  function ComparisonMnemonic(op: string): Mnemonic {
    if op == "GT" then MGt else if op == "GE" then MGe else if op == "EQ" then MEq
    else if op == "NE" then MNe else if op == "LE" then MLe else MLt
  }

  function ComparisonOpcode(op: string): Opcode {
    if op == "GT" then Gt else if op == "GE" then Gte else if op == "EQ" then Eq
    else if op == "NE" then Neq else if op == "LE" then Lte else Lt
  }

  predicate Compares(op: string, a: int, b: int) {
    if op == "GT" then a > b else if op == "GE" then a >= b else if op == "EQ" then a == b
    else if op == "NE" then a != b else if op == "LE" then a <= b else a < b
  }

  lemma ComparisonLineCode(op: string, x: string, r: u8, base: nat, t: nat)
    requires op in {"GT", "GE", "EQ", "NE", "LE", "LT"}
    ensures var s := StatementOf(ComparisonMnemonic(op), x);
            && UsesRegister(s) && s.v == x
            && StmtCode(s, r, base, t)
               == [Instruction(ComparisonOpcode(op), [Register(14), Register(r)]), JumpIfTo(base + 4), LoadImm(14, Bool(false)), JumpTo(base + 6), LoadImm(14, Bool(true))]
  {
  }

  lemma ComparisonRuns(vm: Vm, op: string, r: u8, t: PinType, a: int, b: int)
    requires op in {"GT", "GE", "EQ", "NE", "LE", "LT"} && r < 16
    requires Operators.IsInteger(t) && Operators.InRange(t, a) && Operators.InRange(t, b)
    requires vm.regs[14] == Operators.Of(t, a) && vm.regs[r] == Operators.Of(t, b)
    ensures Execute(vm, Instruction(ComparisonOpcode(op), [Register(14), Register(r)])) == Running(vm.(flag := Compares(op, a, b)))
    ensures !IsJump(ComparisonOpcode(op))
  {
    hide Operators.Of, Operators.InRange, Execute;
    Operators.ComparisonInstructions(vm, 14, r, t, a, b);
  }

  lemma SmallTargets(stmts: seq<IlStmt>, i: nat, line: string, vm: Vm)
    requires AtLine(stmts, i, line, vm) && stmts[i].Cmp?
    ensures vm.ip + 6 < 0x1_0000_0000
  {
    hide IlProgram, LineStatements, VarOrder, StmtCode;
    StatementInProgram(stmts, i, 4);
  }

  lemma ComparisonIs(op: string, x: string)
    requires op in {"GT", "GE", "EQ", "NE", "LE", "LT"}
    ensures StatementOf(ComparisonMnemonic(op), x).Cmp?
  {
  }

  /** GT, GE, EQ, NE, LE and LT x compare r14 with the register of x and leave the result in r14 as a
      Boolean. When it is TRUE the machine goes on behind the line, when it is FALSE one instruction
      further, leaving out the first instruction of the next line. */
  lemma ComparisonLine(stmts: seq<IlStmt>, i: nat, op: string, x: string, vm: Vm, t: PinType, a: int, b: int)
    requires op in {"GT", "GE", "EQ", "NE", "LE", "LT"} && GoodName(x) && AtLine(stmts, i, op + " " + x, vm)
    requires Operators.IsInteger(t) && Operators.InRange(t, a) && Operators.InRange(t, b)
    requires Get(vm, 14) == Operators.Of(t, a) && Get(vm, RegisterAt(stmts, x)) == Operators.Of(t, b)
    ensures var holds := Compares(op, a, b);
            Reaches(IlProgram(stmts), vm, if holds then 3 else 4,
                    vm.(flag := holds, regs := vm.regs[14 := Bool(holds)], ip := if holds then vm.ip + 5 else vm.ip + 6))
  {
    hide *;
    Registers();
    var r, p, m := RegisterAt(stmts, x), IlProgram(stmts), ComparisonMnemonic(op);
    ComparisonSpellings(op);
    LineCode(stmts, i, m, x, vm);
    ComparisonIs(op, x);
    SmallTargets(stmts, i, op + " " + x, vm);
    ComparisonLineCode(op, x, RegFor(stmts, stmts[i]), vm.ip, TargetOf(stmts, stmts[i]));
    var holds := Compares(op, a, b);
    var test := Instruction(ComparisonOpcode(op), [Register(14), Register(r)]);
    var code := [test, JumpIfTo(vm.ip + 4), LoadImm(14, Bool(false)), JumpTo(vm.ip + 6), LoadImm(14, Bool(true))];
    InstructionAt(p, vm.ip, code, 0);
    InstructionAt(p, vm.ip, code, 1);
    InstructionAt(p, vm.ip, code, 2);
    InstructionAt(p, vm.ip, code, 3);
    InstructionAt(p, vm.ip, code, 4);
    ComparisonRuns(vm, op, r, t, a, b);
    AdvanceAndSet(vm.(flag := holds), 14, Bool(holds));
    StepOne(p, vm, vm.(flag := holds));
    var v1 := vm.(flag := holds, ip := vm.ip + 1);
    TargetsFit(vm.ip);
    StepJumpIf(p, v1, vm.ip + 4);
    var v2 := v1.(ip := if holds then vm.ip + 4 else vm.ip + 2);
    ReachesTrans(p, vm, 1, v1, 1, v2);
    AdvanceAndSet(v2, 14, Bool(holds));
    StepLoadImm(p, v2, 14, Bool(holds));
    var v3 := v2.(regs := v2.regs[14 := Bool(holds)], ip := v2.ip + 1);
    ReachesTrans(p, vm, 2, v2, 1, v3);
    if !holds {
      StepJump(p, v3, vm.ip + 6);
      ReachesTrans(p, vm, 3, v3, 1, v3.(ip := vm.ip + 6));
    }
  }

  lemma AdvanceAndSet(vm: Vm, r: u8, v: Value)
    requires r < REGISTER_COUNT
    ensures AdvanceIp(SetReg(vm, r, v)) == vm.(regs := vm.regs[r := v], ip := vm.ip + 1) && AdvanceIp(vm) == vm.(ip := vm.ip + 1)
  {
  }

  lemma TargetsFit(at: nat)
    requires at + 6 < 0x1_0000_0000
    ensures at + 4 < TWO_32 && at + 6 < TWO_32
  {
  }

  // ----- jumps -----

  /** The label `l` stands at statement `n`: its last definition, or the end of the program. */
  predicate LabelAt(stmts: seq<IlStmt>, l: string, n: nat) {
    && n <= |stmts|
    && (n < |stmts| ==> stmts[n] == Label(l))
    && forall j :: 0 <= j < |stmts| && (j > n || n == |stmts|) ==> stmts[j] != Label(l)
  }

  lemma LabelFound(stmts: seq<IlStmt>, l: string, n: nat)
    requires LabelAt(stmts, l, n)
    ensures n <= |stmts| && LabelIndex(stmts, l) == n
  {
    var k := LabelIndex(stmts, l);
    hide LabelIndex;
    if k < |stmts| {
      assert stmts[k] == Label(l);
    }
    if n < |stmts| {
      assert stmts[n] == Label(l);
    }
  }

  lemma JumpSpellings(l: string)
    ensures Spelling(MJmp) == "JMP" && Spelling(MJmpc) == "JMPC" && Spelling(MJmpcn) == "JMPCN" && Spelling(MCal) == "CAL"
    ensures TakesOperand(MJmp) && TakesOperand(MJmpc) && TakesOperand(MJmpcn) && TakesOperand(MCal)
  {
  }

  lemma {:induction false} JumpCode(stmts: seq<IlStmt>, l: string, r: u8, base: nat, t: nat)
    ensures TargetOf(stmts, StatementOf(MJmp, l)) == Addr(stmts, LabelIndex(stmts, l)) == TargetOf(stmts, StatementOf(MJmpc, l))
    ensures TargetOf(stmts, StatementOf(MJmpcn, l)) == Addr(stmts, LabelIndex(stmts, l)) == TargetOf(stmts, StatementOf(MCal, l))
    ensures StmtCode(StatementOf(MJmp, l), r, base, t) == [JumpTo(t)]
    ensures StmtCode(StatementOf(MCal, l), r, base, t) == [CallTo(t)]
    ensures StmtCode(StatementOf(MJmpc, l), r, base, t) == [Instruction(Eq, [Register(14), Register(15)]), JumpIfTo(t)]
    ensures StmtCode(StatementOf(MJmpcn, l), r, base, t) == [Instruction(Neq, [Register(14), Register(15)]), JumpIfTo(t)]
  {
    hide Addr, LabelIndex;
  }

  lemma {:induction false} AddressFits(stmts: seq<IlStmt>, n: nat)
    requires n <= |stmts| && |IlProgram(stmts)| < TWO_32
    ensures Addr(stmts, n) < TWO_32
  {
    hide IlProgram, Addr;
    HaltAtEnd(stmts);
    AddrMonotone(stmts, n, |stmts|);
  }

  /** JMP l goes on at the label. */
  lemma {:induction false} JumpLine(stmts: seq<IlStmt>, i: nat, l: string, n: nat, vm: Vm)
    requires GoodName(l) && AtLine(stmts, i, "JMP" + " " + l, vm) && LabelAt(stmts, l, n)
    ensures Reaches(IlProgram(stmts), vm, 1, vm.(ip := Addr(stmts, n)))
  {
    hide *;
    Registers();
    JumpSpellings(l);
    LabelFound(stmts, l, n);
    LineCode(stmts, i, MJmp, l, vm);
    JumpCode(stmts, l, RegFor(stmts, stmts[i]), vm.ip, Addr(stmts, n));
    Placed(stmts, i, "JMP" + " " + l, n, vm);
    FirstInstruction(IlProgram(stmts), vm.ip, JumpTo(Addr(stmts, n)));
    StepJump(IlProgram(stmts), vm, Addr(stmts, n));
  }

  lemma {:induction false} Placed(stmts: seq<IlStmt>, i: nat, line: string, n: nat, vm: Vm)
    requires AtLine(stmts, i, line, vm) && n <= |stmts|
    ensures Addr(stmts, n) < TWO_32
  {
    AddressFits(stmts, n);
  }

  lemma TestRuns(vm: Vm)
    requires vm.regs[15] == Bool(true)
    ensures Execute(vm, Instruction(Eq, [Register(14), Register(15)])) == Running(vm.(flag := vm.regs[14] == Bool(true)))
    ensures Execute(vm, Instruction(Neq, [Register(14), Register(15)])) == Running(vm.(flag := vm.regs[14] != Bool(true)))
  {
  }

  /** JMPC l goes on at the label exactly when r14 is TRUE, JMPCN l exactly when it is not; otherwise the
      machine goes on behind the line. */
  lemma {:induction false} ConditionalJumpLine(stmts: seq<IlStmt>, i: nat, op: string, l: string, n: nat, vm: Vm)
    requires op in {"JMPC", "JMPCN"} && GoodName(l) && AtLine(stmts, i, op + " " + l, vm) && LabelAt(stmts, l, n)
    requires Get(vm, 15) == Bool(true)
    ensures var jumps := if op == "JMPC" then Get(vm, 14) == Bool(true) else Get(vm, 14) != Bool(true);
            Reaches(IlProgram(stmts), vm, 2, vm.(flag := jumps, ip := if jumps then Addr(stmts, n) else vm.ip + 2))
  {
    hide *;
    Registers();
    LabelFound(stmts, l, n);
    var p, m, t := IlProgram(stmts), if op == "JMPC" then MJmpc else MJmpcn, Addr(stmts, n);
    JumpSpellings(l);
    LineCode(stmts, i, m, l, vm);
    JumpCode(stmts, l, RegFor(stmts, stmts[i]), vm.ip, t);
    Placed(stmts, i, op + " " + l, n, vm);
    var test := Instruction(if op == "JMPC" then Eq else Neq, [Register(14), Register(15)]);
    var code := [test, JumpIfTo(t)];
    InstructionAt(p, vm.ip, code, 0);
    InstructionAt(p, vm.ip, code, 1);
    TestRuns(vm);
    var jumps := if op == "JMPC" then vm.regs[14] == Bool(true) else vm.regs[14] != Bool(true);
    StepOne(p, vm, vm.(flag := jumps));
    AdvanceAndSet(vm.(flag := jumps), 14, Bool(true));
    var v1 := vm.(flag := jumps, ip := vm.ip + 1);
    StepJumpIf(p, v1, t);
    ReachesTrans(p, vm, 1, v1, 1, v1.(ip := if jumps then t else vm.ip + 2));
  }

  /** The same of the IL machine: the line goes to the label exactly when the accumulator is TRUE, exactly
      when it is not, or always. */
  lemma JumpSteps(stmts: seq<IlStmt>, s: IlCorrect.Il, op: string, l: string, n: nat)
    requires s.pc < |stmts| && GoodName(l) && op in {"JMP", "JMPC", "JMPCN"} && LabelAt(stmts, l, n)
    requires LineStatements(op + " " + l) == [stmts[s.pc]]
    ensures IlCorrect.IlStep(stmts, s)
         == s.(pc := if op == "JMP" || (s.acc == Bool(true) <==> op == "JMPC") then n else s.pc + 1)
  {
    hide LineStatements, LabelIndex, LabelAt, GoodName, Spelling;
    JumpSpellings(l);
    LabelFound(stmts, l, n);
    OperandLine(if op == "JMP" then MJmp else if op == "JMPC" then MJmpc else MJmpcn, l);
  }

  // ----- calls and returns -----

  /** CAL f goes on at the label and notes the place behind the line. */
  lemma {:induction false} CallLine(stmts: seq<IlStmt>, i: nat, l: string, n: nat, vm: Vm)
    requires GoodName(l) && AtLine(stmts, i, "CAL" + " " + l, vm) && LabelAt(stmts, l, n)
    ensures Reaches(IlProgram(stmts), vm, 1, vm.(ip := Addr(stmts, n), calls := vm.calls + [vm.ip + 1]))
  {
    hide *;
    Registers();
    JumpSpellings(l);
    LineCode(stmts, i, MCal, l, vm);
    LabelFound(stmts, l, n);
    JumpCode(stmts, l, RegFor(stmts, stmts[i]), vm.ip, Addr(stmts, n));
    Placed(stmts, i, "CAL" + " " + l, n, vm);
    FirstInstruction(IlProgram(stmts), vm.ip, CallTo(Addr(stmts, n)));
    StepCall(IlProgram(stmts), vm, Addr(stmts, n));
  }

  lemma StepCall(p: Program, vm: Vm, t: nat)
    requires vm.ip < |p| && p[vm.ip] == CallTo(t) && t < TWO_32
    ensures Reaches(p, vm, 1, vm.(ip := t, calls := vm.calls + [vm.ip + 1]))
  {
  }

  lemma BareCode(r: u8, base: nat, t: nat)
    ensures Spelling(MRet) == "RET" && Spelling(MNot) == "NOT" && !TakesOperand(MRet) && !TakesOperand(MNot)
    ensures !UsesRegister(StatementOf(MRet, "")) && !UsesRegister(StatementOf(MNot, ""))
    ensures StmtCode(StatementOf(MRet, ""), r, base, t) == [Instruction(Ret, [])]
    ensures StmtCode(StatementOf(MNot, ""), r, base, t) == [Instruction(Not, [Register(14), Register(14)])]
  {
  }

  lemma BareLineCode(stmts: seq<IlStmt>, i: nat, m: Mnemonic, vm: Vm)
    requires AtLine(stmts, i, Spelling(m), vm) && !TakesOperand(m)
    ensures i < |stmts| && stmts[i] == StatementOf(m, "")
    ensures CodeAt(IlProgram(stmts), vm.ip, StmtCode(StatementOf(m, ""), RegisterFor(VarOrder(stmts), stmts[i]), vm.ip, TargetOf(stmts, stmts[i])))
  {
    BareLine(m);
    hide LineStatements, Spelling, StatementOf, IlProgram, StmtCode, TargetOf, VarOrder, RegisterFor;
    CodeInPlace(stmts, i);
  }

  lemma StepReturn(p: Program, vm: Vm)
    requires vm.ip < |p| && p[vm.ip] == Instruction(Ret, [])
    ensures vm.calls == [] ==> Step(p, vm) == Halted(vm.(ip := vm.ip + 1))
    ensures vm.calls != [] ==>
              Reaches(p, vm, 1, vm.(ip := vm.calls[|vm.calls| - 1] + 1, calls := vm.calls[..|vm.calls| - 1]))
  {
  }

  /** RET ends the program, or goes on one instruction behind the noted place. */
  lemma ReturnLine(stmts: seq<IlStmt>, i: nat, vm: Vm)
    requires AtLine(stmts, i, "RET", vm)
    ensures vm.calls == [] ==> Step(IlProgram(stmts), vm) == Halted(vm.(ip := vm.ip + 1))
    ensures vm.calls != [] ==>
              Reaches(IlProgram(stmts), vm, 1, vm.(ip := vm.calls[|vm.calls| - 1] + 1, calls := vm.calls[..|vm.calls| - 1]))
  {
    hide *;
    Registers();
    BareCode(0, vm.ip, 0);
    BareLineCode(stmts, i, MRet, vm);
    BareCode(RegisterFor(VarOrder(stmts), stmts[i]), vm.ip, TargetOf(stmts, stmts[i]));
    FirstInstruction(IlProgram(stmts), vm.ip, Instruction(Ret, []));
    StepReturn(IlProgram(stmts), vm);
  }

  /** NOT negates r14. */
  lemma NotLine(stmts: seq<IlStmt>, i: nat, vm: Vm, a: bool)
    requires AtLine(stmts, i, "NOT", vm) && Get(vm, 14) == Bool(a)
    ensures Reaches(IlProgram(stmts), vm, 1, Put(vm, 14, Bool(!a)).(ip := vm.ip + 1))
  {
    hide *;
    Registers();
    BareCode(0, vm.ip, 0);
    BareLineCode(stmts, i, MNot, vm);
    BareCode(RegisterFor(VarOrder(stmts), stmts[i]), vm.ip, TargetOf(stmts, stmts[i]));
    FlipRuns(vm, 14, a);
    OneStep(IlProgram(stmts), vm, Instruction(Not, [Register(14), Register(14)]), vm.(regs := vm.regs[14 := Bool(!a)]));
  }

  lemma FlipRuns(vm: Vm, r: u8, a: bool)
    requires r < 16 && vm.regs[r] == Bool(a)
    ensures Execute(vm, Instruction(Not, [Register(r), Register(r)])) == Running(vm.(regs := vm.regs[r := Bool(!a)]))
  {
  }

  // ----- lines that only touch the variable's register -----

  lemma SetSpellings(x: string, r: u8, base: nat, t: nat)
    ensures Spelling(MS) == "S" && Spelling(MR) == "R" && TakesOperand(MS) && TakesOperand(MR)
    ensures UsesRegister(StatementOf(MS, x)) && UsesRegister(StatementOf(MR, x)) && StatementOf(MS, x).v == x == StatementOf(MR, x).v
    ensures StmtCode(StatementOf(MS, x), r, base, t) == [LoadImm(r, Bool(true))]
    ensures StmtCode(StatementOf(MR, x), r, base, t) == [LoadImm(r, Bool(false))]
  {
  }

  /** S x and R x put TRUE and FALSE into the register of x, whatever r14 holds; no signal changes. */
  lemma SetLine(stmts: seq<IlStmt>, i: nat, op: string, x: string, vm: Vm)
    requires op in {"S", "R"} && GoodName(x) && AtLine(stmts, i, op + " " + x, vm)
    ensures Reaches(IlProgram(stmts), vm, 1, Put(vm, RegisterAt(stmts, x), Bool(op == "S")).(ip := vm.ip + 1))
  {
    hide *;
    Registers();
    SetSpellings(x, 0, vm.ip, 0);
    LineCode(stmts, i, if op == "S" then MS else MR, x, vm);
    var r := RegisterAt(stmts, x);
    SetSpellings(x, r, vm.ip, TargetOf(stmts, stmts[i]));
    FirstInstruction(IlProgram(stmts), vm.ip, LoadImm(r, Bool(op == "S")));
    StepLoadImm(IlProgram(stmts), vm, r, Bool(op == "S"));
    AdvanceAndSet(vm, r, Bool(op == "S"));
  }

  function BlockMnemonic(op: string): Mnemonic {
    if op == "TON" then MTon else if op == "TOF" then MTof else if op == "TP" then MTp else if op == "CTU" then MCtu
    else if op == "CTD" then MCtd else if op == "R_TRIG" then MRTrig else if op == "F_TRIG" then MFTrig
    else if op == "SR" then MSr else MRs
  }

  lemma BlockSpellings(op: string, x: string)
    requires op in {"TON", "TOF", "TP", "CTU", "CTD", "R_TRIG", "F_TRIG", "SR", "RS"}
    ensures Spelling(BlockMnemonic(op)) == op && TakesOperand(BlockMnemonic(op))
  {
  }

  lemma BlockStatement(op: string, x: string) returns (s: IlStmt)
    requires op in {"TON", "TOF", "TP", "CTU", "CTD", "R_TRIG", "F_TRIG", "SR", "RS"}
    ensures s == StatementOf(BlockMnemonic(op), x) && s.RunFb?
  {
    s := StatementOf(BlockMnemonic(op), x);
  }

  lemma BlockCode(op: string, x: string, r: u8, base: nat, t: nat) returns (inst: Instruction)
    requires op in {"TON", "TOF", "TP", "CTU", "CTD", "R_TRIG", "F_TRIG", "SR", "RS"}
    ensures StmtCode(StatementOf(BlockMnemonic(op), x), r, base, t) == [inst]
    ensures inst.opcode in {TimerRun, CounterRun, EdgeRun, SrRun} && inst.operands == [Register(r)]
  {
    var s := BlockStatement(op, x);
    hide StatementOf;
    inst := StmtCode(s, r, base, t)[0];
  }

  lemma TooFewOperands(vm: Vm, inst: Instruction)
    requires inst.opcode in {TimerRun, CounterRun, EdgeRun, SrRun} && |inst.operands| == 1
    ensures Execute(vm, inst) == Running(vm) && !IsJump(inst.opcode)
  {
  }

  /** The block lines run no block: their single operand is too few for the machine, which moves on. */
  lemma BlockLine(stmts: seq<IlStmt>, i: nat, op: string, x: string, vm: Vm)
    requires op in {"TON", "TOF", "TP", "CTU", "CTD", "R_TRIG", "F_TRIG", "SR", "RS"}
    requires GoodName(x) && AtLine(stmts, i, op + " " + x, vm)
    ensures Reaches(IlProgram(stmts), vm, 1, vm.(ip := vm.ip + 1))
  {
    hide *;
    Registers();
    BlockSpellings(op, x);
    LineCode(stmts, i, BlockMnemonic(op), x, vm);
    var inst := BlockCode(op, x, RegFor(stmts, stmts[i]), vm.ip, TargetOf(stmts, stmts[i]));
    TooFewOperands(vm, inst);
    OneStep(IlProgram(stmts), vm, inst, vm);
  }

  // ----- loads, stores and conjunctions -----

  lemma SignalSpellings()
    ensures Spelling(MLd) == "LD" && Spelling(MLdn) == "LDN" && Spelling(MSt) == "ST" && Spelling(MAnd) == "AND" && Spelling(MAndn) == "ANDN"
    ensures TakesOperand(MLd) && TakesOperand(MLdn) && TakesOperand(MSt) && TakesOperand(MAnd) && TakesOperand(MAndn)
  {
  }

  lemma SignalCode(x: string, r: u8, base: nat, t: nat)
    ensures UsesRegister(StatementOf(MLd, x)) && UsesRegister(StatementOf(MLdn, x)) && UsesRegister(StatementOf(MAnd, x)) && UsesRegister(StatementOf(MAndn, x))
    ensures StatementOf(MLd, x).v == StatementOf(MLdn, x).v == StatementOf(MAnd, x).v == StatementOf(MAndn, x).v == x
    ensures StmtCode(StatementOf(MLd, x), r, base, t) == [LoadSignal(r, x), LoadReg(14, r)]
    ensures StmtCode(StatementOf(MLdn, x), r, base, t) == [LoadSignal(r, x), LoadReg(14, r), Instruction(Not, [Register(14), Register(14)])]
    ensures StmtCode(StatementOf(MSt, x), r, base, t) == [StoreSignal(x, 14)]
    ensures StmtCode(StatementOf(MAnd, x), r, base, t) == [LoadSignal(r, x), Instruction(Opcode.And, [Register(14), Register(r), Register(14)])]
    ensures StmtCode(StatementOf(MAndn, x), r, base, t)
         == [LoadSignal(r, x), LoadReg(12, r), Instruction(Not, [Register(12), Register(12)]), Instruction(Opcode.And, [Register(14), Register(12), Register(14)])]
  {
  }

  /** ST x writes r14 to the signal x. */
  lemma StoreLine(stmts: seq<IlStmt>, i: nat, x: string, vm: Vm)
    requires GoodName(x) && AtLine(stmts, i, "ST" + " " + x, vm)
    ensures Reaches(IlProgram(stmts), vm, 1, vm.(ip := vm.ip + 1, signals := vm.signals[x := Get(vm, 14)]))
  {
    hide *;
    Registers();
    SignalSpellings();
    LineCode(stmts, i, MSt, x, vm);
    SignalCode(x, RegFor(stmts, stmts[i]), vm.ip, TargetOf(stmts, stmts[i]));
    FirstInstruction(IlProgram(stmts), vm.ip, StoreSignal(x, 14));
    StepStore(IlProgram(stmts), vm, x, 14);
    AdvanceAndSet(vm.(signals := vm.signals[x := vm.regs[14]]), 14, Bool(true));
  }

  lemma LoadsSignal(p: Program, vm: Vm, r: u8, x: string)
    requires vm.ip < |p| && p[vm.ip] == LoadSignal(r, x) && r < 16
    ensures Reaches(p, vm, 1, vm.(ip := vm.ip + 1, regs := vm.regs[r := if x in vm.signals then vm.signals[x] else Bool(false)]))
  {
  }

  lemma LoadsRegister(p: Program, vm: Vm, r: u8, src: u8)
    requires vm.ip < |p| && p[vm.ip] == LoadReg(r, src) && r < 16 && src < 16
    ensures Reaches(p, vm, 1, vm.(ip := vm.ip + 1, regs := vm.regs[r := vm.regs[src]]))
  {
  }

  /** LD x brings the signal x to its register and to r14; an unset signal reads as FALSE. */
  lemma LoadLine(stmts: seq<IlStmt>, i: nat, x: string, vm: Vm)
    requires GoodName(x) && AtLine(stmts, i, "LD" + " " + x, vm)
    ensures var v := if x in vm.signals then vm.signals[x] else Bool(false);
            Reaches(IlProgram(stmts), vm, 2, Put(Put(vm, RegisterAt(stmts, x), v), 14, v).(ip := vm.ip + 2))
  {
    hide *;
    Registers();
    SignalSpellings();
    SignalCode(x, 0, vm.ip, 0);
    LineCode(stmts, i, MLd, x, vm);
    var p, r, v := IlProgram(stmts), RegisterAt(stmts, x), if x in vm.signals then vm.signals[x] else Bool(false);
    SignalCode(x, r, vm.ip, TargetOf(stmts, stmts[i]));
    LoadPair(p, vm, r, 14, x, StmtCode(StatementOf(MLd, x), r, vm.ip, TargetOf(stmts, stmts[i])));
  }

  /** A signal brought to its register and from there to another. */
  lemma LoadPair(p: Program, vm: Vm, r: u8, to: u8, x: string, code: seq<Instruction>)
    requires CodeAt(p, vm.ip, code) && |code| >= 2 && code[0] == LoadSignal(r, x) && code[1] == LoadReg(to, r) && r < 16 && to < 16
    ensures var v := if x in vm.signals then vm.signals[x] else Bool(false);
            Reaches(p, vm, 2, vm.(ip := vm.ip + 2, regs := vm.regs[r := v][to := v]))
  {
    hide *;
    Registers();
    var v := if x in vm.signals then vm.signals[x] else Bool(false);
    InstructionAt(p, vm.ip, code, 0);
    InstructionAt(p, vm.ip, code, 1);
    LoadsSignal(p, vm, r, x);
    var v1 := vm.(ip := vm.ip + 1, regs := vm.regs[r := v]);
    LoadsRegister(p, v1, to, r);
    ReachesTrans(p, vm, 1, v1, 1, vm.(ip := vm.ip + 2, regs := vm.regs[r := v][to := v]));
  }

  /** LDN x brings the negated signal to r14. */
  lemma LoadNotLine(stmts: seq<IlStmt>, i: nat, x: string, vm: Vm, b: bool)
    requires GoodName(x) && AtLine(stmts, i, "LDN" + " " + x, vm) && (if x in vm.signals then vm.signals[x] == Bool(b) else !b)
    ensures Reaches(IlProgram(stmts), vm, 3, Put(Put(vm, RegisterAt(stmts, x), Bool(b)), 14, Bool(!b)).(ip := vm.ip + 3))
  {
    hide *;
    Registers();
    SignalSpellings();
    SignalCode(x, 0, vm.ip, 0);
    LineCode(stmts, i, MLdn, x, vm);
    var p, r := IlProgram(stmts), RegisterAt(stmts, x);
    SignalCode(x, r, vm.ip, TargetOf(stmts, stmts[i]));
    var code := StmtCode(StatementOf(MLdn, x), r, vm.ip, TargetOf(stmts, stmts[i]));
    LoadPair(p, vm, r, 14, x, code);
    var v2 := vm.(ip := vm.ip + 2, regs := vm.regs[r := Bool(b)][14 := Bool(b)]);
    InstructionAt(p, vm.ip, code, 2);
    FlipStep(p, v2, 14, b);
    var v3 := v2.(ip := v2.ip + 1, regs := v2.regs[14 := Bool(!b)]);
    ReachesTrans(p, vm, 2, v2, 1, v3);
    assert v3.regs == vm.regs[r := Bool(b)][14 := Bool(!b)];
  }

  lemma FlipStep(p: Program, vm: Vm, r: u8, a: bool)
    requires vm.ip < |p| && p[vm.ip] == Instruction(Not, [Register(r), Register(r)]) && r < 16 && vm.regs[r] == Bool(a)
    ensures Reaches(p, vm, 1, vm.(ip := vm.ip + 1, regs := vm.regs[r := Bool(!a)]))
  {
    hide *;
    Registers();
    FlipRuns(vm, r, a);
    StepOne(p, vm, vm.(regs := vm.regs[r := Bool(!a)]));
    AdvanceAndSet(vm.(regs := vm.regs[r := Bool(!a)]), 14, Bool(true));
  }

  lemma AndStep(p: Program, vm: Vm, r: u8, a: bool, b: bool)
    requires vm.ip < |p| && p[vm.ip] == Instruction(Opcode.And, [Register(14), Register(r), Register(14)])
    requires r < 16 && vm.regs[14] == Bool(a) && vm.regs[r] == Bool(b)
    ensures Reaches(p, vm, 1, vm.(ip := vm.ip + 1, regs := vm.regs[14 := Bool(a && b)]))
  {
    hide *;
    Registers();
    BoolInstructions(vm, r, a, b);
    StepOne(p, vm, vm.(regs := vm.regs[14 := Bool(a && b)]));
    AdvanceAndSet(vm.(regs := vm.regs[14 := Bool(a && b)]), 14, Bool(true));
  }

  /** AND x brings the signal x to its register and combines it with r14. */
  lemma AndLine(stmts: seq<IlStmt>, i: nat, x: string, vm: Vm, a: bool, b: bool)
    requires GoodName(x) && AtLine(stmts, i, "AND" + " " + x, vm)
    requires Get(vm, 14) == Bool(a) && (if x in vm.signals then vm.signals[x] == Bool(b) else !b)
    ensures Reaches(IlProgram(stmts), vm, 2, Put(Put(vm, RegisterAt(stmts, x), Bool(b)), 14, Bool(a && b)).(ip := vm.ip + 2))
  {
    hide *;
    Registers();
    SignalSpellings();
    SignalCode(x, 0, vm.ip, 0);
    LineCode(stmts, i, MAnd, x, vm);
    var p, r := IlProgram(stmts), RegisterAt(stmts, x);
    SignalCode(x, r, vm.ip, TargetOf(stmts, stmts[i]));
    var code := StmtCode(StatementOf(MAnd, x), r, vm.ip, TargetOf(stmts, stmts[i]));
    InstructionAt(p, vm.ip, code, 0);
    InstructionAt(p, vm.ip, code, 1);
    LoadsSignal(p, vm, r, x);
    var v1 := vm.(ip := vm.ip + 1, regs := vm.regs[r := Bool(b)]);
    AndStep(p, v1, r, a, b);
    ReachesTrans(p, vm, 1, v1, 1, v1.(ip := vm.ip + 2, regs := v1.regs[14 := Bool(a && b)]));
  }

  /** ANDN x combines r14 with the negated signal x, through r12. */
  lemma AndNotLine(stmts: seq<IlStmt>, i: nat, x: string, vm: Vm, a: bool, b: bool)
    requires GoodName(x) && AtLine(stmts, i, "ANDN" + " " + x, vm)
    requires Get(vm, 14) == Bool(a) && (if x in vm.signals then vm.signals[x] == Bool(b) else !b)
    ensures Reaches(IlProgram(stmts), vm, 4,
                    Put(Put(Put(vm, RegisterAt(stmts, x), Bool(b)), 12, Bool(!b)), 14, Bool(a && !b)).(ip := vm.ip + 4))
  {
    hide *;
    Registers();
    SignalSpellings();
    SignalCode(x, 0, vm.ip, 0);
    LineCode(stmts, i, MAndn, x, vm);
    var p, r := IlProgram(stmts), RegisterAt(stmts, x);
    SignalCode(x, r, vm.ip, TargetOf(stmts, stmts[i]));
    var code := StmtCode(StatementOf(MAndn, x), r, vm.ip, TargetOf(stmts, stmts[i]));
    LoadPair(p, vm, r, 12, x, code);
    var v2 := vm.(ip := vm.ip + 2, regs := vm.regs[r := Bool(b)][12 := Bool(b)]);
    InstructionAt(p, vm.ip, code, 2);
    InstructionAt(p, vm.ip, code, 3);
    FlipStep(p, v2, 12, b);
    var v3 := v2.(ip := v2.ip + 1, regs := v2.regs[12 := Bool(!b)]);
    assert v3.regs == vm.regs[r := Bool(b)][12 := Bool(!b)];
    AndStep(p, v3, 12, a, !b);
    ReachesTrans(p, vm, 2, v2, 1, v3);
    ReachesTrans(p, vm, 3, v3, 1, v3.(ip := v3.ip + 1, regs := v3.regs[14 := Bool(a && !b)]));
  }

  // ----- registers -----

  lemma {:induction false} RegisterHolds(order: seq<string>, x: string)
    requires x in order
    ensures RegisterOf(order, x) < |order| && order[RegisterOf(order, x)] == x
    decreases |order|
  {
    if order[0] != x {
      RegisterHolds(order[1..], x);
    }
  }

  /** No two variables of a program share a register. */
  lemma RegistersDistinct(stmts: seq<IlStmt>, i: nat, j: nat)
    requires i < |stmts| && j < |stmts| && UsesRegister(stmts[i]) && UsesRegister(stmts[j])
    ensures RegisterAt(stmts, stmts[i].v) == RegisterAt(stmts, stmts[j].v) <==> stmts[i].v == stmts[j].v
  {
    hide RegisterOf, OrderFrom;
    OrderCoversUses([], stmts, i);
    OrderCoversUses([], stmts, j);
    RegisterHolds(VarOrder(stmts), stmts[i].v);
    RegisterHolds(VarOrder(stmts), stmts[j].v);
  }

  // ----- a guarded store, from text to signals -----

  function GuardedText(x: string, op: string, l: string, y: string): seq<string> {
    ["LD" + " " + x, op + " " + l, "ST" + " " + y, l + ":"]
  }

  function Guarded(x: string, op: string, l: string, y: string): seq<IlStmt> {
    [IlStmt.Load(x), if op == "JMPC" then IlStmt.JumpIf(l) else JumpIfNot(l), IlStmt.Store(y), Label(l)]
  }

  lemma FourLines(a: string, b: string, c: string, d: string)
    ensures SourceStatements([a, b, c, d]) == LineStatements(a) + LineStatements(b) + LineStatements(c) + LineStatements(d)
  {
    hide LineStatements;
    var none: seq<string> := [];
    assert [a][..0] == none && [a, b][..1] == [a] && [a, b, c][..2] == [a, b] && [a, b, c, d][..3] == [a, b, c];
    assert SourceStatements([a]) == LineStatements(a);
    assert SourceStatements([a, b]) == LineStatements(a) + LineStatements(b);
    assert SourceStatements([a, b, c]) == LineStatements(a) + LineStatements(b) + LineStatements(c);
  }

  lemma GuardedLines(x: string, op: string, l: string, y: string)
    requires GoodName(x) && GoodName(l) && GoodName(y) && op in {"JMPC", "JMPCN"}
    ensures LineStatements("LD" + " " + x) == [IlStmt.Load(x)] && LineStatements("ST" + " " + y) == [IlStmt.Store(y)]
    ensures LineStatements(op + " " + l) == [if op == "JMPC" then IlStmt.JumpIf(l) else JumpIfNot(l)]
  {
    hide LineStatements, GoodName, Spelling;
    SignalSpellings();
    JumpSpellings(l);
    OperandLine(MLd, x);
    OperandLine(MSt, y);
    OperandLine(if op == "JMPC" then MJmpc else MJmpcn, l);
  }

  lemma GuardedParses(x: string, op: string, l: string, y: string)
    requires GoodName(x) && GoodName(l) && GoodName(y) && op in {"JMPC", "JMPCN"}
    ensures Parsed(TokensOf(GuardedText(x, op, l, y)), 0) == Guarded(x, op, l, y)
  {
    hide LineStatements, GoodName, Parsed, TokensOf, SourceStatements;
    SourceParsesLineByLine(GuardedText(x, op, l, y));
    FourLines("LD" + " " + x, op + " " + l, "ST" + " " + y, l + ":");
    GuardedLines(x, op, l, y);
    LabelLine(l);
  }

  lemma GuardedIsCore(x: string, op: string, l: string, y: string)
    ensures IlCorrect.CoreProgram(Guarded(x, op, l, y))
  {
    var s := Guarded(x, op, l, y);
    hide VarOrder, IlProgram;
    OneVariable(s, x);
    GuardedSize(s);
  }

  lemma OneVariable(s: seq<IlStmt>, x: string)
    requires |s| == 4 && s[0] == IlStmt.Load(x) && forall i :: 1 <= i < 4 ==> !UsesRegister(s[i])
    ensures VarOrder(s) == [x]
  {
    hide OrderFrom, UsesRegister;
    FirstUse(s, x);
    NoUses([x], s[1..]);
  }

  lemma FirstUse(s: seq<IlStmt>, x: string)
    requires s != [] && s[0] == IlStmt.Load(x)
    ensures VarOrder(s) == OrderFrom([x], s[1..])
  {
    assert Extend([], s[0]) == [x];
  }

  lemma {:induction false} NoUses(order: seq<string>, s: seq<IlStmt>)
    requires forall i :: 0 <= i < |s| ==> !UsesRegister(s[i])
    ensures OrderFrom(order, s) == order
    decreases |s|
  {
    if s != [] {
      NoUses(order, s[1..]);
    }
  }

  lemma {:induction false} AddressBound(s: seq<IlStmt>, i: nat)
    requires i <= |s|
    ensures Addr(s, i) <= 1 + 5 * i
    decreases i
  {
    if i > 0 {
      AddressBound(s, i - 1);
    }
  }

  lemma {:induction false} GuardedSize(s: seq<IlStmt>)
    requires |s| == 4
    ensures |IlProgram(s)| < TWO_32
  {
    hide IlProgram, Addr;
    HaltAtEnd(s);
    AddressBound(s, 4);
  }

  lemma GuardedLabel(x: string, op: string, l: string, y: string)
    ensures LabelAt(Guarded(x, op, l, y), l, 3)
  {
  }

  /** The text LD x, JMPC l, ST y, l: stores x in y exactly when x is not TRUE, with JMPCN exactly when it
      is TRUE; nothing else changes. */
  lemma GuardedStoreRuns(x: string, op: string, l: string, y: string, vm: Vm) returns (stmts: seq<IlStmt>, k: nat, out: Vm)
    requires GoodName(x) && GoodName(l) && GoodName(y) && op in {"JMPC", "JMPCN"} && vm.ip == 0
    ensures stmts == Parsed(TokensOf(GuardedText(x, op, l, y)), 0) && Run(IlProgram(stmts), vm, k) == Halted(out)
    ensures var v := if x in vm.signals then vm.signals[x] else Bool(false);
            out.signals == if v == Bool(true) <==> op == "JMPC" then vm.signals else vm.signals[y := v]
  {
    hide *;
    stmts := Guarded(x, op, l, y);
    GuardedParses(x, op, l, y);
    GuardedIsCore(x, op, l, y);
    AccumulatorExists();
    GuardedRun(x, op, l, y, IlCorrect.Il(0, vm.regs[CR], vm.signals));
    k, out := IlCorrect.CompiledProgramHalts(stmts, vm, 4);
  }

  lemma AccumulatorExists()
    ensures CR < REGISTER_COUNT
  {
  }

  lemma {:induction false} GuardedRun(x: string, op: string, l: string, y: string, s: IlCorrect.Il)
    requires op in {"JMPC", "JMPCN"} && s.pc == 0
    ensures var v, end := if x in s.signals then s.signals[x] else Bool(false), IlCorrect.IlRun(Guarded(x, op, l, y), s, 4);
            end.pc == |Guarded(x, op, l, y)| && end.signals == if v == Bool(true) <==> op == "JMPC" then s.signals else s.signals[y := v]
  {
    var stmts := Guarded(x, op, l, y);
    hide LabelIndex, LabelAt;
    GuardedLabel(x, op, l, y);
    LabelFound(stmts, l, 3);
    var s1 := IlCorrect.IlStep(stmts, s);
    var s2 := IlCorrect.IlStep(stmts, s1);
    var s3 := IlCorrect.IlStep(stmts, s2);
    hide IlCorrect.IlStep;
    assert IlCorrect.IlRun(stmts, s, 4) == IlCorrect.IlRun(stmts, s1, 3) == IlCorrect.IlRun(stmts, s2, 2) == IlCorrect.IlRun(stmts, s3, 1);
    if s3.pc < |stmts| {
      FourthStep(stmts, s3);
    }
  }

  lemma {:induction false} FourthStep(stmts: seq<IlStmt>, s: IlCorrect.Il)
    requires s.pc < |stmts| && stmts[s.pc].Label?
    ensures IlCorrect.IlRun(stmts, s, 1) == s.(pc := s.pc + 1)
  {
    assert IlCorrect.IlStep(stmts, s) == s.(pc := s.pc + 1);
  }
}
