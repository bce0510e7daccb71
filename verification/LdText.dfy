/**
 The text the ladder compiler writes, that the IL front end reads back exactly the
 intended statements, and the whole pipeline from networks to machine code.
 */
module LdText {
  import opened Values
  import opened Machine
  import opened IlCode
  import opened Text
  import opened IlText
  import opened LdCode
  import LdCorrect
  import IlCodegen
  import LadderFlow
  import LadderScan

  /** A line of generated IL: mnemonic and operand. */
  type Line = (Mnemonic, string)

  function ElementLines(e: Element, first: bool): seq<Line> {
    match e
    case Series(open, x) =>
      [(if first then (if open then MLd else MLdn) else if open then MAnd else MAndn, x)]
    case Parallel(open, x) => [(if open then MOr else MOrn, x)]
    case Transition(rising, x) => [(if first then MLd else MAnd, x), (if rising then MRTrig else MFTrig, x)]
    case CoilLine(kind, x) => [(match kind case OutCoil => MSt case SetLatch => MS case ResetLatch => MR, x)]
  }

  function NetworkLines(net: seq<Element>, first: bool): seq<Line>
    decreases |net|
  {
    if net == [] then [] else ElementLines(net[0], first) + NetworkLines(net[1..], first && !Loads(net[0]))
  }

  function ProgramLines(networks: seq<seq<Element>>): seq<Line> {
    if networks == [] then []
    else ProgramLines(networks[..|networks| - 1]) + NetworkLines(networks[|networks| - 1], true)
  }

  function Rendered(lines: seq<Line>): (r: seq<string>)
    ensures |r| == |lines|
  {
    seq(|lines|, i requires 0 <= i < |lines| => LineOf(lines[i].0, lines[i].1))
  }

  function Meant(lines: seq<Line>): (r: seq<IlStmt>)
    ensures |r| == |lines|
  {
    seq(|lines|, i requires 0 <= i < |lines| => StatementOf(lines[i].0, lines[i].1))
  }

  /** The IL text of a ladder program. */
  method GenerateIl(networks: seq<seq<Element>>) returns (text: string)
    ensures text == Join(Rendered(ProgramLines(networks)))
  {
    hide Rendered, NetworkLines;
    var lines: seq<string> := [];
    RenderedAppend([], []);
    for n := 0 to |networks|
      invariant lines == Rendered(ProgramLines(networks[..n]))
    {
      var more := GenerateNetwork(networks[n]);
      lines := lines + more;
      assert networks[..n + 1][..n] == networks[..n];
      RenderedAppend(ProgramLines(networks[..n]), NetworkLines(networks[n], true));
    }
    assert networks[..|networks|] == networks;
    text := Join(lines);
  }

  method GenerateNetwork(net: seq<Element>) returns (lines: seq<string>)
    ensures lines == Rendered(NetworkLines(net, true))
  {
    hide LineOf, ElementLines, Rendered;
    lines := [];
    RenderedAppend([], []);
    var first := true;
    for k := 0 to |net|
      invariant lines + Rendered(NetworkLines(net[k..], first)) == Rendered(NetworkLines(net, true))
    {
      ghost var e, rest := net[k], NetworkLines(net[k + 1..], first && !Loads(net[k]));
      assert net[k..][1..] == net[k + 1..];
      RenderedAppend(ElementLines(e, first), rest);
      assert lines + (Rendered(ElementLines(e, first)) + Rendered(rest)) == lines + Rendered(ElementLines(e, first)) + Rendered(rest);
      var more;
      more, first := GenerateElement(net[k], first);
      lines := lines + more;
    }
  }

  method GenerateElement(e: Element, first: bool) returns (lines: seq<string>, still: bool)
    ensures lines == Rendered(ElementLines(e, first)) && still == (first && !Loads(e))
  {
    hide LineOf;
    still := first;
    match e
    case Series(open, x) =>
      if first {
        lines := [LineOf(if open then MLd else MLdn, x)];
        still := false;
      } else {
        lines := [LineOf(if open then MAnd else MAndn, x)];
      }
    case Parallel(open, x) =>
      lines := [LineOf(if open then MOr else MOrn, x)];
    case Transition(rising, x) =>
      if first {
        lines := [LineOf(MLd, x)];
        still := false;
      } else {
        lines := [LineOf(MAnd, x)];
      }
      lines := lines + [LineOf(if rising then MRTrig else MFTrig, x)];
    case CoilLine(kind, x) =>
      lines := [LineOf(match kind case OutCoil => MSt case SetLatch => MS case ResetLatch => MR, x)];
  }

  lemma RenderedAppend(a: seq<Line>, b: seq<Line>)
    ensures Rendered(a + b) == Rendered(a) + Rendered(b) && Rendered([]) == []
  {
    hide LineOf;
  }

  // ----- the statements that are meant -----

  predicate GoodNames(networks: seq<seq<Element>>) {
    forall n, k :: 0 <= n < |networks| && 0 <= k < |networks[n]| ==> GoodName(networks[n][k].v)
  }

  /** Every line has a good operand and a mnemonic that takes one. */
  predicate GoodLines(lines: seq<Line>) {
    forall i :: 0 <= i < |lines| ==> TakesOperand(lines[i].0) && GoodName(lines[i].1)
  }

  lemma ElementMeans(e: Element, first: bool)
    ensures Meant(ElementLines(e, first)) == ElementIl(e, first)
    ensures GoodName(e.v) ==> GoodLines(ElementLines(e, first))
  {
    hide GoodName;
  }

  lemma MeantAppend(a: seq<Line>, b: seq<Line>)
    ensures Meant(a + b) == Meant(a) + Meant(b)
    ensures GoodLines(a) && GoodLines(b) ==> GoodLines(a + b)
  {
    hide StatementOf, GoodName;
  }

  lemma {:induction false} NetworkMeans(net: seq<Element>, first: bool)
    requires forall k :: 0 <= k < |net| ==> GoodName(net[k].v)
    ensures Meant(NetworkLines(net, first)) == NetworkIl(net, first) && GoodLines(NetworkLines(net, first))
    decreases |net|
  {
    hide Meant, GoodLines, ElementLines, GoodName;
    if net == [] {
      NothingMeant();
    } else {
      NetworkMeans(net[1..], first && !Loads(net[0]));
      ElementMeans(net[0], first);
      MeantAppend(ElementLines(net[0], first), NetworkLines(net[1..], first && !Loads(net[0])));
    }
  }

  lemma NothingMeant()
    ensures Meant([]) == [] && GoodLines([])
  {
  }

  lemma GoodNamesSplit(networks: seq<seq<Element>>)
    requires GoodNames(networks) && networks != []
    ensures var k := |networks| - 1;
            GoodNames(networks[..k]) && forall j :: 0 <= j < |networks[k]| ==> GoodName(networks[k][j].v)
  {
    hide GoodName;
    var k := |networks| - 1;
    forall n, j | 0 <= n < k && 0 <= j < |networks[..k][n]|
      ensures GoodName(networks[..k][n][j].v)
    {
      assert networks[..k][n] == networks[n];
    }
  }

  lemma {:induction false} ProgramMeans(networks: seq<seq<Element>>)
    requires GoodNames(networks)
    ensures Meant(ProgramLines(networks)) == ProgramIl(networks) && GoodLines(ProgramLines(networks))
    decreases |networks|
  {
    hide Meant, GoodLines, GoodName, GoodNames, NetworkLines, NetworkIl;
    if networks == [] {
      NothingMeant();
    } else {
      var k := |networks| - 1;
      GoodNamesSplit(networks);
      ProgramMeans(networks[..k]);
      NetworkMeans(networks[k], true);
      MeantAppend(ProgramLines(networks[..k]), NetworkLines(networks[k], true));
    }
  }

  // ----- reading back -----

  function LineTokenPairs(lines: seq<Line>): (r: seq<Token>)
    ensures |r| == 2 * |lines|
  {
    seq(2 * |lines|, i requires 0 <= i < 2 * |lines| =>
      if i % 2 == 0 then Op(lines[i / 2].0) else Ident(lines[i / 2].1))
  }

  lemma {:induction false} LinesTokenize(lines: seq<Line>)
    requires GoodLines(lines)
    ensures TokensOf(Rendered(lines)) == LineTokenPairs(lines)
    decreases |lines|
  {
    hide LineTokens, LineOf, GoodName;
    if lines != [] {
      var k := |lines| - 1;
      LinesTokenize(lines[..k]);
      assert Rendered(lines)[..k] == Rendered(lines[..k]);
      LineRoundTrip(lines[k].0, lines[k].1);
      assert LineTokenPairs(lines) == LineTokenPairs(lines[..k]) + [Op(lines[k].0), Ident(lines[k].1)];
    }
  }

  lemma PairAt(lines: seq<Line>, k: nat)
    requires GoodLines(lines) && k < |lines|
    ensures StatementAt(LineTokenPairs(lines), 2 * k) == ([Meant(lines)[k]], 2 * k + 2)
  {
    hide StatementOf, GoodName;
    var tokens := LineTokenPairs(lines);
    assert tokens[2 * k] == Op(lines[k].0) && tokens[2 * k + 1] == Ident(lines[k].1);
  }

  lemma {:induction false} PairsParse(lines: seq<Line>, k: nat)
    requires GoodLines(lines) && k <= |lines|
    ensures Parsed(LineTokenPairs(lines), 2 * k) == Meant(lines)[k..]
    decreases |lines| - k
  {
    hide Meant, LineTokenPairs, StatementAt, GoodLines;
    if k < |lines| {
      PairAt(lines, k);
      PairsParse(lines, k + 1);
      assert Meant(lines)[k..] == [Meant(lines)[k]] + Meant(lines)[k + 1..];
    }
  }

  /** Tokenising and parsing the generated text gives back exactly the intended statements. */
  lemma TextRoundTrip(networks: seq<seq<Element>>)
    requires GoodNames(networks)
    ensures Parsed(TokensOf(Lines(Join(Rendered(ProgramLines(networks))))), 0) == ProgramIl(networks)
  {
    hide Lines, Join, ProgramLines, TokensOf, Parsed, LineOf, StatementOf, GoodNames, LineTokens, GoodName;
    var lines := ProgramLines(networks);
    ProgramMeans(networks);
    forall i | 0 <= i < |lines|
      ensures PlainLine(Rendered(lines)[i])
    {
      GoodIsWord(lines[i].1);
      LineShape(lines[i].0, lines[i].1);
    }
    JoinedLinesSplit(Rendered(lines));
    LinesTokenize(lines);
    PairsParse(lines, 0);
    assert Meant(lines)[0..] == Meant(lines);
  }

  lemma GoodIsWord(x: string)
    requires GoodName(x)
    ensures Word(x)
  {
  }

  // ----- the pipeline -----

  /** From ladder networks through IL text to machine code. */
  method CompileLadder(networks: seq<seq<Element>>) returns (ok: bool, program: seq<Instruction>)
    requires GoodNames(networks)
    ensures ok <==> |VarOrder(ProgramIl(networks))| <= USER_REGISTERS
    ensures ok ==> program == IlProgram(ProgramIl(networks))
  {
    hide Parsed, TokensOf, Lines, Join, VarOrder, IlProgram;
    var text := GenerateIl(networks);
    var tokens := Tokenize(text);
    var stmts := Parse(tokens);
    TextRoundTrip(networks);
    ok, program := IlCodegen.Compile(stmts);
  }

  /** End to end: networks of contacts and OUT coils compile exactly when they read at most ten
      variables, and then one run of the code to its halt is one scan of the rungs. */
  method CompileLadderCorrectly(networks: seq<seq<Element>>, ghost vm: Vm, ghost vars: LadderFlow.Snapshot)
    returns (ok: bool, program: seq<Instruction>, ghost steps: nat, ghost out: Vm)
    requires GoodNames(networks) && LdCorrect.LadderProgram(networks)
    requires vm.ip == 0 && vm.signals == LdCorrect.Table(vars)
    ensures ok <==> |LdCorrect.ContactVars(networks)| <= USER_REGISTERS
    ensures forall i :: 0 <= i < |networks| ==> LadderScan.ValidRung(LdCorrect.RungsOf(networks)[i])
    ensures ok ==> Run(program, vm, steps) == Halted(out)
    ensures ok ==> out.signals == LdCorrect.Table(LadderScan.Cycle(LdCorrect.RungsOf(networks), vars))
  {
    hide Run, LadderScan.Cycle, LdCorrect.Table, VarOrder, IlProgram, LadderScan.ValidRung, LdCorrect.LadderProgram, GoodNames;
    ok, program := CompileLadder(networks);
    steps, out := 0, vm;
    LdCorrect.OneRegisterPerContactVariable(networks);
    LdCorrect.RungsValid(networks);
    if ok {
      steps, out := LdCorrect.LadderCompilationCorrect(networks, vm, vars);
    }
  }
}
