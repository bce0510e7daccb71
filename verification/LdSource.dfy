/**
 Ladder source text: its lines as tokens, and what a source of rungs with contacts in
 series and OUT coils does to the signals, from its text to the halted machine.
 */
module LdSource {
  import opened Options
  import opened Values
  import opened Machine
  import opened Text
  import opened IlCode
  import opened IlText
  import opened LdCode
  import opened LdParse
  import LG = LadderGraph
  import opened LadderFlow
  import opened LadderScan
  import opened LdCorrect
  import LdText
  import LadderEdges

  // ----- lines as tokens -----

  /** A branch line keeps its kind and variable; any other rest of the line ends the network. */
  function BranchToken(parts: seq<string>): LdToken {
    if |parts| == 2 && parts[0] in ["NO", "NC", "P", "N"] then BranchLine(parts[0] + " " + parts[1]) else NetworkMark
  }

  /** One trimmed line; what is not understood ends the network. */
  function LineToken(line: string): LdToken {
    var parts := Words(Upper(line));
    if |parts| == 2 && parts[0] == "NO" then NoLine(parts[1])
    else if |parts| == 2 && parts[0] == "NC" then NcLine(parts[1])
    else if |parts| == 2 && parts[0] == "P" then PLine(parts[1])
    else if |parts| == 2 && parts[0] == "N" then NLine(parts[1])
    else if |parts| == 2 && parts[0] == "OUT" then OutLine(parts[1])
    else if |parts| == 2 && parts[0] == "SET" then SetLine(parts[1])
    else if |parts| == 2 && parts[0] == "RESET" then ResetLine(parts[1])
    else if parts != ["NETWORK"] && line != "" && line[0] == '|' then BranchToken(Words(Upper(Trim(line[1..]))))
    else NetworkMark
  }

  function LadderTokens(lines: seq<string>): seq<LdToken> {
    if lines == [] then []
    else
      var line := Trim(lines[|lines| - 1]);
      LadderTokens(lines[..|lines| - 1]) + if line == "" then [] else [LineToken(line)]
  }

  method TokenizeLadder(source: string) returns (tokens: seq<LdToken>)
    ensures tokens == LadderTokens(Lines(source))
  {
    hide Lines, LineToken, Trim;
    tokens := [];
    var lines := Lines(source);
    for n := 0 to |lines|
      invariant tokens == LadderTokens(lines[..n])
    {
      assert lines[..n + 1][..n] == lines[..n];
      var line := Trim(lines[n]);
      if line != "" {
        tokens := tokens + [LineToken(line)];
      }
    }
    assert lines[..|lines|] == lines;
  }

  // ----- rungs as text and what they mean -----

  /** The contacts of a rung, as keyword and variable, and the variables of its coils. */
  datatype TextRung = TextRung(contacts: seq<(string, string)>, coils: seq<string>)

  predicate WellFormed(rungs: seq<TextRung>) { forall n :: 0 <= n < |rungs| ==> WellFormedRung(rungs[n]) }

  predicate WellFormedRung(r: TextRung) {
    && r.contacts != []
    && (forall i :: 0 <= i < |r.contacts| ==> GoodContact(r.contacts[i]))
    && (forall i :: 0 <= i < |r.coils| ==> GoodName(r.coils[i]))
  }

  predicate GoodContact(c: (string, string)) { (c.0 == "NO" || c.0 == "NC") && GoodName(c.1) }

  function RungLines(r: TextRung): seq<string> {
    ["NETWORK"] + seq(|r.contacts|, i requires 0 <= i < |r.contacts| => r.contacts[i].0 + " " + r.contacts[i].1)
    + seq(|r.coils|, i requires 0 <= i < |r.coils| => "OUT" + " " + r.coils[i])
  }

  function SourceLines(rungs: seq<TextRung>): seq<string> {
    if rungs == [] then [] else RungLines(rungs[0]) + SourceLines(rungs[1..])
  }

  /** Every NO contact has a TRUE variable and every NC contact one that is FALSE or unset. */
  predicate Conducting(contacts: seq<(string, string)>, vars: Snapshot) {
    forall i :: 0 <= i < |contacts| ==>
      (contacts[i].0 == "NO" <==> Upper(contacts[i].1) in vars && vars[Upper(contacts[i].1)])
  }

  function Driven(coils: seq<string>, power: bool, vars: Snapshot): Snapshot
    decreases |coils|
  {
    if coils == [] then vars else Driven(coils[1..], power, vars[Upper(coils[0]) := power])
  }

  /** The variables after the first `k` rungs, each driving its coils with its own power. */
  function After(rungs: seq<TextRung>, k: nat, vars: Snapshot): Snapshot
    requires k <= |rungs|
  {
    if k == 0 then vars
    else
      var before := After(rungs, k - 1, vars);
      Driven(rungs[k - 1].coils, Conducting(rungs[k - 1].contacts, before), before)
  }

  function ContactNames(rungs: seq<TextRung>): set<string> {
    set n, i | 0 <= n < |rungs| && 0 <= i < |rungs[n].contacts| :: Upper(rungs[n].contacts[i].1)
  }

  // ----- text to networks -----

  function ContactElement(c: (string, string)): Element { Series(c.0 == "NO", Upper(c.1)) }

  function ContactElements(contacts: seq<(string, string)>): (r: seq<Element>)
    ensures |r| == |contacts|
  {
    seq(|contacts|, i requires 0 <= i < |contacts| => ContactElement(contacts[i]))
  }

  function CoilElements(coils: seq<string>): (r: seq<Element>)
    ensures |r| == |coils|
  {
    seq(|coils|, i requires 0 <= i < |coils| => CoilLine(OutCoil, Upper(coils[i])))
  }

  function RungElements(r: TextRung): seq<Element> { ContactElements(r.contacts) + CoilElements(r.coils) }

  function Networks(rungs: seq<TextRung>): (r: seq<seq<Element>>)
    ensures |r| == |rungs|
  {
    seq(|rungs|, n requires 0 <= n < |rungs| => RungElements(rungs[n]))
  }

  lemma UpperKeeps(x: string)
    requires GoodName(x)
    ensures GoodName(Upper(x))
  {
    var u := Upper(x);
    forall i | 0 <= i < |u|
      ensures !White(u[i]) && !OpensAt(u, i)
    {
      assert !White(x[i]) && !OpensAt(x, i);
      LetterOrSame(x[i]);
      if i + 1 < |u| {
        LetterOrSame(x[i + 1]);
      }
    }
  }

  lemma LetterOrSame(c: char)
    ensures UpperChar(c) == c || 'A' <= UpperChar(c) <= 'Z'
  {
  }

  lemma UpperSplits(a: string, x: string)
    requires Upper(a) == a
    ensures Upper(a + " " + x) == a + " " + Upper(x)
  {
    var l, r := Upper(a + " " + x), a + " " + Upper(x);
    assert |l| == |r|;
    forall i | 0 <= i < |l|
      ensures l[i] == r[i]
    {
      if i < |a| {
        assert Upper(a)[i] == a[i];
      }
    }
  }

  lemma KeywordShapes()
    ensures Word("NO") && Word("NC") && Word("OUT") && Word("NETWORK")
    ensures Upper("NO") == "NO" && Upper("NC") == "NC" && Upper("OUT") == "OUT" && Upper("NETWORK") == "NETWORK"
  {
  }

  lemma KeywordLine(a: string, x: string)
    requires a in ["NO", "NC", "OUT"] && GoodName(x)
    ensures Trim(a + " " + x) == a + " " + x
    ensures LineToken(a + " " + x) == if a == "NO" then NoLine(Upper(x)) else if a == "NC" then NcLine(Upper(x)) else OutLine(Upper(x))
  {
    hide White, Words, OpensAt;
    KeywordShapes();
    UpperKeeps(x);
    UpperSplits(a, x);
    TwoWords(a, Upper(x));
    hide Upper, Words, Word;
    WordEndsPlain(a, x);
  }

  lemma WordEndsPlain(a: string, x: string)
    requires a in ["NO", "NC", "OUT"] && GoodName(x)
    ensures Trim(a + " " + x) == a + " " + x
  {
    hide Trim;
    var s := a + " " + x;
    assert s[0] == a[0] && s[|s| - 1] == x[|x| - 1];
    TrimNothing(s);
  }

  lemma MarkLine()
    ensures Trim("NETWORK") == "NETWORK" && LineToken("NETWORK") == NetworkMark
  {
    KeywordShapes();
    hide Words, Upper;
    TrimNothing("NETWORK");
    OneWord("NETWORK");
  }

  lemma {:induction false} TokensAppend(a: seq<string>, b: seq<string>)
    ensures LadderTokens(a + b) == LadderTokens(a) + LadderTokens(b)
    decreases |b|
  {
    hide Trim, LineToken;
    if b == [] {
      assert a + b == a;
    } else {
      var k := |b| - 1;
      assert (a + b)[..|a + b| - 1] == a + b[..k] && (a + b)[|a + b| - 1] == b[k];
      TokensAppend(a, b[..k]);
    }
  }

  /** Lines without blank ones give a token each. */
  lemma {:induction false} TokenEach(lines: seq<string>, tokens: seq<LdToken>)
    requires |lines| == |tokens|
    requires forall i :: 0 <= i < |lines| ==> lines[i] != "" && Trim(lines[i]) == lines[i] && LineToken(lines[i]) == tokens[i]
    ensures LadderTokens(lines) == tokens
    decreases |lines|
  {
    hide Trim, LineToken;
    if lines != [] {
      var k := |lines| - 1;
      TokenEach(lines[..k], tokens[..k]);
      assert tokens == tokens[..k] + [tokens[k]];
    }
  }

  lemma RungTokens(r: TextRung)
    requires WellFormedRung(r)
    ensures LadderTokens(RungLines(r)) == NetworkTokens(RungElements(r))
  {
    hide Trim, LineToken, GoodName, Upper, LadderTokens;
    var lines, tokens, m := RungLines(r), NetworkTokens(RungElements(r)), |r.contacts|;
    forall i | 0 <= i < |lines|
      ensures lines[i] != "" && Trim(lines[i]) == lines[i] && LineToken(lines[i]) == tokens[i]
    {
      if i == 0 {
        MarkLine();
      } else if i <= m {
        var c := r.contacts[i - 1];
        assert GoodContact(c) && lines[i] == c.0 + " " + c.1 && RungElements(r)[i - 1] == ContactElement(c);
        KeywordLine(c.0, c.1);
      } else {
        var y := r.coils[i - 1 - m];
        assert lines[i] == "OUT" + " " + y && RungElements(r)[i - 1] == CoilLine(OutCoil, Upper(y));
        KeywordLine("OUT", y);
      }
    }
    TokenEach(lines, tokens);
  }

  lemma {:induction false} SourceTokens(rungs: seq<TextRung>)
    requires WellFormed(rungs)
    ensures LadderTokens(SourceLines(rungs)) == ProgramTokens(Networks(rungs))
    decreases |rungs|
  {
    hide WellFormedRung, RungLines, NetworkTokens, RungElements;
    if rungs != [] {
      var rest := rungs[1..];
      assert Networks(rungs)[0] == RungElements(rungs[0]) && Networks(rungs)[1..] == Networks(rest);
      SourceTokens(rest);
      RungTokens(rungs[0]);
      hide LadderTokens;
      TokensAppend(RungLines(rungs[0]), SourceLines(rest));
    }
  }

  lemma ElementNames(r: TextRung)
    requires WellFormedRung(r)
    ensures RungElements(r) != [] && forall k :: 0 <= k < |RungElements(r)| ==> GoodName(RungElements(r)[k].v)
  {
    hide GoodName, Upper;
    forall k | 0 <= k < |RungElements(r)|
      ensures GoodName(RungElements(r)[k].v)
    {
      if k < |r.contacts| {
        assert GoodContact(r.contacts[k]);
        UpperKeeps(r.contacts[k].1);
      } else {
        UpperKeeps(r.coils[k - |r.contacts|]);
      }
    }
  }

  lemma GoodIsWord(x: string)
    requires GoodName(x)
    ensures Word(x)
  {
  }

  /** The networks of a source are its rungs. */
  lemma {:induction false} SourceNetworks(rungs: seq<TextRung>)
    requires WellFormed(rungs)
    ensures Grouped(LadderTokens(SourceLines(rungs)), 0, []) == Networks(rungs) && LdText.GoodNames(Networks(rungs))
  {
    hide WellFormedRung, RungElements, LadderTokens, ProgramTokens, Grouped, GoodName, Word;
    SourceTokens(rungs);
    var nets: seq<seq<Element>>, tokens := Networks(rungs), LadderTokens(SourceLines(rungs));
    forall n | 0 <= n < |nets|
      ensures nets[n] != [] && forall k :: 0 <= k < |nets[n]| ==> GoodName(nets[n][k].v) && Word(nets[n][k].v)
    {
      ElementNames(rungs[n]);
      forall k | 0 <= k < |nets[n]|
        ensures Word(nets[n][k].v)
      {
        GoodIsWord(nets[n][k].v);
      }
    }
    assert tokens[0..] == tokens;
    NetworksRoundTrip(tokens, 0, [], nets);
    assert LdParse.Closed([]) + nets == nets;
  }

  // ----- networks to signals -----

  function Level(c: (string, string)): LG.Contact { if c.0 == "NO" then LG.No(Upper(c.1)) else LG.Nc(Upper(c.1)) }

  lemma {:induction false} RungShape(contacts: seq<(string, string)>, coils: seq<string>)
    ensures var net := ContactElements(contacts) + CoilElements(coils);
            && ContactsThenCoils(net) && CoilsOf(net) == CoilsOf(CoilElements(coils))
            && |ContactsOf(net)| == |contacts| && forall i :: 0 <= i < |contacts| ==> ContactsOf(net)[i] == Level(contacts[i])
    decreases |contacts|
  {
    hide Upper;
    var net := ContactElements(contacts) + CoilElements(coils);
    if contacts == [] {
      assert net == CoilElements(coils);
      OutsHaveNoContacts(net);
    } else {
      var rest := ContactElements(contacts[1..]) + CoilElements(coils);
      assert net[0] == ContactElement(contacts[0]) && net[1..] == rest;
      RungShape(contacts[1..], coils);
      assert ContactsOf(net) == [Level(contacts[0])] + ContactsOf(rest);
      forall i | 0 <= i < |contacts|
        ensures ContactsOf(net)[i] == Level(contacts[i])
      {
        if i > 0 {
          assert ContactsOf(net)[i] == ContactsOf(rest)[i - 1] && contacts[1..][i - 1] == contacts[i];
        }
      }
    }
  }

  lemma {:induction false} CoilsDrive(coils: seq<string>, power: bool, held: Snapshot, vars: Snapshot)
    ensures ApplyCoils(CoilsOf(CoilElements(coils)), power, held, vars) == Driven(coils, power, vars)
    decreases |coils|
  {
    hide Upper;
    if coils != [] {
      var es := CoilElements(coils);
      assert es[0] == CoilLine(OutCoil, Upper(coils[0])) && es[1..] == CoilElements(coils[1..]);
      assert CoilsOf(es) == [Coil(Upper(coils[0]), Out)] + CoilsOf(es[1..]);
      assert CoilsOf(es)[1..] == CoilsOf(es[1..]);
      CoilsDrive(coils[1..], power, held, vars[Upper(coils[0]) := power]);
    }
  }

  lemma RungMeans(r: TextRung, s: Scan)
    requires WellFormedRung(r)
    ensures SerialNetwork(RungElements(r)) && ValidRung(RungOf(RungElements(r)))
    ensures RunRung(RungOf(RungElements(r)), s).vars == Driven(r.coils, Conducting(r.contacts, s.vars), s.vars)
  {
    hide PowerFlow, Powered, ApplyCoils, Driven, LG.RailNeverReturns, GoodName, Upper;
    var net := RungElements(r);
    var contacts := ContactsOf(net);
    RungShape(r.contacts, r.coils);
    assert net[0] == ContactElement(r.contacts[0]);
    LadderEdges.SerialOfLevels(contacts, s.vars, s.prev);
    CoilsDrive(r.coils, Conducting(r.contacts, s.vars), s.vars, s.vars);
    LevelsMean(r.contacts, contacts, s.vars);
  }

  lemma LevelsMean(contacts: seq<(string, string)>, levels: seq<LG.Contact>, vars: Snapshot)
    requires |levels| == |contacts| && forall i :: 0 <= i < |contacts| ==> GoodContact(contacts[i]) && levels[i] == Level(contacts[i])
    ensures Conducting(contacts, vars) <==>
              forall i :: 0 <= i < |levels| ==>
                (if levels[i].No? then LadderEdges.True(vars, levels[i].v) else !LadderEdges.True(vars, levels[i].v))
  {
    hide Upper, GoodName;
  }

  lemma {:induction false} RungsMean(rungs: seq<TextRung>, k: nat, vars: Snapshot)
    requires WellFormed(rungs) && k <= |rungs|
    ensures forall n :: 0 <= n < |rungs| ==> SerialNetwork(Networks(rungs)[n]) && ValidRung(RungsOf(Networks(rungs))[n])
    ensures RunRungs(RungsOf(Networks(rungs)), k, Scan(vars, map[])).vars == After(rungs, k, vars)
    decreases k
  {
    hide WellFormedRung, SerialNetwork, ValidRung, RungOf, RunRung, RungElements, Driven, Conducting;
    forall n | 0 <= n < |rungs|
      ensures SerialNetwork(Networks(rungs)[n]) && ValidRung(RungsOf(Networks(rungs))[n])
    {
      RungMeans(rungs[n], Scan(vars, map[]));
    }
    if k > 0 {
      RungsMean(rungs, k - 1, vars);
      RungMeans(rungs[k - 1], RunRungs(RungsOf(Networks(rungs)), k - 1, Scan(vars, map[])));
    }
  }

  // ----- the registers it needs -----

  lemma NamesOfRung(r: TextRung)
    ensures NetworkVars(RungElements(r)) == set i | 0 <= i < |r.contacts| :: Upper(r.contacts[i].1)
  {
    hide Upper;
    var net, names := RungElements(r), set i | 0 <= i < |r.contacts| :: Upper(r.contacts[i].1);
    forall x | x in names
      ensures x in NetworkVars(net)
    {
      var i :| 0 <= i < |r.contacts| && Upper(r.contacts[i].1) == x;
      assert net[i] == ContactElement(r.contacts[i]);
    }
    forall x | x in NetworkVars(net)
      ensures x in names
    {
      var i :| 0 <= i < |net| && net[i].Series? && net[i].v == x;
      assert i < |r.contacts| && net[i] == ContactElement(r.contacts[i]);
    }
  }

  lemma {:induction false} NamesOfSource(rungs: seq<TextRung>)
    ensures ContactVars(Networks(rungs)) == ContactNames(rungs)
    decreases |rungs|
  {
    hide Upper, NetworkVars, RungElements;
    if rungs != [] {
      var k := |rungs| - 1;
      assert Networks(rungs)[..k] == Networks(rungs[..k]);
      NamesOfSource(rungs[..k]);
      NamesOfRung(rungs[k]);
      LastRungNames(rungs);
    }
  }

  lemma LastRungNames(rungs: seq<TextRung>)
    requires rungs != []
    ensures var k := |rungs| - 1;
            ContactNames(rungs) == ContactNames(rungs[..k]) + set i | 0 <= i < |rungs[k].contacts| :: Upper(rungs[k].contacts[i].1)
  {
    hide Upper;
    var k := |rungs| - 1;
    var last := set i | 0 <= i < |rungs[k].contacts| :: Upper(rungs[k].contacts[i].1);
    forall x | x in ContactNames(rungs)
      ensures x in ContactNames(rungs[..k]) + last
    {
      var n, i :| 0 <= n < |rungs| && 0 <= i < |rungs[n].contacts| && Upper(rungs[n].contacts[i].1) == x;
      if n < k {
        assert rungs[..k][n] == rungs[n];
      }
    }
    forall x | x in ContactNames(rungs[..k])
      ensures x in ContactNames(rungs)
    {
      var n, i :| 0 <= n < k && 0 <= i < |rungs[..k][n].contacts| && Upper(rungs[..k][n].contacts[i].1) == x;
      assert rungs[..k][n] == rungs[n];
    }
  }

  // ----- from source text to signals -----

  /** From ladder source to machine code; an empty source is an error, and more variables than
      registers are one. */
  method CompileSource(source: string) returns (ok: bool, program: seq<Instruction>)
    requires LdText.GoodNames(Grouped(LadderTokens(Lines(source)), 0, []))
    ensures var tokens := LadderTokens(Lines(source));
            var stmts := ProgramIl(Grouped(tokens, 0, []));
            && (ok <==> tokens != [] && |VarOrder(stmts)| <= USER_REGISTERS)
            && (ok ==> program == IlProgram(stmts))
  {
    hide *;
    var tokens := TokenizeLadder(source);
    if tokens == [] {
      return false, [];
    }
    var networks := ParseNetworks(tokens);
    ok, program := LdText.CompileLadder(networks);
  }

  /** A source of rungs with NO and NC contacts in series and OUT coils compiles exactly when it has a
      rung and its contacts read at most ten variables. From any Boolean signals the machine then halts
      with the signals that the rungs leave, top to bottom: each coil has the power of its rung, which is
      TRUE when every NO contact is TRUE and every NC contact is not. */
  method CompileSourceCorrectly(source: string, ghost rungs: seq<TextRung>, ghost vm: Vm, ghost vars: Snapshot)
    returns (ok: bool, program: seq<Instruction>, ghost steps: nat, ghost out: Vm)
    requires Lines(source) == SourceLines(rungs) && WellFormed(rungs)
    requires vm.ip == 0 && vm.signals == map x | x in vars :: Bool(vars[x])
    ensures ok <==> rungs != [] && |ContactNames(rungs)| <= 10
    ensures ok ==> Run(program, vm, steps) == Halted(out)
    ensures ok ==> out.signals == map x | x in After(rungs, |rungs|, vars) :: Bool(After(rungs, |rungs|, vars)[x])
  {
    hide Run, Lines, WellFormed, LadderTokens, Grouped, IlProgram, VarOrder, ContactNames, After, LdText.GoodNames, ProgramIl, Networks;
    SourceNetworks(rungs);
    EmptySource(rungs);
    NamesOfSource(rungs);
    SerialSource(rungs, vars);
    OneRegisterPerContactVariable(Networks(rungs));
    steps, out := 0, vm;
    ok, program := CompileSource(source);
    if ok {
      steps, out := LadderCompilationCorrect(Networks(rungs), vm, vars);
    }
  }

  lemma {:induction false} EmptySource(rungs: seq<TextRung>)
    requires WellFormed(rungs)
    ensures LadderTokens(SourceLines(rungs)) == [] <==> rungs == []
  {
    hide LadderTokens, WellFormed, Networks;
    SourceTokens(rungs);
  }

  lemma {:induction false} SerialSource(rungs: seq<TextRung>, vars: Snapshot)
    requires WellFormed(rungs)
    ensures LadderProgram(Networks(rungs))
    ensures forall n :: 0 <= n < |rungs| ==> ValidRung(RungsOf(Networks(rungs))[n])
    ensures Cycle(RungsOf(Networks(rungs)), vars) == After(rungs, |rungs|, vars)
  {
    hide WellFormed, Networks, ValidRung, SerialNetwork, After, RunRungs;
    RungsMean(rungs, |rungs|, vars);
  }

  // ----- the text of every kind of line -----

  /** The Instruction List of one contact, transition or coil line; `first` before the first contact. */
  function LineText(keyword: string, x: string, first: bool): seq<string> {
    var load := if first then "LD" else "AND";
    if keyword == "NO" then [load + " " + x]
    else if keyword == "NC" then [load + "N" + " " + x]
    else if keyword == "P" then [load + " " + x, "R_TRIG" + " " + x]
    else if keyword == "N" then [load + " " + x, "F_TRIG" + " " + x]
    else if keyword == "OUT" then ["ST" + " " + x]
    else if keyword == "SET" then ["S" + " " + x]
    else ["R" + " " + x]
  }

  lemma MoreKeywords()
    ensures Word("P") && Word("N") && Word("SET") && Word("RESET") && Word("|")
    ensures Upper("P") == "P" && Upper("N") == "N" && Upper("SET") == "SET" && Upper("RESET") == "RESET" && Upper("|") == "|"
  {
  }

  lemma KeywordToken(keyword: string, x: string)
    requires keyword in ["NO", "NC", "P", "N", "OUT", "SET", "RESET"] && GoodName(x)
    ensures Words(Upper(keyword + " " + x)) == [keyword, Upper(x)]
  {
    hide White, Words, OpensAt, Upper;
    KeywordShapes();
    MoreKeywords();
    UpperKeeps(x);
    UpperSplits(keyword, x);
    TwoWords(keyword, Upper(x));
  }

  lemma SeriesText(open: bool, x: string, first: bool)
    ensures LdText.Rendered(LdText.ElementLines(Series(open, x), first)) == LineText(if open then "NO" else "NC", x, first)
  {
    assert Spelling(MLd) == "LD" && Spelling(MLdn) == "LD" + "N" && Spelling(MAnd) == "AND" && Spelling(MAndn) == "AND" + "N";
    hide Spelling;
  }

  lemma TransitionText(rising: bool, x: string, first: bool)
    ensures LdText.Rendered(LdText.ElementLines(Transition(rising, x), first)) == LineText(if rising then "P" else "N", x, first)
  {
    assert Spelling(MLd) == "LD" && Spelling(MAnd) == "AND" && Spelling(MRTrig) == "R_TRIG" && Spelling(MFTrig) == "F_TRIG";
    hide Spelling;
  }

  lemma ParallelText(open: bool, x: string, first: bool)
    ensures LdText.Rendered(LdText.ElementLines(Parallel(open, x), first)) == [(if open then "OR" else "ORN") + " " + x]
  {
    assert Spelling(MOr) == "OR" && Spelling(MOrn) == "ORN";
    hide Spelling;
  }

  lemma CoilText(kind: CoilType, x: string, first: bool)
    ensures LdText.Rendered(LdText.ElementLines(CoilLine(kind, x), first))
         == LineText(match kind case OutCoil => "OUT" case SetLatch => "SET" case ResetLatch => "RESET", x, first)
  {
    assert Spelling(MSt) == "ST" && Spelling(MS) == "S" && Spelling(MR) == "R";
    hide Spelling;
  }

  /** A contact, transition or coil line is one element, which becomes the text of its keyword. */
  lemma LineBecomesText(keyword: string, x: string, first: bool)
    requires keyword in ["NO", "NC", "P", "N", "OUT", "SET", "RESET"] && GoodName(x)
    ensures var es := ElementOf(LineToken(keyword + " " + x));
            |es| == 1 && LdText.Rendered(LdText.ElementLines(es[0], first)) == LineText(keyword, Upper(x), first)
  {
    hide Words, Upper, GoodName, LdText.Rendered, LdText.ElementLines, LineText;
    KeywordToken(keyword, x);
    SeriesText(keyword == "NO", Upper(x), first);
    TransitionText(keyword == "P", Upper(x), first);
    CoilText(if keyword == "OUT" then OutCoil else if keyword == "SET" then SetLatch else ResetLatch, Upper(x), first);
  }

  lemma {:induction false} BranchParts(kind: string, x: string)
    requires kind in ["NO", "NC", "P", "N"] && GoodName(x)
    ensures LineToken("|" + " " + (kind + " " + x)) == BranchLine(kind + " " + Upper(x))
    ensures Words(kind + " " + Upper(x)) == [kind, Upper(x)]
  {
    hide White, Words, OpensAt, Upper, Word, Trim;
    var inner := kind + " " + x;
    var line := "|" + " " + inner;
    KeywordShapes();
    MoreKeywords();
    UpperKeeps(x);
    GoodIsWord(Upper(x));
    KeywordToken(kind, x);
    TwoWords(kind, Upper(x));
    UpperSplits("|", inner);
    UpperSplits(kind, x);
    ThreeWords("|", kind, Upper(x));
    TrimBlank(kind, x);
    assert line[1..] == " " + inner && line[0] == '|';
    assert |Words(Upper(line))| == 3;
  }

  lemma TrimBlank(kind: string, x: string)
    requires kind in ["NO", "NC", "P", "N"] && GoodName(x)
    ensures Trim(" " + (kind + " " + x)) == kind + " " + x
  {
    var s := kind + " " + x;
    assert (" " + s)[1..] == s && s[0] == kind[0] && s[|s| - 1] == x[|x| - 1];
    assert DropWhite(" " + s) == DropWhite(s) == s;
    TrimNothing(s);
  }

  /** A branch line with NO or NC becomes OR or ORN, with P or N the same text as without the bar. */
  lemma BranchBecomesText(kind: string, x: string, first: bool)
    requires kind in ["NO", "NC", "P", "N"] && GoodName(x)
    ensures var es := ElementOf(LineToken("|" + " " + (kind + " " + x)));
            && |es| == 1
            && LdText.Rendered(LdText.ElementLines(es[0], first))
               == if kind == "NO" then ["OR" + " " + Upper(x)] else if kind == "NC" then ["ORN" + " " + Upper(x)] else LineText(kind, Upper(x), first)
  {
    hide Words, Upper, GoodName, LdText.Rendered, LdText.ElementLines, LineText, LineToken;
    BranchParts(kind, x);
    ParallelText(kind == "NO", Upper(x), first);
    TransitionText(kind == "P", Upper(x), first);
  }

  /** The lines of the first `k` elements; an element is first while only branches and coils precede it. */
  function LinesUpTo(net: seq<Element>, k: nat): seq<LdText.Line>
    requires k <= |net|
  {
    if k == 0 then []
    else LinesUpTo(net, k - 1) + LdText.ElementLines(net[k - 1], forall j :: 0 <= j < k - 1 ==> net[j].Parallel? || net[j].CoilLine?)
  }

  /** In the text of a network the first series or transition contact loads and all later ones combine. */
  lemma {:induction false} FirstContactLoads(net: seq<Element>)
    ensures LdText.NetworkLines(net, true) == LinesUpTo(net, |net|)
  {
    LinesFrom(net, 0);
    assert net[0..] == net;
  }

  lemma {:induction false} LinesFrom(net: seq<Element>, k: nat)
    requires k <= |net|
    ensures LinesUpTo(net, k) + LdText.NetworkLines(net[k..], forall j :: 0 <= j < k ==> net[j].Parallel? || net[j].CoilLine?)
         == LinesUpTo(net, |net|)
    decreases |net| - k
  {
    hide LdText.ElementLines;
    if k < |net| {
      LinesFrom(net, k + 1);
      var first := forall j :: 0 <= j < k ==> net[j].Parallel? || net[j].CoilLine?;
      var next := forall j :: 0 <= j < k + 1 ==> net[j].Parallel? || net[j].CoilLine?;
      assert net[k..][0] == net[k] && net[k..][1..] == net[k + 1..];
      assert next <==> first && !Loads(net[k]);
    }
  }
}
