/**
 The Instruction List front end: tokens of a source text and the statements they form.
 */
module IlText {
  import opened Options
  import opened Values
  import opened IlCode
  import opened Text

  datatype Mnemonic =
    | MLd | MLdn | MSt | MAnd | MAndn | MOr | MOrn | MXor | MAdd
    | MSub | MMul | MDiv | MMod | MGt | MGe | MEq | MNe | MLe
    | MLt | MJmp | MJmpc | MJmpcn | MCal | MRet | MS | MR | MNot
    | MTon | MTof | MTp | MCtu | MCtd | MRTrig | MFTrig | MSr | MRs

  datatype Token = Op(m: Mnemonic) | Ident(name: string) | LabelMark(name: string)

  function Spelling(m: Mnemonic): string {
    match m
    case MLd => "LD"
    case MLdn => "LDN"
    case MSt => "ST"
    case MAnd => "AND"
    case MAndn => "ANDN"
    case MOr => "OR"
    case MOrn => "ORN"
    case MXor => "XOR"
    case MAdd => "ADD"
    case MSub => "SUB"
    case MMul => "MUL"
    case MDiv => "DIV"
    case MMod => "MOD"
    case MGt => "GT"
    case MGe => "GE"
    case MEq => "EQ"
    case MNe => "NE"
    case MLe => "LE"
    case MLt => "LT"
    case MJmp => "JMP"
    case MJmpc => "JMPC"
    case MJmpcn => "JMPCN"
    case MCal => "CAL"
    case MRet => "RET"
    case MS => "S"
    case MR => "R"
    case MNot => "NOT"
    case MTon => "TON"
    case MTof => "TOF"
    case MTp => "TP"
    case MCtu => "CTU"
    case MCtd => "CTD"
    case MRTrig => "R_TRIG"
    case MFTrig => "F_TRIG"
    case MSr => "SR"
    case MRs => "RS"
  }

  function ParseMnemonic(s: string): Option<Mnemonic> {
    if s == "LD" then Some(MLd)
    else if s == "LDN" then Some(MLdn)
    else if s == "ST" then Some(MSt)
    else if s == "AND" then Some(MAnd)
    else if s == "ANDN" then Some(MAndn)
    else if s == "OR" then Some(MOr)
    else if s == "ORN" then Some(MOrn)
    else if s == "XOR" then Some(MXor)
    else if s == "ADD" then Some(MAdd)
    else if s == "SUB" then Some(MSub)
    else if s == "MUL" then Some(MMul)
    else if s == "DIV" then Some(MDiv)
    else if s == "MOD" then Some(MMod)
    else if s == "GT" then Some(MGt)
    else if s == "GE" then Some(MGe)
    else if s == "EQ" then Some(MEq)
    else if s == "NE" then Some(MNe)
    else if s == "LE" then Some(MLe)
    else if s == "LT" then Some(MLt)
    else if s == "JMP" then Some(MJmp)
    else if s == "JMPC" then Some(MJmpc)
    else if s == "JMPCN" then Some(MJmpcn)
    else if s == "CAL" then Some(MCal)
    else if s == "RET" then Some(MRet)
    else if s == "S" then Some(MS)
    else if s == "R" then Some(MR)
    else if s == "NOT" then Some(MNot)
    else if s == "TON" then Some(MTon)
    else if s == "TOF" then Some(MTof)
    else if s == "TP" then Some(MTp)
    else if s == "CTU" then Some(MCtu)
    else if s == "CTD" then Some(MCtd)
    else if s == "R_TRIG" then Some(MRTrig)
    else if s == "F_TRIG" then Some(MFTrig)
    else if s == "SR" then Some(MSr)
    else if s == "RS" then Some(MRs)
    else None
  }

  lemma ShortSpellingParses(m: Mnemonic)
    requires |Spelling(m)| <= 2
    ensures ParseMnemonic(Spelling(m)) == Some(m)
  {
  }

  lemma EarlyThreeLettersParse(m: Mnemonic)
    requires |Spelling(m)| == 3 && Spelling(m)[0] <= 'L'
    ensures ParseMnemonic(Spelling(m)) == Some(m)
  {
  }

  lemma LateThreeLettersParse(m: Mnemonic)
    requires |Spelling(m)| == 3 && Spelling(m)[0] > 'L'
    ensures ParseMnemonic(Spelling(m)) == Some(m)
  {
  }

  lemma LongSpellingParses(m: Mnemonic)
    requires |Spelling(m)| > 3
    ensures ParseMnemonic(Spelling(m)) == Some(m)
  {
  }

  lemma SpellingParses(m: Mnemonic)
    ensures ParseMnemonic(Spelling(m)) == Some(m)
  {
    hide ParseMnemonic, Spelling;
    if |Spelling(m)| <= 2 {
      ShortSpellingParses(m);
    } else if |Spelling(m)| == 3 {
      if Spelling(m)[0] <= 'L' {
        EarlyThreeLettersParse(m);
      } else {
        LateThreeLettersParse(m);
      }
    } else {
      LongSpellingParses(m);
    }
  }

  /** Mnemonics are upper-case words that do not end in a colon. */
  lemma SpellingShape(m: Mnemonic)
    ensures Word(Spelling(m)) && Upper(Spelling(m)) == Spelling(m) && Spelling(m)[|Spelling(m)| - 1] != ':'
    ensures forall i :: 0 <= i < |Spelling(m)| ==> Spelling(m)[i] != '('
  {
    var s := Spelling(m);
    assert |s| <= 6;
    forall i | 0 <= i < |s|
      ensures !White(s[i]) && UpperChar(s[i]) == s[i] && s[i] != '(' && s[i] != ':'
    {
      assert 'A' <= s[i] <= 'Z' || s[i] == '_';
    }
  }

  // ----- lexer -----

  predicate OpensAt(s: string, i: nat) { i + 1 < |s| && s[i] == '(' && s[i + 1] == '*' }
  predicate ClosesAt(s: string, i: nat) { i + 1 < |s| && s[i] == '*' && s[i + 1] == ')' }

  /** The text from `i` on that lies outside comments; a comment left open runs to the end of the line. */
  function Uncomment(s: string, i: nat, inside: bool): string
    requires i <= |s|
    decreases |s| - i
  {
    if i == |s| then ""
    else if OpensAt(s, i) then Uncomment(s, i + 2, true)
    else if inside && ClosesAt(s, i) then Uncomment(s, i + 2, false)
    else (if inside then "" else [s[i]]) + Uncomment(s, i + 1, inside)
  }

  method RemoveInlineComments(line: string) returns (result: string)
    ensures result == Uncomment(line, 0, false)
  {
    result := "";
    var inside, i := false, 0;
    while i < |line|
      invariant 0 <= i <= |line|
      invariant result + Uncomment(line, i, inside) == Uncomment(line, 0, false)
    {
      if i + 1 < |line| && line[i] == '(' && line[i + 1] == '*' {
        inside, i := true, i + 2;
      } else if inside && i + 1 < |line| && line[i] == '*' && line[i + 1] == ')' {
        inside, i := false, i + 2;
      } else {
        if !inside {
          result := result + [line[i]];
        }
        i := i + 1;
      }
    }
  }

  predicate EndsInColon(s: string) { s != "" && s[|s| - 1] == ':' }

  function WordToken(part: string): Token {
    var m := ParseMnemonic(Upper(part));
    if m.Some? then Op(m.value) else Ident(part)
  }

  /** On a labelled line every further word may be a mnemonic. */
  function LabelledTokens(parts: seq<string>): seq<Token> {
    seq(|parts|, k requires 0 <= k < |parts| => WordToken(parts[k]))
  }

  function PartTokens(parts: seq<string>): seq<Token> {
    if parts == [] then []
    else
      var m := ParseMnemonic(Upper(parts[0]));
      (if EndsInColon(parts[0]) then [LabelMark(parts[0][..|parts[0]| - 1])] + LabelledTokens(parts[1..]) else [])
      + (if m.None? then [] else [Op(m.value)] + if |parts| >= 2 then [Ident(parts[1])] else [])
  }

  function LineTokens(line: string): seq<Token> {
    var t := Trim(line);
    if t == "" || OpensAt(t, 0) then [] else PartTokens(Words(Uncomment(t, 0, false)))
  }

  function TokensOf(lines: seq<string>): seq<Token> {
    if lines == [] then [] else TokensOf(lines[..|lines| - 1]) + LineTokens(lines[|lines| - 1])
  }

  /** Tokens of an IL source, line by line. */
  method Tokenize(source: string) returns (tokens: seq<Token>)
    ensures tokens == TokensOf(Lines(source))
  {
    hide Lines, LineTokens;
    tokens := [];
    var lines := Lines(source);
    for n := 0 to |lines|
      invariant tokens == TokensOf(lines[..n])
    {
      assert lines[..n + 1][..n] == lines[..n];
      var more := TokenizeLine(lines[n]);
      tokens := tokens + more;
    }
    assert lines[..|lines|] == lines;
  }

  method TokenizeLine(line: string) returns (tokens: seq<Token>)
    ensures tokens == LineTokens(line)
  {
    hide LabelledTokens, ParseMnemonic, Upper, Trim, Words, Uncomment;
    tokens := [];
    var trimmed := Trim(line);
    if trimmed == "" || (|trimmed| >= 2 && trimmed[0] == '(' && trimmed[1] == '*') {
      return;
    }
    var code := RemoveInlineComments(trimmed);
    var parts := Words(code);
    if parts == [] {
      return;
    }
    if EndsInColon(parts[0]) {
      var rest := TokenizeLabelled(parts[1..]);
      tokens := [LabelMark(parts[0][..|parts[0]| - 1])] + rest;
    }
    var m := ParseMnemonic(Upper(parts[0]));
    if m.Some? {
      tokens := tokens + [Op(m.value)];
      if |parts| >= 2 {
        tokens := tokens + [Ident(parts[1])];
      }
    }
  }

  method TokenizeLabelled(parts: seq<string>) returns (tokens: seq<Token>)
    ensures tokens == LabelledTokens(parts)
  {
    hide ParseMnemonic, Upper;
    tokens := [];
    for k := 0 to |parts|
      invariant |tokens| == k && forall j :: 0 <= j < k ==> tokens[j] == WordToken(parts[j])
    {
      var m := ParseMnemonic(Upper(parts[k]));
      tokens := tokens + [if m.Some? then Op(m.value) else Ident(parts[k])];
    }
  }

  // ----- parser -----

  predicate TakesOperand(m: Mnemonic) { m != MRet && m != MNot }

  function StatementOf(m: Mnemonic, x: string): IlStmt {
    match m
    case MLd => Load(x)
    case MLdn => LoadNot(x)
    case MSt => Store(x)
    case MAnd => And(x)
    case MAndn => AndNot(x)
    case MOr => Or(x)
    case MOrn => OrNot(x)
    case MXor => Compute(IXor, x)
    case MAdd => Compute(IAdd, x)
    case MSub => Compute(ISub, x)
    case MMul => Compute(IMul, x)
    case MDiv => Compute(IDiv, x)
    case MMod => Compute(IMod, x)
    case MGt => Cmp(CmpGt, x)
    case MGe => Cmp(CmpGte, x)
    case MEq => Cmp(CmpEq, x)
    case MNe => Cmp(CmpNeq, x)
    case MLe => Cmp(CmpLte, x)
    case MLt => Cmp(CmpLt, x)
    case MJmp => Jump(x)
    case MJmpc => JumpIf(x)
    case MJmpcn => JumpIfNot(x)
    case MCal => CallFb(x)
    case MRet => Return
    case MS => Set(x)
    case MR => Reset(x)
    case MNot => Invert
    case MTon => RunFb(FTon, x)
    case MTof => RunFb(FTof, x)
    case MTp => RunFb(FTp, x)
    case MCtu => RunFb(FCtu, x)
    case MCtd => RunFb(FCtd, x)
    case MRTrig => RunFb(FRTrig, x)
    case MFTrig => RunFb(FFTrig, x)
    case MSr => RunFb(FSr, x)
    case MRs => RunFb(FRs, x)
  }

  /** The statement that starts at token `i`, if any, and the next position. A missing
      operand reads as "?"; stray identifiers are skipped. */
  function StatementAt(tokens: seq<Token>, i: nat): (r: (seq<IlStmt>, nat))
    requires i < |tokens|
    ensures i < r.1 <= |tokens|
  {
    match tokens[i]
    case Op(m) =>
      if !TakesOperand(m) then ([StatementOf(m, "")], i + 1)
      else if i + 1 < |tokens| && tokens[i + 1].Ident? then ([StatementOf(m, tokens[i + 1].name)], i + 2)
      else ([StatementOf(m, "?")], i + 1)
    case LabelMark(name) => ([Label(name)], i + 1)
    case Ident(_) => ([], i + 1)
  }

  /** Statements from token `i` on. */
  function Parsed(tokens: seq<Token>, i: nat): seq<IlStmt>
    requires i <= |tokens|
    decreases |tokens| - i
  {
    if i == |tokens| then [] else StatementAt(tokens, i).0 + Parsed(tokens, StatementAt(tokens, i).1)
  }

  method Parse(tokens: seq<Token>) returns (stmts: seq<IlStmt>)
    ensures stmts == Parsed(tokens, 0)
  {
    hide StatementOf, StatementAt;
    stmts := [];
    var i := 0;
    while i < |tokens|
      invariant 0 <= i <= |tokens|
      invariant stmts + Parsed(tokens, i) == Parsed(tokens, 0)
    {
      ghost var done, rest := stmts, Parsed(tokens, StatementAt(tokens, i).1);
      assert done + (StatementAt(tokens, i).0 + rest) == done + StatementAt(tokens, i).0 + rest;
      var more;
      more, i := ParseStatement(tokens, i);
      stmts := stmts + more;
    }
  }

  method ParseStatement(tokens: seq<Token>, i: nat) returns (stmts: seq<IlStmt>, next: nat)
    requires i < |tokens|
    ensures (stmts, next) == StatementAt(tokens, i)
  {
    hide StatementOf;
    next := i + 1;
    match tokens[i]
    case Op(m) =>
      if TakesOperand(m) {
        var x;
        x, next := ExpectIdent(tokens, next);
        stmts := [StatementOf(m, x)];
      } else {
        stmts := [StatementOf(m, "")];
      }
    case LabelMark(name) => stmts := [Label(name)];
    case Ident(_) => stmts := [];
  }

  /** The identifier at position `i`, if there is one; otherwise "?" without moving. */
  method ExpectIdent(tokens: seq<Token>, i: nat) returns (x: string, next: nat)
    requires i <= |tokens|
    ensures if i < |tokens| && tokens[i].Ident? then x == tokens[i].name && next == i + 1 else x == "?" && next == i
  {
    if i < |tokens| && tokens[i].Ident? {
      return tokens[i].name, i + 1;
    }
    return "?", i;
  }

  // ----- round trip -----

  /** Names that survive: words without an opening comment bracket. */
  predicate GoodName(x: string) { Word(x) && NoBracket(x) }

  predicate NoBracket(s: string) { forall i :: 0 <= i < |s| ==> !OpensAt(s, i) }

  function LineOf(m: Mnemonic, x: string): string { Spelling(m) + " " + x }

  lemma {:induction false} UncommentNothing(s: string, i: nat)
    requires i <= |s| && NoBracket(s)
    ensures Uncomment(s, i, false) == s[i..]
    decreases |s| - i
  {
    if i < |s| {
      UncommentNothing(s, i + 1);
      assert !OpensAt(s, i) && s[i..] == [s[i]] + s[i + 1..];
    }
  }

  lemma LineHasNoBracket(m: Mnemonic, x: string)
    requires NoBracket(x)
    ensures NoBracket(LineOf(m, x))
  {
    hide Spelling;
    SpellingShape(m);
    var a, s := Spelling(m), LineOf(m, x);
    forall i | 0 <= i < |s|
      ensures !OpensAt(s, i)
    {
      if i < |a| {
        assert s[i] == a[i];
      } else if i > |a| {
        assert s[i] == x[i - |a| - 1] && !OpensAt(x, i - |a| - 1);
        assert i + 1 < |s| ==> s[i + 1] == x[i - |a|];
      }
    }
  }

  lemma LineShape(m: Mnemonic, x: string)
    requires Word(x)
    ensures PlainLine(LineOf(m, x)) && Trim(LineOf(m, x)) == LineOf(m, x)
  {
    hide Spelling, White, Trim, Upper;
    SpellingShape(m);
    var a, s := Spelling(m), LineOf(m, x);
    WhiteEnds();
    assert s[0] == a[0] && s[|s| - 1] == x[|x| - 1];
    TrimNothing(s);
    forall i | 0 <= i < |s|
      ensures s[i] != '\n'
    {
      assert i < |a| ==> s[i] == a[i];
      assert i > |a| ==> s[i] == x[i - |a| - 1];
    }
  }

  lemma WhiteEnds()
    ensures White('\n') && White('\r') && White(' ')
  {
  }

  /** A generated line gives its mnemonic and its operand, however the operand is spelled. */
  lemma LineRoundTrip(m: Mnemonic, x: string)
    requires GoodName(x)
    ensures LineTokens(LineOf(m, x)) == [Op(m), Ident(x)]
  {
    hide Spelling, White, Trim, Uncomment, Words, ParseMnemonic, Upper;
    LineShape(m, x);
    LineHasNoBracket(m, x);
    UncommentNothing(LineOf(m, x), 0);
    SpellingShape(m);
    SpellingParses(m);
    TwoWords(Spelling(m), x);
  }
}
