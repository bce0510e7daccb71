/**
 Lines and words of a text, as the front ends split them.
 */
module Text {

  /** Characters with the Unicode property White_Space. */
  predicate White(c: char) {
    || '\t' <= c <= '\r' || c == ' ' || c == '\U{85}' || c == '\U{A0}' || c == '\U{1680}'
    || '\U{2000}' <= c <= '\U{200A}' || c == '\U{2028}' || c == '\U{2029}' || c == '\U{202F}'
    || c == '\U{205F}' || c == '\U{3000}'
  }

  /** Non-empty and free of white space. */
  predicate Word(s: string) { s != "" && forall i :: 0 <= i < |s| ==> !White(s[i]) }

  function DropWhite(s: string): (r: string)
    ensures |r| <= |s| && (r != "" ==> !White(r[0]))
  {
    if s == "" || !White(s[0]) then s else DropWhite(s[1..])
  }

  function DropWhiteEnd(s: string): (r: string)
    ensures |r| <= |s|
  {
    if s == "" || !White(s[|s| - 1]) then s else DropWhiteEnd(s[..|s| - 1])
  }

  function Trim(s: string): string { DropWhiteEnd(DropWhite(s)) }

  /** Length of the longest prefix without white space. */
  function WordLength(s: string): (n: nat)
    ensures n <= |s| && (forall i :: 0 <= i < n ==> !White(s[i])) && (n < |s| ==> White(s[n]))
  {
    if s == "" || White(s[0]) then 0 else 1 + WordLength(s[1..])
  }

  function Words(s: string): seq<string>
    decreases |s|
  {
    var t := DropWhite(s);
    if t == "" then [] else [t[..WordLength(t)]] + Words(t[WordLength(t)..])
  }

  function UpperChar(c: char): char {
    if 'a' <= c <= 'z' then (c as int - 'a' as int + 'A' as int) as char else c
  }

  function Upper(s: string): string { seq(|s|, i requires 0 <= i < |s| => UpperChar(s[i])) }

  // ----- lines -----

  function NewlineAt(s: string): (n: nat)
    ensures n <= |s| && (n < |s| ==> s[n] == '\n') && forall i :: 0 <= i < n ==> s[i] != '\n'
  {
    if s == "" || s[0] == '\n' then 0 else 1 + NewlineAt(s[1..])
  }

  function DropReturn(s: string): string {
    if s != "" && s[|s| - 1] == '\r' then s[..|s| - 1] else s
  }

  /** Lines end at a newline, with or without a carriage return before it; the last may lack it. */
  function Lines(s: string): seq<string>
    decreases |s|
  {
    if s == "" then []
    else
      var n := NewlineAt(s);
      if n == |s| then [s] else [DropReturn(s[..n])] + Lines(s[n + 1..])
  }

  function Join(lines: seq<string>): string {
    if lines == [] then "" else if |lines| == 1 then lines[0] else lines[0] + "\n" + Join(lines[1..])
  }

  /** A line that survives joining and splitting: not empty, no newline, no final carriage return. */
  predicate PlainLine(s: string) {
    s != "" && (forall i :: 0 <= i < |s| ==> s[i] != '\n') && s[|s| - 1] != '\r'
  }

  lemma {:induction false} NewlineAfter(s: string, t: string)
    requires forall i :: 0 <= i < |s| ==> s[i] != '\n'
    ensures NewlineAt(s + t) == |s| + NewlineAt(t)
    decreases |s|
  {
    if s == "" {
      assert s + t == t;
    } else {
      assert (s + t)[0] == s[0] && (s + t)[1..] == s[1..] + t;
      NewlineAfter(s[1..], t);
    }
  }

  lemma {:induction false} LineThenRest(s: string, rest: string)
    requires PlainLine(s)
    ensures Lines(s + "\n" + rest) == [s] + Lines(rest)
  {
    NewlineAfter(s, "\n" + rest);
    var all := s + "\n" + rest;
    assert all == s + ("\n" + rest);
    assert all[..|s|] == s && all[|s| + 1..] == rest;
  }

  lemma {:induction false} LastLine(s: string)
    requires PlainLine(s)
    ensures Lines(s) == [s]
  {
    NewlineAfter(s, "");
    assert s + "" == s;
  }

  lemma {:induction false} JoinedLinesSplit(lines: seq<string>)
    requires forall i :: 0 <= i < |lines| ==> PlainLine(lines[i])
    ensures Lines(Join(lines)) == lines
    decreases |lines|
  {
    hide PlainLine;
    if |lines| == 1 {
      LastLine(lines[0]);
    } else if lines != [] {
      JoinedLinesSplit(lines[1..]);
      LineThenRest(lines[0], Join(lines[1..]));
      hide Lines;
    }
  }

  // ----- words -----

  lemma {:induction false} WordLengthAfter(w: string, t: string)
    requires (forall i :: 0 <= i < |w| ==> !White(w[i])) && (t == "" || White(t[0]))
    ensures WordLength(w + t) == |w|
    decreases |w|
  {
    if w == "" {
      assert w + t == t;
    } else {
      assert (w + t)[0] == w[0] && (w + t)[1..] == w[1..] + t;
      WordLengthAfter(w[1..], t);
    }
  }

  lemma {:induction false} WordThenRest(w: string, t: string)
    requires Word(w) && (t == "" || White(t[0]))
    ensures Words(w + t) == [w] + Words(t)
  {
    WordLengthAfter(w, t);
    assert (w + t)[0] == w[0] && !White(w[0]);
    assert (w + t)[..|w|] == w && (w + t)[|w|..] == t;
  }

  lemma {:induction false} TwoWords(a: string, b: string)
    requires Word(a) && Word(b)
    ensures Words(a + " " + b) == [a, b]
  {
    WordThenRest(a, " " + b);
    assert a + " " + b == a + (" " + b);
    assert (" " + b)[1..] == b && (" " + b)[0] == ' ';
    assert DropWhite(" " + b) == DropWhite(b) == b;
    assert Words(" " + b) == Words(b);
    WordThenRest(b, "");
    assert b + "" == b && Words("") == [];
  }

  lemma {:induction false} ThreeWords(a: string, b: string, c: string)
    requires Word(a) && Word(b) && Word(c)
    ensures Words(a + " " + (b + " " + c)) == [a, b, c]
  {
    var rest := b + " " + c;
    TwoWords(b, c);
    assert a + " " + rest == a + (" " + rest);
    WordThenRest(a, " " + rest);
    assert (" " + rest)[1..] == rest && (" " + rest)[0] == ' ' && rest[0] == b[0];
    assert DropWhite(" " + rest) == DropWhite(rest) == rest;
    assert Words(" " + rest) == Words(rest);
  }

  lemma {:induction false} OneWord(w: string)
    requires Word(w)
    ensures Words(w) == [w]
  {
    hide White;
    WordThenRest(w, "");
    assert w + "" == w && Words("") == [];
  }

  lemma TrimNothing(s: string)
    requires s != "" && !White(s[0]) && !White(s[|s| - 1])
    ensures Trim(s) == s
  {
  }
}
