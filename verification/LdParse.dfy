/**
 Grouping of ladder source lines into networks.
 */
module LdParse {
  import opened Options
  import opened Text
  import opened IlText
  import opened LdCode

  datatype LdToken =
    | NetworkMark | NoLine(v: string) | NcLine(v: string) | PLine(v: string) | NLine(v: string)
    | OutLine(v: string) | SetLine(v: string) | ResetLine(v: string)
    | BranchLine(spec: string)

  /** A branch specification is a kind and a variable; anything else is dropped. */
  function BranchElement(parts: seq<string>): Option<Element> {
    if |parts| != 2 then None
    else if parts[0] == "NO" then Some(Parallel(true, parts[1]))
    else if parts[0] == "NC" then Some(Parallel(false, parts[1]))
    else if parts[0] == "P" then Some(Transition(true, parts[1]))
    else if parts[0] == "N" then Some(Transition(false, parts[1]))
    else None
  }

  function ElementOf(t: LdToken): seq<Element> {
    match t
    case NetworkMark => []
    case NoLine(x) => [Series(true, x)]
    case NcLine(x) => [Series(false, x)]
    case PLine(x) => [Transition(true, x)]
    case NLine(x) => [Transition(false, x)]
    case OutLine(x) => [CoilLine(OutCoil, x)]
    case SetLine(x) => [CoilLine(SetLatch, x)]
    case ResetLine(x) => [CoilLine(ResetLatch, x)]
    case BranchLine(spec) =>
      var e := BranchElement(Words(spec));
      if e.Some? then [e.value] else []
  }

  function Closed(current: seq<Element>): seq<seq<Element>> { if current == [] then [] else [current] }

  /** Networks of the tokens from `i` on, with `current` the elements of the open network. */
  function Grouped(tokens: seq<LdToken>, i: nat, current: seq<Element>): seq<seq<Element>>
    requires i <= |tokens|
    decreases |tokens| - i
  {
    if i == |tokens| then Closed(current)
    else if tokens[i].NetworkMark? then Closed(current) + Grouped(tokens, i + 1, [])
    else Grouped(tokens, i + 1, current + ElementOf(tokens[i]))
  }

  method ParseNetworks(tokens: seq<LdToken>) returns (networks: seq<seq<Element>>)
    ensures networks == Grouped(tokens, 0, [])
  {
    hide ElementOf;
    networks := [];
    var current: seq<Element> := [];
    for i := 0 to |tokens|
      invariant networks + Grouped(tokens, i, current) == Grouped(tokens, 0, [])
    {
      if tokens[i].NetworkMark? {
        if current != [] {
          networks := networks + [current];
          current := [];
        }
      } else {
        current := current + ElementOf(tokens[i]);
      }
    }
    if current != [] {
      networks := networks + [current];
    }
  }

  function Elements(tokens: seq<LdToken>, i: nat): seq<Element>
    requires i <= |tokens|
    decreases |tokens| - i
  {
    if i == |tokens| then [] else ElementOf(tokens[i]) + Elements(tokens, i + 1)
  }

  function Concat(networks: seq<seq<Element>>): seq<Element> {
    if networks == [] then [] else networks[0] + Concat(networks[1..])
  }

  /** Grouping loses and reorders nothing, and makes no empty network. */
  lemma {:induction false} GroupingKeepsElements(tokens: seq<LdToken>, i: nat, current: seq<Element>)
    requires i <= |tokens|
    ensures Concat(Grouped(tokens, i, current)) == current + Elements(tokens, i)
    ensures forall n :: 0 <= n < |Grouped(tokens, i, current)| ==> Grouped(tokens, i, current)[n] != []
    decreases |tokens| - i
  {
    hide ElementOf;
    if i == |tokens| {
      ConcatClosed(current, []);
      assert Closed(current) + [] == Closed(current);
    } else if tokens[i].NetworkMark? {
      GroupingKeepsElements(tokens, i + 1, []);
      ConcatClosed(current, Grouped(tokens, i + 1, []));
      MarkIsEmpty();
    } else {
      GroupingKeepsElements(tokens, i + 1, current + ElementOf(tokens[i]));
    }
  }

  lemma MarkIsEmpty()
    ensures ElementOf(NetworkMark) == []
  {
  }

  lemma ConcatClosed(current: seq<Element>, rest: seq<seq<Element>>)
    ensures Concat(Closed(current) + rest) == current + Concat(rest)
  {
    if current == [] {
      assert Closed(current) + rest == rest;
    } else {
      assert (Closed(current) + rest)[1..] == rest;
    }
  }

  // ----- round trip -----

  function TokenFor(e: Element): LdToken {
    match e
    case Series(open, x) => if open then NoLine(x) else NcLine(x)
    case Parallel(open, x) => BranchLine((if open then "NO" else "NC") + " " + x)
    case Transition(rising, x) => if rising then PLine(x) else NLine(x)
    case CoilLine(kind, x) =>
      match kind
      case OutCoil => OutLine(x)
      case SetLatch => SetLine(x)
      case ResetLatch => ResetLine(x)
  }

  function NetworkTokens(net: seq<Element>): seq<LdToken> {
    [NetworkMark] + seq(|net|, k requires 0 <= k < |net| => TokenFor(net[k]))
  }

  function ProgramTokens(networks: seq<seq<Element>>): seq<LdToken> {
    if networks == [] then [] else NetworkTokens(networks[0]) + ProgramTokens(networks[1..])
  }

  lemma TokenRoundTrip(e: Element)
    requires Word(e.v)
    ensures ElementOf(TokenFor(e)) == [e] && !TokenFor(e).NetworkMark?
  {
    if e.Parallel? {
      TwoWords(if e.normallyOpen then "NO" else "NC", e.v);
    }
  }

  /** Printing a list of non-empty networks and grouping the tokens gives the list back. */
  lemma {:induction false} NetworksRoundTrip(tokens: seq<LdToken>, i: nat, current: seq<Element>, networks: seq<seq<Element>>)
    requires i <= |tokens| && tokens[i..] == ProgramTokens(networks)
    requires forall n :: 0 <= n < |networks| ==> networks[n] != [] && forall k :: 0 <= k < |networks[n]| ==> Word(networks[n][k].v)
    ensures Grouped(tokens, i, current) == Closed(current) + networks
    decreases |networks|
  {
    hide *;
    ProgramTokensStep(networks);
    if networks != [] {
      var net, rest := networks[0], networks[1..];
      NetworkAhead(tokens, i, net, ProgramTokens(rest));
      ReadElements(tokens, i + 1, net, 0);
      assert net[..0] == [];
      MarkCloses(tokens, i, current);
      NetworksRoundTrip(tokens, i + 1 + |net|, net, rest);
      ClosedKeeps(net);
      assert Closed(current) + ([net] + rest) == Closed(current) + networks;
    } else {
      assert |tokens[i..]| == 0;
      GroupedAtEnd(tokens, i, current);
    }
  }

  lemma ProgramTokensStep(networks: seq<seq<Element>>)
    ensures networks == [] ==> ProgramTokens(networks) == []
    ensures networks != [] ==> ProgramTokens(networks) == NetworkTokens(networks[0]) + ProgramTokens(networks[1..])
  {
  }

  lemma NetworkAhead(tokens: seq<LdToken>, i: nat, net: seq<Element>, rest: seq<LdToken>)
    requires i <= |tokens| && tokens[i..] == NetworkTokens(net) + rest
    ensures i + 1 + |net| <= |tokens| && tokens[i].NetworkMark? && tokens[i + 1 + |net|..] == rest
    ensures forall k :: 0 <= k < |net| ==> tokens[i + 1 + k] == TokenFor(net[k])
  {
    hide TokenFor;
    var m := |net|;
    assert |NetworkTokens(net)| == 1 + m;
    assert tokens[i] == tokens[i..][0] == NetworkTokens(net)[0];
    forall k | 0 <= k < m
      ensures tokens[i + 1 + k] == TokenFor(net[k])
    {
      assert tokens[i + 1 + k] == tokens[i..][1 + k] == NetworkTokens(net)[1 + k];
    }
    assert tokens[i + 1 + m..] == tokens[i..][1 + m..];
  }

  lemma MarkCloses(tokens: seq<LdToken>, i: nat, current: seq<Element>)
    requires i < |tokens| && tokens[i].NetworkMark?
    ensures Grouped(tokens, i, current) == Closed(current) + Grouped(tokens, i + 1, [])
  {
  }

  lemma GroupedAtEnd(tokens: seq<LdToken>, i: nat, current: seq<Element>)
    requires i == |tokens|
    ensures Grouped(tokens, i, current) == Closed(current) + []
  {
  }

  lemma ClosedKeeps(net: seq<Element>)
    ensures net != [] ==> Closed(net) == [net]
  {
  }

  lemma {:induction false} ReadElements(tokens: seq<LdToken>, at: nat, net: seq<Element>, k: nat)
    requires k <= |net| && at + |net| <= |tokens|
    requires forall j :: 0 <= j < |net| ==> tokens[at + j] == TokenFor(net[j]) && Word(net[j].v)
    ensures Grouped(tokens, at + k, net[..k]) == Grouped(tokens, at + |net|, net)
    decreases |net| - k
  {
    hide TokenFor, ElementOf;
    if k < |net| {
      TokenRoundTrip(net[k]);
      assert tokens[at + k] == TokenFor(net[k]);
      assert net[..k] + [net[k]] == net[..k + 1];
      ReadElements(tokens, at, net, k + 1);
    } else {
      assert net[..k] == net;
    }
  }
}
