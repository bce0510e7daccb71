/**
 Ladder networks in their textual form and the Instruction List statements the
 ladder compiler produces for them.
 */
module LdCode {
  import opened IlCode

  datatype CoilType = OutCoil | SetLatch | ResetLatch

  /** One line of a network. */
  datatype Element =
    | Series(normallyOpen: bool, v: string)
    | Parallel(normallyOpen: bool, v: string)
    | Transition(rising: bool, v: string)
    | CoilLine(kind: CoilType, v: string)

  /** Whether the element loads the accumulator when it is the first of its network. */
  predicate Loads(e: Element) { e.Series? || e.Transition? }

  function ElementIl(e: Element, first: bool): seq<IlStmt> {
    match e
    case Series(open, x) =>
      if first then [if open then Load(x) else LoadNot(x)] else [if open then And(x) else AndNot(x)]
    case Parallel(open, x) => [if open then Or(x) else OrNot(x)]
    case Transition(rising, x) =>
      [if first then Load(x) else And(x), RunFb(if rising then FRTrig else FFTrig, x)]
    case CoilLine(kind, x) =>
      [match kind
       case OutCoil => Store(x)
       case SetLatch => Set(x)
       case ResetLatch => Reset(x)]
  }

  /** Statements of one network; `first` until a contact has loaded the accumulator. */
  function NetworkIl(net: seq<Element>, first: bool): seq<IlStmt>
    decreases |net|
  {
    if net == [] then [] else ElementIl(net[0], first) + NetworkIl(net[1..], first && !Loads(net[0]))
  }

  function ProgramIl(networks: seq<seq<Element>>): seq<IlStmt> {
    if networks == [] then []
    else ProgramIl(networks[..|networks| - 1]) + NetworkIl(networks[|networks| - 1], true)
  }
}
