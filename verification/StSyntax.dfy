/**
 Abstract syntax of the Structured Text subset of section 3.3 of IEC 61131-3:2003
 that the code generator accepts.
 */
module StSyntax {
  import opened Options

  datatype VarType =
    | TInt | TReal | TBool | TDInt | TLReal | TByte | TWord | TDWord
    | TSInt | TUSInt | TUInt | TULInt | TLInt
    | TTime | TDate | TTod | TDt | TString | TArray
    | TTon | TTof | TTp | TCtu | TCtd | TCtud | TSr | TRs | TRTrig | TFTrig

  datatype BinOp =
    | OpAdd | OpSub | OpMul | OpDiv | OpMod
    | OpEq | OpNeq | OpGt | OpLt | OpGte | OpLte
    | OpAnd | OpOr | OpXor

  datatype UnaryOp = UNeg | UNot

  datatype Expr =
    | IntLiteral(n: int)
    | RealLiteral(x: real)
    | BoolLiteral(b: bool)
    | Variable(name: string)
    | Binary(left: Expr, op: BinOp, right: Expr)
    | Unary(uop: UnaryOp, inner: Expr)
    | FieldAccess(name: string, field: string)
    | ArrayAccess(name: string, index: Expr)

  datatype Stmt =
    | Assign(name: string, value: Expr)
    | ArrayAssign(name: string, index: Expr, value: Expr)
    | If(cond: Expr, thenBody: Block, elseBody: Block)
    | While(cond: Expr, body: Block)
    | For(variable: string, start: Expr, end: Expr, step: Option<Expr>, body: Block)
    | Case(variable: string, cases: Cases)
    | Repeat(body: Block, cond: Expr)
    | Return
    | Exit
    | FunCall(name: string, args: seq<Expr>)

  datatype Block = Nil | Cons(head: Stmt, tail: Block)

  /** The branches of a CASE statement, ending in its ELSE part. */
  datatype Cases = Else(body: Block) | Branch(values: seq<int>, body: Block, rest: Cases)

  datatype Declaration = Declaration(name: string, varType: VarType)

  predicate IsArithOp(op: BinOp) { op in {OpAdd, OpSub, OpMul, OpDiv, OpMod} }
  predicate IsCmpOp(op: BinOp) { op in {OpEq, OpNeq, OpGt, OpLt, OpGte, OpLte} }
}
