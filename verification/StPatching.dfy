/**
 Backpatching: replacing the placeholder targets of recorded jumps turns code
 generated with placeholders into code with resolved jumps.
 */
module StPatching {
  import opened Values
  import opened Machine
  import opened StSyntax
  import opened StCode

  function Retarget(inst: Instruction, t: nat): Instruction { inst.(operands := [Target(t)]) }

  /** `code`, placed at `base`, with the instructions at indices `js` retargeted to `t`. */
  function Patched(code: seq<Instruction>, base: nat, js: seq<nat>, t: nat): (r: seq<Instruction>)
    ensures |r| == |code|
  {
    seq(|code|, i requires 0 <= i < |code| => if base + i in js then Retarget(code[i], t) else code[i])
  }

  predicate Within(js: seq<nat>, lo: nat, hi: nat) { forall j :: j in js ==> lo <= j < hi }

  lemma PatchedConcat(a: seq<Instruction>, b: seq<Instruction>, base: nat, js: seq<nat>, t: nat)
    ensures Patched(a + b, base, js, t) == Patched(a, base, js, t) + Patched(b, base + |a|, js, t)
  {
  }

  /** Indices outside the code do not matter. */
  lemma PatchedLocal(code: seq<Instruction>, base: nat, js: seq<nat>, ks: seq<nat>, t: nat)
    requires forall j :: base <= j < base + |code| ==> (j in js <==> j in ks)
    ensures Patched(code, base, js, t) == Patched(code, base, ks, t)
  {
  }

  lemma PatchedNowhere(code: seq<Instruction>, base: nat, js: seq<nat>, t: nat)
    requires forall j :: j in js ==> !(base <= j < base + |code|)
    ensures Patched(code, base, js, t) == code
  {
  }

  /** Patching inside one piece of a program leaves the pieces around it alone. */
  lemma PatchedWithin(pre: seq<Instruction>, code: seq<Instruction>, post: seq<Instruction>, js: seq<nat>, t: nat)
    requires Within(js, |pre|, |pre| + |code|)
    ensures Patched(pre + code + post, 0, js, t) == pre + Patched(code, |pre|, js, t) + post
  {
  }

  lemma PatchedJump(pre: seq<Instruction>, t0: nat, post: seq<Instruction>, t: nat)
    ensures Patched(pre + [JumpTo(t0)] + post, 0, [|pre|], t) == pre + [JumpTo(t)] + post
    ensures Patched(pre + [JumpIfTo(t0)] + post, 0, [|pre|], t) == pre + [JumpIfTo(t)] + post
  {
  }

  lemma PatchedSnoc(code: seq<Instruction>, js: seq<nat>, j: nat, t: nat)
    ensures Patched(Patched(code, 0, js, t), 0, [j], t) == Patched(code, 0, js + [j], t)
  {
  }

  lemma PatchedLast(pre: seq<Instruction>, base: nat, t0: nat, t: nat)
    ensures Patched(pre + [JumpIfTo(t0)], base, [base + |pre|], t) == pre + [JumpIfTo(t)]
  {
  }

  lemma PatchedOnly(base: nat, t0: nat, t: nat)
    ensures Patched([JumpTo(t0)], base, [base], t) == [JumpTo(t)]
  {
  }

  // ----- conditions -----

  lemma {:induction false} CondJumpsWithin(env: Env, e: Expr, base: nat)
    ensures Within(YesJumps(env, e, base), base, base + CondSize(env, e))
    ensures Within(OtherJumps(env, e, base), base, base + CondSize(env, e))
    decreases e
  {
    match e
    case Binary(l, op, r) =>
      if op == OpAnd || op == OpOr {
        CondJumpsWithin(env, l, base);
        CondJumpsWithin(env, r, base + CondSize(env, l) + if op == OpOr then 1 else 0);
      }
    case Unary(UNot, inner) => CondJumpsWithin(env, inner, base);
    case _ =>
  }

  /** A condition that is not AND, OR or NOT ends in its one jump. */
  lemma SimpleCondEndsInJump(env: Env, e: Expr, base: nat, yes: nat, other: nat) returns (pre: seq<Instruction>)
    requires !(e.Binary? && (e.op == OpAnd || e.op == OpOr)) && !(e.Unary? && e.uop == UNot)
    ensures forall y, o {:trigger CondCode(env, e, base, y, o)} :: CondCode(env, e, base, y, o) == pre + [JumpIfTo(y)]
    ensures |pre| == CondSize(env, e) - 1
    ensures YesJumps(env, e, base) == [base + |pre|] && OtherJumps(env, e, base) == []
  {
    hide ExprCode, ExprSize;
    if e.Binary? && IsCmpOp(e.op) {
      pre := ExprCode(env, e.right, Scratch(0), 1, base)
        + ExprCode(env, e.left, Scratch(1), 2, base + ExprSize(env, e.right, Scratch(0), 1))
        + [Regs2(CmpOpcode(e.op), Scratch(1), Scratch(0))];
      assert forall y :: [Regs2(CmpOpcode(e.op), Scratch(1), Scratch(0)), JumpIfTo(y)]
                         == [Regs2(CmpOpcode(e.op), Scratch(1), Scratch(0))] + [JumpIfTo(y)];
    } else {
      var test := [LoadImm(Scratch(1), Bool(true)), Regs2(Eq, Scratch(0), Scratch(1))];
      pre := ExprCode(env, e, Scratch(0), 1, base) + test;
      assert forall y :: [LoadImm(Scratch(1), Bool(true)), Regs2(Eq, Scratch(0), Scratch(1)), JumpIfTo(y)] == test + [JumpIfTo(y)];
    }
  }

  lemma {:induction false} PatchYes(env: Env, e: Expr, base: nat, y0: nat, y1: nat, other: nat)
    ensures Patched(CondCode(env, e, base, y0, other), base, YesJumps(env, e, base), y1) == CondCode(env, e, base, y1, other)
    decreases e
  {
    hide ExprCode, ExprSize, Patched;
    if e.Binary? && (e.op == OpAnd || e.op == OpOr) {
      var l, r := e.left, e.right;
      var mid := base + CondSize(env, l);
      CondJumpsWithin(env, l, base);
      if e.op == OpAnd {
        var js := YesJumps(env, e, base);
        PatchYes(env, l, base, y0, y1, other);
        PatchYes(env, r, mid, y0, y1, other);
        CondJumpsWithin(env, r, mid);
        PatchedConcat(CondCode(env, l, base, y0, other), CondCode(env, r, mid, y0, other), base, js, y1);
        PatchedLocal(CondCode(env, l, base, y0, other), base, js, YesJumps(env, l, base), y1);
        PatchedLocal(CondCode(env, r, mid, y0, other), mid, js, YesJumps(env, r, mid), y1);
      } else {
        var js := YesJumps(env, r, mid + 1);
        var head := CondCode(env, l, base, mid + 1, other) + [JumpTo(other)];
        PatchYes(env, r, mid + 1, y0, y1, other);
        CondJumpsWithin(env, r, mid + 1);
        PatchedConcat(head, CondCode(env, r, mid + 1, y0, other), base, js, y1);
        PatchedNowhere(head, base, js, y1);
      }
    } else if e.Unary? && e.uop == UNot {
      PatchOther(env, e.inner, base, other, y0, y1);
    } else {
      var pre := SimpleCondEndsInJump(env, e, base, y0, other);
      PatchedLast(pre, base, y0, y1);
    }
  }

  lemma {:induction false} PatchOther(env: Env, e: Expr, base: nat, yes: nat, o0: nat, o1: nat)
    ensures Patched(CondCode(env, e, base, yes, o0), base, OtherJumps(env, e, base), o1) == CondCode(env, e, base, yes, o1)
    decreases e
  {
    hide ExprCode, ExprSize, Patched;
    if e.Binary? && (e.op == OpAnd || e.op == OpOr) {
      var l, r := e.left, e.right;
      var mid := base + CondSize(env, l);
      var js := OtherJumps(env, e, base);
      CondJumpsWithin(env, l, base);
      if e.op == OpAnd {
        PatchOther(env, l, base, yes, o0, o1);
        PatchOther(env, r, mid, yes, o0, o1);
        CondJumpsWithin(env, r, mid);
        PatchedConcat(CondCode(env, l, base, yes, o0), CondCode(env, r, mid, yes, o0), base, js, o1);
        PatchedLocal(CondCode(env, l, base, yes, o0), base, js, OtherJumps(env, l, base), o1);
        PatchedLocal(CondCode(env, r, mid, yes, o0), mid, js, OtherJumps(env, r, mid), o1);
      } else {
        PatchOther(env, l, base, mid + 1, o0, o1);
        PatchOther(env, r, mid + 1, yes, o0, o1);
        CondJumpsWithin(env, r, mid + 1);
        var lc, rc := CondCode(env, l, base, mid + 1, o0), CondCode(env, r, mid + 1, yes, o0);
        PatchedConcat(lc + [JumpTo(o0)], rc, base, js, o1);
        PatchedConcat(lc, [JumpTo(o0)], base, js, o1);
        PatchedLocal(lc, base, js, OtherJumps(env, l, base), o1);
        PatchedLocal([JumpTo(o0)], mid, js, [mid], o1);
        PatchedOnly(mid, o0, o1);
        PatchedLocal(rc, mid + 1, js, OtherJumps(env, r, mid + 1), o1);
      }
    } else if e.Unary? && e.uop == UNot {
      PatchYes(env, e.inner, base, o0, o1, yes);
    } else {
      var pre := SimpleCondEndsInJump(env, e, base, yes, o0);
      PatchedNowhere(CondCode(env, e, base, yes, o0), base, [], o1);
    }
  }

  // ----- EXIT -----

  /** Indices of the EXIT jumps of a statement that belong to the enclosing loop. */
  function Exits(env: Env, s: Stmt, base: nat): seq<nat>
    decreases s
  {
    match s
    case If(c, t, f) =>
      var thenStart := base + CondSize(env, c) + 1;
      BlockExits(env, t, thenStart) + BlockExits(env, f, thenStart + BlockSize(env, t) + 1)
    case Case(_, cs) => CasesExits(env, cs, base)
    case Exit => [base]
    case _ => []
  }

  function BlockExits(env: Env, b: Block, base: nat): seq<nat>
    decreases b
  {
    match b
    case Nil => []
    case Cons(s, rest) => Exits(env, s, base) + BlockExits(env, rest, base + StmtSize(env, s))
  }

  function CasesExits(env: Env, cs: Cases, base: nat): seq<nat>
    decreases cs
  {
    match cs
    case Else(b) => BlockExits(env, b, base)
    case Branch(vs, b, rest) =>
      var bodyStart := base + 3 * |vs| + 1;
      BlockExits(env, b, bodyStart) + CasesExits(env, rest, bodyStart + BlockSize(env, b) + 1)
  }

  lemma {:induction false} ExitsWithin(env: Env, s: Stmt, base: nat)
    ensures Within(Exits(env, s, base), base, base + StmtSize(env, s))
    decreases s
  {
    hide CondSize, ExprSize, CallSize;
    match s
    case If(c, t, f) =>
      var thenStart := base + CondSize(env, c) + 1;
      BlockExitsWithin(env, t, thenStart);
      BlockExitsWithin(env, f, thenStart + BlockSize(env, t) + 1);
    case Case(_, cs) => CasesExitsWithin(env, cs, base);
    case _ =>
  }

  lemma {:induction false} BlockExitsWithin(env: Env, b: Block, base: nat)
    ensures Within(BlockExits(env, b, base), base, base + BlockSize(env, b))
    decreases b
  {
    if b.Cons? {
      ExitsWithin(env, b.head, base);
      BlockExitsWithin(env, b.tail, base + StmtSize(env, b.head));
    }
  }

  lemma {:induction false} CasesExitsWithin(env: Env, cs: Cases, base: nat)
    ensures Within(CasesExits(env, cs, base), base, base + CasesSize(env, cs))
    decreases cs
  {
    match cs
    case Else(b) => BlockExitsWithin(env, b, base);
    case Branch(vs, b, rest) =>
      var bodyStart := base + 3 * |vs| + 1;
      BlockExitsWithin(env, b, bodyStart);
      CasesExitsWithin(env, rest, bodyStart + BlockSize(env, b) + 1);
  }

  lemma {:induction false} PatchExits(env: Env, s: Stmt, base: nat, x0: nat, x1: nat)
    ensures Patched(StmtCode(env, s, base, x0), base, Exits(env, s, base), x1) == StmtCode(env, s, base, x1)
    decreases s
  {
    hide ExprCode, ExprSize, CondCode, CondSize, CallCode, CallSize, Patched, BlockCode, BlockSize, CasesCode, BlockExits, CasesExits;
    match s
    case If(c, t, f) =>
      var thenStart := base + CondSize(env, c) + 1;
      var elseStart := thenStart + BlockSize(env, t) + 1;
      var js := Exits(env, s, base);
      BlockExitsWithin(env, t, thenStart);
      BlockExitsWithin(env, f, elseStart);
      var head := CondCode(env, c, base, thenStart, thenStart) + [JumpTo(elseStart)];
      var jump := [JumpTo(base + StmtSize(env, s))];
      var tc, fc := BlockCode(env, t, thenStart, x0), BlockCode(env, f, elseStart, x0);
      PatchedConcat(head + tc + jump, fc, base, js, x1);
      PatchedConcat(head + tc, jump, base, js, x1);
      PatchedConcat(head, tc, base, js, x1);
      PatchedNowhere(head, base, js, x1);
      PatchedNowhere(jump, elseStart - 1, js, x1);
      PatchedLocal(tc, thenStart, js, BlockExits(env, t, thenStart), x1);
      PatchedLocal(fc, elseStart, js, BlockExits(env, f, elseStart), x1);
      PatchBlockExits(env, t, thenStart, x0, x1);
      PatchBlockExits(env, f, elseStart, x0, x1);
    case Case(x, cs) => PatchCasesExits(env, RegOf(env, x), cs, base, base + StmtSize(env, s), x0, x1);
    case Exit =>
      PatchedOnly(base, x0, x1);
    case _ =>
      PatchedNowhere(StmtCode(env, s, base, x0), base, [], x1);
  }

  lemma {:induction false} PatchBlockExits(env: Env, b: Block, base: nat, x0: nat, x1: nat)
    ensures Patched(BlockCode(env, b, base, x0), base, BlockExits(env, b, base), x1) == BlockCode(env, b, base, x1)
    decreases b
  {
    hide Patched, StmtCode, StmtSize, Exits;
    if b.Cons? {
      var mid := base + StmtSize(env, b.head);
      var js := BlockExits(env, b, base);
      ExitsWithin(env, b.head, base);
      BlockExitsWithin(env, b.tail, mid);
      PatchedConcat(StmtCode(env, b.head, base, x0), BlockCode(env, b.tail, mid, x0), base, js, x1);
      PatchedLocal(StmtCode(env, b.head, base, x0), base, js, Exits(env, b.head, base), x1);
      PatchedLocal(BlockCode(env, b.tail, mid, x0), mid, js, BlockExits(env, b.tail, mid), x1);
      PatchExits(env, b.head, base, x0, x1);
      PatchBlockExits(env, b.tail, mid, x0, x1);
    } else {
      PatchedNowhere([], base, [], x1);
    }
  }

  lemma {:induction false} PatchCasesExits(env: Env, r: u8, cs: Cases, base: nat, end: nat, x0: nat, x1: nat)
    ensures Patched(CasesCode(env, r, cs, base, end, x0), base, CasesExits(env, cs, base), x1) == CasesCode(env, r, cs, base, end, x1)
    decreases cs
  {
    hide Patched, BlockCode, BlockSize, BlockExits, LabelTests;
    match cs
    case Else(b) => PatchBlockExits(env, b, base, x0, x1);
    case Branch(vs, b, rest) =>
      var bodyStart := base + 3 * |vs| + 1;
      var next := bodyStart + BlockSize(env, b) + 1;
      var js := CasesExits(env, cs, base);
      BlockExitsWithin(env, b, bodyStart);
      CasesExitsWithin(env, rest, next);
      var head := LabelTests(r, vs, bodyStart) + [JumpTo(next)];
      var bc, rc := BlockCode(env, b, bodyStart, x0), CasesCode(env, r, rest, next, end, x0);
      PatchedConcat(head + bc + [JumpTo(end)], rc, base, js, x1);
      PatchedConcat(head + bc, [JumpTo(end)], base, js, x1);
      PatchedConcat(head, bc, base, js, x1);
      PatchedNowhere(head, base, js, x1);
      PatchedNowhere([JumpTo(end)], next - 1, js, x1);
      PatchedLocal(bc, bodyStart, js, BlockExits(env, b, bodyStart), x1);
      PatchedLocal(rc, next, js, CasesExits(env, rest, next), x1);
      PatchBlockExits(env, b, bodyStart, x0, x1);
      PatchCasesExits(env, r, rest, next, end, x0, x1);
  }

  // ----- CASE -----

  /** Indices of the jumps of `n` label tests that wait for the start of the body. */
  function TestJumps(n: nat, base: nat): seq<nat> {
    if n == 0 then [] else [base + 2] + TestJumps(n - 1, base + 3)
  }

  /** Indices of the jumps at the end of CASE branches. */
  function EndJumps(env: Env, cs: Cases, base: nat): seq<nat> {
    match cs
    case Else(_) => []
    case Branch(vs, b, rest) =>
      var next := base + 3 * |vs| + 1 + BlockSize(env, b) + 1;
      [next - 1] + EndJumps(env, rest, next)
  }

  lemma {:induction false} TestJumpsWithin(n: nat, base: nat)
    ensures Within(TestJumps(n, base), base, base + 3 * n)
    decreases n
  {
    if n > 0 {
      TestJumpsWithin(n - 1, base + 3);
    }
  }

  lemma {:induction false} PatchTests(r: u8, vs: seq<int>, base: nat, t0: nat, t: nat)
    ensures Patched(LabelTests(r, vs, t0), base, TestJumps(|vs|, base), t) == LabelTests(r, vs, t)
    decreases |vs|
  {
    if vs != [] {
      var test := [LoadImm(Scratch(0), S32(WrapS32(vs[0]))), Regs2(Eq, r, Scratch(0)), JumpIfTo(t0)];
      var js := TestJumps(|vs|, base);
      TestJumpsWithin(|vs| - 1, base + 3);
      PatchTests(r, vs[1..], base + 3, t0, t);
      PatchedConcat(test, LabelTests(r, vs[1..], t0), base, js, t);
      PatchedLocal(test, base, js, [base + 2], t);
      PatchedLocal(LabelTests(r, vs[1..], t0), base + 3, js, TestJumps(|vs| - 1, base + 3), t);
    }
  }

  lemma {:induction false} EndJumpsWithin(env: Env, cs: Cases, base: nat)
    ensures Within(EndJumps(env, cs, base), base, base + CasesSize(env, cs))
    decreases cs
  {
    if cs.Branch? {
      EndJumpsWithin(env, cs.rest, base + 3 * |cs.values| + 1 + BlockSize(env, cs.body) + 1);
    }
  }

  lemma {:induction false} PatchEnds(env: Env, r: u8, cs: Cases, base: nat, e0: nat, e1: nat, exit: nat)
    ensures Patched(CasesCode(env, r, cs, base, e0, exit), base, EndJumps(env, cs, base), e1) == CasesCode(env, r, cs, base, e1, exit)
    decreases cs
  {
    hide Patched, BlockCode, BlockSize, LabelTests;
    match cs
    case Else(b) => PatchedNowhere(CasesCode(env, r, cs, base, e0, exit), base, [], e1);
    case Branch(vs, b, rest) =>
      var bodyStart := base + 3 * |vs| + 1;
      var next := bodyStart + BlockSize(env, b) + 1;
      var js := EndJumps(env, cs, base);
      EndJumpsWithin(env, rest, next);
      var head := LabelTests(r, vs, bodyStart) + [JumpTo(next)] + BlockCode(env, b, bodyStart, exit);
      var rc := CasesCode(env, r, rest, next, e0, exit);
      PatchedConcat(head + [JumpTo(e0)], rc, base, js, e1);
      PatchedConcat(head, [JumpTo(e0)], base, js, e1);
      PatchedNowhere(head, base, js, e1);
      PatchedLocal([JumpTo(e0)], next - 1, js, [next - 1], e1);
      PatchedOnly(next - 1, e0, e1);
      PatchedLocal(rc, next, js, EndJumps(env, rest, next), e1);
      PatchEnds(env, r, rest, next, e0, e1, exit);
  }
}
