/** The code of every construct, entered at its start, is left only at its end or by its free breaks; and not even
  * at its end when the construct never ends normally. So code can be moved as long as what is compiled together
  * stays together. */
module CodeFlow {
  import opened Bytes
  import opened Values
  import opened Syntax
  import opened CodeGen
  import opened Patching
  import opened Flow
  import opened StmtSimulation
  import M = Machine

  /** Entered at its start, `c` is left only at its end. */
  ghost predicate Passes(c: seq<Byte>) {
    Flows(c, {0}, {|c|})
  }

  lemma {:induction false} PassBoth(a: seq<Byte>, b: seq<Byte>)
    requires Passes(a) && Passes(b)
    ensures Passes(a + b)
  {
    hide Flows;
    Then(a, b, {|b|}, {|a| + |b|});
  }

  lemma {:induction false} PlainPasses(c: seq<Byte>)
    requires 1 <= |c| <= 3 && M.Decode(c).size == |c| && !M.Decode(c).instr.ITruncated?
    requires FallsThrough(M.Decode(c).instr) && Distance(M.Decode(c).instr).None?
    ensures Passes(c)
  {
    hide M.Decode, Flows;
    Plain(c);
  }

  /** A conditional jump over `body`. */
  lemma {:induction false} JumpOver(op: Byte, body: seq<Byte>)
    requires (op == 0x51 || op == 0x52 || op == 0x72 || op == 0x73) && Passes(body)
    ensures Passes(JumpCode(op, |body|) + body)
  {
    hide Flows, JumpCode;
    Sometimes(op, |body|);
    Compose(JumpCode(op, |body|), body, {0}, {3, 3 + |body|}, {0}, {|body|}, {0}, {3 + |body|});
  }

  // ----- expressions -----

  lemma {:induction false} GetPasses(x: Name, ctx: Ctx)
    requires !Resolve(x, ctx).Nowhere?
    ensures Passes(GetCode(x, ctx)) && Passes(SetCode(x, ctx)) && |GetCode(x, ctx)| > 0
  {
    hide Passes, Resolve;
    match Resolve(x, ctx) {
      case Local(i) =>
        PlainPasses([0x23, i % 0x100]);
        PlainPasses([0x24, i % 0x100]);
      case Global(i) =>
        PlainPasses([0x20, i % 0x100]);
        PlainPasses([0x21, i % 0x100]);
    }
  }

  lemma {:induction false} OpPasses(op: BinOp)
    ensures Passes([OpByte(op)])
  {
    hide Passes;
    PlainPasses([OpByte(op)]);
  }

  /** The code of an expression is left at its end. */
  lemma {:induction false} ExprPasses(e: Expr, ctx: Ctx)
    requires ExprOk(e, ctx)
    ensures Passes(ExprCode(e, ctx)) && |ExprCode(e, ctx)| > 0
    decreases e, 1
  {
    hide Passes, M.Decode, GetCode, SetCode, CallCode, ExprsCode, IntCode, OpByte, Resolve, ShortCircuit;
    match e {
      case IntLit(n) => IntPasses(n);
      case BoolLit(b) => ConstPasses(if b then 0x01 else 0x02);
      case NilLit => ConstPasses(0x00);
      case Var(x) => GetPasses(x, ctx);
      case Neg(_) => UnaryPasses(e, ctx, 0x35);
      case Not(_) => UnaryPasses(e, ctx, 0x46);
      case Unwrap(_) => UnaryPasses(e, ctx, 0x70);
      case Bin(_, _, _) => BinPasses(e, ctx);
      case And(_, _) => ShortPasses(e, 0x51, ctx);
      case Or(_, _) => ShortPasses(e, 0x52, ctx);
      case Coalesce(_, _) => CoalescePasses(e, ctx);
      case Call(f, args) =>
        ListPasses(args, ctx);
        CallPasses(f, Count(args), ctx);
        PassBoth(ExprsCode(args, ctx), CallCode(f, Count(args), ctx));
    }
  }

  lemma {:induction false} IntPasses(n: I16)
    ensures Passes(IntCode(n)) && |IntCode(n)| > 0
  {
    hide Passes;
    PlainPasses(IntCode(n));
  }

  lemma {:induction false} ConstPasses(b: Byte)
    requires b == 0x00 || b == 0x01 || b == 0x02
    ensures Passes([b])
  {
    hide Passes;
    PlainPasses([b]);
  }

  lemma {:induction false} UnaryPasses(e: Expr, ctx: Ctx, op: Byte)
    requires ExprOk(e, ctx) && ((e.Neg? && op == 0x35) || (e.Not? && op == 0x46) || (e.Unwrap? && op == 0x70))
    ensures Passes(ExprCode(e.e, ctx) + [op])
    decreases e, 0
  {
    hide Passes, ExprCode;
    ExprPasses(e.e, ctx);
    PlainPasses([op]);
    PassBoth(ExprCode(e.e, ctx), [op]);
  }

  lemma {:induction false} BinPasses(e: Expr, ctx: Ctx)
    requires ExprOk(e, ctx) && e.Bin?
    ensures Passes(ExprCode(e.l, ctx) + ExprCode(e.r, ctx) + [OpByte(e.bin)])
    decreases e, 0
  {
    hide Passes, ExprCode, OpByte;
    ExprPasses(e.l, ctx);
    ExprPasses(e.r, ctx);
    OpPasses(e.bin);
    PassBoth(ExprCode(e.l, ctx), ExprCode(e.r, ctx));
    PassBoth(ExprCode(e.l, ctx) + ExprCode(e.r, ctx), [OpByte(e.bin)]);
  }

  lemma {:induction false} ShortPasses(e: Expr, test: Byte, ctx: Ctx)
    requires ExprOk(e, ctx) && (e.And? || e.Or?) && (test == 0x51 || test == 0x52)
    ensures Passes(ShortCircuit(ExprCode(e.l, ctx), test, ExprCode(e.r, ctx)))
    ensures |ShortCircuit(ExprCode(e.l, ctx), test, ExprCode(e.r, ctx))| > 0
    decreases e, 0
  {
    hide Passes, ExprCode, JumpCode;
    var cl, cr := ExprCode(e.l, ctx), ExprCode(e.r, ctx);
    ExprPasses(e.l, ctx);
    ExprPasses(e.r, ctx);
    PlainPasses([0x10]);
    PlainPasses([0x11]);
    PassBoth([0x10], cr);
    var over := JumpCode(test, |[0x10] + cr|) + ([0x10] + cr);
    JumpOver(test, [0x10] + cr);
    PassBoth([0x11], over);
    PassBoth(cl, [0x11] + over);
    assert ShortCircuit(cl, test, cr) == cl + ([0x11] + over);
  }

  lemma {:induction false} CoalescePasses(e: Expr, ctx: Ctx)
    requires ExprOk(e, ctx) && e.Coalesce?
    ensures Passes(ExprCode(e.l, ctx) + JumpCode(0x72, |ExprCode(e.r, ctx)|) + ExprCode(e.r, ctx))
    decreases e, 0
  {
    hide Passes, ExprCode, JumpCode;
    var cl, cr := ExprCode(e.l, ctx), ExprCode(e.r, ctx);
    ExprPasses(e.l, ctx);
    ExprPasses(e.r, ctx);
    JumpOver(0x72, cr);
    PassBoth(cl, JumpCode(0x72, |cr|) + cr);
    assert cl + JumpCode(0x72, |cr|) + cr == cl + (JumpCode(0x72, |cr|) + cr);
  }

  lemma {:induction false} CallPasses(f: Name, argc: nat, ctx: Ctx)
    requires FindFunc(ctx.funcs, f).Some?
    ensures Passes(CallCode(f, argc, ctx)) && |CallCode(f, argc, ctx)| == 3
  {
    hide Passes;
    PlainPasses([0x60, FindFunc(ctx.funcs, f).value % 0x100, argc % 0x100]);
  }

  lemma {:induction false} ListPasses(es: Exprs, ctx: Ctx)
    requires ExprsOk(es, ctx)
    ensures Passes(ExprsCode(es, ctx))
    decreases es, 0
  {
    match es {
      case NoExprs => Nothing();
      case Exprs(e, rest) =>
        hide Passes, ExprCode;
        ExprPasses(e, ctx);
        ListPasses(rest, ctx);
        PassBoth(ExprCode(e, ctx), ExprsCode(rest, ctx));
    }
  }

  // ----- ways out of a statement -----

  /** Where a statement of `n` bytes leads: to its end unless it `leaves`, and to the target of its free breaks. */
  function Outs(leaves: bool, n: int, brk: Option<int>): set<int> {
    (if leaves then {} else {n}) + (match brk case Some(d) => {d} case None => {})
  }

  /** The target of free breaks, if there are any, is not inside the `n` bytes. */
  predicate Outside(brk: Option<int>, n: int) {
    brk.Some? ==> n <= brk.value
  }

  /** A statement that only evaluates and stores is left at its end. */
  lemma {:induction false} PassOuts(c: seq<Byte>, brk: Option<int>)
    requires Passes(c) && Outside(brk, |c|)
    ensures Flows(c, {0}, Outs(false, |c|, brk))
  {
    hide Flows;
    Weaken(c, {0}, {|c|}, Outs(false, |c|, brk));
  }

  /** `a`, which is left at its end, in front of a statement. */
  lemma {:induction false} Ahead(a: seq<Byte>, b: seq<Byte>, leaves: bool, brk: Option<int>)
    requires Passes(a) && Flows(b, {0}, Outs(leaves, |b|, Shift(brk, |a|))) && Outside(brk, |a| + |b|)
    ensures Flows(a + b, {0}, Outs(leaves, |a| + |b|, brk))
  {
    hide Flows;
    Compose(a, b, {0}, {|a|}, {0}, Outs(leaves, |b|, Shift(brk, |a|)), {0}, Outs(leaves, |a| + |b|, brk));
  }

  lemma {:induction false} MayEnd(c: seq<Byte>, leaves: bool, brk: Option<int>)
    requires Flows(c, {0}, Outs(leaves, |c|, brk)) && Outside(brk, |c|)
    ensures Flows(c, {0}, Outs(false, |c|, brk))
  {
    hide Flows;
    Weaken(c, {0}, Outs(leaves, |c|, brk), Outs(false, |c|, brk));
  }

  // ----- statements -----

  lemma {:induction false} PopsPass(n: nat)
    ensures Passes(Pops(n))
    decreases n
  {
    if n == 0 {
      Nothing();
    } else {
      hide Passes;
      PlainPasses([0x10]);
      PopsPass(n - 1);
      PassBoth([0x10], Pops(n - 1));
      assert Pops(n) == [0x10] + Pops(n - 1);
    }
  }

  /** Where control goes in the code of a statement. */
  lemma {:induction false} StmtFlows(s: Stmt, ctx: Ctx, inLoop: bool, inSwitch: bool, brk: Option<int>)
    requires StmtOk(s, ctx, inLoop, inSwitch) && (inLoop ==> brk.Some?)
    requires Outside(brk, |StmtCode(s, ctx, brk)|) && |StmtCode(s, ctx, brk)| <= 0xFFFF
    ensures Flows(StmtCode(s, ctx, brk), {0}, Outs(Leaves(s), |StmtCode(s, ctx, brk)|, brk))
    decreases s, 1
  {
    hide Flows, SeqCode, IfCode, IfLetCode, WhileCode, ForInCode, SwitchCode, SimpleCode, JumpCode, Outs, After, Outside;
    match s {
      case Skip =>
        Nothing();
        EmptyOuts(brk);
      case Seq(_, _) => SeqFlows(s, ctx, inLoop, inSwitch, brk);
      case If(_, _, _) => IfFlows(s, ctx, inLoop, inSwitch, brk);
      case IfLet(_, _, _, _) => IfLetFlows(s, ctx, inLoop, inSwitch, brk);
      case While(_, _) => WhileFlows(s, ctx, inLoop, inSwitch, brk);
      case ForIn(_, _, _, _, _) => ForFlows(s, ctx, inLoop, inSwitch, brk);
      case Switch(_, _) => SwitchFlows(s, ctx, inLoop, inSwitch, brk);
      case Break => BreakFlows(brk);
      case Return(_) => ReturnFlows(s, ctx, inLoop, inSwitch, brk);
      case _ => SimpleFlows(s, ctx, inLoop, inSwitch, brk);
    }
  }

  lemma {:induction false} EmptyOuts(brk: Option<int>)
    requires Outside(brk, 0) && Flows([], {0}, {0})
    ensures Flows([], {0}, Outs(false, 0, brk))
  {
    hide Flows;
    Weaken([], {0}, {0}, Outs(false, 0, brk));
  }

  lemma {:induction false} BreakFlows(brk: Option<int>)
    requires brk.Some? && Outside(brk, 3)
    ensures Flows(BreakCode(brk), {0}, Outs(true, 3, brk))
  {
    hide Flows, JumpCode;
    Always(brk.value - 3);
    assert Outs(true, 3, brk) == {brk.value};
  }

  lemma {:induction false} ReturnFlows(s: Stmt, ctx: Ctx, inLoop: bool, inSwitch: bool, brk: Option<int>)
    requires s.Return? && StmtOk(s, ctx, inLoop, inSwitch) && Outside(brk, |SimpleCode(s, ctx)|)
    ensures Flows(SimpleCode(s, ctx), {0}, Outs(true, |SimpleCode(s, ctx)|, brk))
  {
    hide Flows, Passes, ExprCode;
    var c := SimpleCode(s, ctx);
    Final(0x61);
    Final(0x62);
    if s.result.Some? {
      ExprPasses(s.result.value, ctx);
      ReturnedFlows(ExprCode(s.result.value, ctx));
    }
    Weaken(c, {0}, {}, Outs(true, |c|, brk));
  }

  lemma {:induction false} ReturnedFlows(c: seq<Byte>)
    requires Passes(c) && Flows([0x61], {0}, {})
    ensures Flows(c + [0x61], {0}, {})
  {
    hide Flows;
    Then(c, [0x61], {}, {});
  }

  lemma {:induction false} SimpleFlows(s: Stmt, ctx: Ctx, inLoop: bool, inSwitch: bool, brk: Option<int>)
    requires s.Declare? || s.Assign? || s.Compound? || s.Do? || s.Print?
    requires StmtOk(s, ctx, inLoop, inSwitch) && Outside(brk, |SimpleCode(s, ctx)|)
    ensures Flows(SimpleCode(s, ctx), {0}, Outs(false, |SimpleCode(s, ctx)|, brk))
  {
    hide Flows, Passes, SimpleCode, Outside, Outs;
    SimplePasses(s, ctx, inLoop, inSwitch);
    PassOuts(SimpleCode(s, ctx), brk);
  }

  lemma {:induction false} SimplePasses(s: Stmt, ctx: Ctx, inLoop: bool, inSwitch: bool)
    requires s.Declare? || s.Assign? || s.Compound? || s.Do? || s.Print?
    requires StmtOk(s, ctx, inLoop, inSwitch)
    ensures Passes(SimpleCode(s, ctx))
  {
    hide Passes, ExprCode, ExprsCode, GetCode, SetCode, OpByte, CanAssign, CanDeclare, ExprOk, ExprsOk;
    match s {
      case Declare(_, _, e) => DeclarePasses(e, ctx);
      case Assign(x, e) =>
        ExprPasses(e, ctx);
        Assignable(x, ctx);
        GetPasses(x, ctx);
        PassBoth(ExprCode(e, ctx), SetCode(x, ctx));
      case Compound(op, x, e) => CompoundPasses(op, x, e, ctx);
      case Do(e) =>
        ExprPasses(e, ctx);
        PlainPasses([0x10]);
        PassBoth(ExprCode(e, ctx), [0x10]);
      case Print(args) => PrintPasses(args, ctx);
    }
  }

  lemma {:induction false} DeclarePasses(e: Expr, ctx: Ctx)
    requires ExprOk(e, ctx)
    ensures Passes(ExprCode(e, ctx) + (if ctx.inFn then [] else [0x22, |ctx.globals| % 0x100]))
  {
    hide Passes, ExprCode, ExprOk;
    ExprPasses(e, ctx);
    if ctx.inFn {
      assert ExprCode(e, ctx) + [] == ExprCode(e, ctx);
    } else {
      PlainPasses([0x22, |ctx.globals| % 0x100]);
      PassBoth(ExprCode(e, ctx), [0x22, |ctx.globals| % 0x100]);
    }
  }

  lemma {:induction false} CompoundPasses(op: M.ArithOp, x: Name, e: Expr, ctx: Ctx)
    requires CanAssign(x, ctx) && ExprOk(e, ctx)
    ensures Passes(GetCode(x, ctx) + ExprCode(e, ctx) + ([OpByte(Arith(op))] + SetCode(x, ctx)))
  {
    hide Passes, ExprCode, GetCode, SetCode, OpByte, CanAssign, ExprOk;
    ExprPasses(e, ctx);
    Assignable(x, ctx);
    GetPasses(x, ctx);
    OpPasses(Arith(op));
    PassBoth([OpByte(Arith(op))], SetCode(x, ctx));
    PassBoth(GetCode(x, ctx), ExprCode(e, ctx));
    PassBoth(GetCode(x, ctx) + ExprCode(e, ctx), [OpByte(Arith(op))] + SetCode(x, ctx));
  }

  lemma {:induction false} PrintPasses(args: Exprs, ctx: Ctx)
    requires ExprsOk(args, ctx)
    ensures Passes(ExprsCode(args, ctx) + [0x63, M.BUILTIN_PRINT, Count(args) % 0x100, 0x10])
  {
    hide Passes, ExprsCode, ExprsOk;
    ListPasses(args, ctx);
    var call: seq<Byte> := [0x63, M.BUILTIN_PRINT, Count(args) % 0x100];
    PlainPasses(call);
    PlainPasses([0x10]);
    PassBoth(call, [0x10]);
    PassBoth(ExprsCode(args, ctx), call + [0x10]);
    assert [0x63, M.BUILTIN_PRINT, Count(args) % 0x100, 0x10] == call + [0x10];
  }

  /** Two statements in a row; the second is dead when the first leaves. */
  lemma {:induction false} SeqFlows(s: Stmt, ctx: Ctx, inLoop: bool, inSwitch: bool, brk: Option<int>)
    requires s.Seq? && StmtOk(s, ctx, inLoop, inSwitch) && (inLoop ==> brk.Some?)
    requires Outside(brk, |SeqCode(s, ctx, brk)|) && |SeqCode(s, ctx, brk)| <= 0xFFFF
    ensures Flows(SeqCode(s, ctx, brk), {0}, Outs(Leaves(s.s1) || Leaves(s.s2), |SeqCode(s, ctx, brk)|, brk))
    decreases s, 0
  {
    hide Flows, StmtCode, After, Leaves;
    var c1 := StmtCode(s.s1, ctx, brk);
    var brk2 := Shift(brk, |c1|);
    var c2 := StmtCode(s.s2, After(s.s1, ctx), brk2);
    var outs := Outs(Leaves(s.s1) || Leaves(s.s2), |c1| + |c2|, brk);
    StmtFlows(s.s1, ctx, inLoop, inSwitch, brk);
    if Leaves(s.s1) {
      Dead(c2);
      Compose(c1, c2, {0}, Outs(true, |c1|, brk), {}, {}, {0}, outs);
    } else {
      StmtFlows(s.s2, After(s.s1, ctx), inLoop, inSwitch, brk2);
      Compose(c1, c2, {0}, Outs(false, |c1|, brk), {0}, Outs(Leaves(s.s2), |c2|, brk2), {0}, outs);
    }
  }

  lemma {:induction false} BlockFlows(s: Stmt, ctx: Ctx, base: nat, inLoop: bool, inSwitch: bool, brk: Option<int>)
    requires base <= |ctx.locals| && StmtOk(s, ctx, inLoop, inSwitch) && (inLoop ==> brk.Some?)
    requires Outside(brk, |BlockCode(s, ctx, base, brk)|) && |BlockCode(s, ctx, base, brk)| <= 0xFFFF
    ensures Flows(BlockCode(s, ctx, base, brk), {0}, Outs(Leaves(s), |BlockCode(s, ctx, base, brk)|, brk))
    decreases s, 2
  {
    hide Flows, StmtCode, Leaves;
    var c, pops := StmtCode(s, ctx, brk), Pops(Excess(s, ctx, base));
    StmtFlows(s, ctx, inLoop, inSwitch, brk);
    if Leaves(s) {
      Dead(pops);
      Compose(c, pops, {0}, Outs(true, |c|, brk), {}, {}, {0}, Outs(true, |c| + |pops|, brk));
    } else {
      PopsPass(|pops|);
      Compose(c, pops, {0}, Outs(false, |c|, brk), {0}, {|pops|}, {0}, Outs(false, |c| + |pops|, brk));
    }
  }

  /** A conditional without a second arm. */
  lemma {:induction false} OneArmFlows(test: Byte, thn: seq<Byte>, leaves: bool, brk: Option<int>)
    requires (test == 0x51 || test == 0x73) && Flows(thn, {0}, Outs(leaves, |thn|, Shift(brk, 3))) && Outside(brk, 3 + |thn|)
    ensures Flows(JumpCode(test, |thn|) + thn, {0}, Outs(false, 3 + |thn|, brk))
  {
    hide Flows, JumpCode;
    Sometimes(test, |thn|);
    Compose(JumpCode(test, |thn|), thn, {0}, {3, 3 + |thn|}, {0}, Outs(leaves, |thn|, Shift(brk, 3)), {0}, Outs(false, 3 + |thn|, brk));
  }

  /** The jump over the second arm, and that arm; the jump is dead when the first arm leaves. */
  lemma {:induction false} SkipFlows(other: seq<Byte>, first: bool, second: bool, brk: Option<int>)
    requires Flows(other, {0}, Outs(second, |other|, Shift(brk, 3))) && Outside(brk, 3 + |other|)
    ensures Flows(JumpCode(0x50, |other|) + other, if first then {3} else {0, 3}, Outs(first && second, 3 + |other|, brk))
  {
    hide Flows, JumpCode;
    var skip, n := JumpCode(0x50, |other|), |other|;
    var outB := Outs(second, n, Shift(brk, 3));
    if first {
      Dead(skip);
      Compose(skip, other, {}, {}, {0}, outB, {3}, Outs(second, 3 + n, brk));
    } else {
      Always(n);
      Compose(skip, other, {0}, {3 + n}, {0}, outB, {0, 3}, Outs(false, 3 + n, brk));
    }
  }

  lemma {:induction false} TwoArmsFlow(test: Byte, thn: seq<Byte>, first: bool, other: seq<Byte>, second: bool, brk: Option<int>)
    requires (test == 0x51 || test == 0x73) && Outside(brk, 6 + |thn| + |other|)
    requires Flows(thn, {0}, Outs(first, |thn|, Shift(brk, 3))) && Flows(other, {0}, Outs(second, |other|, Shift(brk, 6 + |thn|)))
    ensures Flows(JumpCode(test, |thn| + 3) + (thn + (JumpCode(0x50, |other|) + other)), {0},
                  Outs(first && second, 6 + |thn| + |other|, brk))
  {
    hide Flows, JumpCode;
    var m, n := |thn|, |other|;
    var brk1, brk2 := Shift(brk, 3), Shift(brk, 3 + m);
    var y := JumpCode(0x50, n) + other;
    SkipFlows(other, first, second, brk2);
    Compose(thn, y, {0}, Outs(first, m, brk1), if first then {3} else {0, 3}, Outs(first && second, 3 + n, brk2),
            {0, m + 3}, Outs(first && second, m + 3 + n, brk1));
    Sometimes(test, m + 3);
    Compose(JumpCode(test, m + 3), thn + y, {0}, {3, m + 6}, {0, m + 3}, Outs(first && second, m + 3 + n, brk1),
            {0}, Outs(first && second, 6 + m + n, brk));
  }

  lemma {:induction false} ArmsFlow(test: Byte, thn: seq<Byte>, first: bool, els: Option<Stmt>, ctx: Ctx, inLoop: bool, inSwitch: bool,
                                    brk: Option<int>)
    requires (test == 0x51 || test == 0x73) && ElseOk(els, ctx, inLoop, inSwitch) && (inLoop ==> brk.Some?)
    requires Flows(thn, {0}, Outs(first, |thn|, Shift(brk, 3)))
    requires var c := ArmsCode(test, thn, els, ctx, brk); Outside(brk, |c|) && |c| <= 0xFFFF
    ensures var c := ArmsCode(test, thn, els, ctx, brk);
            Flows(c, {0}, Outs(first && els.Some? && Leaves(els.value), |c|, brk))
    decreases els, 3
  {
    hide Flows, BlockCode, JumpCode, Leaves;
    match els {
      case None => OneArmFlows(test, thn, first, brk);
      case Some(s) =>
        var brkE := Shift(brk, 3 + |thn| + 3);
        var other := BlockCode(s, ctx, |ctx.locals|, brkE);
        BlockFlows(s, ctx, |ctx.locals|, inLoop, inSwitch, brkE);
        TwoArmsFlow(test, thn, first, other, Leaves(s), brk);
        assert ArmsCode(test, thn, els, ctx, brk)
            == JumpCode(test, |thn| + 3) + (thn + (JumpCode(0x50, |other|) + other));
    }
  }

  lemma {:induction false} ArmsLength(test: Byte, thn: seq<Byte>, els: Option<Stmt>, ctx: Ctx, brk: Option<int>)
    ensures 3 + |thn| <= |ArmsCode(test, thn, els, ctx, brk)|
  {
    hide BlockCode, JumpCode;
  }

  lemma {:induction false} IfFlows(s: Stmt, ctx: Ctx, inLoop: bool, inSwitch: bool, brk: Option<int>)
    requires s.If? && StmtOk(s, ctx, inLoop, inSwitch) && (inLoop ==> brk.Some?)
    requires Outside(brk, |IfCode(s, ctx, brk)|) && |IfCode(s, ctx, brk)| <= 0xFFFF
    ensures Flows(IfCode(s, ctx, brk), {0}, Outs(Leaves(s), |IfCode(s, ctx, brk)|, brk))
    decreases s, 0
  {
    hide Flows, Passes, BlockCode, ExprCode, ArmsCode, AfterBlock, ElseOk, Outs, ExprOk;
    var n := |ExprCode(s.c, ctx)|;
    var thn := BlockCode(s.thn, ctx, |ctx.locals|, Shift(brk, n + 3));
    var arms := ArmsCode(0x51, thn, s.els, AfterBlock(s.thn, ctx), Shift(brk, n));
    ExprPasses(s.c, ctx);
    ArmsLength(0x51, thn, s.els, AfterBlock(s.thn, ctx), Shift(brk, n));
    BlockFlows(s.thn, ctx, |ctx.locals|, inLoop, inSwitch, Shift(brk, n + 3));
    ArmsFlow(0x51, thn, Leaves(s.thn), s.els, AfterBlock(s.thn, ctx), inLoop, inSwitch, Shift(brk, n));
    Ahead(ExprCode(s.c, ctx), arms, Leaves(s), brk);
  }

  lemma {:induction false} BindingPasses(x: Name, ctx: Ctx)
    ensures Passes(BindingCode(x, ctx))
  {
    hide SlotOf;
    if ctx.inFn {
      Nothing();
    } else {
      PlainPasses(BindingCode(x, ctx));
    }
  }

  lemma {:induction false} IfLetFlows(s: Stmt, ctx: Ctx, inLoop: bool, inSwitch: bool, brk: Option<int>)
    requires s.IfLet? && StmtOk(s, ctx, inLoop, inSwitch) && (inLoop ==> brk.Some?)
    requires Outside(brk, |IfLetCode(s, ctx, brk)|) && |IfLetCode(s, ctx, brk)| <= 0xFFFF
    ensures Flows(IfLetCode(s, ctx, brk), {0}, Outs(Leaves(s), |IfLetCode(s, ctx, brk)|, brk))
    decreases s, 0
  {
    hide Flows, Passes, BlockCode, ExprCode, ArmsCode, AfterBlock, ElseOk, BindIfLet, BindingCode, CanBindIfLet, Outs, ExprOk;
    var n, inner, store := |ExprCode(s.e, ctx)|, BindIfLet(s.x, ctx), BindingCode(s.x, ctx);
    var brk1 := Shift(brk, n + 3 + |store|);
    var block := BlockCode(s.thn, inner, |ctx.locals|, brk1);
    var ctxE := AfterBlock(s.thn, inner).(locals := ctx.locals);
    var arms := ArmsCode(0x73, store + block, s.els, ctxE, Shift(brk, n));
    ExprPasses(s.e, ctx);
    ArmsLength(0x73, store + block, s.els, ctxE, Shift(brk, n));
    BlockFlows(s.thn, inner, |ctx.locals|, inLoop, inSwitch, brk1);
    BindingPasses(s.x, ctx);
    Ahead(store, block, Leaves(s.thn), Shift(brk, n + 3));
    ArmsFlow(0x73, store + block, Leaves(s.thn), s.els, ctxE, inLoop, inSwitch, Shift(brk, n));
    Ahead(ExprCode(s.e, ctx), arms, Leaves(s), brk);
  }

  // ----- loops -----

  /** The test jumps to the end of the loop, the end jumps back to the condition, breaks go to the end. */
  lemma {:induction false} WhileFlows(s: Stmt, ctx: Ctx, inLoop: bool, inSwitch: bool, brk: Option<int>)
    requires s.While? && StmtOk(s, ctx, inLoop, inSwitch) && Outside(brk, |WhileCode(s, ctx)|) && |WhileCode(s, ctx)| <= 0xFFFF
    ensures Flows(WhileCode(s, ctx), {0}, Outs(false, |WhileCode(s, ctx)|, brk))
    decreases s, 0
  {
    hide Flows, Passes, BlockCode, ExprCode, JumpCode, Outs, ExprOk;
    var cond := ExprCode(s.c, ctx);
    var n := |BlockCode(s.body, ctx, |ctx.locals|, None)|;
    var body := BlockCode(s.body, ctx, |ctx.locals|, Some(n + 3));
    SameBlock(s.body, ctx, |ctx.locals|, None, Some(n + 3));
    ExprPasses(s.c, ctx);
    BlockFlows(s.body, ctx, |ctx.locals|, true, inSwitch, Some(n + 3));
    MayEnd(body, Leaves(s.body), Some(n + 3));
    LoopPasses(cond, n, body);
    PassOuts(WhileCode(s, ctx), brk) by {
      assert WhileCode(s, ctx) == cond + (JumpCode(0x51, n + 3) + (body + JumpCode(0x53, |cond| + n + 6)));
    }
  }

  lemma {:induction false} SameBlock(s: Stmt, ctx: Ctx, base: nat, b1: Option<int>, b2: Option<int>)
    requires base <= |ctx.locals|
    ensures |BlockCode(s, ctx, base, b1)| == |BlockCode(s, ctx, base, b2)|
  {
    hide StmtCode;
    SameLength(s, ctx, b1, b2);
  }

  lemma {:induction false} LoopPasses(cond: seq<Byte>, n: nat, body: seq<Byte>)
    requires Passes(cond) && |cond| > 0 && |body| == n && |cond| + n + 6 <= 0xFFFF
    requires Flows(body, {0}, Outs(false, n, Some(n + 3)))
    ensures Passes(cond + (JumpCode(0x51, n + 3) + (body + JumpCode(0x53, |cond| + n + 6))))
  {
    hide Flows, JumpCode;
    var m := |cond|;
    var back := JumpCode(0x53, m + n + 6);
    assert Outs(false, n, Some(n + 3)) == {n, n + 3};
    Backward(m + n + 6);
    Compose(body, back, {0}, {n, n + 3}, {0}, {-(m + n + 3)}, {0}, {n + 3, -(m + 3)});
    var x := body + back;
    Sometimes(0x51, n + 3);
    Compose(JumpCode(0x51, n + 3), x, {0}, {3, n + 6}, {0}, {n + 3, -(m + 3)}, {0}, {n + 6, -m});
    Compose(cond, JumpCode(0x51, n + 3) + x, {0}, {m}, {0}, {n + 6, -m}, {0}, {m + n + 6});
  }

  lemma {:induction false} ForFlows(s: Stmt, ctx: Ctx, inLoop: bool, inSwitch: bool, brk: Option<int>)
    requires s.ForIn? && StmtOk(s, ctx, inLoop, inSwitch) && Outside(brk, |ForInCode(s, ctx)|) && |ForInCode(s, ctx)| <= 0xFFFF
    ensures Flows(ForInCode(s, ctx), {0}, Outs(false, |ForInCode(s, ctx)|, brk))
    decreases s, 0
  {
    hide Flows, Passes, BlockCode, ExprCode, JumpCode, Outs, BindLoopVar, ReserveBound, SlotOf, ForTest, ForNext, CanLoopOver, ExprOk;
    var outer := BindLoopVar(s.x, ctx);
    var inner := ReserveBound(outer);
    var g := SlotOf(s.x, outer);
    var n := |BlockCode(s.body, inner, |inner.locals|, None)|;
    var body := BlockCode(s.body, inner, |inner.locals|, Some(n + 8));
    var head := ExprCode(s.lo, outer) + ExprCode(s.hi, outer) + [0x12, 0x22, g];
    SameBlock(s.body, inner, |inner.locals|, None, Some(n + 8));
    BlockFlows(s.body, inner, |inner.locals|, true, inSwitch, Some(n + 8));
    MayEnd(body, Leaves(s.body), Some(n + 8));
    HeadPasses(s.lo, s.hi, outer, g);
    TurnsPass(g, s.closed, n, body);
    var turns := ForTest(g, s.closed, n) + (body + ForNext(g, n));
    PlainPasses([0x10]);
    PassBoth(turns, [0x10]);
    PassBoth(head, turns + [0x10]);
    PassOuts(ForInCode(s, ctx), brk) by {
      assert ForInCode(s, ctx) == head + (turns + [0x10]);
    }
  }

  lemma {:induction false} HeadPasses(lo: Expr, hi: Expr, ctx: Ctx, g: Byte)
    requires ExprOk(lo, ctx) && ExprOk(hi, ctx)
    ensures Passes(ExprCode(lo, ctx) + ExprCode(hi, ctx) + [0x12, 0x22, g])
  {
    hide Passes, ExprCode, ExprOk;
    ExprPasses(lo, ctx);
    ExprPasses(hi, ctx);
    PlainPasses([0x12]);
    PlainPasses([0x22, g]);
    PassBoth([0x12], [0x22, g]);
    assert [0x12, 0x22, g] == [0x12] + [0x22, g];
    PassBoth(ExprCode(lo, ctx), ExprCode(hi, ctx));
    PassBoth(ExprCode(lo, ctx) + ExprCode(hi, ctx), [0x12, 0x22, g]);
  }

  lemma {:induction false} TestPasses(g: Byte, closed: bool)
    ensures Passes([0x20, g, 0x13, if closed then 0x43 else 0x42])
  {
    hide Passes;
    var cmp: seq<Byte> := [if closed then 0x43 else 0x42];
    PlainPasses([0x20, g]);
    PlainPasses([0x13]);
    PlainPasses(cmp);
    PassBoth([0x13], cmp);
    PassBoth([0x20, g], [0x13] + cmp);
    assert [0x20, g, 0x13, if closed then 0x43 else 0x42] == [0x20, g] + ([0x13] + cmp);
  }

  lemma {:induction false} StepPasses(g: Byte)
    ensures Passes([0x20, g, 0x36, 0x21, g])
  {
    hide Passes;
    PlainPasses([0x20, g]);
    PlainPasses([0x36]);
    PlainPasses([0x21, g]);
    PassBoth([0x36], [0x21, g]);
    PassBoth([0x20, g], [0x36] + [0x21, g]);
    assert [0x20, g, 0x36, 0x21, g] == [0x20, g] + ([0x36] + [0x21, g]);
  }

  /** The turns of a `for` loop: the test jumps to the end, breaks go there too, the end jumps back to the test. */
  lemma {:induction false} TurnsPass(g: Byte, closed: bool, n: nat, body: seq<Byte>)
    requires Flows(body, {0}, Outs(false, n, Some(n + 8))) && |body| == n && n + 15 <= 0xFFFF
    ensures Passes(ForTest(g, closed, n) + (body + ForNext(g, n)))
  {
    hide Flows, JumpCode;
    var test, step: seq<Byte> := [0x20, g, 0x13, if closed then 0x43 else 0x42], [0x20, g, 0x36, 0x21, g];
    var back := JumpCode(0x53, n + 15);
    assert Outs(false, n, Some(n + 8)) == {n, n + 8};
    TestPasses(g, closed);
    StepPasses(g);
    Backward(n + 15);
    Compose(step, back, {0}, {5}, {0}, {-(n + 12)}, {0}, {-(n + 7)});
    var next := step + back;
    Compose(body, next, {0}, {n, n + 8}, {0}, {-(n + 7)}, {0}, {n + 8, -7});
    Sometimes(0x51, n + 8);
    Compose(JumpCode(0x51, n + 8), body + next, {0}, {3, n + 11}, {0}, {n + 8, -7}, {0}, {n + 11, -4});
    var x := JumpCode(0x51, n + 8) + (body + next);
    Compose(test, x, {0}, {4}, {0}, {n + 11, -4}, {0}, {n + 15});
    assert ForTest(g, closed, n) + (body + ForNext(g, n)) == test + x;
  }

  // ----- switch -----

  lemma {:induction false} SwitchFlows(s: Stmt, ctx: Ctx, inLoop: bool, inSwitch: bool, brk: Option<int>)
    requires s.Switch? && StmtOk(s, ctx, inLoop, inSwitch) && (inLoop ==> brk.Some?)
    requires Outside(brk, |SwitchCode(s, ctx, brk)|) && |SwitchCode(s, ctx, brk)| <= 0xFFFF
    ensures Flows(SwitchCode(s, ctx, brk), {0}, Outs(AllLeave(s.cases), |SwitchCode(s, ctx, brk)|, brk))
    decreases s, 0
  {
    hide Flows, Passes, ExprCode, CasesCode, CasesOk, Outs, AllLeave, ExprOk;
    var n := |ExprCode(s.e, ctx)|;
    ExprPasses(s.e, ctx);
    CasesFlow(s.cases, ctx, inLoop, Shift(brk, n));
    Ahead(ExprCode(s.e, ctx), CasesCode(s.cases, ctx, Shift(brk, n)), AllLeave(s.cases), brk);
  }

  /** The tests of a clause go on to the clause or jump over it. */
  lemma {:induction false} TestsFlow(values: Exprs, ctx: Ctx, skip: nat)
    requires ExprsOk(values, ctx)
    ensures var n := |TestsCode(values, ctx, skip)|; Flows(TestsCode(values, ctx, skip), {0}, {n, n + skip})
    decreases values
  {
    hide Flows, ExprCode, JumpCode, ExprOk;
    match values {
      case NoExprs =>
        Nothing();
        Weaken([], {0}, {0}, {0, skip});
      case Exprs(e, rest) =>
        ComparedPasses(e, ctx);
        var a := [0x11] + ExprCode(e, ctx) + [0x40];
        if rest.NoExprs? {
          Sometimes(0x51, skip);
          Then(a, JumpCode(0x51, skip), {3, 3 + skip}, {|a| + 3, |a| + 3 + skip});
          assert TestsCode(values, ctx, skip) == a + JumpCode(0x51, skip);
        } else {
          var more := TestsCode(rest, ctx, skip);
          var m := |more|;
          TestsFlow(rest, ctx, skip);
          Sometimes(0x52, m);
          Compose(JumpCode(0x52, m), more, {0}, {3, 3 + m}, {0}, {m, m + skip}, {0}, {3 + m, 3 + m + skip});
          Then(a, JumpCode(0x52, m) + more, {3 + m, 3 + m + skip}, {|a| + 3 + m, |a| + 3 + m + skip});
          assert TestsCode(values, ctx, skip) == a + (JumpCode(0x52, m) + more);
        }
    }
  }

  lemma {:induction false} ComparedPasses(e: Expr, ctx: Ctx)
    requires ExprOk(e, ctx)
    ensures Passes([0x11] + ExprCode(e, ctx) + [0x40])
  {
    hide Passes, ExprCode, ExprOk;
    ExprPasses(e, ctx);
    PlainPasses([0x11]);
    PlainPasses([0x40]);
    PassBoth([0x11], ExprCode(e, ctx));
    PassBoth([0x11] + ExprCode(e, ctx), [0x40]);
  }

  lemma {:induction false} ClauseBodyFlows(body: Stmt, ctx: Ctx, inLoop: bool, brk: Option<int>)
    requires StmtOk(body, ctx, inLoop, true) && (inLoop ==> brk.Some?)
    requires Outside(brk, |ClauseBody(body, ctx, brk)|) && |ClauseBody(body, ctx, brk)| <= 0xFFFF
    ensures Flows(ClauseBody(body, ctx, brk), {0}, Outs(Leaves(body), |ClauseBody(body, ctx, brk)|, brk))
    decreases body, 3
  {
    hide Flows, StmtCode, BlockCode, LastByteReturns, Outs, Leaves, Outside;
    if LastByteReturns(StmtCode(body, ctx, None)) {
      StmtFlows(body, ctx, inLoop, true, brk);
    } else {
      BlockFlows(body, ctx, |ctx.locals|, inLoop, true, brk);
    }
  }

  /** Where a clause leads: behind all clauses; or, when its last byte is mistaken for a return, to the next clause. */
  function ClauseOuts(leaves: bool, n: int, others: int, brk: Option<int>): set<int> {
    Outs(leaves, n, brk) + Outs(leaves, n + others, brk)
  }

  lemma {:induction false} ClauseFlows(body: Stmt, ctx: Ctx, others: nat, inLoop: bool, brk: Option<int>)
    requires StmtOk(body, ctx, inLoop, true) && (inLoop ==> brk.Some?)
    requires var n := |ClauseCode(body, ctx, others, brk)|; Outside(brk, n + others) && n <= 0xFFFF
    ensures var n := |ClauseCode(body, ctx, others, brk)|;
            Flows(ClauseCode(body, ctx, others, brk), {0}, ClauseOuts(Leaves(body), n, others, brk))
    decreases body, 4
  {
    hide Flows, Passes, StmtCode, ClauseBody, LastByteReturns, JumpCode, Leaves, Outs, ClauseOuts;
    var code := ClauseBody(body, ctx, Shift(brk, 1));
    ClauseBodyFlows(body, ctx, inLoop, Shift(brk, 1));
    PlainPasses([0x10]);
    Ahead([0x10], code, Leaves(body), brk);
    var a := [0x10] + code;
    if LastByteReturns(StmtCode(body, ctx, None)) {
      assert ClauseCode(body, ctx, others, brk) == a;
      ClauseRunsOn(a, Leaves(body), others, brk);
    } else {
      ClauseJumps(a, Leaves(body), others, brk);
    }
  }

  lemma {:induction false} ClauseRunsOn(a: seq<Byte>, leaves: bool, others: nat, brk: Option<int>)
    requires Flows(a, {0}, Outs(leaves, |a|, brk)) && Outside(brk, |a| + others)
    ensures Flows(a, {0}, ClauseOuts(leaves, |a|, others, brk))
  {
    hide Flows;
    Weaken(a, {0}, Outs(leaves, |a|, brk), ClauseOuts(leaves, |a|, others, brk));
  }

  lemma {:induction false} ClauseJumps(a: seq<Byte>, leaves: bool, others: nat, brk: Option<int>)
    requires Flows(a, {0}, Outs(leaves, |a|, brk)) && Outside(brk, |a| + 3 + others)
    ensures Flows(a + JumpCode(0x50, others), {0}, ClauseOuts(leaves, |a| + 3, others, brk))
  {
    hide Flows, JumpCode;
    if leaves {
      Dead(JumpCode(0x50, others));
      Compose(a, JumpCode(0x50, others), {0}, Outs(true, |a|, brk), {}, {}, {0}, ClauseOuts(true, |a| + 3, others, brk));
    } else {
      Always(others);
      Compose(a, JumpCode(0x50, others), {0}, Outs(false, |a|, brk), {0}, {3 + others}, {0}, ClauseOuts(false, |a| + 3, others, brk));
    }
  }

  lemma {:induction false} CasesFlow(cases: Cases, ctx: Ctx, inLoop: bool, brk: Option<int>)
    requires CasesOk(cases, ctx, inLoop) && (inLoop ==> brk.Some?)
    requires Outside(brk, |CasesCode(cases, ctx, brk)|) && |CasesCode(cases, ctx, brk)| <= 0xFFFF
    ensures Flows(CasesCode(cases, ctx, brk), {0}, Outs(AllLeave(cases), |CasesCode(cases, ctx, brk)|, brk))
    decreases cases, 0
  {
    hide Flows, Passes, StmtCode, ClauseBody, JumpCode, TestsCode, ClauseCode, AfterBlock, StmtOk, ExprsOk, Outs, Leaves;
    match cases {
      case NoCase =>
        PlainPasses([0x10]);
        PassOuts([0x10], brk);
      case Default(body) =>
        ClauseBodyFlows(body, ctx, inLoop, Shift(brk, 1));
        PlainPasses([0x10]);
        Ahead([0x10], ClauseBody(body, ctx, Shift(brk, 1)), Leaves(body), brk);
      case Case(_, _, _) => CaseFlows(cases, ctx, inLoop, brk);
    }
  }

  lemma {:induction false} CaseFlows(cases: Cases, ctx: Ctx, inLoop: bool, brk: Option<int>)
    requires cases.Case? && CasesOk(cases, ctx, inLoop) && (inLoop ==> brk.Some?)
    requires Outside(brk, |CasesCode(cases, ctx, brk)|) && |CasesCode(cases, ctx, brk)| <= 0xFFFF
    ensures Flows(CasesCode(cases, ctx, brk), {0}, Outs(AllLeave(cases), |CasesCode(cases, ctx, brk)|, brk))
    decreases cases, -1
  {
    hide Flows, StmtCode, ClauseBody, JumpCode, TestsCode, ClauseCode, AfterBlock, StmtOk, ExprsOk, Leaves;
    var nt, n := |TestsCode(cases.values, ctx, 0)|, |ClauseCode(cases.body, ctx, 0, None)|;
    var next := AfterBlock(cases.body, ctx);
    var brk1, brk2 := Shift(brk, nt), Shift(brk, nt + n);
    var others := CasesCode(cases.rest, next, brk2);
    var tests, clause := TestsCode(cases.values, ctx, n), ClauseCode(cases.body, ctx, |others|, brk1);
    TestsLength(cases.values, ctx, n, 0);
    ClauseLength(cases.body, ctx, 0, |others|, None, brk1);
    TestsFlow(cases.values, ctx, n);
    ClauseFlows(cases.body, ctx, |others|, inLoop, brk1);
    CasesFlow(cases.rest, next, inLoop, brk2);
    ClausesCompose(tests, clause, others, Leaves(cases.body), AllLeave(cases.rest), brk);
    assert CasesCode(cases, ctx, brk) == tests + (clause + others);
  }

  /** Tests, a clause, and the clauses behind it. */
  lemma {:induction false} ClausesCompose(tests: seq<Byte>, clause: seq<Byte>, others: seq<Byte>, first: bool, rest: bool, brk: Option<int>)
    requires Flows(tests, {0}, {|tests|, |tests| + |clause|})
    requires Flows(clause, {0}, ClauseOuts(first, |clause|, |others|, Shift(brk, |tests|)))
    requires Flows(others, {0}, Outs(rest, |others|, Shift(brk, |tests| + |clause|)))
    requires Outside(brk, |tests| + |clause| + |others|)
    ensures Flows(tests + (clause + others), {0}, Outs(first && rest, |tests| + |clause| + |others|, brk))
  {
    hide Flows;
    var nt, n, m := |tests|, |clause|, |others|;
    var brk1 := Shift(brk, nt);
    Compose(clause, others, {0}, ClauseOuts(first, n, m, brk1), {0}, Outs(rest, m, Shift(brk, nt + n)),
            {0, n}, Outs(first && rest, n + m, brk1));
    Compose(tests, clause + others, {0}, {nt, nt + n}, {0, n}, Outs(first && rest, n + m, brk1), {0}, Outs(first && rest, nt + n + m, brk));
  }
}
