/** What the machine does where a condition fails that the compiler does not check: a `break` behind a local, and a
  * clause whose last byte is mistaken for a return. */
module Lapses {
  import opened Bytes
  import opened Values
  import opened Syntax
  import opened CodeGen
  import opened Patching
  import opened Runs
  import opened ExprSimulation
  import opened StmtSimulation
  import opened S = Semantics
  import M = Machine

  /** The tables of the loop around a `break`, which had `base` locals when its body started. */
  function AtLoop(ctx: Ctx, base: nat): Ctx
    requires base <= |ctx.locals|
  {
    ctx.(locals := ctx.locals[..base])
  }

  /** A `break` lands at the end of the loop and leaves the stack as it is. So the machine is at the boundary behind
    * the loop exactly if no local has been declared in the body before it. */
  lemma {:induction false} BreakLands(k: Linked, ctx: Ctx, base: nat, brk: int, loc: Locals, outer: Locals, w: World, st: M.State, b: nat)
    requires Placed(k) && Settled(k, ctx, loc, w, st, b) && base <= |ctx.locals| && Keys(ctx.locals[..base], outer)
    requires CodeAt(k.img.code, st.pc, BreakCode(Some(brk))) && 0 <= st.pc + brk <= |k.img.code|
    ensures var t := st.(pc := st.pc + brk);
            && M.Step(k.img, st) == M.Running(t)
            && (Settled(k, AtLoop(ctx, base), Narrow(loc, outer), w, t, b) <==> |ctx.locals| == base)
  {
    hide M.Step, CodeAt, Slots, JumpCode, Refresh, AllImmediate, Tidy;
    assert BreakCode(Some(brk)) == JumpCode(0x50, brk - 3);
    StepJump(k.img, st, brk - 3);
    SameTables(k, ctx, base, loc, outer, w, st, b, st.pc + brk);
  }

  lemma {:induction false} SameTables(k: Linked, ctx: Ctx, base: nat, loc: Locals, outer: Locals, w: World, st: M.State, b: nat, pc: nat)
    requires Settled(k, ctx, loc, w, st, b) && base <= |ctx.locals| && Keys(ctx.locals[..base], outer)
    ensures Settled(k, AtLoop(ctx, base), Narrow(loc, outer), w, st.(pc := pc), b) <==> |ctx.locals| == base
  {
    hide Slots, AllImmediate, Find;
    if |ctx.locals| == base {
      assert ctx.locals[..base] == ctx.locals;
      assert AtLoop(ctx, base) == ctx;
      assert Narrow(loc, outer) == loc;
    }
  }

  /** Statements of a loop body and a `break` behind them, run from the boundary before them. */
  lemma {:induction false} BreakBehind(k: Linked, s: Stmt, ctx: Ctx, base: Option<nat>, inSwitch: bool, brk: Option<int>,
                                       loc: Locals, w: World, fuel: nat, st: M.State, b: nat, outer: Locals)
    requires Poised(k, s, ctx, base, inSwitch, brk, loc, w, fuel, st, b) && base.Some? && Keys(ctx.locals[..base.value], outer)
    requires Exec(k.fs, ctx.inFn, s, loc, w, fuel).Normal?
    requires var n := |StmtCode(s, ctx, brk)|; CodeAt(k.img.code, st.pc + n, BreakCode(Shift(brk, n)))
    ensures b <= |st.stack| && base.value <= |After(s, ctx).locals|
    ensures var o := Exec(k.fs, ctx.inFn, s, loc, w, fuel);
            var t := Became(k, st, st.pc + brk.value, Refresh(st.stack, b, After(s, ctx).locals, o.loc), o.w);
            && Reaches(k.img, st, t)
            && (Settled(k, AtLoop(After(s, ctx), base.value), Narrow(o.loc, outer), o.w, t, b) <==> |After(s, ctx).locals| == base.value)
  {
    hide M.Run, M.Step, Reaches, CodeAt, Slots, Refresh, Settled, Keys, StmtCode, After, Exec, CallsSimulated, Static;
    var o, n := Exec(k.fs, ctx.inFn, s, loc, w, fuel), |StmtCode(s, ctx, brk)|;
    SimStmt(k, s, ctx, base, inSwitch, brk, loc, w, fuel, st, b);
    SeqMiddle(k, s, ctx, base, inSwitch, brk, loc, w, fuel, st, b, o.loc, o.w);
    StaticFacts(k, s, ctx, base, inSwitch);
    var ctx1 := After(s, ctx);
    var u := Became(k, st, st.pc + n, Refresh(st.stack, b, ctx1.locals, o.loc), o.w);
    assert ctx1.locals[..base.value] == ctx.locals[..base.value];
    BreakLands(k, ctx1, base.value, brk.value - n, o.loc, outer, o.w, u, b);
    StepReaches(k.img, u, u.(pc := u.pc + (brk.value - n)));
    ReachThen(k.img, st, u, u.(pc := u.pc + (brk.value - n)));
  }

  /** The end of a `switch` clause, run from the boundary before its statements: its locals are gone exactly if its
    * last byte is not taken for a return or it declared none; otherwise the machine runs on, with the locals still on
    * the stack, into the code behind it, which is the next clause when there is one. */
  lemma {:induction false} EndOfClause(k: Linked, body: Stmt, ctx: Ctx, base: Option<nat>, brk: Option<int>,
                                       loc: Locals, w: World, fuel: nat, q: M.State, b: nat)
    requires Static(k, body, ctx, base, true) && CallsSimulated(k, fuel)
    requires base.Some? ==> base.value <= |ctx.locals| && brk.Some? && 0 <= q.pc + brk.value <= |k.img.code|
    requires CodeAt(k.img.code, q.pc, ClauseBody(body, ctx, brk)) && Settled(k, ctx, loc, w, q, b)
    requires Exec(k.fs, ctx.inFn, body, loc, w, fuel).Normal?
    ensures b <= |q.stack|
    ensures var o, misread := Exec(k.fs, ctx.inFn, body, loc, w, fuel), LastByteReturns(StmtCode(body, ctx, None));
            var ts, left := After(body, ctx).locals, Narrow(o.loc, loc);
            var stack := if misread then Refresh(q.stack, b, ts, o.loc) else Refresh(q.stack, b, ctx.locals, left);
            var t := Became(k, q, q.pc + |ClauseBody(body, ctx, brk)|, stack, o.w);
            && Reaches(k.img, q, t)
            && (Settled(k, ctx, left, o.w, t, b) <==> !misread || |ts| == |ctx.locals|)
  {
    hide M.Run, M.Step, Reaches, CodeAt, Slots, Refresh, Settled, Keys, StmtCode, BlockCode, After, Exec, CallsSimulated, Static,
         LastByteReturns;
    if LastByteReturns(StmtCode(body, ctx, None)) {
      MisreadClause(k, body, ctx, base, brk, loc, w, fuel, q, b);
    } else {
      ReadClause(k, body, ctx, base, brk, loc, w, fuel, q, b);
    }
  }

  lemma {:induction false} MisreadClause(k: Linked, body: Stmt, ctx: Ctx, base: Option<nat>, brk: Option<int>,
                                         loc: Locals, w: World, fuel: nat, q: M.State, b: nat)
    requires Poised(k, body, ctx, base, true, brk, loc, w, fuel, q, b) && Exec(k.fs, ctx.inFn, body, loc, w, fuel).Normal?
    ensures b <= |q.stack|
    ensures var o, ts := Exec(k.fs, ctx.inFn, body, loc, w, fuel), After(body, ctx).locals;
            var t := Became(k, q, q.pc + |StmtCode(body, ctx, brk)|, Refresh(q.stack, b, ts, o.loc), o.w);
            Reaches(k.img, q, t) && (Settled(k, ctx, Narrow(o.loc, loc), o.w, t, b) <==> |ts| == |ctx.locals|)
  {
    hide M.Run, M.Step, Reaches, CodeAt, Slots, Refresh, Settled, Keys, StmtCode, After, Exec, CallsSimulated, Static;
    var o, n := Exec(k.fs, ctx.inFn, body, loc, w, fuel), |StmtCode(body, ctx, brk)|;
    SimStmt(k, body, ctx, base, true, brk, loc, w, fuel, q, b);
    SeqMiddle(k, body, ctx, base, true, brk, loc, w, fuel, q, b, o.loc, o.w);
    var ctx1 := After(body, ctx);
    var t := Became(k, q, q.pc + n, Refresh(q.stack, b, ctx1.locals, o.loc), o.w);
    Unmoved(k, ctx, loc, w, q, b, q.pc, w);
    var m := |ctx.locals|;
    assert ctx1.locals[..m] == ctx.locals;
    SameTables(k, ctx1, m, o.loc, loc, o.w, t, b, t.pc);
    SwapTables(k, AtLoop(ctx1, m), ctx, Narrow(o.loc, loc), o.w, t, b);
  }

  lemma {:induction false} SwapTables(k: Linked, ctx1: Ctx, ctx2: Ctx, loc: Locals, w: World, t: M.State, b: nat)
    requires ctx1.locals == ctx2.locals && ctx1.inFn == ctx2.inFn
    ensures Settled(k, ctx1, loc, w, t, b) <==> Settled(k, ctx2, loc, w, t, b)
  {
  }

  lemma {:induction false} ReadClause(k: Linked, body: Stmt, ctx: Ctx, base: Option<nat>, brk: Option<int>,
                                      loc: Locals, w: World, fuel: nat, q: M.State, b: nat)
    requires PoisedBlock(k, body, ctx, |ctx.locals|, base, true, brk, loc, w, fuel, q, b)
    requires Exec(k.fs, ctx.inFn, body, loc, w, fuel).Normal?
    ensures b <= |q.stack|
    ensures var left, w1 := Narrow(Exec(k.fs, ctx.inFn, body, loc, w, fuel).loc, loc), Exec(k.fs, ctx.inFn, body, loc, w, fuel).w;
            var t := Became(k, q, q.pc + |BlockCode(body, ctx, |ctx.locals|, brk)|, Refresh(q.stack, b, ctx.locals, left), w1);
            Reaches(k.img, q, t) && Settled(k, ctx, left, w1, t, b)
  {
    hide M.Run, M.Step, Reaches, CodeAt, Slots, Refresh, Keys, StmtCode, BlockCode, After, Exec, CallsSimulated, Static, Tidy, Agrees;
    var o := Exec(k.fs, ctx.inFn, body, loc, w, fuel);
    Unmoved(k, ctx, loc, w, q, b, q.pc, w);
    SimBlock(k, body, ctx, |ctx.locals|, loc, base, true, brk, loc, w, fuel, q, b);
    TopLevelEmpty(k, ctx, loc, w, q, b);
    BecameSettled(k, ctx, loc, w, q, b, ctx, Narrow(o.loc, loc), o.w, q.pc + |BlockCode(body, ctx, |ctx.locals|, brk)|);
  }
}
