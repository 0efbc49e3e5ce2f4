/** Between statements the stack is what the compiler thinks it is: the machine stands at every boundary that
  * the evaluator passes, at every depth of calls and in every turn of every loop. */
module Boundaries {
  import opened Bytes
  import opened Values
  import opened Syntax
  import opened CodeGen
  import opened Patching
  import opened S = Semantics
  import opened Sessions
  import opened Runs
  import opened ExprSimulation
  import opened StmtSimulation
  import opened Programs
  import opened Visits
  import M = Machine

  /** The machine stands at `p`: at its place in the code, as many calls deep, with exactly its frame, the
    * globals and the output of its world. At top level the frame is the whole stack. */
  ghost predicate AtBoundary(k: Linked, entry: nat, p: Boundary, t: M.State) {
    && t.pc == Base(k.img, entry, p.at.unit) + p.at.off && |t.frames| == p.at.depth
    && t.fp <= |t.stack| && t.stack[t.fp..] == FrameOf(p.ctx, p.loc, p.at.bounds)
    && t.globals == Slots(k, p.w) && t.out == p.w.out
    && Keys(p.ctx.locals, p.loc) && (p.ctx.inFn ==> |p.at.bounds| == Unnamed(p.ctx.locals, |p.ctx.locals|))
    && (p.ctx.inFn <==> p.at.unit.FunctionCode?) && (!p.ctx.inFn ==> t.fp == 0)
  }

  /** Some run from `s` passes `p`, unless stack or call frames fill up before. */
  ghost predicate Passes(k: Linked, entry: nat, s: M.State, p: Boundary) {
    Overflows(k.img, s) || exists n: nat, t :: M.Run(k.img, s, n) == M.Running(t) && AtBoundary(k, entry, p, t)
  }

  lemma {:induction false} PassNow(k: Linked, entry: nat, s: M.State, p: Boundary)
    requires AtBoundary(k, entry, p, s)
    ensures Passes(k, entry, s, p)
  {
    hide AtBoundary;
    assert M.Run(k.img, s, 0) == M.Running(s);
  }

  lemma {:induction false} PassFull(k: Linked, entry: nat, s: M.State, p: Boundary)
    requires Overflows(k.img, s)
    ensures Passes(k, entry, s, p)
  {
  }

  lemma {:induction false} PassLater(k: Linked, entry: nat, s: M.State, t: M.State, p: Boundary)
    requires Reaches(k.img, s, t) && Passes(k, entry, t, p)
    ensures Passes(k, entry, s, p)
  {
    hide M.Step, AtBoundary;
    if Overflows(k.img, t) {
      OverflowLifts(k, s, t);
    } else if !Overflows(k.img, s) {
      var n: nat :| M.Run(k.img, s, n) == M.Running(t);
      var m: nat, u :| M.Run(k.img, t, m) == M.Running(u) && AtBoundary(k, entry, p, u);
      M.RunAdd(k.img, s, n, m);
      assert M.Run(k.img, s, n + m) == M.Running(u);
    }
  }

  /** Every function is in place and can be called. */
  ghost predicate Ready(k: Linked) {
    && Placed(k) && (forall i :: 0 <= i < |k.fs| ==> FuncReady(k, i))
    && (forall i :: 0 <= i < |k.fs| ==> Lookup(k.fs, k.fs[i].name) == Some(i))
  }

  // ----- frames -----

  lemma {:induction false} UnnamedPrefix(a: seq<Sym>, b: seq<Sym>, n: nat)
    requires a <= b && n <= |a|
    ensures Unnamed(a, n) == Unnamed(b, n)
    decreases n
  {
    if n > 0 {
      UnnamedPrefix(a, b, n - 1);
    }
  }

  /** Locals declared since all have names. */
  lemma {:induction false} NamedSuffix(ts: seq<Sym>, m: nat, n: nat)
    requires m <= n <= |ts| && forall i :: m <= i < |ts| ==> ts[i].name != ""
    ensures Unnamed(ts, n) == Unnamed(ts, m)
    decreases n
  {
    if m < n {
      NamedSuffix(ts, m, n - 1);
    }
  }

  lemma {:induction false} KeysNamed(ts: seq<Sym>, loc: Locals, i: nat)
    requires Keys(ts, loc) && i < |ts|
    ensures ts[i].name in loc <==> ts[i].name != ""
  {
    hide Find;
    if ts[i].name != "" {
      assert Find(ts, ts[i].name).Some?;
    } else {
      assert Find(ts, "").None?;
    }
  }

  /** A refreshed stack holds the frame of the new tables. */
  lemma {:induction false} FrameKept(stack: seq<Value>, fp: nat, ctx: Ctx, loc: Locals, bounds: seq<Immediate>, ctx1: Ctx, loc1: Locals)
    requires ctx.inFn && ctx1.inFn && fp <= |stack| && stack[fp..] == FrameOf(ctx, loc, bounds)
    requires ctx.locals <= ctx1.locals && Keys(ctx1.locals, loc1) && |bounds| == Unnamed(ctx.locals, |ctx.locals|)
    requires forall i :: |ctx.locals| <= i < |ctx1.locals| ==> ctx1.locals[i].name != ""
    ensures Refresh(stack, fp, ctx1.locals, loc1)[fp..] == FrameOf(ctx1, loc1, bounds)
    ensures |bounds| == Unnamed(ctx1.locals, |ctx1.locals|)
  {
    hide Refresh, Unnamed, Keys;
    var r, ts := Refresh(stack, fp, ctx1.locals, loc1), ctx1.locals;
    forall i | 0 <= i < |ts|
      ensures r[fp..][i] == FrameOf(ctx1, loc1, bounds)[i]
    {
      RefreshAt(stack, fp, ts, loc1, fp + i);
      KeysNamed(ts, loc1, i);
      if ts[i].name == "" {
        UnnamedPrefix(ctx.locals, ts, i);
        assert stack[fp + i] == stack[fp..][i];
      }
    }
    UnnamedPrefix(ctx.locals, ts, |ctx.locals|);
    NamedSuffix(ts, |ctx.locals|, |ts|);
  }

  /** From the boundary before a statement to any later one with more named locals. */
  lemma {:induction false} BoundaryKept(k: Linked, entry: nat, ctx: Ctx, at: Spot, loc: Locals, w: World, st: M.State, b: nat,
                                        ctx1: Ctx, at1: Spot, loc1: Locals, w1: World, pc: nat)
    requires AtBoundary(k, entry, Boundary(at, ctx, loc, w), st) && Settled(k, ctx, loc, w, st, b)
    requires ctx.locals <= ctx1.locals && Keys(ctx1.locals, loc1) && ctx1.inFn == ctx.inFn && (!ctx.inFn ==> ctx1.locals == [])
    requires forall i :: |ctx.locals| <= i < |ctx1.locals| ==> ctx1.locals[i].name != ""
    requires at1.unit == at.unit && at1.depth == at.depth && at1.bounds == at.bounds && pc == Base(k.img, entry, at.unit) + at1.off
    ensures b <= |st.stack|
    ensures AtBoundary(k, entry, Boundary(at1, ctx1, loc1, w1), Became(k, st, pc, Refresh(st.stack, b, ctx1.locals, loc1), w1))
  {
    hide Slots, Refresh, Keys, Tidy, Agrees, FrameOf;
    if ctx.inFn {
      FrameKept(st.stack, st.fp, ctx, loc, at.bounds, ctx1, loc1);
    } else {
      TopFrameKept(k, entry, ctx, at, loc, w, st, b, ctx1, loc1);
    }
  }

  lemma {:induction false} TopFrameKept(k: Linked, entry: nat, ctx: Ctx, at: Spot, loc: Locals, w: World, st: M.State, b: nat,
                                        ctx1: Ctx, loc1: Locals)
    requires AtBoundary(k, entry, Boundary(at, ctx, loc, w), st) && Settled(k, ctx, loc, w, st, b)
    requires !ctx.inFn && !ctx1.inFn && ctx1.locals == []
    ensures b == |st.stack| && Refresh(st.stack, b, ctx1.locals, loc1) == st.stack
    ensures FrameOf(ctx1, loc1, at.bounds) == FrameOf(ctx, loc, at.bounds)
  {
    hide Slots, Keys;
    assert ctx.locals == [] && |st.stack| == b;
    assert st.stack[..b] == st.stack;
  }

  /** The same frame somewhere else in the code. */
  lemma {:induction false} BoundaryMoved(k: Linked, entry: nat, ctx: Ctx, at: Spot, loc: Locals, w: World, st: M.State,
                                         ctx1: Ctx, n: nat, w1: World)
    requires AtBoundary(k, entry, Boundary(at, ctx, loc, w), st) && ctx1.locals == ctx.locals && ctx1.inFn == ctx.inFn
    ensures AtBoundary(k, entry, Boundary(Ahead(at, n), ctx1, loc, w1), Became(k, st, st.pc + n, st.stack, w1))
  {
    hide Slots, Keys, Unnamed;
    assert FrameOf(ctx1, loc, at.bounds) == FrameOf(ctx, loc, at.bounds);
  }

  /** The boundary behind a statement that ends normally. */
  lemma {:induction false} EndBoundary(k: Linked, entry: nat, s: Stmt, ctx: Ctx, base: Option<nat>, inSwitch: bool, brk: Option<int>,
                                       at: Spot, loc: Locals, w: World, fuel: nat, st: M.State, b: nat)
    requires Poised(k, s, ctx, base, inSwitch, brk, loc, w, fuel, st, b)
    requires AtBoundary(k, entry, Boundary(at, ctx, loc, w), st) && Exec(k.fs, ctx.inFn, s, loc, w, fuel).Normal?
    ensures var o := Exec(k.fs, ctx.inFn, s, loc, w, fuel);
            b <= |st.stack| &&
            var t := Became(k, st, st.pc + |StmtCode(s, ctx, brk)|, Refresh(st.stack, b, After(s, ctx).locals, o.loc), o.w);
            Reaches(k.img, st, t) && AtBoundary(k, entry, Boundary(Ahead(at, Size(s, ctx)), After(s, ctx), o.loc, o.w), t)
  {
    hide M.Run, Reaches, CallsSimulated, CodeAt, Slots, Refresh, Keys, Tidy, Static, StmtCode, After, Exec, Agrees;
    SimStmt(k, s, ctx, base, inSwitch, brk, loc, w, fuel, st, b);
    NamesAdded(k, s, ctx, base, inSwitch, brk, loc, w, fuel, st, b);
    SameLength(s, ctx, brk, None);
    EndKept(k, entry, s, ctx, at, loc, w, st, b, Exec(k.fs, ctx.inFn, s, loc, w, fuel));
  }

  lemma {:induction false} EndKept(k: Linked, entry: nat, s: Stmt, ctx: Ctx, at: Spot, loc: Locals, w: World, st: M.State, b: nat, o: Outcome)
    requires Settled(k, ctx, loc, w, st, b) && o.Normal? && Keys(After(s, ctx).locals, o.loc)
    requires AtBoundary(k, entry, Boundary(at, ctx, loc, w), st)
    requires forall i :: |ctx.locals| <= i < |After(s, ctx).locals| ==> After(s, ctx).locals[i].name != ""
    ensures b <= |st.stack|
    ensures AtBoundary(k, entry, Boundary(Ahead(at, Size(s, ctx)), After(s, ctx), o.loc, o.w),
                       Became(k, st, st.pc + Size(s, ctx), Refresh(st.stack, b, After(s, ctx).locals, o.loc), o.w))
  {
    hide Slots, Refresh, Keys, Tidy, StmtCode, After, FrameOf, Unnamed;
    TopHasNone(k, s, ctx, loc, w, st, b);
    BoundaryKept(k, entry, ctx, at, loc, w, st, b, After(s, ctx), Ahead(at, Size(s, ctx)), o.loc, o.w, st.pc + Size(s, ctx));
  }

  lemma {:induction false} TopHasNone(k: Linked, s: Stmt, ctx: Ctx, loc: Locals, w: World, st: M.State, b: nat)
    requires Settled(k, ctx, loc, w, st, b)
    ensures !ctx.inFn ==> After(s, ctx).locals == []
  {
  }

  // ----- expressions -----

  /** The code of `e` is at the pc of `s`, and `s` agrees with the evaluator. */
  ghost predicate Evaluating(k: Linked, ctx: Ctx, e: Expr, loc: Locals, w: World, fuel: nat, s: M.State) {
    && Placed(k) && InCtx(k, ctx) && CallsSimulated(k, fuel)
    && ExprOk(e, ctx) && CodeAt(k.img.code, s.pc, ExprCode(e, ctx)) && Agrees(k, ctx, loc, w, s)
  }

  /** What the evaluator passes while it evaluates `e`, the machine passes too. */
  lemma {:induction false} VisitExpr(k: Linked, entry: nat, ctx: Ctx, e: Expr, loc: Locals, w: World, fuel: nat, s: M.State, p: Boundary)
    requires Ready(k) && Evaluating(k, ctx, e, loc, w, fuel, s)
    requires ExprVisits(k.fs, k.ctxs, e, |s.frames|, loc, w, fuel, p)
    ensures Passes(k, entry, s, p)
    decreases fuel, e, 1
  {
    hide M.Run, Reaches, Ready, Passes, Evaluating, Eval, CodeAt, ExprCode, ExprOk, Slots, Agrees;
    match e {
      case Neg(_) => VisitUnary(k, entry, ctx, e, loc, w, fuel, s, p);
      case Not(_) => VisitUnary(k, entry, ctx, e, loc, w, fuel, s, p);
      case Unwrap(_) => VisitUnary(k, entry, ctx, e, loc, w, fuel, s, p);
      case Bin(_, _, _) => VisitBin(k, entry, ctx, e, loc, w, fuel, s, p);
      case And(_, _) => VisitShort(k, entry, ctx, e, loc, w, fuel, s, p);
      case Or(_, _) => VisitShort(k, entry, ctx, e, loc, w, fuel, s, p);
      case Coalesce(_, _) => VisitCoalesce(k, entry, ctx, e, loc, w, fuel, s, p);
      case Call(_, _) => VisitCall(k, entry, ctx, e, loc, w, fuel, s, p);
      case _ =>
    }
  }

  lemma {:induction false} VisitUnary(k: Linked, entry: nat, ctx: Ctx, e: Expr, loc: Locals, w: World, fuel: nat, s: M.State, p: Boundary)
    requires Ready(k) && Evaluating(k, ctx, e, loc, w, fuel, s) && (e.Neg? || e.Not? || e.Unwrap?)
    requires ExprVisits(k.fs, k.ctxs, e.e, |s.frames|, loc, w, fuel, p)
    ensures Passes(k, entry, s, p)
    decreases fuel, e, 0
  {
    hide M.Run, Reaches, Ready, Passes, Eval, CodeAt, Slots, Agrees, CallsSimulated, Placed, InCtx, ExprVisits;
    var op: Byte := if e.Neg? then 0x35 else if e.Not? then 0x46 else 0x70;
    CodeSplit(k.img.code, s.pc, ExprCode(e.e, ctx), [op]);
    VisitExpr(k, entry, ctx, e.e, loc, w, fuel, s, p);
  }

  lemma {:induction false} VisitBin(k: Linked, entry: nat, ctx: Ctx, e: Expr, loc: Locals, w: World, fuel: nat, s: M.State, p: Boundary)
    requires Ready(k) && Evaluating(k, ctx, e, loc, w, fuel, s) && e.Bin?
    requires ExprVisits(k.fs, k.ctxs, e, |s.frames|, loc, w, fuel, p)
    ensures Passes(k, entry, s, p)
    decreases fuel, e, 0
  {
    hide M.Run, Reaches, Ready, Passes, Eval, CodeAt, Slots, Agrees, CallsSimulated, Placed, InCtx;
    CodeSplit3(k.img.code, s.pc, ExprCode(e.l, ctx), ExprCode(e.r, ctx), [OpByte(e.bin)]);
    VisitPair(k, entry, ctx, e, e.l, e.r, loc, w, fuel, s, p);
  }

  /** Two expressions, one after the other. */
  lemma {:induction false} VisitPair(k: Linked, entry: nat, ctx: Ctx, e: Expr, l: Expr, r: Expr, loc: Locals, w: World,
                                     fuel: nat, s: M.State, p: Boundary)
    requires l < e && r < e && Ready(k) && Evaluating(k, ctx, l, loc, w, fuel, s)
    requires ExprOk(r, ctx) && CodeAt(k.img.code, s.pc + |ExprCode(l, ctx)|, ExprCode(r, ctx))
    requires || ExprVisits(k.fs, k.ctxs, l, |s.frames|, loc, w, fuel, p)
             || (Eval(k.fs, l, loc, w, fuel).Val?
                 && ExprVisits(k.fs, k.ctxs, r, |s.frames|, loc, Eval(k.fs, l, loc, w, fuel).w, fuel, p))
    ensures Passes(k, entry, s, p)
    decreases fuel, e, -1
  {
    hide M.Run, Reaches, Ready, Passes, Eval, CodeAt, Slots, Agrees, CallsSimulated, Placed, InCtx, ExprVisits, ExprCode, ExprOk;
    if ExprVisits(k.fs, k.ctxs, l, |s.frames|, loc, w, fuel, p) {
      VisitExpr(k, entry, ctx, l, loc, w, fuel, s, p);
    } else {
      SimExpr(k, ctx, l, loc, w, fuel, s);
      var v := Eval(k.fs, l, loc, w, fuel);
      var t := Past(k, s, |ExprCode(l, ctx)|, [Imm(v.v)], v.w);
      AgreesPast(k, ctx, loc, w, s, |ExprCode(l, ctx)|, [Imm(v.v)], v.w);
      VisitExpr(k, entry, ctx, r, loc, v.w, fuel, t, p);
      PassLater(k, entry, s, t, p);
    }
  }

  lemma {:induction false} ShortUnfold(e: Expr, ctx: Ctx)
    requires (e.And? || e.Or?) && ExprOk(e, ctx)
    ensures var jump := JumpCode(if e.And? then 0x51 else 0x52, |ExprCode(e.r, ctx)| + 1);
            ExprCode(e, ctx) == ExprCode(e.l, ctx) + ([0x11] + jump + [0x10]) + ExprCode(e.r, ctx)
    ensures ExprOk(e.l, ctx) && ExprOk(e.r, ctx)
  {
    hide JumpCode;
  }

  /** A short-circuit operator whose left operand does not decide gets to its right operand. */
  lemma {:induction false} RightReached(k: Linked, ctx: Ctx, e: Expr, loc: Locals, w: World, fuel: nat, s: M.State, w1: World)
    requires Evaluating(k, ctx, e, loc, w, fuel, s) && (e.And? || e.Or?)
    requires Eval(k.fs, e.l, loc, w, fuel) == Val(Bool(e.And?), w1)
    ensures var t := Past(k, s, |ExprCode(e.l, ctx)| + 5, [], w1);
            Reaches(k.img, s, t) && Evaluating(k, ctx, e.r, loc, w1, fuel, t)
  {
    hide M.Run, M.Step, Reaches, Halts, RunsFor, Eval, Agrees, CallsSimulated, CodeAt, InCtx, Placed, LocalsAgree, Slots, ExprCode,
         ExprOk, JumpCode;
    var a, cl, cr := Bool(e.And?), ExprCode(e.l, ctx), ExprCode(e.r, ctx);
    ShortUnfold(e, ctx);
    var jump := JumpCode(if e.And? then 0x51 else 0x52, |cr| + 1);
    CodeLands(k, ctx, e, s);
    CodeSplit3(k.img.code, s.pc, cl, [0x11] + jump + [0x10], cr);
    CodeSplit3(k.img.code, s.pc + |cl|, [0x11], jump, [0x10]);
    SimExpr(k, ctx, e.l, loc, w, fuel, s);
    LeftDropped(k, s, |cl|, a, w1, |cr| + 1, e.Or?);
    AgreesPast(k, ctx, loc, w, s, |cl| + 5, [], w1);
  }

  lemma {:induction false} LeftDropped(k: Linked, s: M.State, n: nat, a: Immediate, w1: World, d: nat, sense: bool)
    requires Reaches(k.img, s, Past(k, s, n, [Imm(a)], w1)) && a == Bool(!sense)
    requires CodeAt(k.img.code, s.pc + n, [0x11]) && CodeAt(k.img.code, s.pc + n + 4, [0x10])
    requires CodeAt(k.img.code, s.pc + n + 1, JumpCode(if sense then 0x52 else 0x51, d))
    requires s.pc + n + 4 + d <= |k.img.code| <= 0xFFFF
    ensures Reaches(k.img, s, Past(k, s, n + 5, [], w1))
  {
    hide M.Run, M.Step, Reaches, Halts, CodeAt, Slots;
    var t := Past(k, s, n, [Imm(a)], w1);
    var t1 := t.(pc := t.pc + 1, stack := t.stack + [Imm(a)]);
    StepDup(k.img, t, a);
    ReachThen(k.img, s, t, t1);
    assert M.Dropped(t1, 1) == t.stack;
    StepJumpIf(k.img, t1, sense, d, a);
    var t2 := t1.(pc := t1.pc + 3, stack := t.stack);
    ReachThen(k.img, s, t1, t2);
    assert M.Dropped(t2, 1) == s.stack == s.stack + [];
    StepPop(k.img, t2, a);
    ReachThen(k.img, s, t2, Past(k, s, n + 5, [], w1));
  }

  lemma {:induction false} VisitShort(k: Linked, entry: nat, ctx: Ctx, e: Expr, loc: Locals, w: World, fuel: nat, s: M.State, p: Boundary)
    requires Ready(k) && Evaluating(k, ctx, e, loc, w, fuel, s) && (e.And? || e.Or?)
    requires ExprVisits(k.fs, k.ctxs, e, |s.frames|, loc, w, fuel, p)
    ensures Passes(k, entry, s, p)
    decreases fuel, e, 0
  {
    hide M.Run, Reaches, Ready, Passes, Eval, CodeAt, Slots, Agrees, CallsSimulated, Placed, InCtx;
    CodeSplit3(k.img.code, s.pc, ExprCode(e.l, ctx),
               [0x11] + JumpCode(if e.And? then 0x51 else 0x52, |ExprCode(e.r, ctx)| + 1) + [0x10], ExprCode(e.r, ctx));
    if ExprVisits(k.fs, k.ctxs, e.l, |s.frames|, loc, w, fuel, p) {
      VisitExpr(k, entry, ctx, e.l, loc, w, fuel, s, p);
    } else {
      var v := Eval(k.fs, e.l, loc, w, fuel);
      RightReached(k, ctx, e, loc, w, fuel, s, v.w);
      var t := Past(k, s, |ExprCode(e.l, ctx)| + 5, [], v.w);
      VisitExpr(k, entry, ctx, e.r, loc, v.w, fuel, t, p);
      PassLater(k, entry, s, t, p);
    }
  }

  /** The right operand of `??`, when the left one is nil. */
  lemma {:induction false} DefaultReached(k: Linked, ctx: Ctx, e: Expr, loc: Locals, w: World, fuel: nat, s: M.State, a: Immediate, w1: World)
    requires Evaluating(k, ctx, e, loc, w, fuel, s) && e.Coalesce?
    requires Eval(k.fs, e.l, loc, w, fuel) == Val(a, w1) && Missing(a)
    ensures var t := Past(k, s, |ExprCode(e.l, ctx)| + 3, [], w1);
            Reaches(k.img, s, t) && Evaluating(k, ctx, e.r, loc, w1, fuel, t)
  {
    hide M.Run, M.Step, Reaches, Halts, RunsFor, Eval, Agrees, CallsSimulated, CodeAt, InCtx, Placed, LocalsAgree, Slots;
    var cl, cr := ExprCode(e.l, ctx), ExprCode(e.r, ctx);
    CodeLands(k, ctx, e, s);
    CodeSplit3(k.img.code, s.pc, cl, JumpCode(0x72, |cr|), cr);
    SimExpr(k, ctx, e.l, loc, w, fuel, s);
    var t := Past(k, s, |cl|, [Imm(a)], w1);
    StepNilBranch(k.img, t, false, |cr|, a);
    assert M.Dropped(t, 1) == s.stack == s.stack + [];
    ReachThen(k.img, s, t, Past(k, s, |cl| + 3, [], w1));
    AgreesPast(k, ctx, loc, w, s, |cl| + 3, [], w1);
  }

  lemma {:induction false} VisitCoalesce(k: Linked, entry: nat, ctx: Ctx, e: Expr, loc: Locals, w: World, fuel: nat, s: M.State, p: Boundary)
    requires Ready(k) && Evaluating(k, ctx, e, loc, w, fuel, s) && e.Coalesce?
    requires ExprVisits(k.fs, k.ctxs, e, |s.frames|, loc, w, fuel, p)
    ensures Passes(k, entry, s, p)
    decreases fuel, e, 0
  {
    hide M.Run, Reaches, Ready, Passes, Eval, CodeAt, Slots, Agrees, CallsSimulated, Placed, InCtx;
    CodeSplit3(k.img.code, s.pc, ExprCode(e.l, ctx), JumpCode(0x72, |ExprCode(e.r, ctx)|), ExprCode(e.r, ctx));
    if ExprVisits(k.fs, k.ctxs, e.l, |s.frames|, loc, w, fuel, p) {
      VisitExpr(k, entry, ctx, e.l, loc, w, fuel, s, p);
    } else {
      var v := Eval(k.fs, e.l, loc, w, fuel);
      DefaultReached(k, ctx, e, loc, w, fuel, s, v.v, v.w);
      var t := Past(k, s, |ExprCode(e.l, ctx)| + 3, [], v.w);
      VisitExpr(k, entry, ctx, e.r, loc, v.w, fuel, t, p);
      PassLater(k, entry, s, t, p);
    }
  }

  /** The code of the list `es` is at the pc of `s`. */
  ghost predicate EvaluatingList(k: Linked, ctx: Ctx, es: Exprs, loc: Locals, w: World, fuel: nat, s: M.State) {
    && Placed(k) && InCtx(k, ctx) && CallsSimulated(k, fuel)
    && ExprsOk(es, ctx) && CodeAt(k.img.code, s.pc, ExprsCode(es, ctx)) && Agrees(k, ctx, loc, w, s)
  }

  lemma {:induction false} VisitList(k: Linked, entry: nat, ctx: Ctx, es: Exprs, loc: Locals, w: World, fuel: nat, s: M.State, p: Boundary)
    requires Ready(k) && EvaluatingList(k, ctx, es, loc, w, fuel, s)
    requires ListVisits(k.fs, k.ctxs, es, |s.frames|, loc, w, fuel, p)
    ensures Passes(k, entry, s, p)
    decreases fuel, es, 1
  {
    hide M.Run, Reaches, Ready, Passes, Eval, CodeAt, Slots, Agrees, CallsSimulated, Placed, InCtx, ExprCode, ExprOk, ExprVisits;
    var e, rest := es.first, es.rest;
    CodeSplit(k.img.code, s.pc, ExprCode(e, ctx), ExprsCode(rest, ctx));
    if ExprVisits(k.fs, k.ctxs, e, |s.frames|, loc, w, fuel, p) {
      VisitExpr(k, entry, ctx, e, loc, w, fuel, s, p);
    } else {
      SimExpr(k, ctx, e, loc, w, fuel, s);
      var v := Eval(k.fs, e, loc, w, fuel);
      var t := Past(k, s, |ExprCode(e, ctx)|, [Imm(v.v)], v.w);
      AgreesPast(k, ctx, loc, w, s, |ExprCode(e, ctx)|, [Imm(v.v)], v.w);
      VisitList(k, entry, ctx, rest, loc, v.w, fuel, t, p);
      PassLater(k, entry, s, t, p);
    }
  }

  lemma {:induction false} VisitCall(k: Linked, entry: nat, ctx: Ctx, e: Expr, loc: Locals, w: World, fuel: nat, s: M.State, p: Boundary)
    requires Ready(k) && Evaluating(k, ctx, e, loc, w, fuel, s) && e.Call?
    requires ExprVisits(k.fs, k.ctxs, e, |s.frames|, loc, w, fuel, p)
    ensures Passes(k, entry, s, p)
    decreases fuel, e, 0
  {
    hide M.Run, M.Step, Reaches, Ready, Passes, Eval, CodeAt, Slots, Agrees, CallsSimulated, InCtx, EvalList, ExprsCode,
         ListVisits, CallVisits, Invoke, ExprsOk;
    CodeSplit(k.img.code, s.pc, ExprsCode(e.args, ctx), CallCode(e.f, Count(e.args), ctx));
    if ListVisits(k.fs, k.ctxs, e.args, |s.frames|, loc, w, fuel, p) {
      VisitList(k, entry, ctx, e.args, loc, w, fuel, s, p);
    } else {
      var r := EvalList(k.fs, e.args, loc, w, fuel);
      var i := CallReached(k, ctx, e, loc, w, fuel, s, r.vs, r.w);
      var t := Past(k, s, |ExprsCode(e.args, ctx)|, Imms(r.vs), r.w);
      if Overflows(k.img, t) {
        PassFull(k, entry, t, p);
        PassLater(k, entry, s, t, p);
      } else {
        VisitBody(k, entry, e.f, i, r.vs, r.w, fuel - 1, CallEntry(k.img, t, i, |r.vs|), p);
        PassLater(k, entry, s, CallEntry(k.img, t, i, |r.vs|), p);
      }
    }
  }

  /** From the arguments of a call to the first byte of the function. */
  lemma {:induction false} CallReached(k: Linked, ctx: Ctx, e: Expr, loc: Locals, w: World, fuel: nat, s: M.State,
                                       vs: seq<Immediate>, w1: World)
    returns (i: nat)
    requires Evaluating(k, ctx, e, loc, w, fuel, s) && e.Call? && EvalList(k.fs, e.args, loc, w, fuel) == Vals(vs, w1)
    ensures Lookup(k.fs, e.f) == Some(i) && i < |k.fs| && k.fs[i].name == e.f
    ensures var t := Past(k, s, |ExprsCode(e.args, ctx)|, Imms(vs), w1);
            && Reaches(k.img, s, t) && i < |k.img.funcs| && |vs| <= 255 && i <= 255 && |vs| <= |t.stack|
            && (Overflows(k.img, t)
                || (Reaches(k.img, s, CallEntry(k.img, t, i, |vs|)) && Entered(k, i, vs, w1, CallEntry(k.img, t, i, |vs|))))
    ensures |CallEntry(k.img, Past(k, s, |ExprsCode(e.args, ctx)|, Imms(vs), w1), i, |vs|).frames| == |s.frames| + 1
  {
    hide M.Run, M.Step, Reaches, Halts, RunsFor, CallsSimulated, CodeAt, Agrees, InCtx, ExprsCode, LeftWith, Invoke, Slots,
         Overflows, EvalList, ExprsOk;
    var Call(f, args) := e;
    var ca, cc := ExprsCode(args, ctx), CallCode(f, Count(args), ctx);
    CodeSplit(k.img.code, s.pc, ca, cc);
    SimList(k, ctx, args, loc, w, fuel, s);
    i := FindFunc(ctx.funcs, f).value;
    FuncIndex(k, ctx, f);
    SigIndex(k, ctx, i);
    var t := Past(k, s, |ca|, Imms(vs), w1);
    StepCall(k.img, t, i, |vs|);
    if !Overflows(k.img, t) {
      StepReaches(k.img, t, CallEntry(k.img, t, i, |vs|));
      ReachThen(k.img, s, t, CallEntry(k.img, t, i, |vs|));
      CallEntered(k, ctx, loc, w, s, |ca|, vs, w1, i);
    }
  }

  lemma {:induction false} CallEntered(k: Linked, ctx: Ctx, loc: Locals, w: World, s: M.State, n: nat, vs: seq<Immediate>, w1: World, i: nat)
    requires Placed(k) && Agrees(k, ctx, loc, w, s) && i < |k.fs| && |vs| == |k.fs[i].params| <= 255 && i < 0x100
    ensures Entered(k, i, vs, w1, CallEntry(k.img, Past(k, s, n, Imms(vs), w1), i, |vs|))
  {
    hide Slots, LocalsAgree;
    var e := CallEntry(k.img, Past(k, s, n, Imms(vs), w1), i, |vs|);
    assert e.stack[e.fp..] == Imms(vs);
  }

  /** A call: from its first byte on the machine passes what the evaluator passes in the body. */
  lemma {:induction false} VisitBody(k: Linked, entry: nat, f: Name, i: nat, vs: seq<Immediate>, w: World, fuel: nat, e: M.State, p: Boundary)
    requires Ready(k) && Entered(k, i, vs, w, e) && Lookup(k.fs, f) == Some(i)
    requires |e.frames| > 0 && CallVisits(k.fs, k.ctxs, f, vs, |e.frames| - 1, w, fuel, p)
    ensures Passes(k, entry, e, p)
    decreases fuel
  {
    hide M.Run, Reaches, Passes, CodeAt, Slots, CallsSimulated, StmtVisits, Static, Settled, StmtCode, FuncOk, Bind, FrameOf, Leaves;
    var fd, ctx, at := k.fs[i], k.ctxs[i], Spot(FunctionCode(i), 0, |e.frames|, []);
    SimCalls(k, fuel);
    assert FuncReady(k, i);
    EnteredSettled(k, i, vs, w, e);
    var code := StmtCode(fd.body, ctx, None);
    var tail: seq<Byte> := if LastByteReturns(code) then [] else [0x62];
    assert FuncCode(fd, ctx) == code + tail;
    CodeSplit(k.img.code, e.pc, code, tail);
    EntryBoundary(k, entry, i, vs, w, e);
    VisitStmt(k, entry, fd.body, ctx, None, false, None, at, Bind(fd.params, vs), w, fuel, e, e.fp, p);
  }

  lemma {:induction false} EntryBoundary(k: Linked, entry: nat, i: nat, vs: seq<Immediate>, w: World, e: M.State)
    requires FuncSituated(k, i) && Entered(k, i, vs, w, e)
    ensures AtBoundary(k, entry, Boundary(Spot(FunctionCode(i), 0, |e.frames|, []), k.ctxs[i], Bind(k.fs[i].params, vs), w), e)
  {
    hide Static, StmtCode, CodeAt, Slots, StmtOk, LastByteReturns, FuncCode, AllImmediate, Bind;
    var ctx, loc := k.ctxs[i], Bind(k.fs[i].params, vs);
    EnteredSettled(k, i, vs, w, e);
    ParamFrame(k, i, vs, w, e, loc);
    NamedSuffix(ctx.locals, 0, |ctx.locals|);
  }

  /** The arguments of a call are its first frame. */
  lemma {:induction false} ParamFrame(k: Linked, i: nat, vs: seq<Immediate>, w: World, e: M.State, loc: Locals)
    requires FuncSituated(k, i) && Entered(k, i, vs, w, e) && Settled(k, k.ctxs[i], loc, w, e, e.fp)
    ensures e.stack[e.fp..] == FrameOf(k.ctxs[i], loc, []) && Keys(k.ctxs[i].locals, loc)
    ensures forall j :: 0 <= j < |k.ctxs[i].locals| ==> k.ctxs[i].locals[j].name != ""
  {
    hide Static, StmtCode, CodeAt, Slots, StmtOk, LastByteReturns, FuncCode, AllImmediate, Unnamed;
    var ts := k.ctxs[i].locals;
    forall j | 0 <= j < |ts|
      ensures ts[j].name != "" && e.stack[e.fp..][j] == FrameOf(k.ctxs[i], loc, [])[j]
    {
      assert ts[j].name == k.fs[i].params[j];
      TidyFind(ts, j);
    }
  }

  // ----- statements -----

  /** The machine stands before `s`, at the boundary the evaluator is at. */
  ghost predicate Standing(k: Linked, entry: nat, s: Stmt, ctx: Ctx, base: Option<nat>, inSwitch: bool, brk: Option<int>,
                           at: Spot, loc: Locals, w: World, fuel: nat, st: M.State, b: nat) {
    Poised(k, s, ctx, base, inSwitch, brk, loc, w, fuel, st, b) && AtBoundary(k, entry, Boundary(at, ctx, loc, w), st)
  }

  /** The machine passes every boundary that the evaluator passes in executing `s`. */
  lemma {:induction false} VisitStmt(k: Linked, entry: nat, s: Stmt, ctx: Ctx, base: Option<nat>, inSwitch: bool, brk: Option<int>,
                                     at: Spot, loc: Locals, w: World, fuel: nat, st: M.State, b: nat, p: Boundary)
    requires Ready(k) && Standing(k, entry, s, ctx, base, inSwitch, brk, at, loc, w, fuel, st, b)
    requires StmtVisits(k.fs, k.ctxs, s, ctx, at, loc, w, fuel, p)
    ensures Passes(k, entry, st, p)
    decreases fuel, s, 4
  {
    hide M.Run, Reaches, Ready, Passes, Poised, AtBoundary, PartVisits, Exec, StmtCode, After, Slots, Refresh;
    if PartVisits(k.fs, k.ctxs, s, ctx, at, loc, w, fuel, p) {
      VisitInside(k, entry, s, ctx, base, inSwitch, brk, at, loc, w, fuel, st, b, p);
    } else if p == Boundary(at, ctx, loc, w) {
      PassNow(k, entry, st, p);
    } else {
      var o := Exec(k.fs, ctx.inFn, s, loc, w, fuel);
      EndBoundary(k, entry, s, ctx, base, inSwitch, brk, at, loc, w, fuel, st, b);
      var t := Became(k, st, st.pc + |StmtCode(s, ctx, brk)|, Refresh(st.stack, b, After(s, ctx).locals, o.loc), o.w);
      PassNow(k, entry, t, p);
      PassLater(k, entry, st, t, p);
    }
  }

  lemma {:induction false} VisitInside(k: Linked, entry: nat, s: Stmt, ctx: Ctx, base: Option<nat>, inSwitch: bool, brk: Option<int>,
                                       at: Spot, loc: Locals, w: World, fuel: nat, st: M.State, b: nat, p: Boundary)
    requires Ready(k) && Standing(k, entry, s, ctx, base, inSwitch, brk, at, loc, w, fuel, st, b)
    requires PartVisits(k.fs, k.ctxs, s, ctx, at, loc, w, fuel, p)
    ensures Passes(k, entry, st, p)
    decreases fuel, s, 3
  {
    hide Ready, Passes, Standing, SeqVisits, IfVisits, IfLetVisits, WhileVisits, ForVisits, ExprVisits, ListVisits, CasesVisit, Eval;
    match s {
      case Seq(_, _) => VisitSeq(k, entry, s, ctx, base, inSwitch, brk, at, loc, w, fuel, st, b, p);
      case If(_, _, _) => VisitIf(k, entry, s, ctx, base, inSwitch, brk, at, loc, w, fuel, st, b, p);
      case IfLet(_, _, _, _) => VisitIfLet(k, entry, s, ctx, base, inSwitch, brk, at, loc, w, fuel, st, b, p);
      case While(_, _) => VisitWhile(k, entry, s, ctx, base, inSwitch, brk, at, loc, w, fuel, st, b, p);
      case ForIn(_, _, _, _, _) => VisitFor(k, entry, s, ctx, base, inSwitch, brk, at, loc, w, fuel, st, b, p);
      case Switch(_, _) => VisitSwitch(k, entry, s, ctx, base, inSwitch, brk, at, loc, w, fuel, st, b, p);
      case Compound(_, _, _) => VisitCompound(k, entry, s, ctx, base, inSwitch, brk, at, loc, w, fuel, st, b, p);
      case Print(_) => VisitPrint(k, entry, s, ctx, base, inSwitch, brk, at, loc, w, fuel, st, b, p);
      case Declare(_, _, e) => VisitLeading(k, entry, s, e, ctx, base, inSwitch, brk, at, loc, w, fuel, st, b, p);
      case Assign(_, e) => VisitLeading(k, entry, s, e, ctx, base, inSwitch, brk, at, loc, w, fuel, st, b, p);
      case Do(e) => VisitLeading(k, entry, s, e, ctx, base, inSwitch, brk, at, loc, w, fuel, st, b, p);
      case Return(result) => VisitLeading(k, entry, s, result.value, ctx, base, inSwitch, brk, at, loc, w, fuel, st, b, p);
      case _ =>
    }
  }

  /** Statements that start by evaluating `e`. */
  predicate Leads(s: Stmt, e: Expr) {
    match s
    case Declare(_, _, f) => e == f
    case Assign(_, f) => e == f
    case Do(f) => e == f
    case Return(result) => result == Some(e)
    case _ => false
  }

  lemma {:induction false} LeadCode(s: Stmt, e: Expr, ctx: Ctx, base: Option<nat>, inSwitch: bool, brk: Option<int>)
    returns (tail: seq<Byte>)
    requires Leads(s, e) && StmtOk(s, ctx, base.Some?, inSwitch)
    ensures StmtCode(s, ctx, brk) == ExprCode(e, ctx) + tail && ExprOk(e, ctx) && e < s
  {
    hide ExprCode, ExprOk;
    tail := if s.Declare? then (if ctx.inFn then [] else [0x22, |ctx.globals| % 0x100])
            else if s.Assign? then SetCode(s.x, ctx)
            else if s.Do? then [0x10]
            else [0x61];
  }

  lemma {:induction false} VisitLeading(k: Linked, entry: nat, s: Stmt, e: Expr, ctx: Ctx, base: Option<nat>, inSwitch: bool,
                                        brk: Option<int>, at: Spot, loc: Locals, w: World, fuel: nat, st: M.State, b: nat, p: Boundary)
    requires Ready(k) && Standing(k, entry, s, ctx, base, inSwitch, brk, at, loc, w, fuel, st, b)
    requires Leads(s, e) && ExprVisits(k.fs, k.ctxs, e, at.depth, loc, w, fuel, p)
    ensures Passes(k, entry, st, p)
    decreases fuel, s, 0
  {
    hide Ready, Passes, ExprVisits, StmtCode, ExprCode, ExprOk, After, Careful, StmtOk, CodeAt, CallsSimulated, Agrees, Slots, FrameOf,
         Placed, InCtx, Keys, Tidy, Leads;
    var tail := LeadCode(s, e, ctx, base, inSwitch, brk);
    CodeSplit(k.img.code, st.pc, ExprCode(e, ctx), tail);
    VisitExpr(k, entry, ctx, e, loc, w, fuel, st, p);
  }

  lemma {:induction false} VisitPrint(k: Linked, entry: nat, s: Stmt, ctx: Ctx, base: Option<nat>, inSwitch: bool, brk: Option<int>,
                                      at: Spot, loc: Locals, w: World, fuel: nat, st: M.State, b: nat, p: Boundary)
    requires Ready(k) && Standing(k, entry, s, ctx, base, inSwitch, brk, at, loc, w, fuel, st, b) && s.Print?
    requires ListVisits(k.fs, k.ctxs, s.args, at.depth, loc, w, fuel, p)
    ensures Passes(k, entry, st, p)
    decreases fuel, s, 0
  {
    hide Ready, Passes, ListVisits, ExprsCode, ExprsOk, After, Careful, CodeAt, CallsSimulated, Agrees, Slots, FrameOf, Placed, InCtx,
         Keys, Tidy;
    CodeSplit(k.img.code, st.pc, ExprsCode(s.args, ctx), [0x63, M.BUILTIN_PRINT, Count(s.args) % 0x100, 0x10]);
    VisitList(k, entry, ctx, s.args, loc, w, fuel, st, p);
  }

  lemma {:induction false} VisitCompound(k: Linked, entry: nat, s: Stmt, ctx: Ctx, base: Option<nat>, inSwitch: bool, brk: Option<int>,
                                         at: Spot, loc: Locals, w: World, fuel: nat, st: M.State, b: nat, p: Boundary)
    requires Ready(k) && Standing(k, entry, s, ctx, base, inSwitch, brk, at, loc, w, fuel, st, b) && s.Compound?
    requires Read(s.x, loc, w).Val? && ExprVisits(k.fs, k.ctxs, s.e, at.depth, loc, w, fuel, p)
    ensures Passes(k, entry, st, p)
    decreases fuel, s, 0
  {
    hide Ready, Passes, ExprVisits, ExprCode, ExprOk, After, Careful, CodeAt, CallsSimulated, Agrees, Slots, FrameOf, Placed, InCtx,
         Keys, Tidy, GetCode, SetCode, OpByte, Reaches, CanAssign;
    var cg, c := GetCode(s.x, ctx), ExprCode(s.e, ctx);
    CodeSplit3(k.img.code, st.pc, cg, c, [OpByte(Arith(s.op))] + SetCode(s.x, ctx));
    Assignable(s.x, ctx);
    SimGet(k, ctx, s.x, loc, w, st);
    var v := Read(s.x, loc, w).v;
    var t := Past(k, st, |cg|, [Imm(v)], w);
    AgreesPast(k, ctx, loc, w, st, |cg|, [Imm(v)], w);
    VisitExpr(k, entry, ctx, s.e, loc, w, fuel, t, p);
    PassLater(k, entry, st, t, p);
  }

  lemma {:induction false} VisitSeq(k: Linked, entry: nat, s: Stmt, ctx: Ctx, base: Option<nat>, inSwitch: bool, brk: Option<int>,
                                    at: Spot, loc: Locals, w: World, fuel: nat, st: M.State, b: nat, p: Boundary)
    requires Ready(k) && Standing(k, entry, s, ctx, base, inSwitch, brk, at, loc, w, fuel, st, b) && s.Seq?
    requires SeqVisits(k.fs, k.ctxs, s, ctx, at, loc, w, fuel, p)
    ensures Passes(k, entry, st, p)
    decreases fuel, s, 2
  {
    hide M.Run, Reaches, Halts, RunsFor, Ready, Passes, StmtVisits, Exec, StmtCode, After, CodeAt, CallsSimulated, Slots, Refresh,
         Settled, AtBoundary, Static;
    var Seq(s1, s2) := s;
    var c1, ctx1 := StmtCode(s1, ctx, brk), After(s1, ctx);
    SeqUnfold(s1, s2, ctx, brk);
    SeqStatic(k, s1, s2, ctx, base, inSwitch);
    CodeSplit(k.img.code, st.pc, c1, StmtCode(s2, ctx1, Shift(brk, |c1|)));
    if StmtVisits(k.fs, k.ctxs, s1, ctx, at, loc, w, fuel, p) {
      VisitStmt(k, entry, s1, ctx, base, inSwitch, brk, at, loc, w, fuel, st, b, p);
    } else {
      var o := Exec(k.fs, ctx.inFn, s1, loc, w, fuel);
      var t := SecondStands(k, entry, s1, s2, ctx, base, inSwitch, brk, at, loc, w, fuel, st, b);
      VisitStmt(k, entry, s2, ctx1, base, inSwitch, Shift(brk, |c1|), Ahead(at, Size(s1, ctx)), o.loc, o.w, fuel, t, b, p);
      PassLater(k, entry, st, t, p);
    }
  }

  /** Between the two statements of a sequence. */
  lemma {:induction false} SecondStands(k: Linked, entry: nat, s1: Stmt, s2: Stmt, ctx: Ctx, base: Option<nat>, inSwitch: bool,
                                        brk: Option<int>, at: Spot, loc: Locals, w: World, fuel: nat, st: M.State, b: nat)
    returns (t: M.State)
    requires Standing(k, entry, s1, ctx, base, inSwitch, brk, at, loc, w, fuel, st, b) && Exec(k.fs, ctx.inFn, s1, loc, w, fuel).Normal?
    requires var c1 := |StmtCode(s1, ctx, brk)|;
             CodeAt(k.img.code, st.pc + c1, StmtCode(s2, After(s1, ctx), Shift(brk, c1)))
    requires InCtx(k, After(s1, ctx)) ==> Static(k, s2, After(s1, ctx), base, inSwitch)
    ensures var o := Exec(k.fs, ctx.inFn, s1, loc, w, fuel);
            Reaches(k.img, st, t)
            && Standing(k, entry, s2, After(s1, ctx), base, inSwitch, Shift(brk, |StmtCode(s1, ctx, brk)|),
                        Ahead(at, Size(s1, ctx)), o.loc, o.w, fuel, t, b)
  {
    hide M.Run, Reaches, Halts, RunsFor, Exec, StmtCode, After, CodeAt, CallsSimulated, Slots, Refresh, Settled, AtBoundary, Static;
    var o := Exec(k.fs, ctx.inFn, s1, loc, w, fuel);
    SimStmt(k, s1, ctx, base, inSwitch, brk, loc, w, fuel, st, b);
    SeqMiddle(k, s1, ctx, base, inSwitch, brk, loc, w, fuel, st, b, o.loc, o.w);
    EndBoundary(k, entry, s1, ctx, base, inSwitch, brk, at, loc, w, fuel, st, b);
    t := Became(k, st, st.pc + |StmtCode(s1, ctx, brk)|, Refresh(st.stack, b, After(s1, ctx).locals, o.loc), o.w);
  }

  /** A block starts with its statements. */
  lemma {:induction false} BlockStands(k: Linked, entry: nat, s: Stmt, ctx: Ctx, m: nat, base: Option<nat>, inSwitch: bool,
                                       brk: Option<int>, at: Spot, loc: Locals, w: World, fuel: nat, u: M.State, b: nat)
    requires PoisedBlock(k, s, ctx, m, base, inSwitch, brk, loc, w, fuel, u, b) && AtBoundary(k, entry, Boundary(at, ctx, loc, w), u)
    ensures Standing(k, entry, s, ctx, base, inSwitch, brk, at, loc, w, fuel, u, b)
  {
    hide CodeAt, StmtCode, AtBoundary, Settled, Static, CallsSimulated;
    CodeSplit(k.img.code, u.pc, StmtCode(s, ctx, brk), Pops(Excess(s, ctx, m)));
  }

  lemma {:induction false} BlockSize(s: Stmt, ctx: Ctx, m: nat, brk: Option<int>)
    requires m <= |ctx.locals|
    ensures |BlockCode(s, ctx, m, brk)| == |BlockCode(s, ctx, m, None)|
  {
    hide StmtCode;
    SameLength(s, ctx, brk, None);
  }

  // ----- conditionals -----

  lemma {:induction false} VisitIf(k: Linked, entry: nat, s: Stmt, ctx: Ctx, base: Option<nat>, inSwitch: bool, brk: Option<int>,
                                   at: Spot, loc: Locals, w: World, fuel: nat, st: M.State, b: nat, p: Boundary)
    requires Ready(k) && Standing(k, entry, s, ctx, base, inSwitch, brk, at, loc, w, fuel, st, b) && s.If?
    requires IfVisits(k.fs, k.ctxs, s, ctx, at, loc, w, fuel, p)
    ensures Passes(k, entry, st, p)
    decreases fuel, s, 2
  {
    hide M.Run, Reaches, Ready, Passes, StmtVisits, ExprVisits, StmtCode, BlockCode, ExprCode, After, AfterBlock, CodeAt, CallsSimulated,
         Slots, Settled, AtBoundary, Static, Eval, Standing, Shift;
    if ExprVisits(k.fs, k.ctxs, s.c, at.depth, loc, w, fuel, p) {
      ConditionStands(k, entry, s, ctx, base, inSwitch, brk, at, loc, w, fuel, st, b);
      VisitExpr(k, entry, ctx, s.c, loc, w, fuel, st, p);
    } else {
      var r := Eval(k.fs, s.c, loc, w, fuel);
      var n := |ExprCode(s.c, ctx)|;
      if r.v.b {
        var u := FirstArmStands(k, entry, s, ctx, base, inSwitch, brk, at, loc, w, fuel, st, b, r.w);
        VisitStmt(k, entry, s.thn, ctx, base, inSwitch, Shift(brk, n + 3), Ahead(at, n + 3), loc, r.w, fuel, u, b, p);
        PassLater(k, entry, st, u, p);
      } else {
        var u, brkE := SecondArmStands(k, entry, s, ctx, base, inSwitch, brk, at, loc, w, fuel, st, b, r.w);
        VisitStmt(k, entry, s.els.value, AfterBlock(s.thn, ctx), base, inSwitch, brkE,
                  Ahead(at, SecondArm(n, |BlockCode(s.thn, ctx, |ctx.locals|, None)|)), loc, r.w, fuel, u, b, p);
        PassLater(k, entry, st, u, p);
      }
    }
  }

  lemma {:induction false} ConditionStands(k: Linked, entry: nat, s: Stmt, ctx: Ctx, base: Option<nat>, inSwitch: bool, brk: Option<int>,
                                           at: Spot, loc: Locals, w: World, fuel: nat, st: M.State, b: nat)
    requires Standing(k, entry, s, ctx, base, inSwitch, brk, at, loc, w, fuel, st, b) && s.If?
    ensures Evaluating(k, ctx, s.c, loc, w, fuel, st) && at.depth == |st.frames|
  {
    hide StmtCode, ExprCode, ExprOk, BlockCode, ArmsCode, AfterBlock, CodeAt, CallsSimulated, Agrees, Slots, FrameOf, Placed, InCtx,
         Static, Keys, Tidy;
    IfUnfold(s, ctx, brk);
    IfStatic(k, s, ctx, base, inSwitch);
    StaticFacts(k, s, ctx, base, inSwitch);
    var first := BlockCode(s.thn, ctx, |ctx.locals|, Shift(brk, |ExprCode(s.c, ctx)| + 3));
    CodeSplit(k.img.code, st.pc, ExprCode(s.c, ctx),
              ArmsCode(0x51, first, s.els, AfterBlock(s.thn, ctx), Shift(brk, |ExprCode(s.c, ctx)|)));
  }

  /** The first arm of an `if` whose condition holds. */
  lemma {:induction false} FirstArmStands(k: Linked, entry: nat, s: Stmt, ctx: Ctx, base: Option<nat>, inSwitch: bool, brk: Option<int>,
                                          at: Spot, loc: Locals, w: World, fuel: nat, st: M.State, b: nat, w1: World)
    returns (u: M.State)
    requires Standing(k, entry, s, ctx, base, inSwitch, brk, at, loc, w, fuel, st, b) && s.If?
    requires Eval(k.fs, s.c, loc, w, fuel) == Val(Bool(true), w1)
    ensures Reaches(k.img, st, u)
    ensures var n := |ExprCode(s.c, ctx)|;
            Standing(k, entry, s.thn, ctx, base, inSwitch, Shift(brk, n + 3), Ahead(at, n + 3), loc, w1, fuel, u, b)
  {
    hide M.Run, Reaches, StmtCode, ExprCode, ExprOk, BlockCode, ArmsCode, AfterBlock, CodeAt, CallsSimulated, Agrees, Slots, FrameOf,
         AtBoundary, Placed, InCtx, Static, Keys, Tidy, Eval, Settled;
    var n := |ExprCode(s.c, ctx)|;
    var first := BlockCode(s.thn, ctx, |ctx.locals|, Shift(brk, n + 3));
    ConditionStands(k, entry, s, ctx, base, inSwitch, brk, at, loc, w, fuel, st, b);
    IfUnfold(s, ctx, brk);
    IfStatic(k, s, ctx, base, inSwitch);
    CodeSplit(k.img.code, st.pc, ExprCode(s.c, ctx), ArmsCode(0x51, first, s.els, AfterBlock(s.thn, ctx), Shift(brk, n)));
    ArmsLayout(k.img.code, st.pc + n, 0x51, first, s.els, AfterBlock(s.thn, ctx), Shift(brk, n));
    SimExpr(k, ctx, s.c, loc, w, fuel, st);
    Tested(k, st, n, Bool(true), w1, TestDistance(first, s.els));
    u := Became(k, st, st.pc + n + 3, st.stack, w1);
    Unmoved(k, ctx, loc, w, st, b, u.pc, w1);
    BoundaryMoved(k, entry, ctx, at, loc, w, st, ctx, n + 3, w1);
    BlockStands(k, entry, s.thn, ctx, |ctx.locals|, base, inSwitch, Shift(brk, n + 3), Ahead(at, n + 3), loc, w1, fuel, u, b);
  }

  /** The second arm of an `if` whose condition does not hold. */
  lemma {:induction false} SecondArmStands(k: Linked, entry: nat, s: Stmt, ctx: Ctx, base: Option<nat>, inSwitch: bool, brk: Option<int>,
                                           at: Spot, loc: Locals, w: World, fuel: nat, st: M.State, b: nat, w1: World)
    returns (u: M.State, brkE: Option<int>)
    requires Standing(k, entry, s, ctx, base, inSwitch, brk, at, loc, w, fuel, st, b) && s.If? && s.els.Some?
    requires Eval(k.fs, s.c, loc, w, fuel) == Val(Bool(false), w1)
    ensures Reaches(k.img, st, u)
    ensures Standing(k, entry, s.els.value, AfterBlock(s.thn, ctx), base, inSwitch, brkE,
                     Ahead(at, SecondArm(|ExprCode(s.c, ctx)|, |BlockCode(s.thn, ctx, |ctx.locals|, None)|)), loc, w1, fuel, u, b)
  {
    hide M.Run, Reaches, StmtCode, ExprCode, ExprOk, BlockCode, ArmsCode, AfterBlock, CodeAt, CallsSimulated, Agrees, Slots, FrameOf,
         AtBoundary, Placed, InCtx, Static, Keys, Tidy, Eval, Settled;
    var n := |ExprCode(s.c, ctx)|;
    var first, ctxE := BlockCode(s.thn, ctx, |ctx.locals|, Shift(brk, n + 3)), AfterBlock(s.thn, ctx);
    BlockSize(s.thn, ctx, |ctx.locals|, Shift(brk, n + 3));
    ConditionStands(k, entry, s, ctx, base, inSwitch, brk, at, loc, w, fuel, st, b);
    IfUnfold(s, ctx, brk);
    IfStatic(k, s, ctx, base, inSwitch);
    CodeSplit(k.img.code, st.pc, ExprCode(s.c, ctx), ArmsCode(0x51, first, s.els, ctxE, Shift(brk, n)));
    ArmsLayout(k.img.code, st.pc + n, 0x51, first, s.els, ctxE, Shift(brk, n));
    SimExpr(k, ctx, s.c, loc, w, fuel, st);
    Tested(k, st, n, Bool(false), w1, TestDistance(first, s.els));
    u := Became(k, st, st.pc + n + 3 + TestDistance(first, s.els), st.stack, w1);
    brkE := Shift(Shift(brk, n), |first| + 6);
    var atE := Ahead(at, SecondArm(n, |first|));
    Unmoved(k, ctx, loc, w, st, b, u.pc, w1);
    SettledFor(k, ctx, ctxE, loc, w1, u, b);
    BoundaryMoved(k, entry, ctx, at, loc, w, st, ctxE, SecondArm(n, |first|), w1);
    BlockStands(k, entry, s.els.value, ctxE, |ctxE.locals|, base, inSwitch, brkE, atE, loc, w1, fuel, u, b);
  }

  // ----- if let -----

  lemma {:induction false} VisitIfLet(k: Linked, entry: nat, s: Stmt, ctx: Ctx, base: Option<nat>, inSwitch: bool, brk: Option<int>,
                                      at: Spot, loc: Locals, w: World, fuel: nat, st: M.State, b: nat, p: Boundary)
    requires Ready(k) && Standing(k, entry, s, ctx, base, inSwitch, brk, at, loc, w, fuel, st, b) && s.IfLet?
    requires IfLetVisits(k.fs, k.ctxs, s, ctx, at, loc, w, fuel, p)
    ensures Passes(k, entry, st, p)
    decreases fuel, s, 2
  {
    hide M.Run, Reaches, Ready, Passes, StmtVisits, ExprVisits, StmtCode, BlockCode, ExprCode, After, AfterBlock, CodeAt, CallsSimulated,
         Slots, Settled, AtBoundary, Static, Eval, Standing, Shift, BindIfLet, BindingCode, Declared;
    if ExprVisits(k.fs, k.ctxs, s.e, at.depth, loc, w, fuel, p) {
      OptionalStands(k, entry, s, ctx, base, inSwitch, brk, at, loc, w, fuel, st, b);
      VisitExpr(k, entry, ctx, s.e, loc, w, fuel, st, p);
    } else {
      var r := Eval(k.fs, s.e, loc, w, fuel);
      var n, store, inner := |ExprCode(s.e, ctx)|, |BindingCode(s.x, ctx)|, BindIfLet(s.x, ctx);
      if Missing(r.v) {
        var u, brkE := OtherArmStands(k, entry, s, ctx, base, inSwitch, brk, at, loc, w, fuel, st, b, r.v, r.w);
        VisitStmt(k, entry, s.els.value, AfterBlock(s.thn, inner).(locals := ctx.locals), base, inSwitch, brkE,
                  Ahead(at, SecondArm(n, store + |BlockCode(s.thn, inner, |ctx.locals|, None)|)), loc, r.w, fuel, u, b, p);
        PassLater(k, entry, st, u, p);
      } else {
        var d := Declared(ctx.inFn, s.x, r.v, loc, r.w);
        var u := BoundArmStands(k, entry, s, ctx, base, inSwitch, brk, at, loc, w, fuel, st, b, r.v, r.w);
        VisitStmt(k, entry, s.thn, inner, base, inSwitch, Shift(brk, n + 3 + store), Ahead(at, n + 3 + store), d.loc, d.w, fuel, u, b, p);
        PassLater(k, entry, st, u, p);
      }
    }
  }

  lemma {:induction false} OptionalStands(k: Linked, entry: nat, s: Stmt, ctx: Ctx, base: Option<nat>, inSwitch: bool, brk: Option<int>,
                                          at: Spot, loc: Locals, w: World, fuel: nat, st: M.State, b: nat)
    requires Standing(k, entry, s, ctx, base, inSwitch, brk, at, loc, w, fuel, st, b) && s.IfLet?
    ensures Evaluating(k, ctx, s.e, loc, w, fuel, st) && at.depth == |st.frames|
  {
    hide StmtCode, ExprCode, ExprOk, BlockCode, ArmsCode, AfterBlock, CodeAt, CallsSimulated, Agrees, Slots, FrameOf, Placed, InCtx,
         Static, Keys, Tidy, BindIfLet, BindingCode, CanBindIfLet;
    IfLetUnfold(s, ctx, brk);
    IfLetStatic(k, s, ctx, base, inSwitch);
    StaticFacts(k, s, ctx, base, inSwitch);
    var n, inner, store := |ExprCode(s.e, ctx)|, BindIfLet(s.x, ctx), BindingCode(s.x, ctx);
    var first := store + BlockCode(s.thn, inner, |ctx.locals|, Shift(brk, n + 3 + |store|));
    CodeSplit(k.img.code, st.pc, ExprCode(s.e, ctx),
              ArmsCode(0x73, first, s.els, AfterBlock(s.thn, inner).(locals := ctx.locals), Shift(brk, n)));
  }

  /** The test of an `if let` whose value is `v`. */
  lemma {:induction false} OptionalTested(k: Linked, st: M.State, n: nat, v: Immediate, w1: World, d: nat)
    requires Reaches(k.img, st, Past(k, st, n, [Imm(v)], w1)) && CodeAt(k.img.code, st.pc + n, JumpCode(0x73, d))
    requires st.pc + n + 3 + d <= |k.img.code| <= 0xFFFF
    ensures Reaches(k.img, st, if Missing(v) then Became(k, st, st.pc + n + 3 + d, st.stack, w1)
                               else Became(k, st, st.pc + n + 3, st.stack + [Imm(v)], w1))
  {
    hide M.Run, M.Step, Reaches, Halts, CodeAt, Slots;
    var t := Past(k, st, n, [Imm(v)], w1);
    StepNilBranch(k.img, t, true, d, v);
    assert M.Dropped(t, 1) == st.stack;
    ReachThen(k.img, st, t, AfterNilTest(t, d, v, true));
  }

  /** The arm of an `if let` with its name bound. */
  lemma {:induction false} BoundArmStands(k: Linked, entry: nat, s: Stmt, ctx: Ctx, base: Option<nat>, inSwitch: bool, brk: Option<int>,
                                          at: Spot, loc: Locals, w: World, fuel: nat, st: M.State, b: nat, v: Immediate, w1: World)
    returns (t: M.State)
    requires Standing(k, entry, s, ctx, base, inSwitch, brk, at, loc, w, fuel, st, b) && s.IfLet?
    requires Eval(k.fs, s.e, loc, w, fuel) == Val(v, w1) && !Missing(v)
    ensures Reaches(k.img, st, t)
    ensures var n := |ExprCode(s.e, ctx)| + 3 + |BindingCode(s.x, ctx)|;
            var d := Declared(ctx.inFn, s.x, v, loc, w1);
            d.Normal? && Standing(k, entry, s.thn, BindIfLet(s.x, ctx), base, inSwitch, Shift(brk, n), Ahead(at, n), d.loc, d.w, fuel, t, b)
  {
    hide M.Run, Reaches, StmtCode, ExprCode, ExprOk, BlockCode, ArmsCode, AfterBlock, CodeAt, CallsSimulated, Agrees, Slots, FrameOf,
         AtBoundary, Placed, InCtx, Static, Keys, Tidy, Eval, Settled, BindIfLet, BindingCode, CanBindIfLet, SameUnder, Declared;
    var n, inner, store := |ExprCode(s.e, ctx)|, BindIfLet(s.x, ctx), BindingCode(s.x, ctx);
    var m := n + 3 + |store|;
    var block := BlockCode(s.thn, inner, |ctx.locals|, Shift(brk, m));
    var ctxE := AfterBlock(s.thn, inner).(locals := ctx.locals);
    OptionalStands(k, entry, s, ctx, base, inSwitch, brk, at, loc, w, fuel, st, b);
    IfLetUnfold(s, ctx, brk);
    IfLetStatic(k, s, ctx, base, inSwitch);
    CodeSplit(k.img.code, st.pc, ExprCode(s.e, ctx), ArmsCode(0x73, store + block, s.els, ctxE, Shift(brk, n)));
    ArmsLayout(k.img.code, st.pc + n, 0x73, store + block, s.els, ctxE, Shift(brk, n));
    CodeSplit(k.img.code, st.pc + n + 3, store, block);
    SimExpr(k, ctx, s.e, loc, w, fuel, st);
    OptionalTested(k, st, n, v, w1, TestDistance(store + block, s.els));
    var u := Became(k, st, st.pc + n + 3, st.stack + [Imm(v)], w1);
    var loc1, w2, z := Bound(k, ctx, s.x, v, loc, w, w1, st, b, u);
    t := z;
    BindingBoundary(k, entry, ctx, s.x, at, loc, w, st, b, z, loc1, w2, m);
    BlockStands(k, entry, s.thn, inner, |ctx.locals|, base, inSwitch, Shift(brk, m), Ahead(at, m), loc1, w2, fuel, z, b);
  }

  lemma {:induction false} BindingBoundary(k: Linked, entry: nat, ctx: Ctx, x: Name, at: Spot, loc: Locals, w: World, st: M.State, b: nat,
                                           t: M.State, loc1: Locals, w2: World, n: nat)
    requires AtBoundary(k, entry, Boundary(at, ctx, loc, w), st) && Settled(k, ctx, loc, w, st, b) && CanBindIfLet(x, ctx)
    requires t == Became(k, st, st.pc + n, t.stack, w2) && Settled(k, BindIfLet(x, ctx), loc1, w2, t, b)
    requires SameUnder(t.stack, st.stack, b, BindIfLet(x, ctx).locals)
    ensures AtBoundary(k, entry, Boundary(Ahead(at, n), BindIfLet(x, ctx), loc1, w2), t)
  {
    hide Slots, Refresh, Keys, Tidy, Agrees, FrameOf, SameUnder, AtBoundary, Settled;
    var inner := BindIfLet(x, ctx);
    RefreshSettled(k, inner, loc1, w2, t, b);
    RefreshSame(t.stack, st.stack, b, inner.locals, loc1);
    assert !ctx.inFn ==> inner.locals == [] by { TopLevelEmpty(k, ctx, loc, w, st, b); }
    assert st.pc == Base(k.img, entry, at.unit) + at.off by { BoundaryPc(k, entry, Boundary(at, ctx, loc, w), st); }
    BoundaryKept(k, entry, ctx, at, loc, w, st, b, inner, Ahead(at, n), loc1, w2, st.pc + n);
  }

  lemma {:induction false} BoundaryPc(k: Linked, entry: nat, p: Boundary, st: M.State)
    requires AtBoundary(k, entry, p, st)
    ensures st.pc == Base(k.img, entry, p.at.unit) + p.at.off && |st.frames| == p.at.depth
  {
    hide Slots, FrameOf;
  }

  /** The second arm of an `if let` whose value is nil. */
  lemma {:induction false} OtherArmStands(k: Linked, entry: nat, s: Stmt, ctx: Ctx, base: Option<nat>, inSwitch: bool, brk: Option<int>,
                                          at: Spot, loc: Locals, w: World, fuel: nat, st: M.State, b: nat, v: Immediate, w1: World)
    returns (u: M.State, brkE: Option<int>)
    requires Standing(k, entry, s, ctx, base, inSwitch, brk, at, loc, w, fuel, st, b) && s.IfLet? && s.els.Some?
    requires Eval(k.fs, s.e, loc, w, fuel) == Val(v, w1) && Missing(v)
    ensures Reaches(k.img, st, u)
    ensures var inner := BindIfLet(s.x, ctx);
            var first := |BindingCode(s.x, ctx)| + |BlockCode(s.thn, inner, |ctx.locals|, None)|;
            Standing(k, entry, s.els.value, AfterBlock(s.thn, inner).(locals := ctx.locals), base, inSwitch, brkE,
                     Ahead(at, SecondArm(|ExprCode(s.e, ctx)|, first)), loc, w1, fuel, u, b)
  {
    hide M.Run, Reaches, StmtCode, ExprCode, ExprOk, BlockCode, ArmsCode, AfterBlock, CodeAt, CallsSimulated, Agrees, Slots, FrameOf,
         AtBoundary, Placed, InCtx, Static, Keys, Tidy, Eval, Settled, BindIfLet, BindingCode, CanBindIfLet;
    var n, inner, store := |ExprCode(s.e, ctx)|, BindIfLet(s.x, ctx), BindingCode(s.x, ctx);
    var brk1 := Shift(brk, n + 3 + |store|);
    var first, ctxE := store + BlockCode(s.thn, inner, |ctx.locals|, brk1), AfterBlock(s.thn, inner).(locals := ctx.locals);
    BlockSize(s.thn, inner, |ctx.locals|, brk1);
    OptionalStands(k, entry, s, ctx, base, inSwitch, brk, at, loc, w, fuel, st, b);
    IfLetUnfold(s, ctx, brk);
    IfLetStatic(k, s, ctx, base, inSwitch);
    IfLetElseStatic(k, s, ctx, base, inSwitch);
    CodeSplit(k.img.code, st.pc, ExprCode(s.e, ctx), ArmsCode(0x73, first, s.els, ctxE, Shift(brk, n)));
    ArmsLayout(k.img.code, st.pc + n, 0x73, first, s.els, ctxE, Shift(brk, n));
    SimExpr(k, ctx, s.e, loc, w, fuel, st);
    OptionalTested(k, st, n, v, w1, TestDistance(first, s.els));
    u := Became(k, st, st.pc + n + 3 + TestDistance(first, s.els), st.stack, w1);
    brkE := Shift(Shift(brk, n), |first| + 6);
    Unmoved(k, ctx, loc, w, st, b, u.pc, w1);
    SettledFor(k, ctx, ctxE, loc, w1, u, b);
    BoundaryMoved(k, entry, ctx, at, loc, w, st, ctxE, SecondArm(n, |first|), w1);
    BlockStands(k, entry, s.els.value, ctxE, |ctxE.locals|, base, inSwitch, brkE, Ahead(at, SecondArm(n, |first|)), loc, w1, fuel, u, b);
  }

  // ----- while -----

  lemma {:induction false} VisitWhile(k: Linked, entry: nat, s: Stmt, ctx: Ctx, base: Option<nat>, inSwitch: bool, brk: Option<int>,
                                      at: Spot, loc: Locals, w: World, fuel: nat, st: M.State, b: nat, p: Boundary)
    requires Ready(k) && Standing(k, entry, s, ctx, base, inSwitch, brk, at, loc, w, fuel, st, b) && s.While?
    requires WhileVisits(k.fs, k.ctxs, s, ctx, at, loc, w, fuel, p)
    ensures Passes(k, entry, st, p)
    decreases fuel, s, 2
  {
    hide M.Run, Reaches, Ready, Passes, StmtVisits, ExprVisits, StmtCode, BlockCode, ExprCode, After, AfterBlock, CodeAt, CallsSimulated,
         Slots, Settled, AtBoundary, Static, Eval, Exec, Standing;
    if ExprVisits(k.fs, k.ctxs, s.c, at.depth, loc, w, fuel, p) {
      GuardStands(k, entry, s, ctx, base, inSwitch, brk, at, loc, w, fuel, st, b);
      VisitExpr(k, entry, ctx, s.c, loc, w, fuel, st, p);
    } else {
      var r := Eval(k.fs, s.c, loc, w, fuel);
      var n := |ExprCode(s.c, ctx)| + 3;
      var u, brk1 := TurnStands(k, entry, s, ctx, base, inSwitch, brk, at, loc, w, fuel, st, b, r.w);
      if StmtVisits(k.fs, k.ctxs, s.body, ctx, Ahead(at, n), loc, r.w, fuel - 1, p) {
        VisitStmt(k, entry, s.body, ctx, Some(|ctx.locals|), inSwitch, brk1, Ahead(at, n), loc, r.w, fuel - 1, u, b, p);
        PassLater(k, entry, st, u, p);
      } else {
        var o := Exec(k.fs, ctx.inFn, s.body, loc, r.w, fuel - 1);
        var z := AgainStands(k, entry, s, ctx, base, inSwitch, brk, at, loc, w, fuel, st, b, r.w, o.loc, o.w);
        VisitStmt(k, entry, s, ctx, base, inSwitch, brk, at, Narrow(o.loc, loc), o.w, fuel - 1, z, b, p);
        PassLater(k, entry, st, z, p);
      }
    }
  }

  lemma {:induction false} GuardStands(k: Linked, entry: nat, s: Stmt, ctx: Ctx, base: Option<nat>, inSwitch: bool, brk: Option<int>,
                                       at: Spot, loc: Locals, w: World, fuel: nat, st: M.State, b: nat)
    requires Standing(k, entry, s, ctx, base, inSwitch, brk, at, loc, w, fuel, st, b) && s.While?
    ensures Evaluating(k, ctx, s.c, loc, w, fuel, st) && at.depth == |st.frames|
  {
    hide StmtCode, ExprCode, ExprOk, BlockCode, CodeAt, CallsSimulated, Agrees, Slots, FrameOf, Placed, InCtx, Static, Keys, Tidy;
    WhileStatic(k, s, ctx, base, inSwitch);
    WhileLayout(k.img.code, st.pc, s, ctx, brk, |BlockCode(s.body, ctx, |ctx.locals|, None)|);
    StaticFacts(k, s, ctx, base, inSwitch);
  }

  /** The body of a `while` loop whose condition holds. */
  lemma {:induction false} TurnStands(k: Linked, entry: nat, s: Stmt, ctx: Ctx, base: Option<nat>, inSwitch: bool, brk: Option<int>,
                                      at: Spot, loc: Locals, w: World, fuel: nat, st: M.State, b: nat, w1: World)
    returns (u: M.State, brk1: Option<int>)
    requires Standing(k, entry, s, ctx, base, inSwitch, brk, at, loc, w, fuel, st, b) && s.While? && fuel > 0
    requires Eval(k.fs, s.c, loc, w, fuel) == Val(Bool(true), w1)
    ensures var n := |ExprCode(s.c, ctx)| + 3;
            var m := |BlockCode(s.body, ctx, |ctx.locals|, None)|;
            && u == Became(k, st, st.pc + n, st.stack, w1) && Reaches(k.img, st, u) && brk1 == Some(m + 3)
            && PoisedBlock(k, s.body, ctx, |ctx.locals|, Some(|ctx.locals|), inSwitch, brk1, loc, w1, fuel - 1, u, b)
            && Standing(k, entry, s.body, ctx, Some(|ctx.locals|), inSwitch, brk1, Ahead(at, n), loc, w1, fuel - 1, u, b)
            && m == |BlockCode(s.body, ctx, |ctx.locals|, brk1)|
  {
    hide M.Run, Reaches, StmtCode, ExprCode, ExprOk, BlockCode, CodeAt, CallsSimulated, Agrees, Slots, FrameOf, AtBoundary, Placed, InCtx,
         Static, Keys, Tidy, Eval, Settled;
    var n, m := |ExprCode(s.c, ctx)|, |BlockCode(s.body, ctx, |ctx.locals|, None)|;
    GuardStands(k, entry, s, ctx, base, inSwitch, brk, at, loc, w, fuel, st, b);
    WhileStatic(k, s, ctx, base, inSwitch);
    WhileLayout(k.img.code, st.pc, s, ctx, brk, m);
    FewerCalls(k, fuel, fuel - 1);
    SimExpr(k, ctx, s.c, loc, w, fuel, st);
    Tested(k, st, n, Bool(true), w1, m + 3);
    u, brk1 := Became(k, st, st.pc + n + 3, st.stack, w1), Some(m + 3);
    Unmoved(k, ctx, loc, w, st, b, u.pc, w1);
    BoundaryMoved(k, entry, ctx, at, loc, w, st, ctx, n + 3, w1);
    BlockStands(k, entry, s.body, ctx, |ctx.locals|, Some(|ctx.locals|), inSwitch, brk1, Ahead(at, n + 3), loc, w1, fuel - 1, u, b);
  }

  /** Back at the condition after a turn that ended normally. */
  lemma {:induction false} AgainStands(k: Linked, entry: nat, s: Stmt, ctx: Ctx, base: Option<nat>, inSwitch: bool, brk: Option<int>,
                                       at: Spot, loc: Locals, w: World, fuel: nat, st: M.State, b: nat, w1: World, inner: Locals, w2: World)
    returns (z: M.State)
    requires Standing(k, entry, s, ctx, base, inSwitch, brk, at, loc, w, fuel, st, b) && s.While? && fuel > 0
    requires Eval(k.fs, s.c, loc, w, fuel) == Val(Bool(true), w1)
    requires Exec(k.fs, ctx.inFn, s.body, loc, w1, fuel - 1) == Normal(inner, w2)
    ensures Reaches(k.img, st, z)
    ensures Standing(k, entry, s, ctx, base, inSwitch, brk, at, Narrow(inner, loc), w2, fuel - 1, z, b)
  {
    hide M.Run, Reaches, StmtCode, ExprCode, BlockCode, CodeAt, CallsSimulated, Slots, AtBoundary, Static, Eval, Exec, Settled,
         Refresh, PoisedBlock, Keys;
    var u, brk1 := TurnStands(k, entry, s, ctx, base, inSwitch, brk, at, loc, w, fuel, st, b, w1);
    var n, loc2 := |BlockCode(s.body, ctx, |ctx.locals|, None)|, Narrow(inner, loc);
    Unmoved(k, ctx, loc, w, st, b, u.pc, w1);
    SimBlock(k, s.body, ctx, |ctx.locals|, loc, Some(|ctx.locals|), inSwitch, brk1, loc, w1, fuel - 1, u, b);
    EndedTables(k, u, b, ctx.locals, u.pc + n, Some(u.pc + n + 3), ctx.locals, loc2, w2, fuel - 1);
    z := TurnAgain(k, s, ctx, base, inSwitch, brk, loc, w, fuel, st, b, u, loc2, w1, w2, n);
    ReachThen(k.img, st, u, z);
    SameBoundary(k, entry, ctx, at, loc, w, st, b, loc2, w2);
  }

  lemma {:induction false} EndedTables(k: Linked, u: M.State, b: nat, ts: seq<Sym>, end: int, brk: Option<int>, ts0: seq<Sym>,
                                       loc: Locals, w: World, fuel: nat)
    requires Ends(k, u, b, ts, end, brk, ts0, Normal(loc, w), fuel)
    ensures Keys(ts, loc)
  {
    hide Reaches, Slots, Refresh;
  }

  /** A boundary with other values in the same slots. */
  lemma {:induction false} SameBoundary(k: Linked, entry: nat, ctx: Ctx, at: Spot, loc: Locals, w: World, st: M.State, b: nat,
                                        loc2: Locals, w2: World)
    requires AtBoundary(k, entry, Boundary(at, ctx, loc, w), st) && Settled(k, ctx, loc, w, st, b) && Keys(ctx.locals, loc2)
    ensures b <= |st.stack|
    ensures AtBoundary(k, entry, Boundary(at, ctx, loc2, w2), Became(k, st, st.pc, Refresh(st.stack, b, ctx.locals, loc2), w2))
  {
    hide Slots, Refresh, Keys, Tidy, Agrees, FrameOf, AtBoundary, Settled;
    assert !ctx.inFn ==> ctx.locals == [] by { TopLevelEmpty(k, ctx, loc, w, st, b); }
    BoundaryPc(k, entry, Boundary(at, ctx, loc, w), st);
    BoundaryKept(k, entry, ctx, at, loc, w, st, b, ctx, at, loc2, w2, st.pc);
  }

  // ----- for -----

  lemma {:induction false} VisitFor(k: Linked, entry: nat, s: Stmt, ctx: Ctx, base: Option<nat>, inSwitch: bool, brk: Option<int>,
                                    at: Spot, loc: Locals, w: World, fuel: nat, st: M.State, b: nat, p: Boundary)
    requires Ready(k) && Standing(k, entry, s, ctx, base, inSwitch, brk, at, loc, w, fuel, st, b) && s.ForIn?
    requires ForVisits(k.fs, k.ctxs, s, ctx, at, loc, w, fuel, p)
    ensures Passes(k, entry, st, p)
    decreases fuel, s, 2
  {
    hide M.Run, Reaches, Ready, Passes, StmtVisits, ExprVisits, TurnsVisit, StmtCode, BlockCode, ExprCode, After, CodeAt, CallsSimulated,
         Slots, Settled, AtBoundary, Static, Eval, Standing, Evaluating, LoopPoised, BindLoopVar, ReserveBound;
    var outer := BindLoopVar(s.x, ctx);
    var t := RangeStands(k, entry, s, ctx, base, inSwitch, brk, at, loc, w, fuel, st, b);
    if ExprVisits(k.fs, k.ctxs, s.lo, at.depth, loc, w, fuel, p) {
      VisitExpr(k, entry, outer, s.lo, loc, w, fuel, st, p);
    } else {
      var ra := Eval(k.fs, s.lo, loc, w, fuel);
      if ExprVisits(k.fs, k.ctxs, s.hi, at.depth, loc, ra.w, fuel, p) {
        VisitExpr(k, entry, outer, s.hi, loc, ra.w, fuel, t, p);
        PassLater(k, entry, st, t, p);
      } else {
        var rb := Eval(k.fs, s.hi, loc, ra.w, fuel);
        var g, n, z, b1 := HeadStands(k, entry, s, ctx, base, inSwitch, brk, at, loc, w, fuel, st, b, t);
        var head := |ExprCode(s.lo, outer)| + |ExprCode(s.hi, outer)| + 3;
        VisitTurns(k, entry, s.x, g, rb.v, s.closed, s.body, ReserveBound(outer), inSwitch, n,
                   Ahead(at, head).(bounds := at.bounds + [rb.v]), loc, SetGlobal(rb.w, s.x, ra.v), fuel, z, b1, p);
        PassLater(k, entry, st, z, p);
      }
    }
  }

  /** The two ends of the range of a `for` loop. */
  lemma {:induction false} RangeStands(k: Linked, entry: nat, s: Stmt, ctx: Ctx, base: Option<nat>, inSwitch: bool, brk: Option<int>,
                                       at: Spot, loc: Locals, w: World, fuel: nat, st: M.State, b: nat)
    returns (t: M.State)
    requires Standing(k, entry, s, ctx, base, inSwitch, brk, at, loc, w, fuel, st, b) && s.ForIn?
    ensures var outer, r := BindLoopVar(s.x, ctx), Eval(k.fs, s.lo, loc, w, fuel);
            && at.depth == |st.frames| && Evaluating(k, outer, s.lo, loc, w, fuel, st)
            && (r.Val? ==> t == Past(k, st, |ExprCode(s.lo, outer)|, [Imm(r.v)], r.w)
                           && Reaches(k.img, st, t) && Evaluating(k, outer, s.hi, loc, r.w, fuel, t))
  {
    hide M.Run, Reaches, StmtCode, ExprCode, ExprOk, BlockCode, CodeAt, CallsSimulated, Agrees, Slots, FrameOf, AtBoundary, Placed, InCtx,
         Static, Keys, Tidy, Eval, BindLoopVar, ReserveBound, LocalsAgree;
    var outer := BindLoopVar(s.x, ctx);
    var n := |BlockCode(s.body, ReserveBound(outer), |ReserveBound(outer).locals|, None)|;
    BoundaryPc(k, entry, Boundary(at, ctx, loc, w), st);
    StaticFacts(k, s, ctx, base, inSwitch);
    ForStatic(k, s, ctx, base, inSwitch);
    ForLayout(k.img.code, st.pc, s, ctx, brk, n, st.pc + |ExprCode(s.lo, outer)| + |ExprCode(s.hi, outer)| + 3);
    SettledFor(k, ctx, outer, loc, w, st, b);
    var r := Eval(k.fs, s.lo, loc, w, fuel);
    t := st;
    if r.Val? {
      SimExpr(k, outer, s.lo, loc, w, fuel, st);
      t := Past(k, st, |ExprCode(s.lo, outer)|, [Imm(r.v)], r.w);
      AgreesPast(k, outer, loc, w, st, |ExprCode(s.lo, outer)|, [Imm(r.v)], r.w);
    }
  }

  /** The head of a `for` loop, with its bound in a slot of its own. */
  lemma {:induction false} HeadStands(k: Linked, entry: nat, s: Stmt, ctx: Ctx, base: Option<nat>, inSwitch: bool, brk: Option<int>,
                                      at: Spot, loc: Locals, w: World, fuel: nat, st: M.State, b: nat, t: M.State)
    returns (g: Byte, n: nat, z: M.State, b1: nat)
    requires Standing(k, entry, s, ctx, base, inSwitch, brk, at, loc, w, fuel, st, b) && s.ForIn?
    requires Eval(k.fs, s.lo, loc, w, fuel).Val? && Eval(k.fs, s.hi, loc, Eval(k.fs, s.lo, loc, w, fuel).w, fuel).Val?
    requires var outer, ra := BindLoopVar(s.x, ctx), Eval(k.fs, s.lo, loc, w, fuel);
             && t == Past(k, st, |ExprCode(s.lo, outer)|, [Imm(ra.v)], ra.w) && Reaches(k.img, st, t)
             && Evaluating(k, outer, s.hi, loc, ra.w, fuel, t)
    ensures Reaches(k.img, st, z)
    ensures var outer, ra := BindLoopVar(s.x, ctx), Eval(k.fs, s.lo, loc, w, fuel);
            var rb := Eval(k.fs, s.hi, loc, ra.w, fuel);
            var w3, head := SetGlobal(rb.w, s.x, ra.v), |ExprCode(s.lo, outer)| + |ExprCode(s.hi, outer)| + 3;
            && LoopPoised(k, s.x, g, rb.v, s.closed, s.body, ReserveBound(outer), inSwitch, n, loc, w3, fuel, z, b1)
            && AtBoundary(k, entry, Boundary(Ahead(at, head).(bounds := at.bounds + [rb.v]), ReserveBound(outer), loc, w3), z)
  {
    hide M.Run, Reaches, StmtCode, ExprCode, ExprOk, BlockCode, CodeAt, CallsSimulated, Agrees, Slots, FrameOf, AtBoundary, Placed, InCtx,
         Static, Keys, Tidy, Eval, BindLoopVar, ReserveBound, LocalsAgree, Settled, SlotOf;
    var outer, ra := BindLoopVar(s.x, ctx), Eval(k.fs, s.lo, loc, w, fuel);
    var rb := Eval(k.fs, s.hi, loc, ra.w, fuel);
    var inner := ReserveBound(outer);
    n := |BlockCode(s.body, inner, |inner.locals|, None)|;
    var h := st.pc + |ExprCode(s.lo, outer)| + |ExprCode(s.hi, outer)| + 3;
    g := SlotOf(s.x, outer);
    StaticFacts(k, s, ctx, base, inSwitch);
    ForStatic(k, s, ctx, base, inSwitch);
    ForLayout(k.img.code, st.pc, s, ctx, brk, n, h);
    SimExpr(k, outer, s.hi, loc, ra.w, fuel, t);
    var u := Past(k, t, |ExprCode(s.hi, outer)|, [Imm(rb.v)], rb.w);
    ReachThen(k.img, st, t, u);
    HeadReached(k, st, u, ra.v, rb.v, s.x, g, h, rb.w);
    var w3 := SetGlobal(rb.w, s.x, ra.v);
    z := Became(k, st, h, st.stack + [Imm(rb.v)], w3);
    b1 := if ctx.inFn then b else b + 1;
    BoundSettled(k, ctx, s.x, loc, w, st, b, rb.v, h, w3);
    BoundBoundary(k, entry, ctx, s.x, at, loc, w, st, b, rb.v, w3, h);
  }

  /** The frame with one more bound on top of it. */
  lemma {:induction false} FramePushed(ctx: Ctx, inner: Ctx, loc: Locals, bounds: seq<Immediate>, v: Immediate)
    requires inner.inFn == ctx.inFn && (ctx.inFn ==> |bounds| == Unnamed(ctx.locals, |ctx.locals|))
    requires inner.locals == if ctx.inFn then ctx.locals + [ANONYMOUS] else []
    ensures FrameOf(inner, loc, bounds + [v]) == FrameOf(ctx, loc, bounds) + [Imm(v)]
    ensures ctx.inFn ==> |bounds| + 1 == Unnamed(inner.locals, |inner.locals|)
  {
    hide Unnamed;
    if ctx.inFn {
      var ts := inner.locals;
      UnnamedPrefix(ctx.locals, ts, |ctx.locals|);
      UnnamedLast(ts);
      forall i | 0 <= i < |ts|
        ensures FrameOf(inner, loc, bounds + [v])[i] == (FrameOf(ctx, loc, bounds) + [Imm(v)])[i]
      {
        if i < |ctx.locals| {
          UnnamedPrefix(ctx.locals, ts, i);
          UnnamedMonotone(ctx.locals, i);
        }
      }
    }
  }

  lemma {:induction false} UnnamedLast(ts: seq<Sym>)
    requires |ts| > 0 && ts[|ts| - 1].name == ""
    ensures Unnamed(ts, |ts|) == Unnamed(ts, |ts| - 1) + 1
  {
  }

  /** An unnamed slot has fewer unnamed slots before it than there are in all. */
  lemma {:induction false} UnnamedMonotone(ts: seq<Sym>, i: nat)
    requires i < |ts|
    ensures Unnamed(ts, i) <= Unnamed(ts, |ts|) && (ts[i].name == "" ==> Unnamed(ts, i) < Unnamed(ts, |ts|))
    decreases |ts|
  {
    var rest := ts[..|ts| - 1];
    UnnamedPrefix(rest, ts, |rest|);
    if i < |rest| {
      UnnamedPrefix(rest, ts, i);
      UnnamedMonotone(rest, i);
    }
  }

  lemma {:induction false} BoundBoundary(k: Linked, entry: nat, ctx: Ctx, x: Name, at: Spot, loc: Locals, w: World, st: M.State, b: nat,
                                         v: Immediate, w3: World, h: nat)
    requires AtBoundary(k, entry, Boundary(at, ctx, loc, w), st) && Settled(k, ctx, loc, w, st, b) && h >= st.pc
    ensures AtBoundary(k, entry, Boundary(Ahead(at, h - st.pc).(bounds := at.bounds + [v]), ReserveBound(BindLoopVar(x, ctx)), loc, w3),
                       Became(k, st, h, st.stack + [Imm(v)], w3))
  {
    hide Slots, Tidy, Agrees, FrameOf, BindLoopVar, Unnamed, Keys;
    var inner := ReserveBound(BindLoopVar(x, ctx));
    TopLevelEmpty(k, ctx, loc, w, st, b);
    FramePushed(ctx, inner, loc, at.bounds, v);
    assert (st.stack + [Imm(v)])[st.fp..] == st.stack[st.fp..] + [Imm(v)];
    KeysUnder(ctx.locals, inner.locals, loc);
  }

  lemma {:induction false} KeysUnder(ts: seq<Sym>, us: seq<Sym>, loc: Locals)
    requires Keys(ts, loc) && (us == ts + [ANONYMOUS] || us == ts)
    ensures Keys(us, loc)
  {
    hide Find;
    forall x
      ensures x in loc <==> Find(us, x).Some?
    {
      FindAdd(ts, ANONYMOUS, x);
    }
  }

  /** What the evaluator passes in the turns of a `for` loop, the machine passes from the head of the loop on. */
  lemma {:induction false} VisitTurns(k: Linked, entry: nat, x: Name, g: Byte, v: Immediate, closed: bool, body: Stmt, ctx: Ctx,
                                      inSwitch: bool, n: nat, at: Spot, loc: Locals, w: World, fuel: nat, z: M.State, b: nat, p: Boundary)
    requires Ready(k) && LoopPoised(k, x, g, v, closed, body, ctx, inSwitch, n, loc, w, fuel, z, b)
    requires AtBoundary(k, entry, Boundary(at, ctx, loc, w), z)
    requires TurnsVisit(k.fs, k.ctxs, x, v, closed, body, ctx, at, loc, w, fuel, p)
    ensures Passes(k, entry, z, p)
    decreases fuel, body, 5
  {
    hide M.Run, Reaches, Ready, Passes, StmtVisits, StmtCode, BlockCode, After, CodeAt, CallsSimulated, Slots, Settled, AtBoundary, Static,
         Exec, Standing, LoopPoised, Refresh;
    var u := LoopTurnStands(k, entry, x, g, v, closed, body, ctx, inSwitch, n, at, loc, w, fuel, z, b);
    if StmtVisits(k.fs, k.ctxs, body, ctx, Ahead(at, 7), loc, w, fuel - 1, p) {
      VisitStmt(k, entry, body, ctx, Some(|ctx.locals|), inSwitch, Some(n + 8), Ahead(at, 7), loc, w, fuel - 1, u, b, p);
      PassLater(k, entry, z, u, p);
    } else {
      var o := Exec(k.fs, ctx.inFn, body, loc, w, fuel - 1);
      var w3 := SetGlobal(o.w, x, Int(Wrap16(o.w.globals[x].n + 1)));
      var z2 := NextTurnStands(k, entry, x, g, v, closed, body, ctx, inSwitch, n, at, loc, w, fuel, z, b, u, o.loc, o.w, w3);
      VisitTurns(k, entry, x, g, v, closed, body, ctx, inSwitch, n, at, Narrow(o.loc, loc), w3, fuel - 1, z2, b, p);
      PassLater(k, entry, z, z2, p);
    }
  }

  /** The body of a `for` loop whose variable is in range. */
  lemma {:induction false} LoopTurnStands(k: Linked, entry: nat, x: Name, g: Byte, v: Immediate, closed: bool, body: Stmt, ctx: Ctx,
                                          inSwitch: bool, n: nat, at: Spot, loc: Locals, w: World, fuel: nat, z: M.State, b: nat)
    returns (u: M.State)
    requires LoopPoised(k, x, g, v, closed, body, ctx, inSwitch, n, loc, w, fuel, z, b) && fuel > 0
    requires AtBoundary(k, entry, Boundary(at, ctx, loc, w), z)
    requires x in w.globals && w.globals[x].Int? && v.Int? && InRange(w.globals[x].n, v.n, closed)
    ensures u == z.(pc := z.pc + 7) && Reaches(k.img, z, u)
    ensures PoisedBlock(k, body, ctx, |ctx.locals|, Some(|ctx.locals|), inSwitch, Some(n + 8), loc, w, fuel - 1, u, b)
    ensures Standing(k, entry, body, ctx, Some(|ctx.locals|), inSwitch, Some(n + 8), Ahead(at, 7), loc, w, fuel - 1, u, b)
  {
    hide M.Run, M.Step, Reaches, Halts, StmtCode, BlockCode, CodeAt, CallsSimulated, Slots, AtBoundary, Static, Exec, Refresh, Keys, Tidy,
         LocalsAgree, ForTest, ForNext, Agrees;
    StaticFacts(k, body, ctx, Some(|ctx.locals|), inSwitch);
    FewerCalls(k, fuel, fuel - 1);
    SimLoopTest(k, g, x, v, closed, n, w, z) by { WorldAgrees(k, ctx, loc, w, z, b); }
    var t := z.(pc := z.pc + 4, stack := z.stack + [Imm(Bool(true))]);
    StepJumpIf(k.img, t, false, n + 8, Bool(true));
    assert M.Dropped(t, 1) == z.stack;
    u := z.(pc := z.pc + 7);
    ReachThen(k.img, z, t, u);
    AgreesWorld(k, ctx, loc, w, z, b, u);
    Unmoved(k, ctx, loc, w, z, b, u.pc, w);
    BoundaryMoved(k, entry, ctx, at, loc, w, z, ctx, 7, w);
    BlockStands(k, entry, body, ctx, |ctx.locals|, Some(|ctx.locals|), inSwitch, Some(n + 8), Ahead(at, 7), loc, w, fuel - 1, u, b);
  }

  lemma {:induction false} WorldAgrees(k: Linked, ctx: Ctx, loc: Locals, w: World, z: M.State, b: nat)
    requires Settled(k, ctx, loc, w, z, b)
    ensures z.globals == Slots(k, w)
  {
    hide Slots;
  }

  /** The head of a `for` loop after a turn that ended normally. */
  lemma {:induction false} NextTurnStands(k: Linked, entry: nat, x: Name, g: Byte, v: Immediate, closed: bool, body: Stmt, ctx: Ctx,
                                          inSwitch: bool, n: nat, at: Spot, loc: Locals, w: World, fuel: nat, z: M.State, b: nat, u: M.State,
                                          inner: Locals, w2: World, w3: World)
    returns (z2: M.State)
    requires LoopPoised(k, x, g, v, closed, body, ctx, inSwitch, n, loc, w, fuel, z, b) && fuel > 0
    requires AtBoundary(k, entry, Boundary(at, ctx, loc, w), z) && u == z.(pc := z.pc + 7) && Reaches(k.img, z, u)
    requires PoisedBlock(k, body, ctx, |ctx.locals|, Some(|ctx.locals|), inSwitch, Some(n + 8), loc, w, fuel - 1, u, b)
    requires Exec(k.fs, ctx.inFn, body, loc, w, fuel - 1) == Normal(inner, w2) && x in w2.globals && w2.globals[x].Int?
    requires w3 == SetGlobal(w2, x, Int(Wrap16(w2.globals[x].n + 1)))
    ensures Reaches(k.img, z, z2)
    ensures LoopPoised(k, x, g, v, closed, body, ctx, inSwitch, n, Narrow(inner, loc), w3, fuel - 1, z2, b)
    ensures AtBoundary(k, entry, Boundary(at, ctx, Narrow(inner, loc), w3), z2)
  {
    hide M.Run, M.Step, Reaches, Halts, StmtCode, BlockCode, CodeAt, CallsSimulated, Slots, AtBoundary, Static, Exec, Refresh, Keys, Tidy,
         LocalsAgree, ForTest, ForNext, Agrees, PoisedBlock, Narrow;
    var loc2 := Narrow(inner, loc);
    StaticFacts(k, body, ctx, Some(|ctx.locals|), inSwitch);
    Unmoved(k, ctx, loc, w, z, b, z.pc, w);
    SimBlock(k, body, ctx, |ctx.locals|, loc, Some(|ctx.locals|), inSwitch, Some(n + 8), loc, w, fuel - 1, u, b);
    EndedTables(k, u, b, ctx.locals, u.pc + n, Some(u.pc + n + 8), ctx.locals, loc2, w2, fuel - 1);
    var y := Became(k, z, z.pc + 7 + n, Refresh(z.stack, b, ctx.locals, loc2), w2);
    ReachThen(k.img, z, u, y);
    SimLoopNext(k, g, x, n, w2, y);
    z2 := Became(k, z, z.pc, Refresh(z.stack, b, ctx.locals, loc2), w3);
    ReachThen(k.img, z, y, z2);
    LoopRepoised(k, x, g, v, closed, body, ctx, inSwitch, n, loc, w, fuel, z, b, loc2, w3);
    SameBoundary(k, entry, ctx, at, loc, w, z, b, loc2, w3);
  }

  // ----- switch -----

  /** The boundary below the subject on top of the stack of `t`. */
  ghost predicate UnderSubject(k: Linked, entry: nat, p: Boundary, t: M.State) {
    |t.stack| > 0 && AtBoundary(k, entry, p, t.(stack := M.Dropped(t, 1)))
  }

  lemma {:induction false} VisitSwitch(k: Linked, entry: nat, s: Stmt, ctx: Ctx, base: Option<nat>, inSwitch: bool, brk: Option<int>,
                                       at: Spot, loc: Locals, w: World, fuel: nat, st: M.State, b: nat, p: Boundary)
    requires Ready(k) && Standing(k, entry, s, ctx, base, inSwitch, brk, at, loc, w, fuel, st, b) && s.Switch?
    requires PartVisits(k.fs, k.ctxs, s, ctx, at, loc, w, fuel, p)
    ensures Passes(k, entry, st, p)
    decreases fuel, s, 2
  {
    hide M.Run, Reaches, Ready, Passes, ExprVisits, CasesVisit, StmtCode, ExprCode, ExprOk, CasesCode, CasesOk, CarefulCases, After,
         AfterCases, CodeAt, CallsSimulated, Slots, Settled, AtBoundary, Static, Eval, Placed, InCtx, Agrees, FrameOf, Keys;
    var e, brk1 := s.e, Shift(brk, |ExprCode(s.e, ctx)|);
    SwitchStatic(k, s, ctx, base, inSwitch);
    SwitchUnfold(s, ctx, brk);
    CodeSplit(k.img.code, st.pc, ExprCode(e, ctx), CasesCode(s.cases, ctx, brk1));
    SettledAgrees(k, ctx, loc, w, st, b);
    if ExprVisits(k.fs, k.ctxs, e, at.depth, loc, w, fuel, p) {
      BoundaryPc(k, entry, Boundary(at, ctx, loc, w), st);
      VisitExpr(k, entry, ctx, e, loc, w, fuel, st, p);
    } else {
      var r := Eval(k.fs, e, loc, w, fuel);
      SimExpr(k, ctx, e, loc, w, fuel, st);
      var t := Past(k, st, |ExprCode(e, ctx)|, [Imm(r.v)], r.w);
      assert M.Dropped(t, 1) == st.stack;
      Unmoved(k, ctx, loc, w, st, b, t.pc, r.w);
      BoundaryMoved(k, entry, ctx, at, loc, w, st, ctx, |ExprCode(e, ctx)|, r.w);
      VisitCases(k, entry, s.cases, ctx, base, brk1, r.v, Ahead(at, |ExprCode(e, ctx)|), loc, r.w, fuel, t, b, p);
      PassLater(k, entry, st, t, p);
    }
  }

  lemma {:induction false} SettledAgrees(k: Linked, ctx: Ctx, loc: Locals, w: World, st: M.State, b: nat)
    requires Settled(k, ctx, loc, w, st, b)
    ensures Agrees(k, ctx, loc, w, st)
  {
  }

  lemma {:induction false} VisitCases(k: Linked, entry: nat, cases: Cases, ctx: Ctx, base: Option<nat>, brk: Option<int>, v: Immediate,
                                      at: Spot, loc: Locals, w: World, fuel: nat, t: M.State, b: nat, p: Boundary)
    requires Ready(k) && CasesPoised(k, cases, ctx, base, brk, v, loc, w, fuel, t, b)
    requires UnderSubject(k, entry, Boundary(at, ctx, loc, w), t)
    requires CasesVisit(k.fs, k.ctxs, v, cases, ctx, at, loc, w, fuel, p)
    ensures Passes(k, entry, t, p)
    decreases fuel, cases, 1
  {
    hide M.Run, M.Step, Reaches, Ready, Passes, StmtVisits, TestsVisit, StmtCode, CodeAt, CallsSimulated, Slots, AtBoundary, Placed, InCtx,
         OverSubject, ClauseBody, CasesOk, CarefulCases, AfterCases, Static, Settled, Leaves, LastByteReturns, TestsCode, ClauseCode, AnyEqual,
         AfterBlock, UnderSubject;
    if cases.Default? {
      CodeSplit(k.img.code, t.pc, [0x10], ClauseBody(cases.body, ctx, Shift(brk, 1)));
      DefaultStatic(k, cases.body, ctx, base);
      var q := ClauseStands(k, entry, cases.body, ctx, base, brk, v, at, loc, w, fuel, t, b);
      VisitStmt(k, entry, cases.body, ctx, base, true, Shift(brk, 1), Ahead(at, 1), loc, w, fuel, q, b, p);
      PassLater(k, entry, t, q, p);
    } else {
      VisitCase(k, entry, cases, ctx, base, brk, v, at, loc, w, fuel, t, b, p);
    }
  }

  /** The body of a clause, once the subject has been dropped. */
  lemma {:induction false} ClauseStands(k: Linked, entry: nat, body: Stmt, ctx: Ctx, base: Option<nat>, brk: Option<int>, v: Immediate,
                                        at: Spot, loc: Locals, w: World, fuel: nat, t: M.State, b: nat)
    returns (q: M.State)
    requires Static(k, body, ctx, base, true) && CallsSimulated(k, fuel) && OverSubject(k, ctx, v, loc, w, t, b)
    requires base.Some? ==> base.value <= |ctx.locals| && brk.Some? && 0 <= t.pc + brk.value <= |k.img.code|
    requires CodeAt(k.img.code, t.pc, [0x10]) && CodeAt(k.img.code, t.pc + 1, ClauseBody(body, ctx, Shift(brk, 1)))
    requires UnderSubject(k, entry, Boundary(at, ctx, loc, w), t)
    ensures Reaches(k.img, t, q)
    ensures Standing(k, entry, body, ctx, base, true, Shift(brk, 1), Ahead(at, 1), loc, w, fuel, q, b)
  {
    hide M.Run, M.Step, Reaches, StmtCode, CodeAt, CallsSimulated, Slots, AtBoundary, Static, LastByteReturns, Settled;
    q := Became(k, t, t.pc + 1, M.Dropped(t, 1), w);
    SubjectSettled(k, ctx, v, loc, w, t, b, q.pc, w);
    StepPop(k.img, t, v);
    var u := t.(stack := M.Dropped(t, 1));
    BoundaryMoved(k, entry, ctx, at, loc, w, u, ctx, 1, w);
    if !LastByteReturns(StmtCode(body, ctx, None)) {
      CodeSplit(k.img.code, q.pc, StmtCode(body, ctx, Shift(brk, 1)), Pops(Excess(body, ctx, |ctx.locals|)));
    }
  }

  lemma {:induction false} VisitCase(k: Linked, entry: nat, cases: Cases, ctx: Ctx, base: Option<nat>, brk: Option<int>, v: Immediate,
                                     at: Spot, loc: Locals, w: World, fuel: nat, t: M.State, b: nat, p: Boundary)
    requires Ready(k) && CasesPoised(k, cases, ctx, base, brk, v, loc, w, fuel, t, b) && cases.Case?
    requires UnderSubject(k, entry, Boundary(at, ctx, loc, w), t)
    requires CasesVisit(k.fs, k.ctxs, v, cases, ctx, at, loc, w, fuel, p)
    ensures Passes(k, entry, t, p)
    decreases fuel, cases, 0
  {
    hide M.Run, M.Step, Reaches, Ready, Passes, StmtVisits, TestsVisit, StmtCode, CodeAt, CallsSimulated, Slots, AtBoundary, Placed, InCtx,
         OverSubject, ClauseBody, CasesOk, CarefulCases, AfterCases, Static, Settled, Leaves, LastByteReturns, TestsCode, ClauseCode, AnyEqual,
         AfterBlock, UnderSubject, CasesCode, Halts, RunsFor, ExprsOk, Tidy, Keys, SameUnder;
    var nt, n := |TestsCode(cases.values, ctx, 0)|, |ClauseCode(cases.body, ctx, 0, None)|;
    CaseStatic(k, cases, ctx, base);
    CaseLayout(k.img.code, t.pc, cases, ctx, brk);
    if TestsVisit(k.fs, k.ctxs, v, cases.values, at.depth, loc, w, fuel, p) {
      SubjectDepth(k, entry, Boundary(at, ctx, loc, w), t);
      VisitTests(k, entry, cases.values, ctx, n, v, loc, w, fuel, t, b, p);
    } else {
      var r := AnyEqual(k.fs, v, cases.values, loc, w, fuel);
      SimTests(k, cases.values, ctx, n, v, loc, w, fuel, t, b);
      SubjectSettled(k, ctx, v, loc, w, t, b, t.pc + nt + (if r.hit then 0 else n), r.w);
      var u := Became(k, t, t.pc + nt + (if r.hit then 0 else n), t.stack, r.w);
      if r.hit {
        SubjectMoved(k, entry, ctx, at, loc, w, t, ctx, nt, r.w);
        VisitClause(k, entry, cases, ctx, base, brk, v, Ahead(at, nt), loc, r.w, fuel, u, b, p);
      } else {
        var next := AfterBlock(cases.body, ctx);
        SubjectMoved(k, entry, ctx, at, loc, w, t, next, nt + n, r.w);
        NextSubject(k, ctx, next, v, loc, r.w, u, b);
        VisitCases(k, entry, cases.rest, next, base, Shift(brk, nt + n), v, Ahead(at, nt + n), loc, r.w, fuel, u, b, p);
      }
      PassLater(k, entry, t, u, p);
    }
  }

  lemma {:induction false} SubjectDepth(k: Linked, entry: nat, p: Boundary, t: M.State)
    requires UnderSubject(k, entry, p, t)
    ensures |t.frames| == p.at.depth
  {
    hide Slots, FrameOf, Keys;
  }

  lemma {:induction false} SubjectMoved(k: Linked, entry: nat, ctx: Ctx, at: Spot, loc: Locals, w: World, t: M.State, ctx1: Ctx, n: nat, w1: World)
    requires UnderSubject(k, entry, Boundary(at, ctx, loc, w), t) && ctx1.locals == ctx.locals && ctx1.inFn == ctx.inFn
    ensures UnderSubject(k, entry, Boundary(Ahead(at, n), ctx1, loc, w1), Became(k, t, t.pc + n, t.stack, w1))
  {
    hide Slots, FrameOf, Keys, AtBoundary;
    BoundaryMoved(k, entry, ctx, at, loc, w, t.(stack := M.Dropped(t, 1)), ctx1, n, w1);
  }

  /** The clause whose value is equal to the subject; `u` is at its first byte. */
  lemma {:induction false} VisitClause(k: Linked, entry: nat, cases: Cases, ctx: Ctx, base: Option<nat>, brk: Option<int>, v: Immediate,
                                       at: Spot, loc: Locals, w: World, fuel: nat, u: M.State, b: nat, p: Boundary)
    requires Ready(k) && cases.Case? && Static(k, cases.body, ctx, base, true) && CallsSimulated(k, fuel)
    requires OverSubject(k, ctx, v, loc, w, u, b) && UnderSubject(k, entry, Boundary(at, ctx, loc, w), u)
    requires var nt, n := |TestsCode(cases.values, ctx, 0)|, |ClauseCode(cases.body, ctx, 0, None)|;
             var others := CasesCode(cases.rest, AfterBlock(cases.body, ctx), Shift(brk, nt + n));
             && CodeAt(k.img.code, u.pc, ClauseCode(cases.body, ctx, |others|, Shift(brk, nt)))
             && (base.Some? ==> base.value <= |ctx.locals| && brk.Some? && 0 <= u.pc - nt + brk.value <= |k.img.code|)
    requires StmtVisits(k.fs, k.ctxs, cases.body, ctx, Ahead(at, 1), loc, w, fuel, p)
    ensures Passes(k, entry, u, p)
    decreases fuel, cases, -1
  {
    hide M.Run, M.Step, Reaches, Ready, Passes, StmtVisits, StmtCode, CodeAt, CallsSimulated, Slots, AtBoundary,
         OverSubject, ClauseBody, Static, Settled, LastByteReturns, TestsCode, UnderSubject, CasesCode;
    var nt, n := |TestsCode(cases.values, ctx, 0)|, |ClauseCode(cases.body, ctx, 0, None)|;
    var others := CasesCode(cases.rest, AfterBlock(cases.body, ctx), Shift(brk, nt + n));
    var brk1 := Shift(brk, nt);
    var code := ClauseBody(cases.body, ctx, Shift(brk1, 1));
    CodeSplit3(k.img.code, u.pc, [0x10], code, if LastByteReturns(StmtCode(cases.body, ctx, None)) then [] else JumpCode(0x50, |others|));
    var q := ClauseStands(k, entry, cases.body, ctx, base, brk1, v, at, loc, w, fuel, u, b);
    VisitStmt(k, entry, cases.body, ctx, base, true, Shift(brk1, 1), Ahead(at, 1), loc, w, fuel, q, b, p);
    PassLater(k, entry, u, q, p);
  }

  lemma {:induction false} VisitTests(k: Linked, entry: nat, values: Exprs, ctx: Ctx, skip: nat, v: Immediate, loc: Locals, w: World,
                                      fuel: nat, t: M.State, b: nat, p: Boundary)
    requires Ready(k) && Placed(k) && InCtx(k, ctx) && CallsSimulated(k, fuel)
    requires values.Exprs? && ExprsOk(values, ctx) && OverSubject(k, ctx, v, loc, w, t, b)
    requires CodeAt(k.img.code, t.pc, TestsCode(values, ctx, skip))
    requires t.pc + |TestsCode(values, ctx, skip)| + skip <= |k.img.code| <= 0xFFFF
    requires TestsVisit(k.fs, k.ctxs, v, values, |t.frames|, loc, w, fuel, p)
    ensures Passes(k, entry, t, p)
    decreases fuel, values, 2
  {
    hide M.Run, M.Step, Reaches, Halts, RunsFor, Ready, Passes, ExprVisits, CallsSimulated, CodeAt, Slots, Eval, ExprCode, TestsCode, Placed,
         InCtx, OverSubject, ExprOk, JumpCode, SameValue, Agrees;
    var e, m := values.first, |ExprCode(values.first, ctx)|;
    TestLayout(k.img.code, t.pc, values, ctx, skip);
    if ExprVisits(k.fs, k.ctxs, e, |t.frames|, loc, w, fuel, p) {
      var t1 := Past(k, t, 1, [Imm(v)], w);
      SubjectCopied(k, ctx, v, loc, w, t, b);
      VisitExpr(k, entry, ctx, e, loc, w, fuel, t1, p);
      PassLater(k, entry, t, t1, p);
    } else {
      var r := SimTest(k, ctx, e, v, loc, w, fuel, t, b);
      TestDecided(k, t, m, false, false, |TestsCode(values.rest, ctx, skip)|, r.w);
      var t3 := Became(k, t, t.pc + m + 5, t.stack, r.w);
      SubjectSettled(k, ctx, v, loc, w, t, b, t3.pc, r.w);
      VisitTests(k, entry, values.rest, ctx, skip, v, loc, r.w, fuel, t3, b, p);
      PassLater(k, entry, t, t3, p);
    }
  }

  lemma {:induction false} SubjectCopied(k: Linked, ctx: Ctx, v: Immediate, loc: Locals, w: World, t: M.State, b: nat)
    requires OverSubject(k, ctx, v, loc, w, t, b) && CodeAt(k.img.code, t.pc, [0x11])
    ensures var t1 := Past(k, t, 1, [Imm(v)], w); Reaches(k.img, t, t1) && Agrees(k, ctx, loc, w, t1)
  {
    hide M.Run, M.Step, Reaches, CodeAt, Slots, Agrees, Settled, Keys, SameUnder;
    SubjectSettled(k, ctx, v, loc, w, t, b, t.pc, w);
    StepDup(k.img, t, v);
    AgreesPast(k, ctx, loc, w, t, 1, [Imm(v)], w);
  }

  // ----- programs -----

  /** The machine passes every boundary of the top-level statements. */
  lemma {:induction false} VisitItems(k: Linked, entry: nat, items: seq<Item>, z: Session, off: nat, w: World, fuel: nat,
                                      st: M.State, p: Boundary)
    requires Ready(k) && TopPoised(k, items, z, w, fuel, st)
    requires AtBoundary(k, entry, Boundary(Spot(MainCode, off, 0, []), TopCtx(z), map[], w), st)
    requires ItemsVisit(k.fs, k.ctxs, items, z, off, w, fuel, p)
    ensures Passes(k, entry, st, p)
    decreases |items|
  {
    hide M.Run, Reaches, Ready, Passes, StmtVisits, AtBoundary, CodeAt, CallsSimulated, Slots, Settled, Placed, ItemOk, ItemCareful, AddItem,
         Consistent, Exec, StmtCode;
    var z1, rest := AddItem(z, items[0]), items[1..];
    ItemStep(items[0], z);
    var at := Spot(MainCode, off, 0, []);
    match items[0] {
      case Func(_) =>
        assert TopCode(items, z) == TopCode(rest, z1);
        TopSettled(k, z, z1, w, st);
        MainMoved(k, entry, z, z1, off, w, st);
        VisitItems(k, entry, rest, z1, off, w, fuel, st, p);
      case Top(s) =>
        TopStands(k, entry, items, z, off, w, fuel, st);
        if StmtVisits(k.fs, k.ctxs, s, TopCtx(z), at, map[], w, fuel, p) {
          VisitStmt(k, entry, s, TopCtx(z), None, false, None, at, map[], w, fuel, st, 0, p);
        } else {
          var o := Exec(k.fs, false, s, map[], w, fuel);
          var t := NextTopStands(k, entry, items, z, off, w, fuel, st);
          VisitItems(k, entry, rest, z1, off + Size(s, TopCtx(z)), o.w, fuel, t, p);
          PassLater(k, entry, st, t, p);
        }
    }
  }

  lemma {:induction false} MainMoved(k: Linked, entry: nat, z: Session, z1: Session, off: nat, w: World, st: M.State)
    requires AtBoundary(k, entry, Boundary(Spot(MainCode, off, 0, []), TopCtx(z), map[], w), st)
    ensures AtBoundary(k, entry, Boundary(Spot(MainCode, off, 0, []), TopCtx(z1), map[], w), st)
  {
    hide Slots;
  }

  lemma {:induction false} TopStands(k: Linked, entry: nat, items: seq<Item>, z: Session, off: nat, w: World, fuel: nat, st: M.State)
    requires TopPoised(k, items, z, w, fuel, st) && items != [] && items[0].Top?
    requires AtBoundary(k, entry, Boundary(Spot(MainCode, off, 0, []), TopCtx(z), map[], w), st)
    ensures Standing(k, entry, items[0].s, TopCtx(z), None, false, None, Spot(MainCode, off, 0, []), map[], w, fuel, st, 0)
  {
    hide AtBoundary, CodeAt, CallsSimulated, Slots, Settled, Placed, ItemsOk, ItemsCareful, Consistent, StmtCode, SessionAfter, AddItem, Static;
    TopStatic(k, items, z, w, fuel, st);
    CodeSplit(k.img.code, st.pc, StmtCode(items[0].s, TopCtx(z), None), TopCode(items[1..], AddItem(z, items[0])));
  }

  /** From one top-level statement to the next item. */
  lemma {:induction false} NextTopStands(k: Linked, entry: nat, items: seq<Item>, z: Session, off: nat, w: World, fuel: nat, st: M.State)
    returns (t: M.State)
    requires TopPoised(k, items, z, w, fuel, st) && items != [] && items[0].Top?
    requires AtBoundary(k, entry, Boundary(Spot(MainCode, off, 0, []), TopCtx(z), map[], w), st)
    requires Exec(k.fs, false, items[0].s, map[], w, fuel).Normal?
    ensures var s, z1 := items[0].s, AddItem(z, items[0]);
            var o := Exec(k.fs, false, s, map[], w, fuel);
            && Reaches(k.img, st, t) && TopPoised(k, items[1..], z1, o.w, fuel, t)
            && AtBoundary(k, entry, Boundary(Spot(MainCode, off + Size(s, TopCtx(z)), 0, []), TopCtx(z1), map[], o.w), t)
  {
    hide M.Run, Reaches, CodeAt, CallsSimulated, Slots, Settled, Placed, StmtCode, Exec, Refresh, AtBoundary, Static, FrameOf;
    var s, z1, ctx := items[0].s, AddItem(z, items[0]), TopCtx(z);
    var o := Exec(k.fs, false, s, map[], w, fuel);
    var at := Spot(MainCode, off, 0, []);
    TopStands(k, entry, items, z, off, w, fuel, st);
    CodeSplit(k.img.code, st.pc, StmtCode(s, ctx, None), TopCode(items[1..], z1));
    ItemStep(items[0], z);
    SimStmt(k, s, ctx, None, false, None, map[], w, fuel, st, 0);
    EndBoundary(k, entry, s, ctx, None, false, None, at, map[], w, fuel, st, 0);
    assert After(s, ctx).locals == [];
    TopBoundary(k, z, z1, w, st, o.loc, st.pc + |StmtCode(s, ctx, None)|, o.w);
    t := Became(k, st, st.pc + |StmtCode(s, ctx, None)|, [], o.w);
    TopAgain(k, entry, After(s, ctx), z1, Ahead(at, Size(s, ctx)), o.w, t);
  }

  lemma {:induction false} TopAgain(k: Linked, entry: nat, ctx: Ctx, z: Session, at: Spot, w: World, t: M.State)
    requires AtBoundary(k, entry, Boundary(at, ctx, map[], w), t) && ctx.locals == [] && !ctx.inFn
    ensures AtBoundary(k, entry, Boundary(at, TopCtx(z), map[], w), t)
  {
    hide Slots;
    assert FrameOf(ctx, map[], at.bounds) == FrameOf(TopCtx(z), map[], at.bounds);
  }

  /** Every statement boundary that the program passes, however long it runs and wherever it is: before and after
    * statements of the program and of called functions, in arms and clauses, in each turn of each loop. The machine,
    * started on the compiled program, comes to stand there, with exactly the live locals and the bounds of the
    * running `for` loops in the frame, each in its slot, with those globals and that output; unless stack or call
    * frames fill up first. */
  lemma {:induction false} EveryBoundary(items: seq<Item>, heap: Heap, fuel: nat, p: Boundary)
    requires Compiled(items) && Visited(items, fuel, p)
    ensures Passes(LinkedOf(items), EntryOf(items), StartOf(items, heap), p)
  {
    hide Compiled, Placed, FuncReady, TopPoised, ItemsVisit, Passes, AtBoundary, SessionAfter, TopCode, Functions, FuncCtxs;
    var k := LinkedOf(items);
    ProgramReady(items);
    forall i | 0 <= i < |k.fs|
      ensures Lookup(k.fs, k.fs[i].name) == Some(i)
    {
      NamesUnique(items, k, i);
    }
    StartPoised(items, k, heap, fuel);
    StartBoundary(k, items, heap);
    VisitItems(k, EntryOf(items), items, FRESH, 0, NOTHING, fuel, StartOf(items, heap), p);
  }

  lemma {:induction false} StartBoundary(k: Linked, items: seq<Item>, heap: Heap)
    ensures AtBoundary(k, EntryOf(items), Boundary(Spot(MainCode, 0, 0, []), TopCtx(FRESH), map[], NOTHING), StartOf(items, heap))
  {
    assert NoGlobals() == Slots(k, NOTHING);
  }

  /** In particular a program that never ends still shows everything on the machine: whatever globals and output
    * the evaluator has at a boundary, with any fuel, the machine has too at some point of its run. */
  lemma {:induction false} NothingIsLost(items: seq<Item>, heap: Heap, fuel: nat, p: Boundary)
    requires Compiled(items) && Visited(items, fuel, p) && !Overflows(ImageOf(items), StartOf(items, heap))
    ensures exists n: nat, t ::
              M.Run(ImageOf(items), StartOf(items, heap), n) == M.Running(t) && t.globals == GlobalsOf(items, p.w) && t.out == p.w.out
  {
    hide Compiled, Visited, StartOf, ImageOf, Slots, M.Run, Overflows, FrameOf, Keys;
    EveryBoundary(items, heap, fuel, p);
  }
}
