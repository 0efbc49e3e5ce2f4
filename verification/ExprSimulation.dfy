/** Forward simulation of expressions: the code of an expression leaves its value on the stack. */
module ExprSimulation {
  import opened Bytes
  import opened Values
  import opened Syntax
  import opened CodeGen
  import opened Runs
  import opened S = Semantics
  import M = Machine

  /** A program in place: its functions, the tables each body was compiled with, the final table of
    * globals, and the image. */
  datatype Linked = Linked(fs: seq<FuncDecl>, ctxs: seq<Ctx>, table: seq<Sym>, img: M.Image)

  /** The tables `ctx` are an earlier state of the final ones. */
  ghost predicate InCtx(k: Linked, ctx: Ctx) {
    && ctx.globals <= k.table
    && |ctx.locals| <= MAX_LOCALS
    && |ctx.funcs| <= |k.fs|
    && forall i :: 0 <= i < |ctx.funcs| ==> ctx.funcs[i] == SigOf(k.fs[i])
  }

  ghost predicate Distinct(ts: seq<Sym>) {
    forall i, j :: 0 <= i < j < |ts| ==> ts[i].name != ts[j].name
  }

  /** The image is well sized and its function table points at the functions. */
  ghost predicate Placed(k: Linked) {
    && |k.img.code| <= 0xFFFF
    && |k.ctxs| == |k.fs| == |k.img.funcs| <= MAX_FUNCS
    && |k.table| <= MAX_GLOBALS && Distinct(k.table)
    && forall i :: 0 <= i < |k.fs| ==>
         && k.img.funcs[i].start < |k.img.code|
         && k.img.funcs[i].params == |k.fs[i].params|
  }

  /** The globals array that holds the globals of `w`. */
  ghost function Slots(k: Linked, w: World): (r: seq<Option<Value>>)
    ensures |r| == MAX_GLOBALS
  {
    seq(MAX_GLOBALS, i =>
      if 0 <= i < |k.table| && k.table[i].name in w.globals then Some(Imm(w.globals[k.table[i].name])) else None)
  }

  ghost predicate AllImmediate(vs: seq<Value>) {
    forall i :: 0 <= i < |vs| ==> vs[i].Imm?
  }

  /** Every visible local sits in the slot its table position says. */
  ghost predicate LocalsAgree(ctx: Ctx, loc: Locals, stack: seq<Value>, fp: nat) {
    && fp + |ctx.locals| <= |stack|
    && (forall x :: x in loc <==> Find(ctx.locals, x).Some?)
    && (forall x :: x in loc ==> stack[fp + Find(ctx.locals, x).value] == Imm(loc[x]))
    && (!ctx.inFn ==> ctx.locals == [])
  }

  ghost predicate Agrees(k: Linked, ctx: Ctx, loc: Locals, w: World, s: M.State) {
    && s.globals == Slots(k, w) && s.out == w.out
    && AllImmediate(s.stack)
    && LocalsAgree(ctx, loc, s.stack, s.fp)
  }

  /** `s` after `n` bytes of code that pushed `vs` and left the world `w`. */
  ghost function Past(k: Linked, s: M.State, n: nat, vs: seq<Value>, w: World): M.State {
    s.(pc := s.pc + n, stack := s.stack + vs, globals := Slots(k, w), out := w.out)
  }

  ghost predicate Yields(k: Linked, s: M.State, n: nat, r: Result, fuel: nat) {
    match r
    case Val(v, w) => Reaches(k.img, s, Past(k, s, n, [Imm(v)], w))
    case Bad(err, w) => Halts(k.img, s, err, Slots(k, w), w.out)
    case Timeout => RunsFor(k.img, s, fuel)
  }

  function Imms(vs: seq<Immediate>): (r: seq<Value>)
    ensures |r| == |vs|
  {
    seq(|vs|, i requires 0 <= i < |vs| => Imm(vs[i]))
  }

  ghost predicate YieldsList(k: Linked, s: M.State, n: nat, r: ListResult, count: nat, fuel: nat) {
    match r
    case Vals(vs, w) => |vs| == count && Reaches(k.img, s, Past(k, s, n, Imms(vs), w))
    case BadList(err, w) => Halts(k.img, s, err, Slots(k, w), w.out)
    case TimeoutList => RunsFor(k.img, s, fuel)
  }

  // ----- calls -----

  /** The machine has just entered function `i` with arguments `vs`. */
  ghost predicate Entered(k: Linked, i: nat, vs: seq<Immediate>, w: World, e: M.State) {
    && i < |k.fs| && |k.img.funcs| == |k.fs|
    && |vs| == |k.fs[i].params|
    && e.pc == k.img.funcs[i].start
    && |e.frames| > 0
    && e.fp + |vs| == |e.stack|
    && e.stack[e.fp..] == Imms(vs)
    && AllImmediate(e.stack)
    && e.globals == Slots(k, w) && e.out == w.out
  }

  /** `e` after its innermost frame returned `v`. */
  ghost function LeftWith(k: Linked, e: M.State, v: Immediate, w: World): M.State
    requires |e.frames| > 0 && e.fp <= |e.stack|
  {
    var caller := e.frames[|e.frames| - 1];
    e.(pc := caller.pc, fp := caller.fp, frames := e.frames[..|e.frames| - 1],
       stack := e.stack[..e.fp] + [Imm(v)], globals := Slots(k, w), out := w.out)
  }

  ghost predicate CallYields(k: Linked, i: nat, vs: seq<Immediate>, w: World, e: M.State, fuel: nat)
    requires Entered(k, i, vs, w, e)
  {
    match Invoke(k.fs, k.fs[i].name, vs, w, fuel)
    case Val(v, w') => Reaches(k.img, e, LeftWith(k, e, v, w'))
    case Bad(err, w') => Halts(k.img, e, err, Slots(k, w'), w'.out)
    case Timeout => RunsFor(k.img, e, fuel)
  }

  /** Calls that use less fuel than `fuel` behave as the evaluator says. */
  ghost predicate CallsSimulated(k: Linked, fuel: nat) {
    forall i: nat, vs, w, e, f: nat {:trigger CallYields(k, i, vs, w, e, f)} ::
      f < fuel && Entered(k, i, vs, w, e) ==> CallYields(k, i, vs, w, e, f)
  }

  // ----- facts about the tables -----

  lemma {:induction false} FindPrefix(a: seq<Sym>, b: seq<Sym>, x: Name)
    requires a <= b && Find(a, x).Some?
    ensures Find(b, x) == Find(a, x)
  {
    var i := Find(a, x).value;
    assert b[i] == a[i];
    forall j | 0 <= j < i
      ensures b[j].name != x
    {
      assert b[j] == a[j];
    }
  }

  lemma {:induction false} GlobalSlot(k: Linked, ctx: Ctx, x: Name, w: World)
    requires Placed(k) && InCtx(k, ctx) && Find(ctx.globals, x).Some?
    ensures var i := Find(ctx.globals, x).value;
            && i < |k.table| && k.table[i].name == x && i % 0x100 == i
            && PlainGlobal(M.State(0, [], 0, [], Slots(k, w), [], []), i)
            && Slots(k, w)[i] == if x in w.globals then Some(Imm(w.globals[x])) else None
  {
    FindPrefix(ctx.globals, k.table, x);
  }

  lemma {:induction false} SlotUpdate(k: Linked, i: nat, w: World, v: Immediate)
    requires Placed(k) && i < |k.table|
    ensures Slots(k, w)[i := Some(Imm(v))] == Slots(k, SetGlobal(w, k.table[i].name, v))
  {
    var a, b := Slots(k, w)[i := Some(Imm(v))], Slots(k, SetGlobal(w, k.table[i].name, v));
    forall j | 0 <= j < MAX_GLOBALS
      ensures a[j] == b[j]
    {
    }
  }

  /** A function name means the same in the tables of a body and in the whole program. */
  lemma {:induction false} FuncIndex(k: Linked, ctx: Ctx, f: Name)
    requires InCtx(k, ctx) && FindFunc(ctx.funcs, f).Some?
    ensures var i := FindFunc(ctx.funcs, f).value; i < |k.fs| && k.fs[i].name == f && Lookup(k.fs, f) == Some(i)
  {
    var i := FindFunc(ctx.funcs, f).value;
    assert ctx.funcs[i] == SigOf(k.fs[i]);
    forall j | 0 <= j < i
      ensures k.fs[j].name != f
    {
      assert ctx.funcs[j] == SigOf(k.fs[j]);
    }
    LookupFirst(k.fs, f, i);
  }

  lemma {:induction false} LookupFirst(fs: seq<FuncDecl>, f: Name, i: nat)
    requires i < |fs| && fs[i].name == f
    requires forall j :: 0 <= j < i ==> fs[j].name != f
    ensures Lookup(fs, f) == Some(i)
    decreases |fs|
  {
    if i > 0 {
      assert fs[0].name != f;
      LookupFirst(fs[1..], f, i - 1);
    }
  }

  // ----- moving along -----

  lemma {:induction false} AgreesPast(k: Linked, ctx: Ctx, loc: Locals, w: World, s: M.State, n: nat, vs: seq<Value>, w': World)
    requires Agrees(k, ctx, loc, w, s) && AllImmediate(vs)
    ensures Agrees(k, ctx, loc, w', Past(k, s, n, vs, w'))
  {
    var t := Past(k, s, n, vs, w');
    forall x | x in loc
      ensures t.stack[t.fp + Find(ctx.locals, x).value] == Imm(loc[x])
    {
    }
  }

  /** An error or a long run after `t` is one after `s`. */
  lemma {:induction false} LiftResult(k: Linked, s: M.State, t: M.State, n: nat, m: nat, r: Result, fuel: nat)
    requires Reaches(k.img, s, t) && !r.Val? && Yields(k, t, n, r, fuel)
    ensures Yields(k, s, m, r, fuel)
  {
    hide M.Run, Reaches, Halts, RunsFor;
    match r {
      case Bad(err, w) => ReachThenHalt(k.img, s, t, err, Slots(k, w), w.out);
      case Timeout => ReachThenRun(k.img, s, t, fuel);
    }
  }

  lemma {:induction false} PastTwice(k: Linked, s: M.State, n1: nat, vs1: seq<Value>, w1: World, n2: nat, vs2: seq<Value>, w2: World)
    ensures Past(k, Past(k, s, n1, vs1, w1), n2, vs2, w2) == Past(k, s, n1 + n2, vs1 + vs2, w2)
  {
    assert s.stack + vs1 + vs2 == s.stack + (vs1 + vs2);
  }

  // ----- the simulation -----

  /** Running the code of `e` from a state that agrees with `loc` and `w` does what `Eval` says. */
  lemma {:induction false} SimExpr(k: Linked, ctx: Ctx, e: Expr, loc: Locals, w: World, fuel: nat, s: M.State)
    requires Placed(k) && InCtx(k, ctx) && CallsSimulated(k, fuel)
    requires ExprOk(e, ctx) && CodeAt(k.img.code, s.pc, ExprCode(e, ctx)) && Agrees(k, ctx, loc, w, s)
    ensures Yields(k, s, |ExprCode(e, ctx)|, Eval(k.fs, e, loc, w, fuel), fuel)
    decreases e, 1
  {
    hide M.Run, M.Step, Reaches, Halts, RunsFor, Agrees, CallsSimulated, CodeAt, Slots, Placed, InCtx;
    match e {
      case IntLit(n) => SimInt(k, ctx, n, loc, w, s);
      case BoolLit(b) => SimConst(k, ctx, e, Bool(b), loc, w, s);
      case NilLit => SimConst(k, ctx, e, Nil, loc, w, s);
      case Var(x) => SimGet(k, ctx, x, loc, w, s);
      case Neg(_) => SimUnary(k, ctx, e, loc, w, fuel, s);
      case Not(_) => SimUnary(k, ctx, e, loc, w, fuel, s);
      case Unwrap(_) => SimUnary(k, ctx, e, loc, w, fuel, s);
      case Bin(_, _, _) => SimBin(k, ctx, e, loc, w, fuel, s);
      case And(_, _) => SimShortCircuit(k, ctx, e, loc, w, fuel, s);
      case Or(_, _) => SimShortCircuit(k, ctx, e, loc, w, fuel, s);
      case Coalesce(_, _) => SimCoalesce(k, ctx, e, loc, w, fuel, s);
      case Call(_, _) => SimCall(k, ctx, e, loc, w, fuel, s);
    }
  }

  lemma {:induction false} SimInt(k: Linked, ctx: Ctx, n: I16, loc: Locals, w: World, s: M.State)
    requires Agrees(k, ctx, loc, w, s) && CodeAt(k.img.code, s.pc, IntCode(n))
    ensures Reaches(k.img, s, Past(k, s, |IntCode(n)|, [Imm(Int(n))], w))
  {
    hide M.Run, Reaches;
    WordOfLe16(n);
    StepPush(k.img, s, IntCode(n), Int(n));
  }

  lemma {:induction false} SimConst(k: Linked, ctx: Ctx, e: Expr, v: Immediate, loc: Locals, w: World, s: M.State)
    requires Agrees(k, ctx, loc, w, s) && CodeAt(k.img.code, s.pc, ExprCode(e, ctx))
    requires (e.BoolLit? && v == Bool(e.b)) || (e.NilLit? && v == Nil)
    ensures Reaches(k.img, s, Past(k, s, 1, [Imm(v)], w)) && |ExprCode(e, ctx)| == 1
  {
    hide M.Run, Reaches;
    StepPush(k.img, s, ExprCode(e, ctx), v);
  }

  lemma {:induction false} SimGet(k: Linked, ctx: Ctx, x: Name, loc: Locals, w: World, s: M.State)
    requires Placed(k) && InCtx(k, ctx) && Agrees(k, ctx, loc, w, s)
    requires NameOk(x) && !Resolve(x, ctx).Nowhere? && CodeAt(k.img.code, s.pc, GetCode(x, ctx))
    ensures Yields(k, s, |GetCode(x, ctx)|, Read(x, loc, w), 0) && !Read(x, loc, w).Timeout?
  {
    hide M.Run, Reaches, Halts;
    match Resolve(x, ctx) {
      case Local(i) =>
        assert x in loc;
        StepGetLocal(k.img, s, i % 0x100, loc[x]);
      case Global(i) =>
        GlobalSlot(k, ctx, x, w);
        StepGetGlobal(k.img, s, i % 0x100);
    }
  }

  lemma {:induction false} SimUnary(k: Linked, ctx: Ctx, e: Expr, loc: Locals, w: World, fuel: nat, s: M.State)
    requires Placed(k) && InCtx(k, ctx) && CallsSimulated(k, fuel)
    requires ExprOk(e, ctx) && CodeAt(k.img.code, s.pc, ExprCode(e, ctx)) && Agrees(k, ctx, loc, w, s)
    requires e.Neg? || e.Not? || e.Unwrap?
    ensures Yields(k, s, |ExprCode(e, ctx)|, Eval(k.fs, e, loc, w, fuel), fuel)
    decreases e, 0
  {
    hide M.Run, Reaches, Halts, RunsFor, Agrees, CallsSimulated, CodeAt, Placed, InCtx;
    var sub := e.e;
    var c := ExprCode(sub, ctx);
    var op: Byte := if e.Neg? then 0x35 else if e.Not? then 0x46 else 0x70;
    CodeSplit(k.img.code, s.pc, c, [op]);
    SimExpr(k, ctx, sub, loc, w, fuel, s);
    var r := Eval(k.fs, sub, loc, w, fuel);
    if !r.Val? {
      LiftResult(k, s, s, |c|, |c| + 1, r, fuel) by { ReachSelf(k.img, s); }
    } else if e.Neg? {
      Negated(k, s, c, r.v, r.w, fuel);
    } else if e.Not? {
      Inverted(k, s, c, r.v, r.w, fuel);
    } else {
      Unwrapped(k, s, c, r.v, r.w, fuel);
    }
  }

  lemma {:induction false} Negated(k: Linked, s: M.State, c: seq<Byte>, v: Immediate, w: World, fuel: nat)
    requires Reaches(k.img, s, Past(k, s, |c|, [Imm(v)], w)) && CodeAt(k.img.code, s.pc + |c|, [0x35])
    ensures Yields(k, s, |c| + 1, if v.Int? then (var n: int := v.n; Val(Int(Wrap16(-n)), w)) else Bad(M.TypeMismatch, w), fuel)
  {
    hide M.Run, Reaches, Halts, CodeAt, Slots;
    var t := Past(k, s, |c|, [Imm(v)], w);
    assert M.Dropped(t, 1) == s.stack;
    StepNeg(k.img, t, v);
    UnaryDone(k, s, t, c, v, if v.Int? then Some(Int(Wrap16(0 - v.n))) else None, M.TypeMismatch, w, fuel);
  }

  lemma {:induction false} Inverted(k: Linked, s: M.State, c: seq<Byte>, v: Immediate, w: World, fuel: nat)
    requires Reaches(k.img, s, Past(k, s, |c|, [Imm(v)], w)) && CodeAt(k.img.code, s.pc + |c|, [0x46])
    ensures Yields(k, s, |c| + 1, if v.Bool? then Val(Bool(!v.b), w) else Bad(M.TypeMismatch, w), fuel)
  {
    hide M.Run, Reaches, Halts, CodeAt, Slots;
    var t := Past(k, s, |c|, [Imm(v)], w);
    assert M.Dropped(t, 1) == s.stack;
    StepNot(k.img, t, v);
    UnaryDone(k, s, t, c, v, if v.Bool? then Some(Bool(!v.b)) else None, M.TypeMismatch, w, fuel);
  }

  lemma {:induction false} Unwrapped(k: Linked, s: M.State, c: seq<Byte>, v: Immediate, w: World, fuel: nat)
    requires Reaches(k.img, s, Past(k, s, |c|, [Imm(v)], w)) && CodeAt(k.img.code, s.pc + |c|, [0x70])
    ensures Yields(k, s, |c| + 1, if Missing(v) then Bad(M.RuntimeErr, w) else Val(v, w), fuel)
  {
    hide M.Run, Reaches, Halts, CodeAt, Slots;
    var t := Past(k, s, |c|, [Imm(v)], w);
    assert M.Dropped(t, 1) == s.stack;
    StepUnwrap(k.img, t, v);
    UnaryDone(k, s, t, c, v, if Missing(v) then None else Some(v), M.RuntimeErr, w, fuel);
  }

  /** The last step of a unary operator: `u` replaces `v`, or the machine stops. */
  lemma {:induction false} UnaryDone(k: Linked, s: M.State, t: M.State, c: seq<Byte>, v: Immediate, u: Option<Immediate>, err: M.Err,
                  w: World, fuel: nat)
    requires t == Past(k, s, |c|, [Imm(v)], w) && Reaches(k.img, s, t)
    requires match u case Some(x) => Reaches(k.img, t, t.(pc := t.pc + 1, stack := s.stack + [Imm(x)]))
                     case None => Halts(k.img, t, err, t.globals, t.out)
    ensures Yields(k, s, |c| + 1, match u case Some(x) => Val(x, w) case None => Bad(err, w), fuel)
  {
    hide M.Run, Reaches, Halts;
    match u {
      case Some(x) => ReachThen(k.img, s, t, t.(pc := t.pc + 1, stack := s.stack + [Imm(x)]));
      case None => ReachThenHalt(k.img, s, t, err, t.globals, t.out);
    }
  }

  lemma {:induction false} SimBin(k: Linked, ctx: Ctx, e: Expr, loc: Locals, w: World, fuel: nat, s: M.State)
    requires Placed(k) && InCtx(k, ctx) && CallsSimulated(k, fuel)
    requires ExprOk(e, ctx) && CodeAt(k.img.code, s.pc, ExprCode(e, ctx)) && Agrees(k, ctx, loc, w, s)
    requires e.Bin?
    ensures Yields(k, s, |ExprCode(e, ctx)|, Eval(k.fs, e, loc, w, fuel), fuel)
    decreases e, 0
  {
    hide M.Run, Reaches, Halts, RunsFor, Agrees, CallsSimulated, CodeAt, Placed, InCtx, Apply, OpByte;
    var Bin(op, l, r) := e;
    var cl, cr := ExprCode(l, ctx), ExprCode(r, ctx);
    var n := |cl| + |cr| + 1;
    CodeSplit3(k.img.code, s.pc, cl, cr, [OpByte(op)]);
    SimExpr(k, ctx, l, loc, w, fuel, s);
    var rl := Eval(k.fs, l, loc, w, fuel);
    if !rl.Val? {
      ReachSelf(k.img, s);
      LiftResult(k, s, s, |cl|, n, rl, fuel);
    } else {
      var t := Past(k, s, |cl|, [Imm(rl.v)], rl.w);
      AgreesPast(k, ctx, loc, w, s, |cl|, [Imm(rl.v)], rl.w);
      SimExpr(k, ctx, r, loc, rl.w, fuel, t);
      var rr := Eval(k.fs, r, loc, rl.w, fuel);
      if !rr.Val? {
        LiftResult(k, s, t, |cr|, n, rr, fuel);
      } else {
        Operated(k, s, t, |cl|, |cr|, op, rl.v, rr.v, rl.w, rr.w, fuel);
      }
    }
  }

  /** The operator, once both operands are on the stack. */
  lemma {:induction false} Operated(k: Linked, s: M.State, t: M.State, nl: nat, nr: nat, op: BinOp, a: Immediate, b: Immediate,
                                    wl: World, w: World, fuel: nat)
    requires t == Past(k, s, nl, [Imm(a)], wl) && Reaches(k.img, s, t) && Reaches(k.img, t, Past(k, t, nr, [Imm(b)], w))
    requires CodeAt(k.img.code, s.pc + nl + nr, [OpByte(op)])
    ensures Yields(k, s, nl + nr + 1, Apply(op, a, b, w), fuel)
  {
    hide M.Run, M.Step, Reaches, Halts, RunsFor, CodeAt, Slots, Apply, OpByte;
    var u := Past(k, t, nr, [Imm(b)], w);
    ReachThen(k.img, s, t, u);
    assert M.Dropped(u, 2) == s.stack;
    StepBin(k.img, u, op, a, b, w);
    match Apply(op, a, b, w) {
      case Val(v, _) => ReachThen(k.img, s, u, u.(pc := u.pc + 1, stack := M.Dropped(u, 2) + [Imm(v)]));
      case Bad(err, _) => ReachThenHalt(k.img, s, u, err, u.globals, u.out);
    }
  }

  lemma {:induction false} SimShortCircuit(k: Linked, ctx: Ctx, e: Expr, loc: Locals, w: World, fuel: nat, s: M.State)
    requires Placed(k) && InCtx(k, ctx) && CallsSimulated(k, fuel)
    requires ExprOk(e, ctx) && CodeAt(k.img.code, s.pc, ExprCode(e, ctx)) && Agrees(k, ctx, loc, w, s)
    requires e.And? || e.Or?
    ensures Yields(k, s, |ExprCode(e, ctx)|, Eval(k.fs, e, loc, w, fuel), fuel)
    decreases e, 0
  {
    hide M.Run, M.Step, Reaches, Halts, RunsFor, Agrees, CallsSimulated, CodeAt, InCtx, Placed, LocalsAgree;
    var l, r := e.l, e.r;
    var cl, cr := ExprCode(l, ctx), ExprCode(r, ctx);
    var middle := [0x11] + JumpCode(if e.And? then 0x51 else 0x52, |cr| + 1) + [0x10];
    CodeLands(k, ctx, e, s);
    CodeSplit3(k.img.code, s.pc, cl, middle, cr);
    SimExpr(k, ctx, l, loc, w, fuel, s);
    var rl := Eval(k.fs, l, loc, w, fuel);
    if !rl.Val? {
      ReachSelf(k.img, s);
      LiftResult(k, s, s, |cl|, |cl| + 5 + |cr|, rl, fuel);
    } else {
      SimTested(k, ctx, e.Or?, r, loc, w, fuel, s, |cl|, rl.v, rl.w);
    }
  }

  /** The left operand `a` is on the stack: keep it if it equals `sense`, else evaluate `r` instead. */
  lemma {:induction false} SimTested(k: Linked, ctx: Ctx, sense: bool, r: Expr, loc: Locals, w: World, fuel: nat,
                                     s: M.State, nl: nat, a: Immediate, w1: World)
    requires Placed(k) && InCtx(k, ctx) && CallsSimulated(k, fuel) && Agrees(k, ctx, loc, w, s)
    requires Reaches(k.img, s, Past(k, s, nl, [Imm(a)], w1))
    requires ExprOk(r, ctx) && CodeAt(k.img.code, s.pc + nl + 5, ExprCode(r, ctx))
    requires CodeAt(k.img.code, s.pc + nl, [0x11] + JumpCode(if sense then 0x52 else 0x51, |ExprCode(r, ctx)| + 1) + [0x10])
    requires s.pc + nl + 5 + |ExprCode(r, ctx)| <= |k.img.code| <= 0xFFFF
    ensures Yields(k, s, nl + 5 + |ExprCode(r, ctx)|,
                   if !a.Bool? then Bad(M.TypeMismatch, w1)
                   else if a.b == sense then Val(a, w1)
                   else Eval(k.fs, r, loc, w1, fuel), fuel)
    decreases r, 3
  {
    hide M.Run, M.Step, Reaches, Halts, RunsFor, Agrees, CallsSimulated, CodeAt, InCtx, Placed, ExprCode, ExprOk, Eval, Slots;
    var m := |ExprCode(r, ctx)|;
    var jump := JumpCode(if sense then 0x52 else 0x51, m + 1);
    CodeSplit3(k.img.code, s.pc + nl, [0x11], jump, [0x10]);
    var t := Past(k, s, nl, [Imm(a)], w1);
    var t1 := t.(pc := t.pc + 1, stack := t.stack + [Imm(a)]);
    StepDup(k.img, t, a);
    ReachThen(k.img, s, t, t1);
    assert M.Dropped(t1, 1) == t.stack;
    StepJumpIf(k.img, t1, sense, m + 1, a);
    if !a.Bool? {
      ReachThenHalt(k.img, s, t1, M.TypeMismatch, t1.globals, t1.out);
    } else if a.b == sense {
      ReachThen(k.img, s, t1, Past(k, s, nl + 5 + m, [Imm(a)], w1));
    } else {
      var t2 := t1.(pc := t1.pc + 3, stack := t.stack);
      ReachThen(k.img, s, t1, t2);
      assert M.Dropped(t2, 1) == s.stack;
      StepPop(k.img, t2, a);
      var t3 := Past(k, s, nl + 5, [], w1);
      assert t3.stack == s.stack;
      ReachThen(k.img, s, t2, t3);
      AgreesPast(k, ctx, loc, w, s, nl + 5, [], w1);
      SimRest(k, ctx, r, loc, w1, fuel, s, t3, nl + 5);
    }
  }

  /** The right operand, once the left one is gone from the stack. */
  lemma {:induction false} SimRest(k: Linked, ctx: Ctx, r: Expr, loc: Locals, w: World, fuel: nat, s: M.State, t: M.State, n: nat)
    requires Placed(k) && InCtx(k, ctx) && CallsSimulated(k, fuel)
    requires ExprOk(r, ctx) && CodeAt(k.img.code, t.pc, ExprCode(r, ctx)) && Agrees(k, ctx, loc, w, t)
    requires t == Past(k, s, n, [], w) && Reaches(k.img, s, t)
    ensures Yields(k, s, n + |ExprCode(r, ctx)|, Eval(k.fs, r, loc, w, fuel), fuel)
    decreases r, 2
  {
    hide M.Run, Reaches, Halts, RunsFor, Agrees, CallsSimulated, CodeAt, InCtx, Placed, ExprCode, Eval, ExprOk;
    SimExpr(k, ctx, r, loc, w, fuel, t);
    var m := |ExprCode(r, ctx)|;
    var rr := Eval(k.fs, r, loc, w, fuel);
    if !rr.Val? {
      LiftResult(k, s, t, m, n + m, rr, fuel);
    } else {
      PastTwice(k, s, n, [], w, m, [Imm(rr.v)], rr.w);
      assert [] + [Imm(rr.v)] == [Imm(rr.v)];
      ReachThen(k.img, s, t, Past(k, t, m, [Imm(rr.v)], rr.w));
    }
  }

  /** The end of code that is in place is a legal jump target. */
  lemma {:induction false} CodeLands(k: Linked, ctx: Ctx, e: Expr, s: M.State)
    requires Placed(k) && CodeAt(k.img.code, s.pc, ExprCode(e, ctx))
    ensures s.pc + |ExprCode(e, ctx)| <= |k.img.code| <= 0xFFFF
  {
    hide ExprCode;
  }

  lemma {:induction false} SimCoalesce(k: Linked, ctx: Ctx, e: Expr, loc: Locals, w: World, fuel: nat, s: M.State)
    requires Placed(k) && InCtx(k, ctx) && CallsSimulated(k, fuel)
    requires ExprOk(e, ctx) && CodeAt(k.img.code, s.pc, ExprCode(e, ctx)) && Agrees(k, ctx, loc, w, s)
    requires e.Coalesce?
    ensures Yields(k, s, |ExprCode(e, ctx)|, Eval(k.fs, e, loc, w, fuel), fuel)
    decreases e, 0
  {
    hide M.Run, M.Step, Reaches, Halts, RunsFor, Agrees, CallsSimulated, CodeAt, InCtx, Placed;
    var Coalesce(l, r) := e;
    var cl, cr := ExprCode(l, ctx), ExprCode(r, ctx);
    CodeSplit3(k.img.code, s.pc, cl, JumpCode(0x72, |cr|), cr);
    CodeLands(k, ctx, e, s);
    SimExpr(k, ctx, l, loc, w, fuel, s);
    var rl := Eval(k.fs, l, loc, w, fuel);
    if !rl.Val? {
      ReachSelf(k.img, s);
      LiftResult(k, s, s, |cl|, |cl| + 3 + |cr|, rl, fuel);
    } else {
      SimMissing(k, ctx, r, loc, w, fuel, s, |cl|, rl.v, rl.w);
    }
  }

  /** The left operand `a` is on the stack: keep it unless it is a nil, else evaluate `r` instead. */
  lemma {:induction false} SimMissing(k: Linked, ctx: Ctx, r: Expr, loc: Locals, w: World, fuel: nat, s: M.State, n: nat,
                                      a: Immediate, w1: World)
    requires Placed(k) && InCtx(k, ctx) && CallsSimulated(k, fuel) && Agrees(k, ctx, loc, w, s) && ExprOk(r, ctx)
    requires CodeAt(k.img.code, s.pc + n, JumpCode(0x72, |ExprCode(r, ctx)|))
    requires CodeAt(k.img.code, s.pc + n + 3, ExprCode(r, ctx))
    requires s.pc + n + 3 + |ExprCode(r, ctx)| <= |k.img.code|
    requires Reaches(k.img, s, Past(k, s, n, [Imm(a)], w1))
    ensures Yields(k, s, n + 3 + |ExprCode(r, ctx)|,
                   if Missing(a) then Eval(k.fs, r, loc, w1, fuel) else Val(a, w1), fuel)
    decreases r, 3
  {
    hide M.Run, M.Step, Reaches, Halts, RunsFor, Agrees, CallsSimulated, CodeAt, InCtx, ExprCode, Eval, ExprOk;
    var cr := ExprCode(r, ctx);
    var t := Past(k, s, n, [Imm(a)], w1);
    assert M.Dropped(t, 1) == s.stack;
    StepNilBranch(k.img, t, false, |cr|, a);
    if Missing(a) {
      var t3 := Past(k, s, n + 3, [], w1);
      assert t3.stack == s.stack;
      ReachThen(k.img, s, t, t3);
      AgreesPast(k, ctx, loc, w, s, n + 3, [], w1);
      SimRest(k, ctx, r, loc, w1, fuel, s, t3, n + 3);
    } else {
      ReachThen(k.img, s, t, Past(k, s, n + 3 + |cr|, [Imm(a)], w1));
    }
  }

  /** The arguments of a call, left to right, end up on the stack in order. */
  lemma {:induction false} SimList(k: Linked, ctx: Ctx, es: Exprs, loc: Locals, w: World, fuel: nat, s: M.State)
    requires Placed(k) && InCtx(k, ctx) && CallsSimulated(k, fuel)
    requires ExprsOk(es, ctx) && CodeAt(k.img.code, s.pc, ExprsCode(es, ctx)) && Agrees(k, ctx, loc, w, s)
    ensures YieldsList(k, s, |ExprsCode(es, ctx)|, EvalList(k.fs, es, loc, w, fuel), Count(es), fuel)
    decreases es, 0
  {
    hide M.Run, Reaches, Halts, RunsFor, Agrees, CallsSimulated, CodeAt, InCtx, Placed, ExprCode, Eval;
    match es {
      case NoExprs =>
        PastNothing(k, ctx, loc, w, s);
        ReachSelf(k.img, s);
      case Exprs(e, rest) =>
        var ce, cr := ExprCode(e, ctx), ExprsCode(rest, ctx);
        CodeSplit(k.img.code, s.pc, ce, cr);
        SimExpr(k, ctx, e, loc, w, fuel, s);
        match Eval(k.fs, e, loc, w, fuel) {
          case Bad(err, w1) =>
          case Timeout =>
          case Val(v, w1) =>
            var t := Past(k, s, |ce|, [Imm(v)], w1);
            AgreesPast(k, ctx, loc, w, s, |ce|, [Imm(v)], w1);
            SimList(k, ctx, rest, loc, w1, fuel, t);
            match EvalList(k.fs, rest, loc, w1, fuel) {
              case BadList(err, w2) => ReachThenHalt(k.img, s, t, err, Slots(k, w2), w2.out);
              case TimeoutList => ReachThenRun(k.img, s, t, fuel);
              case Vals(vs, w2) =>
                PastTwice(k, s, |ce|, [Imm(v)], w1, |cr|, Imms(vs), w2);
                assert [Imm(v)] + Imms(vs) == Imms([v] + vs);
                ReachThen(k.img, s, t, Past(k, t, |cr|, Imms(vs), w2));
            }
        }
    }
  }

  lemma {:induction false} PastNothing(k: Linked, ctx: Ctx, loc: Locals, w: World, s: M.State)
    requires Agrees(k, ctx, loc, w, s)
    ensures Past(k, s, 0, Imms([]), w) == s
  {
    assert s.stack + Imms([]) == s.stack;
  }

  lemma {:induction false} SimCall(k: Linked, ctx: Ctx, e: Expr, loc: Locals, w: World, fuel: nat, s: M.State)
    requires Placed(k) && InCtx(k, ctx) && CallsSimulated(k, fuel)
    requires ExprOk(e, ctx) && CodeAt(k.img.code, s.pc, ExprCode(e, ctx)) && Agrees(k, ctx, loc, w, s)
    requires e.Call?
    ensures Yields(k, s, |ExprCode(e, ctx)|, Eval(k.fs, e, loc, w, fuel), fuel)
    decreases e, 0
  {
    hide M.Run, Reaches, Halts, RunsFor, CallsSimulated, CodeAt, Agrees, InCtx, ExprsCode, LeftWith, Invoke, M.Step, Overflows, Slots;
    var Call(f, args) := e;
    var ca, cc := ExprsCode(args, ctx), CallCode(f, Count(args), ctx);
    CodeSplit(k.img.code, s.pc, ca, cc);
    SimList(k, ctx, args, loc, w, fuel, s);
    match EvalList(k.fs, args, loc, w, fuel) {
      case BadList(err, w1) =>
      case TimeoutList =>
      case Vals(vs, w1) =>
        var i := FindFunc(ctx.funcs, f).value;
        FuncIndex(k, ctx, f);
        SigIndex(k, ctx, i);
        var t := Past(k, s, |ca|, Imms(vs), w1);
        StepCall(k.img, t, i, |vs|);
        SimInvoke(k, ctx, s, t, |ca|, i, vs, w1, loc, w, fuel);
    }
  }

  lemma {:induction false} SigIndex(k: Linked, ctx: Ctx, i: nat)
    requires Placed(k) && InCtx(k, ctx) && i < |ctx.funcs|
    ensures i < |k.fs| && |k.fs| <= MAX_FUNCS && ctx.funcs[i].params == |k.fs[i].params| == k.img.funcs[i].params
  {
    assert ctx.funcs[i] == SigOf(k.fs[i]);
  }

  /** The call instruction at `t` and everything up to the return. */
  lemma {:induction false} SimInvoke(k: Linked, ctx: Ctx, s: M.State, t: M.State, n: nat, i: nat, vs: seq<Immediate>, w1: World,
                  loc: Locals, w: World, fuel: nat)
    requires Placed(k) && CallsSimulated(k, fuel) && Agrees(k, ctx, loc, w, s)
    requires i < |k.fs| && |vs| == |k.fs[i].params| <= 255 && i < 0x100
    requires t == Past(k, s, n, Imms(vs), w1) && Reaches(k.img, s, t)
    requires M.Step(k.img, t) == M.Running(CallEntry(k.img, t, i, |vs|)) || Overflows(k.img, t)
    ensures Yields(k, s, n + 3, if fuel == 0 then Timeout else Invoke(k.fs, k.fs[i].name, vs, w1, fuel - 1), fuel)
  {
    hide M.Run, M.Step, Invoke, Overflows, Slots;
    var e := CallEntry(k.img, t, i, |vs|);
    if fuel == 0 {
      RunsForNothing(k.img, s);
    } else if Overflows(k.img, t) {
      OverflowLifts(k, s, t);
    } else {
      assert e.stack[e.fp..] == Imms(vs);
      assert Entered(k, i, vs, w1, e);
      assert CallYields(k, i, vs, w1, e, fuel - 1);
      StepReaches(k.img, t, e);
      ReachThen(k.img, s, t, e);
      match Invoke(k.fs, k.fs[i].name, vs, w1, fuel - 1) {
        case Val(v, w2) =>
          assert LeftWith(k, e, v, w2) == Past(k, s, n + 3, [Imm(v)], w2) by {
            assert e.stack[..e.fp] == s.stack;
            assert e.frames[..|e.frames| - 1] == s.frames;
          }
          ReachThen(k.img, s, e, LeftWith(k, e, v, w2));
        case Bad(err, w2) => ReachThenHalt(k.img, s, e, err, Slots(k, w2), w2.out);
        case Timeout =>
          StepThenRun(k.img, t, e, fuel - 1);
          ReachThenRun(k.img, s, t, fuel);
      }
    }
  }

  lemma {:induction false} OverflowLifts(k: Linked, s: M.State, t: M.State)
    requires Reaches(k.img, s, t) && Overflows(k.img, t)
    ensures Overflows(k.img, s)
  {
    hide M.Step;
    if !Overflows(k.img, s) {
      var n: nat :| M.Run(k.img, s, n) == M.Running(t);
      OverflowBefore(k.img, s, n, t);
    }
  }
}
