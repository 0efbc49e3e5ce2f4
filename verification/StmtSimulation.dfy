/** Forward simulation of statements, with the discipline of the local slots. */
module StmtSimulation {
  import opened Bytes
  import opened Values
  import opened Syntax
  import opened CodeGen
  import opened Patching
  import opened Runs
  import opened ExprSimulation
  import opened S = Semantics
  import M = Machine

  // ----- what the compiler's own checks do not rule out -----

  /** Control never reaches the end of `s`: every path leaves by a return or a break. */
  predicate Leaves(s: Stmt)
    decreases s, 1
  {
    match s
    case Return(_) => true
    case Break => true
    case Seq(s1, s2) => Leaves(s1) || Leaves(s2)
    case If(_, thn, Some(els)) => Leaves(thn) && Leaves(els)
    case IfLet(_, _, thn, Some(els)) => Leaves(thn) && Leaves(els)
    case Switch(_, cases) => AllLeave(cases)
    case _ => false
  }

  predicate AllLeave(cases: Cases)
    decreases cases, 0
  {
    match cases
    case NoCase => false
    case Default(body) => Leaves(body)
    case Case(_, body, rest) => Leaves(body) && AllLeave(rest)
  }

  /** Two conditions that the compiler does not check. A `break` stands where no local has been
    * declared since its loop body was entered with `base` locals. A clause body whose last byte looks
    * like a return does end in one. */
  predicate Careful(s: Stmt, ctx: Ctx, base: Option<nat>)
    decreases s, 1
  {
    match s
    case Seq(s1, s2) => Careful(s1, ctx, base) && Careful(s2, After(s1, ctx), base)
    case If(_, thn, els) => Careful(thn, ctx, base) && CarefulElse(els, AfterBlock(thn, ctx), base)
    case IfLet(x, _, thn, els) =>
      Careful(thn, BindIfLet(x, ctx), base)
      && CarefulElse(els, AfterBlock(thn, BindIfLet(x, ctx)).(locals := ctx.locals), base)
    case While(_, body) => Careful(body, ctx, Some(|ctx.locals|))
    case ForIn(x, _, _, _, body) =>
      var inner := ReserveBound(BindLoopVar(x, ctx));
      Careful(body, inner, Some(|inner.locals|))
    case Switch(_, cases) => CarefulCases(cases, ctx, base)
    case Break => base == Some(|ctx.locals|)
    case _ => true
  }

  predicate CarefulElse(els: Option<Stmt>, ctx: Ctx, base: Option<nat>)
    decreases els, 2
  {
    els.Some? ==> Careful(els.value, ctx, base)
  }

  predicate CarefulCases(cases: Cases, ctx: Ctx, base: Option<nat>)
    decreases cases, 0
  {
    match cases
    case NoCase => true
    case Default(body) => Careful(body, ctx, base) && (LastByteReturns(StmtCode(body, ctx, None)) ==> Leaves(body))
    case Case(_, body, rest) =>
      && Careful(body, ctx, base)
      && (LastByteReturns(StmtCode(body, ctx, None)) ==> Leaves(body))
      && CarefulCases(rest, AfterBlock(body, ctx), base)
  }

  // ----- stacks and slots -----

  /** No two named locals share a name. */
  predicate Tidy(ts: seq<Sym>) {
    forall i, j :: 0 <= i < j < |ts| && ts[i].name != "" ==> ts[i].name != ts[j].name
  }

  /** The names of `ts` are the names of `loc`. */
  ghost predicate Keys(ts: seq<Sym>, loc: Locals) {
    forall x :: x in loc <==> Find(ts, x).Some?
  }

  /** `stack` with the slots from `b` on holding the values of `loc`; unnamed slots are kept. */
  function Refresh(stack: seq<Value>, b: nat, ts: seq<Sym>, loc: Locals): (r: seq<Value>)
    requires b <= |stack|
    ensures |r| == b + |ts|
  {
    stack[..b] + seq(|ts|, i requires 0 <= i < |ts| =>
      if ts[i].name in loc then Imm(loc[ts[i].name])
      else if b + i < |stack| then stack[b + i]
      else Imm(Nil))
  }

  /** `s` further on, with another stack and another world. */
  ghost function Became(k: Linked, s: M.State, pc: nat, stack: seq<Value>, w: World): M.State {
    s.(pc := pc, stack := stack, globals := Slots(k, w), out := w.out)
  }

  /** A statement boundary: the frame holds exactly the live locals, in order, from slot `b` on. */
  ghost predicate Settled(k: Linked, ctx: Ctx, loc: Locals, w: World, s: M.State, b: nat) {
    && Agrees(k, ctx, loc, w, s)
    && |s.stack| == b + |ctx.locals|
    && (if ctx.inFn then b == s.fp && |s.frames| > 0 else s.frames == [])
    && Tidy(ctx.locals)
  }

  /** How a statement started in `s` ends: at `end` with the locals `ts`, at the target of its breaks
    * with the locals `ts0` of its start, out of the function, with an error, or still running. */
  ghost predicate Ends(k: Linked, s: M.State, b: nat, ts: seq<Sym>, end: int, brk: Option<int>, ts0: seq<Sym>,
                       o: Outcome, fuel: nat) {
    b <= |s.stack| &&
    match o
    case Normal(loc, w) =>
      Keys(ts, loc) && 0 <= end && Reaches(k.img, s, Became(k, s, end, Refresh(s.stack, b, ts, loc), w))
    case Broke(loc, w) =>
      brk.Some? && 0 <= brk.value && Keys(ts0, loc)
      && Reaches(k.img, s, Became(k, s, brk.value, Refresh(s.stack, b, ts0, loc), w))
    case Returned(v, w) =>
      |s.frames| > 0 && s.fp == b && Reaches(k.img, s, LeftWith(k, s, v, w))
    case Failed(err, w) => Halts(k.img, s, err, Slots(k, w), w.out)
    case OutOfFuel => RunsFor(k.img, s, fuel)
  }

  /** The stacks agree below `b` and in the unnamed slots of `ts`. */
  predicate SameUnder(a: seq<Value>, c: seq<Value>, b: nat, ts: seq<Sym>) {
    && b <= |a| && b <= |c| && a[..b] == c[..b]
    && forall i :: 0 <= i < |ts| && ts[i].name == "" ==> b + i < |a| && b + i < |c| && a[b + i] == c[b + i]
  }

  lemma {:induction false} RefreshSame(a: seq<Value>, c: seq<Value>, b: nat, ts: seq<Sym>, loc: Locals)
    requires SameUnder(a, c, b, ts) && Keys(ts, loc)
    ensures Refresh(a, b, ts, loc) == Refresh(c, b, ts, loc)
  {
    var ra, rc := Refresh(a, b, ts, loc), Refresh(c, b, ts, loc);
    forall j | b <= j < b + |ts|
      ensures ra[j] == rc[j]
    {
      var i := j - b;
      if ts[i].name != "" {
        assert Find(ts, ts[i].name).Some?;
      }
    }
    assert ra[..b] == rc[..b];
  }

  /** What a refreshed stack holds at each place. */
  lemma {:induction false} RefreshAt(stack: seq<Value>, b: nat, ts: seq<Sym>, loc: Locals, j: nat)
    requires b <= |stack| && j < b + |ts|
    ensures Refresh(stack, b, ts, loc)[j]
         == if j < b then stack[j]
            else if ts[j - b].name in loc then Imm(loc[ts[j - b].name])
            else if j < |stack| then stack[j]
            else Imm(Nil)
  {
  }

  /** In a settled state the stack already is its own refreshment. */
  lemma {:induction false} RefreshSettled(k: Linked, ctx: Ctx, loc: Locals, w: World, s: M.State, b: nat)
    requires Settled(k, ctx, loc, w, s, b)
    ensures Refresh(s.stack, b, ctx.locals, loc) == s.stack
    ensures Keys(ctx.locals, loc)
  {
    hide Slots, Refresh, AllImmediate, Tidy;
    var ts, r := ctx.locals, Refresh(s.stack, b, ctx.locals, loc);
    forall j | 0 <= j < |r|
      ensures r[j] == s.stack[j]
    {
      RefreshAt(s.stack, b, ts, loc, j);
      if j >= b && ts[j - b].name in loc {
        TidyFind(ts, j - b);
        assert ctx.inFn;
      }
    }
  }

  lemma {:induction false} TidyFind(ts: seq<Sym>, i: nat)
    requires Tidy(ts) && i < |ts| && ts[i].name != ""
    ensures Find(ts, ts[i].name) == Some(i)
  {
    assert Find(ts, ts[i].name).Some?;
  }

  /** Boundaries lead to boundaries. */
  lemma {:induction false} BecameSettled(k: Linked, ctx: Ctx, loc: Locals, w: World, s: M.State, b: nat,
                      ctx': Ctx, loc': Locals, w': World, pc: nat)
    requires Settled(k, ctx, loc, w, s, b)
    requires ctx'.inFn == ctx.inFn && (!ctx'.inFn ==> ctx'.locals == []) && Tidy(ctx'.locals) && Keys(ctx'.locals, loc')
    ensures Settled(k, ctx', loc', w', Became(k, s, pc, Refresh(s.stack, b, ctx'.locals, loc'), w'), b)
  {
    var t := Became(k, s, pc, Refresh(s.stack, b, ctx'.locals, loc'), w');
    forall x | x in loc'
      ensures t.stack[t.fp + Find(ctx'.locals, x).value] == Imm(loc'[x])
    {
      assert ctx'.inFn;
    }
  }

  /** A run from `t` that ends somewhere is a run from `s` that ends there. */
  lemma {:induction false} LiftEnds(k: Linked, s: M.State, t: M.State, b: nat, ts: seq<Sym>, end: int, brk: Option<int>, ts0: seq<Sym>,
                 o: Outcome, fuel: nat, pc: nat, w: World)
    requires Reaches(k.img, s, t) && t == Became(k, s, pc, t.stack, w)
    requires SameUnder(t.stack, s.stack, b, ts) && SameUnder(t.stack, s.stack, b, ts0)
    requires Ends(k, t, b, ts, end, brk, ts0, o, fuel)
    ensures Ends(k, s, b, ts, end, brk, ts0, o, fuel)
  {
    hide M.Run, Reaches, Halts, RunsFor, Slots, Refresh;
    match o {
      case Normal(loc, w') =>
        RefreshSame(t.stack, s.stack, b, ts, loc);
        ReachThen(k.img, s, t, Became(k, t, end, Refresh(t.stack, b, ts, loc), w'));
      case Broke(loc, w') =>
        RefreshSame(t.stack, s.stack, b, ts0, loc);
        ReachThen(k.img, s, t, Became(k, t, brk.value, Refresh(t.stack, b, ts0, loc), w'));
      case Returned(v, w') => ReachThen(k.img, s, t, LeftWith(k, t, v, w'));
      case Failed(err, w') => ReachThenHalt(k.img, s, t, err, Slots(k, w'), w'.out);
      case OutOfFuel => ReachThenRun(k.img, s, t, fuel);
    }
  }

  // ----- tables along a statement -----

  lemma {:induction false} AfterTidy(s: Stmt, ctx: Ctx, inLoop: bool, inSwitch: bool)
    requires StmtOk(s, ctx, inLoop, inSwitch) && Tidy(ctx.locals) && |ctx.locals| <= MAX_LOCALS
    ensures Tidy(After(s, ctx).locals) && |After(s, ctx).locals| <= MAX_LOCALS
    ensures forall i :: |ctx.locals| <= i < |After(s, ctx).locals| ==> After(s, ctx).locals[i].name != ""
    decreases s
  {
    match s {
      case Seq(s1, s2) =>
        AfterTidy(s1, ctx, inLoop, inSwitch);
        AfterTidy(s2, After(s1, ctx), inLoop, inSwitch);
      case _ =>
    }
  }

  lemma {:induction false} TidyAdd(ts: seq<Sym>, y: Sym)
    requires Tidy(ts) && (y.name == "" || Find(ts, y.name).None?)
    ensures Tidy(ts + [y])
  {
    var r := ts + [y];
    forall i, j | 0 <= i < j < |r| && r[i].name != ""
      ensures r[i].name != r[j].name
    {
    }
  }

  lemma {:induction false} FindAdd(ts: seq<Sym>, y: Sym, x: Name)
    ensures Find(ts + [y], x)
         == if Find(ts, x).Some? then Find(ts, x)
            else if x != "" && y.name == x then Some(|ts|)
            else None
  {
    var r := ts + [y];
    if Find(ts, x).Some? {
      FindPrefix(ts, r, x);
    } else if x != "" {
      assert forall j :: 0 <= j < |ts| ==> r[j] == ts[j];
      assert r[|ts|] == y;
    }
  }

  lemma {:induction false} KeysAdd(ts: seq<Sym>, y: Sym, loc: Locals, v: Immediate)
    requires Keys(ts, loc) && y.name != ""
    ensures Keys(ts + [y], loc[y.name := v])
  {
    forall x
      ensures x in loc[y.name := v] <==> Find(ts + [y], x).Some?
    {
      FindAdd(ts, y, x);
    }
  }

  // ----- the statement of the simulation -----

  /** Where the free breaks of a statement at `pc` go; None when a break would leave locals behind. */
  function Target(base: Option<nat>, brk: Option<int>, ctx: Ctx, pc: nat): Option<int> {
    if base == Some(|ctx.locals|) && brk.Some? then Some(pc + brk.value) else None
  }

  /** `s` is part of the program, compiled with the tables `ctx`. */
  ghost predicate Static(k: Linked, s: Stmt, ctx: Ctx, base: Option<nat>, inSwitch: bool) {
    && Placed(k) && InCtx(k, ctx) && After(s, ctx).globals <= k.table
    && StmtOk(s, ctx, base.Some?, inSwitch) && Careful(s, ctx, base)
  }

  /** `s` has been compiled with the tables `ctx`, its code is at the pc of `st`, and `st` is the
    * statement boundary before it. */
  ghost predicate Poised(k: Linked, s: Stmt, ctx: Ctx, base: Option<nat>, inSwitch: bool, brk: Option<int>,
                         loc: Locals, w: World, fuel: nat, st: M.State, b: nat) {
    && Static(k, s, ctx, base, inSwitch) && CallsSimulated(k, fuel)
    && (base.Some? ==> base.value <= |ctx.locals| && brk.Some? && 0 <= st.pc + brk.value <= |k.img.code|)
    && CodeAt(k.img.code, st.pc, StmtCode(s, ctx, brk))
    && Settled(k, ctx, loc, w, st, b)
  }

  ghost predicate Done(k: Linked, s: Stmt, ctx: Ctx, base: Option<nat>, brk: Option<int>, st: M.State, b: nat,
                       o: Outcome, fuel: nat) {
    Ends(k, st, b, After(s, ctx).locals, st.pc + |StmtCode(s, ctx, brk)|,
         Target(base, brk, ctx, st.pc), ctx.locals, o, fuel)
  }

  // ----- statements without a body -----

  lemma {:induction false} SimDeclare(k: Linked, s: Stmt, ctx: Ctx, base: Option<nat>, inSwitch: bool, brk: Option<int>,
                   loc: Locals, w: World, fuel: nat, st: M.State, b: nat)
    requires Poised(k, s, ctx, base, inSwitch, brk, loc, w, fuel, st, b) && s.Declare?
    ensures Done(k, s, ctx, base, brk, st, b, Exec(k.fs, ctx.inFn, s, loc, w, fuel), fuel)
  {
    hide M.Run, M.Step, Reaches, Halts, RunsFor, CallsSimulated, ExprCode, Eval, ExprOk, CodeAt, Slots, Careful,
         Agrees, Placed, InCtx, Keys, Refresh, Tidy;
    var Declare(isLet, x, e) := s;
    var c := ExprCode(e, ctx);
    var store: seq<Byte> := if ctx.inFn then [] else [0x22, |ctx.globals| % 0x100];
    CodeSplit(k.img.code, st.pc, c, store);
    SimExpr(k, ctx, e, loc, w, fuel, st);
    match Eval(k.fs, e, loc, w, fuel) {
      case Bad(err, w1) =>
      case Timeout =>
      case Val(v, w1) =>
        RefreshSettled(k, ctx, loc, w, st, b);
        if ctx.inFn {
          KeysAdd(ctx.locals, Sym(x, isLet), loc, v);
          RefreshDeclared(st.stack, b, ctx.locals, Sym(x, isLet), loc, v);
        } else {
          DefinedGlobal(k, s, ctx, st, |c|, v, w1);
        }
    }
  }

  /** The value on top of the stack becomes the next global. */
  lemma {:induction false} DefinedGlobal(k: Linked, s: Stmt, ctx: Ctx, st: M.State, n: nat, v: Immediate, w1: World)
    requires Placed(k) && s.Declare? && !ctx.inFn && After(s, ctx).globals <= k.table
    requires Reaches(k.img, st, Past(k, st, n, [Imm(v)], w1))
    requires CodeAt(k.img.code, st.pc + n, [0x22, |ctx.globals| % 0x100])
    ensures Reaches(k.img, st, Became(k, st, st.pc + n + 2, st.stack, SetGlobal(w1, s.x, v)))
  {
    hide M.Run, M.Step, Reaches, CodeAt, Slots;
    var t, i := Past(k, st, n, [Imm(v)], w1), |ctx.globals|;
    assert k.table[i] == After(s, ctx).globals[i];
    SlotUpdate(k, i, w1, v);
    GlobalPlain(k, i, w1, t);
    StepDefineGlobal(k.img, t, i);
    assert M.Dropped(t, 1) == st.stack;
    ReachThen(k.img, st, t, Became(k, st, st.pc + n + 2, st.stack, SetGlobal(w1, s.x, v)));
  }

  /** Declaring a local turns the value on top of the stack into its slot. */
  lemma {:induction false} RefreshDeclared(stack: seq<Value>, b: nat, ts: seq<Sym>, y: Sym, loc: Locals, v: Immediate)
    requires |stack| == b + |ts| && Refresh(stack, b, ts, loc) == stack && Find(ts, y.name).None? && y.name != ""
    ensures Refresh(stack, b, ts + [y], loc[y.name := v]) == stack + [Imm(v)]
  {
    hide Refresh;
    var r := Refresh(stack, b, ts + [y], loc[y.name := v]);
    forall j | 0 <= j < |r|
      ensures r[j] == (stack + [Imm(v)])[j]
    {
      RefreshAt(stack, b, ts + [y], loc[y.name := v], j);
      if b <= j < |stack| {
        RefreshAt(stack, b, ts, loc, j);
        assert ts[j - b].name != y.name;
      }
    }
  }

  lemma {:induction false} GlobalPlain(k: Linked, i: nat, w: World, t: M.State)
    requires Placed(k) && i < |k.table| && t.globals == Slots(k, w)
    ensures PlainGlobal(t, i) && i % 0x100 == i
    ensures t.globals[i] == if k.table[i].name in w.globals then Some(Imm(w.globals[k.table[i].name])) else None
  {
  }

  /** The store of `v`, on top of the stack of `t`, into the variable `x`. */
  lemma {:induction false} SimStore(k: Linked, ctx: Ctx, x: Name, v: Immediate, loc: Locals, w0: World, w: World, st: M.State, b: nat, t: M.State)
    requires Placed(k) && InCtx(k, ctx) && Settled(k, ctx, loc, w0, st, b)
    requires CanAssign(x, ctx) && CodeAt(k.img.code, t.pc, SetCode(x, ctx))
    requires t == Became(k, st, t.pc, st.stack + [Imm(v)], w) && Reaches(k.img, st, t)
    ensures Ends(k, st, b, ctx.locals, t.pc + |SetCode(x, ctx)|, None, ctx.locals, Stored(x, v, loc, w), 0)
    ensures Stored(x, v, loc, w).Normal? || Stored(x, v, loc, w).Failed?
  {
    hide M.Run, M.Step, Reaches, Halts, CodeAt, Slots, Placed, Refresh, AllImmediate, Tidy, Ends;
    match Resolve(x, ctx) {
      case Local(i) => SimStoreLocal(k, ctx, x, v, loc, w0, w, st, b, t, i);
      case Global(i) => SimStoreGlobal(k, ctx, x, v, loc, w0, w, st, b, t, i);
    }
  }

  /** A local that the tables know sits in its slot. */
  lemma {:induction false} LocalSlot(k: Linked, ctx: Ctx, x: Name, loc: Locals, w: World, st: M.State, b: nat, i: nat)
    requires Settled(k, ctx, loc, w, st, b) && ctx.inFn && |ctx.locals| <= MAX_LOCALS && Find(ctx.locals, x) == Some(i)
    ensures x in loc && i % 0x100 == i && st.fp == b && |st.stack| == b + |ctx.locals| && st.stack[b + i] == Imm(loc[x])
    ensures Tidy(ctx.locals) && Keys(ctx.locals, loc)
  {
    hide Slots, AllImmediate, Tidy;
  }

  lemma {:induction false} SimStoreLocal(k: Linked, ctx: Ctx, x: Name, v: Immediate, loc: Locals, w0: World, w: World,
                      st: M.State, b: nat, t: M.State, i: nat)
    requires Settled(k, ctx, loc, w0, st, b) && ctx.inFn && |ctx.locals| <= MAX_LOCALS
    requires Find(ctx.locals, x) == Some(i) && CodeAt(k.img.code, t.pc, [0x24, i % 0x100])
    requires t == Became(k, st, t.pc, st.stack + [Imm(v)], w) && Reaches(k.img, st, t)
    ensures x in loc && Ends(k, st, b, ctx.locals, t.pc + 2, None, ctx.locals, Normal(loc[x := v], w), 0)
  {
    hide M.Run, M.Step, Reaches, Halts, CodeAt, Slots, Refresh, AllImmediate, Tidy, Settled, Keys;
    RefreshSettled(k, ctx, loc, w0, st, b);
    LocalSlot(k, ctx, x, loc, w0, st, b, i);
    assert t.stack[t.fp + i] == Imm(loc[x]);
    StepSetLocal(k.img, t, i, loc[x]);
    RefreshAssigned(st.stack, b, ctx.locals, x, loc, v);
    assert t.stack[t.fp + i := M.Peek(t)][..|t.stack| - 1] == st.stack[b + i := Imm(v)];
    ReachThen(k.img, st, t, Became(k, st, t.pc + 2, Refresh(st.stack, b, ctx.locals, loc[x := v]), w));
    KeysUpdated(ctx.locals, loc, x, v);
  }

  lemma {:induction false} KeysUpdated(ts: seq<Sym>, loc: Locals, x: Name, v: Immediate)
    requires Keys(ts, loc) && x in loc
    ensures Keys(ts, loc[x := v])
  {
    hide Find;
    assert forall y :: y in loc[x := v] <==> y in loc;
  }

  lemma {:induction false} SimStoreGlobal(k: Linked, ctx: Ctx, x: Name, v: Immediate, loc: Locals, w0: World, w: World,
                       st: M.State, b: nat, t: M.State, i: nat)
    requires Placed(k) && InCtx(k, ctx) && Settled(k, ctx, loc, w0, st, b) && x !in loc
    requires Find(ctx.globals, x) == Some(i) && CodeAt(k.img.code, t.pc, [0x21, i % 0x100])
    requires t == Became(k, st, t.pc, st.stack + [Imm(v)], w) && Reaches(k.img, st, t)
    ensures Ends(k, st, b, ctx.locals, t.pc + 2, None, ctx.locals, Stored(x, v, loc, w), 0)
  {
    hide M.Run, M.Step, Reaches, Halts, CodeAt, Slots, Refresh, Agrees, Tidy, Keys;
    RefreshSettled(k, ctx, loc, w0, st, b);
    GlobalSlot(k, ctx, x, w);
    GlobalPlain(k, i, w, t);
    StepSetGlobal(k.img, t, i);
    assert M.Dropped(t, 1) == st.stack;
    if x in w.globals {
      SlotUpdate(k, i, w, v);
      ReachThen(k.img, st, t, Became(k, st, t.pc + 2, st.stack, SetGlobal(w, x, v)));
    } else {
      ReachThenHalt(k.img, st, t, M.BadOpcode, t.globals, t.out);
    }
  }

  lemma {:induction false} RefreshAssigned(stack: seq<Value>, b: nat, ts: seq<Sym>, x: Name, loc: Locals, v: Immediate)
    requires |stack| == b + |ts| && Refresh(stack, b, ts, loc) == stack && Tidy(ts) && Find(ts, x).Some?
    ensures Refresh(stack, b, ts, loc[x := v]) == stack[b + Find(ts, x).value := Imm(v)]
  {
    hide Refresh;
    var i := Find(ts, x).value;
    var r := Refresh(stack, b, ts, loc[x := v]);
    forall j | 0 <= j < |stack|
      ensures r[j] == stack[b + i := Imm(v)][j]
    {
      RefreshAt(stack, b, ts, loc, j);
      RefreshAt(stack, b, ts, loc[x := v], j);
      assert ts[i].name == x != "" && (j >= b && j - b != i ==> ts[j - b].name != x);
    }
  }

  lemma {:induction false} SimAssign(k: Linked, s: Stmt, ctx: Ctx, base: Option<nat>, inSwitch: bool, brk: Option<int>,
                  loc: Locals, w: World, fuel: nat, st: M.State, b: nat)
    requires Poised(k, s, ctx, base, inSwitch, brk, loc, w, fuel, st, b) && s.Assign?
    ensures Done(k, s, ctx, base, brk, st, b, Exec(k.fs, ctx.inFn, s, loc, w, fuel), fuel)
  {
    hide M.Run, M.Step, Reaches, Halts, RunsFor, CallsSimulated, ExprCode, Eval, ExprOk, CodeAt, Slots, Careful,
         SetCode, Stored, Agrees, Placed, InCtx, Keys, Refresh, Tidy, CanAssign, AfterBlock;
    var Assign(x, e) := s;
    var c := ExprCode(e, ctx);
    CodeSplit(k.img.code, st.pc, c, SetCode(x, ctx));
    SimExpr(k, ctx, e, loc, w, fuel, st);
    match Eval(k.fs, e, loc, w, fuel) {
      case Bad(err, w1) =>
      case Timeout =>
      case Val(v, w1) => SimStore(k, ctx, x, v, loc, w, w1, st, b, Past(k, st, |c|, [Imm(v)], w1));
    }
  }

  lemma {:induction false} SimCompound(k: Linked, s: Stmt, ctx: Ctx, base: Option<nat>, inSwitch: bool, brk: Option<int>,
                    loc: Locals, w: World, fuel: nat, st: M.State, b: nat)
    requires Poised(k, s, ctx, base, inSwitch, brk, loc, w, fuel, st, b) && s.Compound?
    ensures Done(k, s, ctx, base, brk, st, b, Exec(k.fs, ctx.inFn, s, loc, w, fuel), fuel)
  {
    hide M.Run, M.Step, Reaches, Halts, RunsFor, CallsSimulated, ExprCode, Eval, ExprOk, CodeAt, Slots, Careful,
         SetCode, GetCode, Stored, Apply, Agrees, OpByte, Read, Placed, InCtx, Keys, Refresh, Tidy, Distinct,
         CanAssign;
    var Compound(op, x, e) := s;
    var cg, c, cs := GetCode(x, ctx), ExprCode(e, ctx), SetCode(x, ctx);
    var co := [OpByte(Arith(op))];
    CodeSplit3(k.img.code, st.pc, cg, c, co + cs);
    CodeSplit(k.img.code, st.pc + |cg| + |c|, co, cs);
    Assignable(x, ctx);
    SimGet(k, ctx, x, loc, w, st);
    match Read(x, loc, w) {
      case Bad(err, w1) =>
      case Val(a, w1) =>
        var t := Past(k, st, |cg|, [Imm(a)], w1);
        AgreesPast(k, ctx, loc, w, st, |cg|, [Imm(a)], w1);
        SimExpr(k, ctx, e, loc, w1, fuel, t);
        match Eval(k.fs, e, loc, w1, fuel) {
          case Bad(err, w2) => ReachThenHalt(k.img, st, t, err, Slots(k, w2), w2.out);
          case Timeout => ReachThenRun(k.img, st, t, fuel);
          case Val(v, w2) => SimCombined(k, ctx, op, x, loc, w, st, b, |cg|, |c|, a, v, w1, w2);
        }
    }
  }

  lemma {:induction false} Assignable(x: Name, ctx: Ctx)
    requires CanAssign(x, ctx)
    ensures NameOk(x) && !Resolve(x, ctx).Nowhere?
  {
  }

  /** The operator and the store of a compound assignment, both operands being known. */
  lemma {:induction false} SimCombined(k: Linked, ctx: Ctx, op: M.ArithOp, x: Name, loc: Locals, w: World, st: M.State, b: nat,
                                       ng: nat, n: nat, a: Immediate, v: Immediate, w1: World, w2: World)
    requires Placed(k) && InCtx(k, ctx) && Settled(k, ctx, loc, w, st, b) && CanAssign(x, ctx)
    requires var t := Past(k, st, ng, [Imm(a)], w1); Reaches(k.img, st, t) && Reaches(k.img, t, Past(k, t, n, [Imm(v)], w2))
    requires CodeAt(k.img.code, st.pc + ng + n, [OpByte(Arith(op))]) && CodeAt(k.img.code, st.pc + ng + n + 1, SetCode(x, ctx))
    ensures Ends(k, st, b, ctx.locals, st.pc + ng + n + 1 + |SetCode(x, ctx)|, None, ctx.locals,
                 match Apply(Arith(op), a, v, w2)
                 case Val(r, w3) => Stored(x, r, loc, w3)
                 case Bad(err, w3) => Failed(err, w3)
                 case Timeout => OutOfFuel, 0)
    ensures var r := Apply(Arith(op), a, v, w2);
            !r.Timeout? && (r.Val? ==> Stored(x, r.v, loc, r.w).Normal? || Stored(x, r.v, loc, r.w).Failed?)
  {
    hide M.Run, M.Step, Reaches, Halts, CodeAt, Slots, SetCode, Stored, Apply, Agrees, OpByte, Placed, InCtx, Keys, Refresh, Tidy,
         CanAssign;
    var t := Past(k, st, ng, [Imm(a)], w1);
    var u := Past(k, t, n, [Imm(v)], w2);
    ReachThen(k.img, st, t, u);
    assert M.Dropped(u, 2) == st.stack;
    StepBin(k.img, u, Arith(op), a, v, w2);
    match Apply(Arith(op), a, v, w2) {
      case Bad(err, _) => ReachThenHalt(k.img, st, u, err, u.globals, u.out);
      case Val(r, _) =>
        var z := Became(k, st, st.pc + ng + n + 1, st.stack + [Imm(r)], w2);
        ReachThen(k.img, st, u, z);
        SimStore(k, ctx, x, r, loc, w, w2, st, b, z);
    }
  }

  lemma {:induction false} SimDo(k: Linked, s: Stmt, ctx: Ctx, base: Option<nat>, inSwitch: bool, brk: Option<int>,
              loc: Locals, w: World, fuel: nat, st: M.State, b: nat)
    requires Poised(k, s, ctx, base, inSwitch, brk, loc, w, fuel, st, b) && s.Do?
    ensures Done(k, s, ctx, base, brk, st, b, Exec(k.fs, ctx.inFn, s, loc, w, fuel), fuel)
  {
    hide M.Run, M.Step, Reaches, Halts, RunsFor, CallsSimulated, ExprCode, Eval, ExprOk, CodeAt, Slots, Careful,
         Agrees, Placed, InCtx, Keys, Refresh, Tidy;
    var c := ExprCode(s.e, ctx);
    CodeSplit(k.img.code, st.pc, c, [0x10]);
    SimExpr(k, ctx, s.e, loc, w, fuel, st);
    RefreshSettled(k, ctx, loc, w, st, b);
    match Eval(k.fs, s.e, loc, w, fuel) {
      case Bad(err, w1) =>
      case Timeout =>
      case Val(v, w1) =>
        var t := Past(k, st, |c|, [Imm(v)], w1);
        assert M.Dropped(t, 1) == st.stack;
        StepPop(k.img, t, v);
        ReachThen(k.img, st, t, Became(k, st, st.pc + |c| + 1, st.stack, w1));
    }
  }

  lemma {:induction false} PrintedText(h: Heap, vs: seq<Immediate>)
    ensures LineText(h, Imms(vs)) == Text(vs)
    decreases |vs|
  {
    if vs != [] {
      assert Imms(vs)[1..] == Imms(vs[1..]);
      PrintedText(h, vs[1..]);
    }
  }

  lemma {:induction false} SimPrint(k: Linked, s: Stmt, ctx: Ctx, base: Option<nat>, inSwitch: bool, brk: Option<int>,
                 loc: Locals, w: World, fuel: nat, st: M.State, b: nat)
    requires Poised(k, s, ctx, base, inSwitch, brk, loc, w, fuel, st, b) && s.Print?
    ensures Done(k, s, ctx, base, brk, st, b, Exec(k.fs, ctx.inFn, s, loc, w, fuel), fuel)
  {
    hide M.Run, M.Step, Reaches, Halts, RunsFor, CallsSimulated, ExprsCode, EvalList, ExprsOk, CodeAt, Slots, Careful,
         Placed, InCtx, Keys, Refresh, Tidy, Text, LocalsAgree;
    var argc := Count(s.args);
    var c := ExprsCode(s.args, ctx);
    assert StmtCode(s, ctx, brk) == c + ([0x63, M.BUILTIN_PRINT, argc] + [0x10]);
    CodeSplit(k.img.code, st.pc, c, [0x63, M.BUILTIN_PRINT, argc] + [0x10]);
    CodeSplit(k.img.code, st.pc + |c|, [0x63, M.BUILTIN_PRINT, argc], [0x10]);
    SimList(k, ctx, s.args, loc, w, fuel, st);
    RefreshSettled(k, ctx, loc, w, st, b);
    match EvalList(k.fs, s.args, loc, w, fuel) {
      case BadList(err, w1) =>
      case TimeoutList =>
      case Vals(vs, w1) =>
        PrintDone(k, st, |c|, vs, w1);
    }
  }

  /** The call of `print` with the values `vs` on the stack, and the pop of its result. */
  lemma {:induction false} PrintDone(k: Linked, st: M.State, n: nat, vs: seq<Immediate>, w1: World)
    requires |vs| <= 255 && AllImmediate(st.stack) && Reaches(k.img, st, Past(k, st, n, Imms(vs), w1))
    requires CodeAt(k.img.code, st.pc + n, [0x63, M.BUILTIN_PRINT, |vs|]) && CodeAt(k.img.code, st.pc + n + 3, [0x10])
    ensures Reaches(k.img, st, Became(k, st, st.pc + n + 4, st.stack, w1.(out := w1.out + [Text(vs)])))
  {
    hide M.Run, M.Step, Reaches, CodeAt, Slots, Text;
    var t := Past(k, st, n, Imms(vs), w1);
    assert t.stack[|t.stack| - |vs|..] == Imms(vs) && M.Dropped(t, |vs|) == st.stack;
    PrintedText(t.heap, vs);
    StepPrint(k.img, t, |vs|);
    var w2 := w1.(out := w1.out + [Text(vs)]);
    SlotsOfGlobals(k, w1, w2);
    var u := Became(k, st, st.pc + n + 3, st.stack + [Imm(Nil)], w2);
    ReachThen(k.img, st, t, u);
    assert M.Dropped(u, 1) == st.stack;
    StepPop(k.img, u, Nil);
    ReachThen(k.img, st, u, Became(k, st, st.pc + n + 4, st.stack, w2));
  }

  lemma {:induction false} SlotsOfGlobals(k: Linked, w1: World, w2: World)
    requires w1.globals == w2.globals
    ensures Slots(k, w1) == Slots(k, w2)
  {
  }

  lemma {:induction false} SimReturn(k: Linked, s: Stmt, ctx: Ctx, base: Option<nat>, inSwitch: bool, brk: Option<int>,
                  loc: Locals, w: World, fuel: nat, st: M.State, b: nat)
    requires Poised(k, s, ctx, base, inSwitch, brk, loc, w, fuel, st, b) && s.Return?
    ensures Done(k, s, ctx, base, brk, st, b, Exec(k.fs, ctx.inFn, s, loc, w, fuel), fuel)
  {
    hide M.Run, M.Step, Reaches, Halts, RunsFor, CallsSimulated, ExprCode, Eval, ExprOk, CodeAt, Slots, Careful,
         Placed, InCtx, Keys, Refresh, Tidy, LocalsAgree;
    match s.result {
      case None => StepReturnVoid(k.img, st);
      case Some(e) =>
        var c := ExprCode(e, ctx);
        CodeSplit(k.img.code, st.pc, c, [0x61]);
        SimExpr(k, ctx, e, loc, w, fuel, st);
        match Eval(k.fs, e, loc, w, fuel) {
          case Bad(err, w1) =>
          case Timeout =>
          case Val(v, w1) =>
            var t := Past(k, st, |c|, [Imm(v)], w1);
            StepReturn(k.img, t, v);
            assert t.stack[..t.fp] == st.stack[..st.fp];
            ReachThen(k.img, st, t, LeftWith(k, st, v, w1));
        }
    }
  }

  lemma {:induction false} SimBreak(k: Linked, s: Stmt, ctx: Ctx, base: Option<nat>, inSwitch: bool, brk: Option<int>,
                 loc: Locals, w: World, fuel: nat, st: M.State, b: nat)
    requires Poised(k, s, ctx, base, inSwitch, brk, loc, w, fuel, st, b) && s.Break?
    ensures Done(k, s, ctx, base, brk, st, b, Exec(k.fs, ctx.inFn, s, loc, w, fuel), fuel)
  {
    hide M.Run, M.Step, Reaches, Halts, CallsSimulated, CodeAt, Slots, InCtx, Keys, Refresh, Tidy, LocalsAgree, Distinct;
    RefreshSettled(k, ctx, loc, w, st, b);
    StepJump(k.img, st, brk.value - 3);
  }

  // ----- blocks -----

  lemma {:induction false} PopsRun(img: M.Image, s: M.State, n: nat)
    requires CodeAt(img.code, s.pc, Pops(n)) && n <= |s.stack| && AllImmediate(s.stack)
    ensures Reaches(img, s, s.(pc := s.pc + n, stack := M.Dropped(s, n)))
    decreases n
  {
    hide M.Run, M.Step, Reaches, CodeAt;
    if n == 0 {
      assert M.Dropped(s, 0) == s.stack;
      ReachSelf(img, s);
    } else {
      assert Pops(n) == [0x10] + Pops(n - 1);
      CodeSplit(img.code, s.pc, [0x10], Pops(n - 1));
      StepPop(img, s, M.Peek(s).v);
      var t := s.(pc := s.pc + 1, stack := M.Dropped(s, 1));
      PopsRun(img, t, n - 1);
      assert M.Dropped(t, n - 1) == M.Dropped(s, n);
      ReachThen(img, s, t, s.(pc := s.pc + n, stack := M.Dropped(s, n)));
    }
  }

  /** The pops at the end of a block leave the slots of the enclosing block. */
  lemma {:induction false} RefreshNarrow(stack: seq<Value>, b: nat, ts: seq<Sym>, loc: Locals, outer: seq<Sym>, loc0: Locals)
    requires b <= |stack| && Keys(ts, loc) && outer <= ts && Keys(outer, loc0)
    ensures Refresh(stack, b, ts, loc)[..b + |outer|] == Refresh(stack, b, outer, Narrow(loc, loc0))
    ensures Keys(outer, Narrow(loc, loc0))
  {
    forall x | x in loc0
      ensures x in loc
    {
      FindPrefix(outer, ts, x);
    }
    var q, r := Refresh(stack, b, ts, loc), Refresh(stack, b, outer, Narrow(loc, loc0));
    forall j | b <= j < b + |outer|
      ensures q[j] == r[j]
    {
      var y := outer[j - b];
      assert ts[j - b] == y;
      if y.name != "" {
        assert Find(outer, y.name).Some?;
      }
    }
  }

  lemma {:induction false} RefreshImmediate(stack: seq<Value>, b: nat, ts: seq<Sym>, loc: Locals)
    requires b <= |stack| && AllImmediate(stack)
    ensures AllImmediate(Refresh(stack, b, ts, loc)) && Refresh(stack, b, ts, loc)[..b] == stack[..b]
  {
  }

  /** From the end of a statement to the end of the block it fills. */
  lemma {:induction false} BlockEnds(k: Linked, s: Stmt, ctx: Ctx, m: nat, loc0: Locals, base: Option<nat>, brk: Option<int>,
                  st: M.State, b: nat, o: Outcome, fuel: nat)
    requires m <= |ctx.locals| && Keys(ctx.locals[..m], loc0) && AllImmediate(st.stack)
    requires CodeAt(k.img.code, st.pc, BlockCode(s, ctx, m, brk)) && Done(k, s, ctx, base, brk, st, b, o, fuel)
    ensures Ends(k, st, b, ctx.locals[..m], st.pc + |BlockCode(s, ctx, m, brk)|, Target(base, brk, ctx, st.pc), ctx.locals,
                 LeaveBlock(o, loc0), fuel)
  {
    hide M.Run, M.Step, Reaches, Halts, RunsFor, CodeAt, Slots, Refresh, StmtCode, Keys, AllImmediate;
    if o.Normal? {
      var c, n := StmtCode(s, ctx, brk), Excess(s, ctx, m);
      var ts := After(s, ctx).locals;
      CodeSplit(k.img.code, st.pc, c, Pops(n));
      var t := Became(k, st, st.pc + |c|, Refresh(st.stack, b, ts, o.loc), o.w);
      RefreshImmediate(st.stack, b, ts, o.loc);
      PopsRun(k.img, t, n);
      assert ctx.locals[..m] <= ts;
      RefreshNarrow(st.stack, b, ts, o.loc, ctx.locals[..m], loc0);
      ReachThen(k.img, st, t, t.(pc := t.pc + n, stack := M.Dropped(t, n)));
    }
  }

  /** Without a pending break the break target does not matter. */
  lemma {:induction false} RetargetEnds(k: Linked, st: M.State, b: nat, ts: seq<Sym>, end: int, brk1: Option<int>, ts1: seq<Sym>,
                     brk2: Option<int>, ts2: seq<Sym>, o: Outcome, fuel: nat)
    requires Ends(k, st, b, ts, end, brk1, ts1, o, fuel)
    requires brk1.Some? ==> brk2 == brk1 && ts1 == ts2
    ensures Ends(k, st, b, ts, end, brk2, ts2, o, fuel)
  {
    hide M.Run, Reaches, Halts, RunsFor;
  }

  lemma {:induction false} SettledFor(k: Linked, ctx: Ctx, ctx': Ctx, loc: Locals, w: World, st: M.State, b: nat)
    requires Settled(k, ctx, loc, w, st, b) && ctx'.locals == ctx.locals && ctx'.inFn == ctx.inFn
    ensures Settled(k, ctx', loc, w, st, b)
  {
  }

  lemma {:induction false} FewerCalls(k: Linked, fuel: nat, fuel': nat)
    requires CallsSimulated(k, fuel) && fuel' <= fuel
    ensures CallsSimulated(k, fuel')
  {
  }

  // ----- the recursion over statements -----

  /** Every statement, run from a boundary that agrees with the evaluator's locals and world, ends the
    * way the evaluator says, at a boundary with the tables after the statement. */
  lemma {:induction false} SimStmt(k: Linked, s: Stmt, ctx: Ctx, base: Option<nat>, inSwitch: bool, brk: Option<int>,
                                   loc: Locals, w: World, fuel: nat, st: M.State, b: nat)
    requires Poised(k, s, ctx, base, inSwitch, brk, loc, w, fuel, st, b)
    ensures Done(k, s, ctx, base, brk, st, b, Exec(k.fs, ctx.inFn, s, loc, w, fuel), fuel)
    decreases fuel, s, 1
  {
    hide *;
    match s {
      case Skip => SimSkip(k, s, ctx, base, inSwitch, brk, loc, w, fuel, st, b);
      case Seq(_, _) => SimSeq(k, s, ctx, base, inSwitch, brk, loc, w, fuel, st, b);
      case Declare(_, _, _) => SimDeclare(k, s, ctx, base, inSwitch, brk, loc, w, fuel, st, b);
      case Assign(_, _) => SimAssign(k, s, ctx, base, inSwitch, brk, loc, w, fuel, st, b);
      case Compound(_, _, _) => SimCompound(k, s, ctx, base, inSwitch, brk, loc, w, fuel, st, b);
      case Do(_) => SimDo(k, s, ctx, base, inSwitch, brk, loc, w, fuel, st, b);
      case Print(_) => SimPrint(k, s, ctx, base, inSwitch, brk, loc, w, fuel, st, b);
      case If(_, _, _) => SimIf(k, s, ctx, base, inSwitch, brk, loc, w, fuel, st, b);
      case IfLet(_, _, _, _) => SimIfLet(k, s, ctx, base, inSwitch, brk, loc, w, fuel, st, b);
      case While(_, _) => SimWhile(k, s, ctx, base, inSwitch, brk, loc, w, fuel, st, b);
      case ForIn(_, _, _, _, _) => SimForIn(k, s, ctx, base, inSwitch, brk, loc, w, fuel, st, b);
      case Switch(_, _) => SimSwitch(k, s, ctx, base, inSwitch, brk, loc, w, fuel, st, b);
      case Break => SimBreak(k, s, ctx, base, inSwitch, brk, loc, w, fuel, st, b);
      case Return(_) => SimReturn(k, s, ctx, base, inSwitch, brk, loc, w, fuel, st, b);
    }
  }

  lemma {:induction false} SimSkip(k: Linked, s: Stmt, ctx: Ctx, base: Option<nat>, inSwitch: bool, brk: Option<int>,
                loc: Locals, w: World, fuel: nat, st: M.State, b: nat)
    requires Poised(k, s, ctx, base, inSwitch, brk, loc, w, fuel, st, b) && s.Skip?
    ensures Done(k, s, ctx, base, brk, st, b, Exec(k.fs, ctx.inFn, s, loc, w, fuel), fuel)
  {
    hide M.Run, M.Step, Reaches, CallsSimulated, Slots, Refresh, Keys, Placed, InCtx, Tidy;
    RefreshSettled(k, ctx, loc, w, st, b);
    ReachSelf(k.img, st);
  }

  lemma {:induction false} SimSeq(k: Linked, s: Stmt, ctx: Ctx, base: Option<nat>, inSwitch: bool, brk: Option<int>,
                                  loc: Locals, w: World, fuel: nat, st: M.State, b: nat)
    requires Poised(k, s, ctx, base, inSwitch, brk, loc, w, fuel, st, b) && s.Seq?
    ensures Done(k, s, ctx, base, brk, st, b, Exec(k.fs, ctx.inFn, s, loc, w, fuel), fuel)
    decreases fuel, s, 0
  {
    hide M.Run, M.Step, Reaches, Halts, RunsFor, CallsSimulated, CodeAt, Slots, Refresh, Keys, Tidy, Placed, Settled, Ends,
         Static, StmtCode, After, Exec, InCtx;
    var Seq(s1, s2) := s;
    var c1 := StmtCode(s1, ctx, brk);
    var ctx1 := After(s1, ctx);
    var brk2 := Shift(brk, |c1|);
    SeqUnfold(s1, s2, ctx, brk);
    SeqExec(k.fs, ctx.inFn, s1, s2, loc, w, fuel);
    SeqStatic(k, s1, s2, ctx, base, inSwitch);
    CodeSplit(k.img.code, st.pc, c1, StmtCode(s2, ctx1, brk2));
    SimStmt(k, s1, ctx, base, inSwitch, brk, loc, w, fuel, st, b);
    var o1 := Exec(k.fs, ctx.inFn, s1, loc, w, fuel);
    if o1.Normal? {
      NamesAdded(k, s1, ctx, base, inSwitch, brk, loc, w, fuel, st, b);
      var t := Became(k, st, st.pc + |c1|, EndStack(k, st, b, ctx1.locals, o1), o1.w);
      SeqMiddle(k, s1, ctx, base, inSwitch, brk, loc, w, fuel, st, b, o1.loc, o1.w);
      SecondNamesAdded(k, s2, ctx1, base, inSwitch);
      SimStmt(k, s2, ctx1, base, inSwitch, brk2, o1.loc, o1.w, fuel, t, b);
      SeqEnd(k, s1, s2, ctx, base, brk, st, b, o1, Exec(k.fs, ctx.inFn, s2, o1.loc, o1.w, fuel), fuel);
    } else {
      EndsAnywhere(k, st, b, ctx1.locals, st.pc + |c1|, Target(base, brk, ctx, st.pc), ctx.locals, o1, fuel,
                   After(s, ctx).locals, st.pc + |StmtCode(s, ctx, brk)|);
    }
  }

  lemma {:induction false} SeqExec(fs: seq<FuncDecl>, inFn: bool, s1: Stmt, s2: Stmt, loc: Locals, w: World, fuel: nat)
    ensures var o := Exec(fs, inFn, s1, loc, w, fuel);
            Exec(fs, inFn, Seq(s1, s2), loc, w, fuel) == if o.Normal? then Exec(fs, inFn, s2, o.loc, o.w, fuel) else o
  {
  }

  lemma {:induction false} SeqStatic(k: Linked, s1: Stmt, s2: Stmt, ctx: Ctx, base: Option<nat>, inSwitch: bool)
    requires Static(k, Seq(s1, s2), ctx, base, inSwitch)
    ensures Static(k, s1, ctx, base, inSwitch)
    ensures InCtx(k, After(s1, ctx)) ==> Static(k, s2, After(s1, ctx), base, inSwitch)
  {
    hide Placed, InCtx, After;
    SeqAfter(s1, s2, ctx, base, inSwitch);
    PrefixTrans(After(s1, ctx).globals, After(s2, After(s1, ctx)).globals, k.table);
  }

  lemma {:induction false} SeqAfter(s1: Stmt, s2: Stmt, ctx: Ctx, base: Option<nat>, inSwitch: bool)
    ensures After(Seq(s1, s2), ctx) == After(s2, After(s1, ctx))
  {
  }

  lemma {:induction false} SecondNamesAdded(k: Linked, s: Stmt, ctx: Ctx, base: Option<nat>, inSwitch: bool)
    requires Static(k, s, ctx, base, inSwitch) && Tidy(ctx.locals)
    ensures forall i :: |ctx.locals| <= i < |After(s, ctx).locals| ==> After(s, ctx).locals[i].name != ""
  {
    hide Placed, After;
    AfterTidy(s, ctx, base.Some?, inSwitch);
  }

  lemma {:induction false} NamesAdded(k: Linked, s: Stmt, ctx: Ctx, base: Option<nat>, inSwitch: bool, brk: Option<int>,
                   loc: Locals, w: World, fuel: nat, st: M.State, b: nat)
    requires Poised(k, s, ctx, base, inSwitch, brk, loc, w, fuel, st, b)
    ensures forall i :: |ctx.locals| <= i < |After(s, ctx).locals| ==> After(s, ctx).locals[i].name != ""
  {
    hide CallsSimulated, CodeAt, StmtCode, Agrees, Placed;
    AfterTidy(s, ctx, base.Some?, inSwitch);
  }

  lemma {:induction false} PrefixTrans(a: seq<Sym>, b: seq<Sym>, c: seq<Sym>)
    requires a <= b <= c
    ensures a <= c
  {
  }

  /** The stack with which `o` ends. */
  function EndStack(k: Linked, st: M.State, b: nat, ts: seq<Sym>, o: Outcome): seq<Value> {
    if o.Normal? && b <= |st.stack| then Refresh(st.stack, b, ts, o.loc) else st.stack
  }

  /** An outcome that is not normal does not depend on where the statement's code ends. */
  lemma {:induction false} EndsAnywhere(k: Linked, st: M.State, b: nat, ts: seq<Sym>, end: int, brk: Option<int>, ts0: seq<Sym>, o: Outcome,
                     fuel: nat, ts': seq<Sym>, end': int)
    requires Ends(k, st, b, ts, end, brk, ts0, o, fuel) && !o.Normal?
    ensures Ends(k, st, b, ts', end', brk, ts0, o, fuel)
  {
    hide M.Run, Reaches, Halts, RunsFor;
  }

  /** The boundary between two statements. */
  lemma {:induction false} SeqMiddle(k: Linked, s1: Stmt, ctx: Ctx, base: Option<nat>, inSwitch: bool, brk: Option<int>,
                  loc: Locals, w: World, fuel: nat, st: M.State, b: nat, loc1: Locals, w1: World)
    requires Poised(k, s1, ctx, base, inSwitch, brk, loc, w, fuel, st, b)
    requires Done(k, s1, ctx, base, brk, st, b, Normal(loc1, w1), fuel)
    ensures |st.stack| == b + |ctx.locals| && "" !in loc1 && Tidy(After(s1, ctx).locals)
    ensures var ctx1 := After(s1, ctx);
            && InCtx(k, ctx1)
            && Settled(k, ctx1, loc1, w1,
                       Became(k, st, st.pc + |StmtCode(s1, ctx, brk)|, Refresh(st.stack, b, ctx1.locals, loc1), w1), b)
  {
    hide M.Run, M.Step, Reaches, CallsSimulated, CodeAt, Slots, Refresh, Placed, Careful, StmtCode;
    AfterTidy(s1, ctx, base.Some?, inSwitch);
    BecameSettled(k, ctx, loc, w, st, b, After(s1, ctx), loc1, w1, st.pc + |StmtCode(s1, ctx, brk)|);
  }

  lemma {:induction false} SeqEnd(k: Linked, s1: Stmt, s2: Stmt, ctx: Ctx, base: Option<nat>, brk: Option<int>, st: M.State, b: nat,
               o1: Outcome, o2: Outcome, fuel: nat)
    requires o1.Normal? && Done(k, s1, ctx, base, brk, st, b, o1, fuel) && |st.stack| == b + |ctx.locals|
    requires base.Some? ==> base.value <= |ctx.locals|
    requires forall i :: |ctx.locals| <= i < |After(s1, ctx).locals| ==> After(s1, ctx).locals[i].name != ""
    requires var ctx1 := After(s1, ctx);
             forall i :: |ctx1.locals| <= i < |After(s2, ctx1).locals| ==> After(s2, ctx1).locals[i].name != ""
    requires "" !in o1.loc
    requires var ctx1 := After(s1, ctx);
             Done(k, s2, ctx1, base, Shift(brk, |StmtCode(s1, ctx, brk)|),
                  Became(k, st, st.pc + |StmtCode(s1, ctx, brk)|, Refresh(st.stack, b, ctx1.locals, o1.loc), o1.w), b, o2, fuel)
    ensures Done(k, Seq(s1, s2), ctx, base, brk, st, b, o2, fuel)
  {
    hide M.Run, M.Step, Reaches, Halts, RunsFor, Slots, Keys, StmtCode, After, Refresh, SameUnder;
    var ctx1 := After(s1, ctx);
    var ctx2 := After(s2, ctx1);
    var c1 := StmtCode(s1, ctx, brk);
    var c2 := StmtCode(s2, ctx1, Shift(brk, |c1|));
    var t := Became(k, st, st.pc + |c1|, Refresh(st.stack, b, ctx1.locals, o1.loc), o1.w);
    var target := Target(base, Shift(brk, |c1|), ctx1, t.pc);
    RefreshedUnder(st.stack, b, ctx, ctx1, ctx2, o1.loc);
    LiftEnds(k, st, t, b, ctx2.locals, t.pc + |c2|, target, ctx1.locals, o2, fuel, t.pc, o1.w);
    RetargetEnds(k, st, b, ctx2.locals, t.pc + |c2|, target, ctx1.locals, Target(base, brk, ctx, st.pc), ctx.locals, o2, fuel);
    SeqUnfold(s1, s2, ctx, brk);
  }

  /** Locals added since all have names, so the unnamed slots are as before. */
  lemma {:induction false} RefreshedUnder(stack: seq<Value>, b: nat, ctx: Ctx, ctx1: Ctx, ctx2: Ctx, loc: Locals)
    requires |stack| == b + |ctx.locals| && "" !in loc && ctx.locals <= ctx1.locals <= ctx2.locals
    requires forall i :: |ctx.locals| <= i < |ctx1.locals| ==> ctx1.locals[i].name != ""
    requires forall i :: |ctx1.locals| <= i < |ctx2.locals| ==> ctx2.locals[i].name != ""
    ensures SameUnder(Refresh(stack, b, ctx1.locals, loc), stack, b, ctx2.locals)
    ensures SameUnder(Refresh(stack, b, ctx1.locals, loc), stack, b, ctx1.locals)
  {
    var r, ts := Refresh(stack, b, ctx1.locals, loc), ctx2.locals;
    forall i | 0 <= i < |ts| && ts[i].name == ""
      ensures i < |ctx.locals| && ts[i] == ctx1.locals[i] && r[b + i] == stack[b + i]
    {
    }
  }

  lemma {:induction false} SeqUnfold(s1: Stmt, s2: Stmt, ctx: Ctx, brk: Option<int>)
    ensures var c1 := StmtCode(s1, ctx, brk);
            StmtCode(Seq(s1, s2), ctx, brk) == c1 + StmtCode(s2, After(s1, ctx), Shift(brk, |c1|))
    ensures After(Seq(s1, s2), ctx) == After(s2, After(s1, ctx))
  {
  }

  /** Like Poised, for a statement that fills a block whose end brings the locals back to `m`. */
  ghost predicate PoisedBlock(k: Linked, s: Stmt, ctx: Ctx, m: nat, base: Option<nat>, inSwitch: bool, brk: Option<int>,
                              loc: Locals, w: World, fuel: nat, st: M.State, b: nat)
  {
    && m <= |ctx.locals|
    && Static(k, s, ctx, base, inSwitch) && CallsSimulated(k, fuel)
    && (base.Some? ==> base.value <= |ctx.locals| && brk.Some? && 0 <= st.pc + brk.value <= |k.img.code|)
    && CodeAt(k.img.code, st.pc, BlockCode(s, ctx, m, brk))
    && Settled(k, ctx, loc, w, st, b)
  }

  lemma {:induction false} SimBlock(k: Linked, s: Stmt, ctx: Ctx, m: nat, loc0: Locals, base: Option<nat>, inSwitch: bool,
                                    brk: Option<int>, loc: Locals, w: World, fuel: nat, st: M.State, b: nat)
    requires PoisedBlock(k, s, ctx, m, base, inSwitch, brk, loc, w, fuel, st, b)
    requires Keys(ctx.locals[..m], loc0)
    ensures Ends(k, st, b, ctx.locals[..m], st.pc + |BlockCode(s, ctx, m, brk)|, Target(base, brk, ctx, st.pc), ctx.locals,
                 LeaveBlock(Exec(k.fs, ctx.inFn, s, loc, w, fuel), loc0), fuel)
    decreases fuel, s, 2
  {
    hide M.Run, M.Step, Reaches, Halts, RunsFor, CallsSimulated, CodeAt, Slots, Refresh, Keys, Tidy, Static, Ends, Exec,
         StmtCode, After, LocalsAgree;
    CodeSplit(k.img.code, st.pc, StmtCode(s, ctx, brk), Pops(Excess(s, ctx, m)));
    SimStmt(k, s, ctx, base, inSwitch, brk, loc, w, fuel, st, b);
    BlockEnds(k, s, ctx, m, loc0, base, brk, st, b, Exec(k.fs, ctx.inFn, s, loc, w, fuel), fuel);
  }

  // ----- conditionals -----

  /** Distance that the test of a conditional jumps over. */
  function TestDistance(first: seq<Byte>, els: Option<Stmt>): nat {
    if els.None? then |first| else |first| + 3
  }

  lemma {:induction false} ArmsLayout(code: seq<Byte>, p: nat, test: Byte, first: seq<Byte>, els: Option<Stmt>, ctx: Ctx, brk: Option<int>)
    requires CodeAt(code, p, ArmsCode(test, first, els, ctx, brk))
    ensures CodeAt(code, p, JumpCode(test, TestDistance(first, els))) && CodeAt(code, p + 3, first)
    ensures p + |ArmsCode(test, first, els, ctx, brk)| <= |code|
    ensures els.Some? ==>
              var other := BlockCode(els.value, ctx, |ctx.locals|, Shift(brk, |first| + 6));
              && CodeAt(code, p + 3 + |first|, JumpCode(0x50, |other|))
              && CodeAt(code, p + 6 + |first|, other)
              && |ArmsCode(test, first, els, ctx, brk)| == 6 + |first| + |other|
    ensures els.None? ==> |ArmsCode(test, first, els, ctx, brk)| == 3 + |first|
  {
    hide BlockCode, CodeAt;
    ArmsInCode(code, p, test, first, els, ctx, brk);
    var jump := JumpCode(test, TestDistance(first, els));
    match els {
      case None => CodeSplit(code, p, jump, first);
      case Some(e) =>
        var other := BlockCode(e, ctx, |ctx.locals|, Shift(brk, |first| + 6));
        CodeSplit(code, p, jump + first + JumpCode(0x50, |other|), other);
        CodeSplit3(code, p, jump, first, JumpCode(0x50, |other|));
    }
  }

  lemma {:induction false} ArmsInCode(code: seq<Byte>, p: nat, test: Byte, first: seq<Byte>, els: Option<Stmt>, ctx: Ctx, brk: Option<int>)
    requires CodeAt(code, p, ArmsCode(test, first, els, ctx, brk))
    ensures p + |ArmsCode(test, first, els, ctx, brk)| <= |code|
  {
  }

  /** The first arm skips the second one. */
  lemma {:induction false} FirstArmEnds(k: Linked, u: M.State, b: nat, ts: seq<Sym>, brk: Option<int>, ts0: seq<Sym>, o: Outcome, fuel: nat,
                     end: nat, over: nat)
    requires Ends(k, u, b, ts, end, brk, ts0, o, fuel)
    requires CodeAt(k.img.code, end, JumpCode(0x50, over)) && end + 3 + over <= |k.img.code| <= 0xFFFF
    ensures Ends(k, u, b, ts, end + 3 + over, brk, ts0, o, fuel)
  {
    hide M.Run, M.Step, Reaches, Halts, RunsFor, Slots, Keys, CodeAt;
    if o.Normal? {
      var t := Became(k, u, end, Refresh(u.stack, b, ts, o.loc), o.w);
      StepJump(k.img, t, over);
      ReachThen(k.img, u, t, t.(pc := end + 3 + over));
    }
  }

  lemma {:induction false} IfStatic(k: Linked, s: Stmt, ctx: Ctx, base: Option<nat>, inSwitch: bool)
    requires Static(k, s, ctx, base, inSwitch) && s.If?
    ensures Static(k, s.thn, ctx, base, inSwitch) && ExprOk(s.c, ctx) && |k.img.code| <= 0xFFFF
    ensures s.els.Some? ==> Static(k, s.els.value, AfterBlock(s.thn, ctx), base, inSwitch)
  {
    hide Distinct;
    var If(c, thn, els) := s;
    var ctxE := AfterBlock(thn, ctx);
    PrefixTrans(ctxE.globals, After(s, ctx).globals, k.table);
    if els.Some? {
      assert After(s, ctx) == AfterBlock(els.value, ctxE);
      assert ElseOk(els, ctxE, base.Some?, inSwitch) && CarefulElse(els, ctxE, base);
    }
  }

  lemma {:induction false} IfUnfold(s: Stmt, ctx: Ctx, brk: Option<int>)
    requires s.If?
    ensures var cond := ExprCode(s.c, ctx);
            var first := BlockCode(s.thn, ctx, |ctx.locals|, Shift(brk, |cond| + 3));
            StmtCode(s, ctx, brk) == cond + ArmsCode(0x51, first, s.els, AfterBlock(s.thn, ctx), Shift(brk, |cond|))
    ensures After(s, ctx).locals == ctx.locals
  {
    hide ExprCode, BlockCode, ArmsCode, AfterBlock;
  }

  lemma {:induction false} SimIf(k: Linked, s: Stmt, ctx: Ctx, base: Option<nat>, inSwitch: bool, brk: Option<int>,
                                 loc: Locals, w: World, fuel: nat, st: M.State, b: nat)
    requires Poised(k, s, ctx, base, inSwitch, brk, loc, w, fuel, st, b) && s.If?
    ensures Done(k, s, ctx, base, brk, st, b, Exec(k.fs, ctx.inFn, s, loc, w, fuel), fuel)
    decreases fuel, s, 0
  {
    hide M.Run, M.Step, Reaches, Halts, RunsFor, CallsSimulated, CodeAt, Slots, Refresh, Keys, Tidy, Static, Eval,
         LocalsAgree, ExprCode, ArmsCode, BlockCode, Ends, After, StmtCode, Placed, InCtx, ExprOk, Agrees, StmtOk,
         Careful, AfterBlock;
    var If(c, thn, els) := s;
    var cond := ExprCode(c, ctx);
    var first := BlockCode(thn, ctx, |ctx.locals|, Shift(brk, |cond| + 3));
    var arms := ArmsCode(0x51, first, els, AfterBlock(thn, ctx), Shift(brk, |cond|));
    IfStatic(k, s, ctx, base, inSwitch);
    IfUnfold(s, ctx, brk);
    CodeSplit(k.img.code, st.pc, cond, arms);
    ArmsLayout(k.img.code, st.pc + |cond|, 0x51, first, els, AfterBlock(thn, ctx), Shift(brk, |cond|));
    StaticFacts(k, s, ctx, base, inSwitch);
    SimExpr(k, ctx, c, loc, w, fuel, st);
    var end := st.pc + |cond| + |arms|;
    var target := Target(base, brk, ctx, st.pc);
    match Eval(k.fs, c, loc, w, fuel) {
      case Bad(err, w1) => FailEnds(k, st, b, ctx.locals, end, target, ctx.locals, err, w1, fuel);
      case Timeout => LongEnds(k, st, b, ctx.locals, end, target, ctx.locals, fuel);
      case Val(v, w1) =>
        var d := TestDistance(first, els);
        Tested(k, st, |cond|, v, w1, d);
        if !v.Bool? {
          FailEnds(k, st, b, ctx.locals, end, target, ctx.locals, M.TypeMismatch, w1, fuel);
        } else {
          var u := Became(k, st, st.pc + |cond| + (if v.b then 3 else 3 + d), st.stack, w1);
          SimIfArms(k, s, ctx, base, inSwitch, brk, loc, w, fuel, st, b, u, v.b, w1);
          LiftEnds(k, st, u, b, ctx.locals, end, target, ctx.locals, Exec(k.fs, ctx.inFn, s, loc, w, fuel), fuel, u.pc, w1);
        }
    }
  }

  /** The condition of an `if` decides where to go on. */
  lemma {:induction false} Tested(k: Linked, st: M.State, n: nat, v: Immediate, w1: World, d: nat)
    requires Reaches(k.img, st, Past(k, st, n, [Imm(v)], w1)) && CodeAt(k.img.code, st.pc + n, JumpCode(0x51, d))
    requires st.pc + n + 3 + d <= |k.img.code| <= 0xFFFF
    ensures if !v.Bool? then Halts(k.img, st, M.TypeMismatch, Slots(k, w1), w1.out)
            else Reaches(k.img, st, Became(k, st, st.pc + n + (if v.b then 3 else 3 + d), st.stack, w1))
  {
    hide M.Run, M.Step, Reaches, Halts, CodeAt, Slots;
    var t := Past(k, st, n, [Imm(v)], w1);
    StepJumpIf(k.img, t, false, d, v);
    if !v.Bool? {
      ReachThenHalt(k.img, st, t, M.TypeMismatch, t.globals, t.out);
    } else {
      assert M.Dropped(t, 1) == st.stack;
      ReachThen(k.img, st, t, Became(k, st, t.pc + (if v.b then 3 else 3 + d), st.stack, w1));
    }
  }

  /** After the test of an `if`: `u` is at the start of the arm that the condition selects. */
  lemma {:induction false} SimIfArms(k: Linked, s: Stmt, ctx: Ctx, base: Option<nat>, inSwitch: bool, brk: Option<int>,
                                     loc: Locals, w: World, fuel: nat, st: M.State, b: nat, u: M.State, hit: bool, w1: World)
    requires Poised(k, s, ctx, base, inSwitch, brk, loc, w, fuel, st, b) && s.If?
    requires var n := |ExprCode(s.c, ctx)|;
             var first := BlockCode(s.thn, ctx, |ctx.locals|, Shift(brk, n + 3));
             u == Became(k, st, st.pc + n + (if hit then 3 else 3 + TestDistance(first, s.els)), st.stack, w1)
    ensures Ends(k, u, b, ctx.locals, st.pc + |StmtCode(s, ctx, brk)|, Target(base, brk, ctx, st.pc), ctx.locals,
                 if hit then LeaveBlock(Exec(k.fs, ctx.inFn, s.thn, loc, w1, fuel), loc)
                 else if s.els.Some? then LeaveBlock(Exec(k.fs, ctx.inFn, s.els.value, loc, w1, fuel), loc)
                 else Normal(loc, w1), fuel)
    decreases fuel, s, -1
  {
    hide M.Run, M.Step, Reaches, Halts, RunsFor, CallsSimulated, CodeAt, Slots, Refresh, Keys, Tidy, Static, Eval, LocalsAgree,
         ExprCode, ArmsCode, BlockCode, Ends, After, StmtCode, Exec, Agrees;
    var If(c, thn, els) := s;
    var n := |ExprCode(c, ctx)|;
    var first := BlockCode(thn, ctx, |ctx.locals|, Shift(brk, n + 3));
    var ctxE := AfterBlock(thn, ctx);
    var arms := ArmsCode(0x51, first, els, ctxE, Shift(brk, n));
    IfStatic(k, s, ctx, base, inSwitch);
    IfUnfold(s, ctx, brk);
    CodeSplit(k.img.code, st.pc, ExprCode(c, ctx), arms);
    ArmsLayout(k.img.code, st.pc + n, 0x51, first, els, ctxE, Shift(brk, n));
    Unmoved(k, ctx, loc, w, st, b, u.pc, w1);
    if hit {
      SimBlock(k, thn, ctx, |ctx.locals|, loc, base, inSwitch, Shift(brk, n + 3), loc, w1, fuel, u, b);
      if els.Some? {
        FirstArmEnds(k, u, b, ctx.locals, Target(base, brk, ctx, st.pc), ctx.locals,
                     LeaveBlock(Exec(k.fs, ctx.inFn, thn, loc, w1, fuel), loc), fuel, u.pc + |first|, |arms| - 6 - |first|);
      }
    } else {
      SettledFor(k, ctx, ctxE, loc, w1, u, b);
      var brkE := Shift(Shift(brk, n), |first| + 6);
      SimElse(k, els, ctxE, base, inSwitch, brkE, loc, w1, fuel, u, b);
      if els.None? {
        EndsTarget(k, u, b, ctx.locals, u.pc, Target(base, brkE, ctxE, u.pc), Target(base, brk, ctx, st.pc), loc, w1, fuel);
      }
    }
  }

  lemma {:induction false} EndsTarget(k: Linked, u: M.State, b: nat, ts: seq<Sym>, end: int, brk1: Option<int>, brk2: Option<int>,
                   loc: Locals, w: World, fuel: nat)
    requires Ends(k, u, b, ts, end, brk1, ts, Normal(loc, w), fuel)
    ensures Ends(k, u, b, ts, end, brk2, ts, Normal(loc, w), fuel)
  {
  }

  lemma {:induction false} FailEnds(k: Linked, st: M.State, b: nat, ts: seq<Sym>, end: int, brk: Option<int>, ts0: seq<Sym>,
                 err: M.Err, w: World, fuel: nat)
    requires b <= |st.stack| && Halts(k.img, st, err, Slots(k, w), w.out)
    ensures Ends(k, st, b, ts, end, brk, ts0, Failed(err, w), fuel)
  {
  }

  lemma {:induction false} LongEnds(k: Linked, st: M.State, b: nat, ts: seq<Sym>, end: int, brk: Option<int>, ts0: seq<Sym>, fuel: nat)
    requires b <= |st.stack| && RunsFor(k.img, st, fuel)
    ensures Ends(k, st, b, ts, end, brk, ts0, OutOfFuel, fuel)
  {
  }

  lemma {:induction false} StaticFacts(k: Linked, s: Stmt, ctx: Ctx, base: Option<nat>, inSwitch: bool)
    requires Static(k, s, ctx, base, inSwitch)
    ensures Placed(k) && InCtx(k, ctx)
  {
  }

  /** A boundary whose stack has not changed since `st`. */
  lemma {:induction false} Unmoved(k: Linked, ctx: Ctx, loc: Locals, w: World, st: M.State, b: nat, pc: nat, w1: World)
    requires Settled(k, ctx, loc, w, st, b)
    ensures Settled(k, ctx, loc, w1, Became(k, st, pc, st.stack, w1), b) && Keys(ctx.locals, loc)
    ensures ctx.locals[..|ctx.locals|] == ctx.locals
    ensures SameUnder(st.stack, st.stack, b, ctx.locals)
  {
  }

  /** The second arm of a conditional, or the end of one without a second arm. */
  lemma {:induction false} SimElse(k: Linked, els: Option<Stmt>, ctx: Ctx, base: Option<nat>, inSwitch: bool,
                                   brk: Option<int>, loc: Locals, w: World, fuel: nat, u: M.State, b: nat)
    requires els.Some? ==> PoisedBlock(k, els.value, ctx, |ctx.locals|, base, inSwitch, brk, loc, w, fuel, u, b)
    requires Settled(k, ctx, loc, w, u, b)
    ensures Ends(k, u, b, ctx.locals,
                 u.pc + (if els.Some? then |BlockCode(els.value, ctx, |ctx.locals|, brk)| else 0),
                 Target(base, brk, ctx, u.pc), ctx.locals,
                 if els.Some? then LeaveBlock(Exec(k.fs, ctx.inFn, els.value, loc, w, fuel), loc) else Normal(loc, w), fuel)
    decreases fuel, els, 3
  {
    hide M.Run, M.Step, Reaches, Halts, RunsFor, CallsSimulated, CodeAt, Slots, Refresh, Tidy, Static, Exec, BlockCode,
         LocalsAgree, Keys;
    RefreshSettled(k, ctx, loc, w, u, b);
    assert ctx.locals[..|ctx.locals|] == ctx.locals;
    match els {
      case None => ReachSelf(k.img, u);
      case Some(e) => SimBlock(k, e, ctx, |ctx.locals|, loc, base, inSwitch, brk, loc, w, fuel, u, b);
    }
  }

  // ----- if let -----

  lemma {:induction false} IfLetStatic(k: Linked, s: Stmt, ctx: Ctx, base: Option<nat>, inSwitch: bool)
    requires Static(k, s, ctx, base, inSwitch) && s.IfLet?
    ensures Static(k, s.thn, BindIfLet(s.x, ctx), base, inSwitch) && ExprOk(s.e, ctx) && |k.img.code| <= 0xFFFF
    ensures CanBindIfLet(s.x, ctx) && BindIfLet(s.x, ctx).globals <= k.table
    ensures AfterBlock(s.thn, BindIfLet(s.x, ctx)).globals <= k.table
  {
    hide Distinct, Find, ExprOk, NameOk;
    var IfLet(x, e, thn, els) := s;
    var inner := BindIfLet(x, ctx);
    PrefixTrans(AfterBlock(thn, inner).globals, After(s, ctx).globals, k.table);
    PrefixTrans(inner.globals, After(thn, inner).globals, k.table);
  }

  lemma {:induction false} IfLetElseStatic(k: Linked, s: Stmt, ctx: Ctx, base: Option<nat>, inSwitch: bool)
    requires Static(k, s, ctx, base, inSwitch) && s.IfLet? && s.els.Some?
    ensures Static(k, s.els.value, AfterBlock(s.thn, BindIfLet(s.x, ctx)).(locals := ctx.locals), base, inSwitch)
  {
    IfLetStatic(k, s, ctx, base, inSwitch);
    hide Distinct, Find, ExprOk, NameOk, BindIfLet, CanBindIfLet;
    var ctxE := AfterBlock(s.thn, BindIfLet(s.x, ctx)).(locals := ctx.locals);
    assert After(s, ctx) == AfterBlock(s.els.value, ctxE);
    assert ElseOk(s.els, ctxE, base.Some?, inSwitch) && CarefulElse(s.els, ctxE, base);
  }

  lemma {:induction false} IfLetUnfold(s: Stmt, ctx: Ctx, brk: Option<int>)
    requires s.IfLet?
    ensures var opt, inner, store := ExprCode(s.e, ctx), BindIfLet(s.x, ctx), BindingCode(s.x, ctx);
            var first := store + BlockCode(s.thn, inner, |ctx.locals|, Shift(brk, |opt| + 3 + |store|));
            StmtCode(s, ctx, brk)
            == opt + ArmsCode(0x73, first, s.els, AfterBlock(s.thn, inner).(locals := ctx.locals), Shift(brk, |opt|))
    ensures After(s, ctx).locals == ctx.locals
  {
    hide ExprCode, BlockCode, ArmsCode, AfterBlock, BindingCode, BindIfLet;
  }

  lemma {:induction false} SimIfLet(k: Linked, s: Stmt, ctx: Ctx, base: Option<nat>, inSwitch: bool, brk: Option<int>,
                                    loc: Locals, w: World, fuel: nat, st: M.State, b: nat)
    requires Poised(k, s, ctx, base, inSwitch, brk, loc, w, fuel, st, b) && s.IfLet?
    ensures Done(k, s, ctx, base, brk, st, b, Exec(k.fs, ctx.inFn, s, loc, w, fuel), fuel)
    decreases fuel, s, 0
  {
    hide M.Run, M.Step, Reaches, Halts, RunsFor, CallsSimulated, CodeAt, Slots, Refresh, Keys, Tidy, Static, Eval,
         LocalsAgree, ExprCode, ArmsCode, BlockCode, Ends, After, StmtCode, BindIfLet, BindingCode, Agrees, Placed,
         InCtx, ExprOk, CanBindIfLet, AfterBlock, StmtOk, Careful, Declared;
    var IfLet(x, e, thn, els) := s;
    var opt, inner, store := ExprCode(e, ctx), BindIfLet(x, ctx), BindingCode(x, ctx);
    var n := |opt|;
    var first := store + BlockCode(thn, inner, |ctx.locals|, Shift(brk, n + 3 + |store|));
    var ctxE := AfterBlock(thn, inner).(locals := ctx.locals);
    var arms := ArmsCode(0x73, first, els, ctxE, Shift(brk, n));
    IfLetStatic(k, s, ctx, base, inSwitch);
    IfLetUnfold(s, ctx, brk);
    CodeSplit(k.img.code, st.pc, opt, arms);
    ArmsLayout(k.img.code, st.pc + n, 0x73, first, els, ctxE, Shift(brk, n));
    StaticFacts(k, s, ctx, base, inSwitch);
    SimExpr(k, ctx, e, loc, w, fuel, st);
    var end := st.pc + n + |arms|;
    var target := Target(base, brk, ctx, st.pc);
    match Eval(k.fs, e, loc, w, fuel) {
      case Bad(err, w1) => FailEnds(k, st, b, ctx.locals, end, target, ctx.locals, err, w1, fuel);
      case Timeout => LongEnds(k, st, b, ctx.locals, end, target, ctx.locals, fuel);
      case Val(v, w1) =>
        var t := Past(k, st, n, [Imm(v)], w1);
        StepNilBranch(k.img, t, true, TestDistance(first, els), v);
        if Missing(v) {
          assert M.Dropped(t, 1) == st.stack;
          SimMissing(k, s, ctx, base, inSwitch, brk, loc, w, fuel, st, b, t, w1);
        } else {
          var u := Became(k, st, t.pc + 3, st.stack + [Imm(v)], w1);
          ReachThen(k.img, st, t, u);
          SimBinding(k, s, ctx, base, inSwitch, brk, loc, w, fuel, st, b, u, v, w1);
        }
    }
  }

  /** An `if let` whose value, tested at `t`, is nil. */
  lemma {:induction false} SimMissing(k: Linked, s: Stmt, ctx: Ctx, base: Option<nat>, inSwitch: bool, brk: Option<int>,
                                      loc: Locals, w: World, fuel: nat, st: M.State, b: nat, t: M.State, w1: World)
    requires Poised(k, s, ctx, base, inSwitch, brk, loc, w, fuel, st, b) && s.IfLet?
    requires t.pc == st.pc + |ExprCode(s.e, ctx)| && Reaches(k.img, st, t)
    requires var inner, store := BindIfLet(s.x, ctx), BindingCode(s.x, ctx);
             var first := store + BlockCode(s.thn, inner, |ctx.locals|, Shift(brk, |ExprCode(s.e, ctx)| + 3 + |store|));
             Reaches(k.img, t, Became(k, st, t.pc + 3 + TestDistance(first, s.els), st.stack, w1))
    ensures Done(k, s, ctx, base, brk, st, b,
                 if s.els.Some? then LeaveBlock(Exec(k.fs, ctx.inFn, s.els.value, loc, w1, fuel), loc) else Normal(loc, w1), fuel)
    decreases fuel, s, -1
  {
    hide M.Run, M.Step, Reaches, Halts, RunsFor, CallsSimulated, CodeAt, Slots, Refresh, Tidy, Static, LocalsAgree,
         Keys, ExprCode, ArmsCode, BlockCode, Ends, After, StmtCode, BindIfLet, BindingCode, Exec, Agrees,
         AfterBlock, StmtOk, Careful, InCtx, Placed;
    var IfLet(x, e, thn, els) := s;
    var n, inner, store := |ExprCode(e, ctx)|, BindIfLet(x, ctx), BindingCode(x, ctx);
    var first := store + BlockCode(thn, inner, |ctx.locals|, Shift(brk, n + 3 + |store|));
    var ctxE := AfterBlock(thn, inner).(locals := ctx.locals);
    var arms := ArmsCode(0x73, first, els, ctxE, Shift(brk, n));
    if els.Some? {
      IfLetElseStatic(k, s, ctx, base, inSwitch);
    }
    IfLetUnfold(s, ctx, brk);
    CodeSplit(k.img.code, st.pc, ExprCode(e, ctx), arms);
    ArmsLayout(k.img.code, st.pc + n, 0x73, first, els, ctxE, Shift(brk, n));
    var u := Became(k, st, t.pc + 3 + TestDistance(first, els), st.stack, w1);
    ReachThen(k.img, st, t, u);
    Unmoved(k, ctx, loc, w, st, b, u.pc, w1);
    SettledFor(k, ctx, ctxE, loc, w1, u, b);
    var end, target := st.pc + n + |arms|, Target(base, brk, ctx, st.pc);
    var brkE := Shift(Shift(brk, n), |first| + 6);
    var o := if els.Some? then LeaveBlock(Exec(k.fs, ctx.inFn, els.value, loc, w1, fuel), loc) else Normal(loc, w1);
    SimElse(k, els, ctxE, base, inSwitch, brkE, loc, w1, fuel, u, b);
    if els.None? {
      EndsTarget(k, u, b, ctx.locals, u.pc, Target(base, brkE, ctxE, u.pc), target, loc, w1, fuel);
    }
    LiftEnds(k, st, u, b, ctx.locals, end, target, ctx.locals, o, fuel, u.pc, w1);
  }

  /** Where the binding and the first arm of an `if let` stand, and the jump behind them. */
  lemma {:induction false} BindingLayout(code: seq<Byte>, pc: int, s: Stmt, ctx: Ctx, brk: Option<int>)
    requires s.IfLet? && CodeAt(code, pc, StmtCode(s, ctx, brk))
    ensures var n, inner, store := |ExprCode(s.e, ctx)|, BindIfLet(s.x, ctx), BindingCode(s.x, ctx);
            var block := BlockCode(s.thn, inner, |ctx.locals|, Shift(brk, n + 3 + |store|));
            var arms := ArmsCode(0x73, store + block, s.els, AfterBlock(s.thn, inner).(locals := ctx.locals), Shift(brk, n));
            && CodeAt(code, pc + n + 3, store) && CodeAt(code, pc + n + 3 + |store|, block)
            && |StmtCode(s, ctx, brk)| == n + |arms| && pc + n + |arms| <= |code|
            && (if s.els.None? then |arms| == 3 + |store| + |block|
                else |arms| >= 6 + |store| + |block|
                     && CodeAt(code, pc + n + 3 + |store| + |block|, JumpCode(0x50, |arms| - 6 - |store + block|)))
    ensures After(s, ctx).locals == ctx.locals
  {
    hide CodeAt, ExprCode, ArmsCode, BlockCode, After, StmtCode, BindIfLet, BindingCode, AfterBlock, JumpCode;
    var n, inner, store := |ExprCode(s.e, ctx)|, BindIfLet(s.x, ctx), BindingCode(s.x, ctx);
    var block := BlockCode(s.thn, inner, |ctx.locals|, Shift(brk, n + 3 + |store|));
    var ctxE := AfterBlock(s.thn, inner).(locals := ctx.locals);
    IfLetUnfold(s, ctx, brk);
    CodeSplit(code, pc, ExprCode(s.e, ctx), ArmsCode(0x73, store + block, s.els, ctxE, Shift(brk, n)));
    ArmsLayout(code, pc + n, 0x73, store + block, s.els, ctxE, Shift(brk, n));
    CodeSplit(code, pc + n + 3, store, block);
  }

  /** The binding of an `if let` whose value `v` is on top of the stack of `u`, and its first arm. */
  lemma {:induction false} SimBinding(k: Linked, s: Stmt, ctx: Ctx, base: Option<nat>, inSwitch: bool, brk: Option<int>,
                                      loc: Locals, w: World, fuel: nat, st: M.State, b: nat, u: M.State, v: Immediate, w1: World)
    requires Poised(k, s, ctx, base, inSwitch, brk, loc, w, fuel, st, b) && s.IfLet?
    requires u == Became(k, st, st.pc + |ExprCode(s.e, ctx)| + 3, st.stack + [Imm(v)], w1) && Reaches(k.img, st, u)
    ensures Done(k, s, ctx, base, brk, st, b,
                 match Declared(ctx.inFn, s.x, v, loc, w1)
                 case Normal(loc1, w2) => LeaveBlock(Exec(k.fs, ctx.inFn, s.thn, loc1, w2, fuel), loc)
                 case other => other, fuel)
    decreases fuel, s, -1
  {
    hide M.Run, M.Step, Reaches, Halts, RunsFor, CallsSimulated, CodeAt, Slots, Refresh, Tidy, Static, LocalsAgree,
         Keys, ExprCode, ArmsCode, BlockCode, Ends, After, StmtCode, BindIfLet, BindingCode, Exec, Agrees,
         AfterBlock, StmtOk, Careful, InCtx, Placed, CanBindIfLet, SameUnder, Settled;
    var IfLet(x, e, thn, els) := s;
    var n, inner, store := |ExprCode(e, ctx)|, BindIfLet(x, ctx), BindingCode(x, ctx);
    var block := BlockCode(thn, inner, |ctx.locals|, Shift(brk, n + 3 + |store|));
    var ctxE := AfterBlock(thn, inner).(locals := ctx.locals);
    var arms := ArmsCode(0x73, store + block, els, ctxE, Shift(brk, n));
    IfLetStatic(k, s, ctx, base, inSwitch);
    BindingLayout(k.img.code, st.pc, s, ctx, brk);
    StaticFacts(k, s, ctx, base, inSwitch);
    var loc1, w2, t := Bound(k, ctx, x, v, loc, w, w1, st, b, u);
    var o := LeaveBlock(Exec(k.fs, ctx.inFn, thn, loc1, w2, fuel), loc);
    SimBlock(k, thn, inner, |ctx.locals|, loc, base, inSwitch, Shift(brk, n + 3 + |store|), loc1, w2, fuel, t, b);
    var target := Target(base, Shift(brk, n + 3 + |store|), inner, t.pc);
    if els.Some? {
      FirstArmEnds(k, t, b, ctx.locals, target, inner.locals, o, fuel, t.pc + |block|, |arms| - 6 - |store + block|);
    }
    LiftEnds(k, st, t, b, ctx.locals, st.pc + n + |arms|, target, inner.locals, o, fuel, t.pc, w2);
    RetargetEnds(k, st, b, ctx.locals, st.pc + n + |arms|, target, inner.locals, Target(base, brk, ctx, st.pc), ctx.locals, o, fuel);
  }

  /** Executing the store of an `if let` binding, if there is one. */
  lemma {:induction false} Bound(k: Linked, ctx: Ctx, x: Name, v: Immediate, loc: Locals, w: World, w1: World, st: M.State, b: nat, u: M.State)
    returns (loc1: Locals, w2: World, t: M.State)
    requires Placed(k) && Settled(k, ctx, loc, w, st, b) && CanBindIfLet(x, ctx) && BindIfLet(x, ctx).globals <= k.table
    requires u == Became(k, st, u.pc, st.stack + [Imm(v)], w1) && Reaches(k.img, st, u)
    requires CodeAt(k.img.code, u.pc, BindingCode(x, ctx))
    ensures Declared(ctx.inFn, x, v, loc, w1) == Normal(loc1, w2)
    ensures t == Became(k, st, u.pc + |BindingCode(x, ctx)|, t.stack, w2) && Reaches(k.img, st, t)
    ensures Settled(k, BindIfLet(x, ctx), loc1, w2, t, b) && Keys(ctx.locals, loc)
    ensures BindIfLet(x, ctx).locals[..|ctx.locals|] == ctx.locals
    ensures |BindIfLet(x, ctx).locals| > |ctx.locals| || BindIfLet(x, ctx).locals == ctx.locals
    ensures SameUnder(t.stack, st.stack, b, ctx.locals) && SameUnder(t.stack, st.stack, b, BindIfLet(x, ctx).locals)
  {
    hide M.Run, M.Step, Reaches, CodeAt, Slots, Settled, Placed, Refresh, Keys, Tidy, SameUnder, BindIfLet;
    if ctx.inFn {
      loc1, w2, t := loc[x := v], w1, u;
      BoundInFunction(k, ctx, x, v, loc, w, w1, st, b, u);
    } else {
      loc1, w2 := loc, SetGlobal(w1, x, v);
      t := Became(k, st, u.pc + 2, st.stack, w2);
      BoundAtTop(k, ctx, x, v, loc, w, w1, st, b, u, t);
    }
  }

  lemma {:induction false} BoundInFunction(k: Linked, ctx: Ctx, x: Name, v: Immediate, loc: Locals, w: World, w1: World,
                                           st: M.State, b: nat, u: M.State)
    requires Settled(k, ctx, loc, w, st, b) && CanBindIfLet(x, ctx) && ctx.inFn
    requires u == Became(k, st, u.pc, st.stack + [Imm(v)], w1)
    ensures var inner := BindIfLet(x, ctx);
            && Settled(k, inner, loc[x := v], w1, u, b) && Keys(ctx.locals, loc)
            && |inner.locals| > |ctx.locals| && inner.locals[..|ctx.locals|] == ctx.locals
            && SameUnder(u.stack, st.stack, b, ctx.locals) && SameUnder(u.stack, st.stack, b, inner.locals)
  {
    hide M.Run, M.Step, Reaches, CodeAt, Slots, Agrees;
    RefreshSettled(k, ctx, loc, w, st, b);
    KeysAdd(ctx.locals, Sym(x, true), loc, v);
    RefreshDeclared(st.stack, b, ctx.locals, Sym(x, true), loc, v);
    TidyAdd(ctx.locals, Sym(x, true));
    BecameSettled(k, ctx, loc, w, st, b, BindIfLet(x, ctx), loc[x := v], w1, u.pc);
  }

  lemma {:induction false} BoundAtTop(k: Linked, ctx: Ctx, x: Name, v: Immediate, loc: Locals, w: World, w1: World,
                                      st: M.State, b: nat, u: M.State, t: M.State)
    requires Placed(k) && Settled(k, ctx, loc, w, st, b) && CanBindIfLet(x, ctx) && BindIfLet(x, ctx).globals <= k.table
    requires u == Became(k, st, u.pc, st.stack + [Imm(v)], w1) && Reaches(k.img, st, u) && !ctx.inFn
    requires CodeAt(k.img.code, u.pc, BindingCode(x, ctx))
    requires t == Became(k, st, u.pc + 2, st.stack, SetGlobal(w1, x, v))
    ensures var inner := BindIfLet(x, ctx);
            && Reaches(k.img, st, t) && Settled(k, inner, loc, SetGlobal(w1, x, v), t, b) && Keys(ctx.locals, loc)
            && inner.locals == ctx.locals && inner.locals[..|ctx.locals|] == ctx.locals
            && SameUnder(t.stack, st.stack, b, ctx.locals) && SameUnder(t.stack, st.stack, b, inner.locals)
  {
    hide M.Run, M.Step, Reaches, CodeAt, Slots, Settled, Keys, SameUnder, Distinct;
    var inner := BindIfLet(x, ctx);
    BoundGlobal(x, ctx);
    var i := Find(inner.globals, x).value;
    assert k.table[i] == inner.globals[i];
    GlobalPlain(k, i, w1, u);
    StepDefineGlobal(k.img, u, i);
    SlotUpdate(k, i, w1, v);
    assert M.Dropped(u, 1) == st.stack;
    ReachThen(k.img, st, u, t);
    Unmoved(k, ctx, loc, w, st, b, t.pc, SetGlobal(w1, x, v));
    SettledFor(k, ctx, inner, loc, SetGlobal(w1, x, v), t, b);
  }

  lemma {:induction false} BoundGlobal(x: Name, ctx: Ctx)
    requires !ctx.inFn && x != ""
    ensures Find(BindIfLet(x, ctx).globals, x).Some?
  {
    FindAdd(ctx.globals, Sym(x, true), x);
  }

  // ----- while -----

  lemma {:induction false} WhileStatic(k: Linked, s: Stmt, ctx: Ctx, base: Option<nat>, inSwitch: bool)
    requires Static(k, s, ctx, base, inSwitch) && s.While?
    ensures Static(k, s.body, ctx, Some(|ctx.locals|), inSwitch) && ExprOk(s.c, ctx) && |k.img.code| <= 0xFFFF
  {
    hide Distinct, ExprOk;
    assert After(s, ctx) == AfterBlock(s.body, ctx);
  }

  /** The pieces of a `while` loop at `p`. `n` is the length of its body block. */
  lemma {:induction false} WhileLayout(code: seq<Byte>, p: nat, s: Stmt, ctx: Ctx, brk: Option<int>, n: nat)
    requires s.While? && CodeAt(code, p, StmtCode(s, ctx, brk)) && n == |BlockCode(s.body, ctx, |ctx.locals|, None)|
    ensures var cond := ExprCode(s.c, ctx);
            var body := BlockCode(s.body, ctx, |ctx.locals|, Some(n + 3));
            && |body| == n && |StmtCode(s, ctx, brk)| == |cond| + n + 6 && p + |cond| + n + 6 <= |code|
            && CodeAt(code, p, cond) && CodeAt(code, p + |cond|, JumpCode(0x51, n + 3))
            && CodeAt(code, p + |cond| + 3, body)
            && CodeAt(code, p + |cond| + 3 + n, JumpCode(0x53, |cond| + n + 6))
    ensures After(s, ctx).locals == ctx.locals
  {
    hide ExprCode, After, CodeAt;
    var cond := ExprCode(s.c, ctx);
    var body := BlockCode(s.body, ctx, |ctx.locals|, Some(n + 3));
    SameLength(s.body, ctx, None, Some(n + 3));
    InCode(code, p, StmtCode(s, ctx, brk));
    CodeSplit(code, p, cond + JumpCode(0x51, n + 3) + body, JumpCode(0x53, |cond| + n + 6));
    CodeSplit3(code, p, cond, JumpCode(0x51, n + 3), body);
    WhileAfter(s, ctx);
  }

  lemma {:induction false} WhileAfter(s: Stmt, ctx: Ctx)
    requires s.While?
    ensures After(s, ctx).locals == ctx.locals
  {
  }

  lemma {:induction false} InCode(code: seq<Byte>, p: nat, c: seq<Byte>)
    requires CodeAt(code, p, c)
    ensures p + |c| <= |code|
  {
  }

  lemma {:induction false} SimWhile(k: Linked, s: Stmt, ctx: Ctx, base: Option<nat>, inSwitch: bool, brk: Option<int>,
                                    loc: Locals, w: World, fuel: nat, st: M.State, b: nat)
    requires Poised(k, s, ctx, base, inSwitch, brk, loc, w, fuel, st, b) && s.While?
    ensures Done(k, s, ctx, base, brk, st, b, Exec(k.fs, ctx.inFn, s, loc, w, fuel), fuel)
    decreases fuel, s, 0
  {
    hide M.Run, M.Step, Reaches, Halts, RunsFor, CallsSimulated, CodeAt, Slots, Refresh, Keys, Tidy, Static, Eval,
         LocalsAgree, ExprCode, BlockCode, Ends, After, StmtCode, Placed, InCtx, ExprOk, Agrees, StmtOk, Careful;
    var While(c, body) := s;
    var n := |BlockCode(body, ctx, |ctx.locals|, None)|;
    var m := |ExprCode(c, ctx)|;
    WhileStatic(k, s, ctx, base, inSwitch);
    WhileLayout(k.img.code, st.pc, s, ctx, brk, n);
    StaticFacts(k, s, ctx, base, inSwitch);
    var end, target := st.pc + m + n + 6, Target(base, brk, ctx, st.pc);
    if fuel == 0 {
      RunsForNothing(k.img, st);
      LongEnds(k, st, b, ctx.locals, end, target, ctx.locals, fuel);
    } else {
      SimExpr(k, ctx, c, loc, w, fuel, st);
      match Eval(k.fs, c, loc, w, fuel) {
        case Bad(err, w1) => FailEnds(k, st, b, ctx.locals, end, target, ctx.locals, err, w1, fuel);
        case Timeout => LongEnds(k, st, b, ctx.locals, end, target, ctx.locals, fuel);
        case Val(v, w1) =>
          var t := Past(k, st, m, [Imm(v)], w1);
          StepJumpIf(k.img, t, false, n + 3, v);
          assert M.Dropped(t, 1) == st.stack;
          if !v.Bool? {
            ReachThenHalt(k.img, st, t, M.TypeMismatch, t.globals, t.out);
            FailEnds(k, st, b, ctx.locals, end, target, ctx.locals, M.TypeMismatch, w1, fuel);
          } else if !v.b {
            var u := Became(k, st, end, st.stack, w1);
            ReachThen(k.img, st, t, u);
            NormalEnds(k, ctx, loc, w, st, b, end, target, w1, fuel);
          } else {
            SimTurn(k, s, ctx, base, inSwitch, brk, loc, w, fuel, st, b, t, w1);
          }
      }
    }
  }

  /** Reaching `end` with the stack as it was is a normal end. */
  lemma {:induction false} NormalEnds(k: Linked, ctx: Ctx, loc: Locals, w: World, st: M.State, b: nat, end: nat, brk: Option<int>, w1: World, fuel: nat)
    requires Settled(k, ctx, loc, w, st, b) && Reaches(k.img, st, Became(k, st, end, st.stack, w1))
    ensures Ends(k, st, b, ctx.locals, end, brk, ctx.locals, Normal(loc, w1), fuel)
  {
    hide Reaches, Refresh, Slots, Keys, Agrees;
    RefreshSettled(k, ctx, loc, w, st, b);
  }

  /** One more turn of a `while` loop, whose condition, tested at `t`, held. */
  lemma {:induction false} SimTurn(k: Linked, s: Stmt, ctx: Ctx, base: Option<nat>, inSwitch: bool, brk: Option<int>,
                                   loc: Locals, w: World, fuel: nat, st: M.State, b: nat, t: M.State, w1: World)
    requires Poised(k, s, ctx, base, inSwitch, brk, loc, w, fuel, st, b) && s.While? && fuel > 0
    requires t == Past(k, st, |ExprCode(s.c, ctx)|, [Imm(Bool(true))], w1) && Reaches(k.img, st, t)
    requires M.Step(k.img, t) == M.Running(Became(k, st, t.pc + 3, st.stack, w1))
    ensures Done(k, s, ctx, base, brk, st, b,
                 match Exec(k.fs, ctx.inFn, s.body, loc, w1, fuel - 1)
                 case Normal(inner, w2) => Exec(k.fs, ctx.inFn, s, Narrow(inner, loc), w2, fuel - 1)
                 case Broke(inner, w2) => Normal(Narrow(inner, loc), w2)
                 case other => other, fuel)
    decreases fuel, s, -1
  {
    hide M.Run, M.Step, Reaches, Halts, RunsFor, CallsSimulated, CodeAt, Slots, Refresh, Keys, Tidy, Static, Eval, Exec,
         LocalsAgree, ExprCode, BlockCode, Ends, After, StmtCode, Placed, InCtx, ExprOk, Agrees;
    var While(c, body) := s;
    var n := |BlockCode(body, ctx, |ctx.locals|, None)|;
    WhileStatic(k, s, ctx, base, inSwitch);
    WhileLayout(k.img.code, st.pc, s, ctx, brk, n);
    FewerCalls(k, fuel, fuel - 1);
    var u := Became(k, st, t.pc + 3, st.stack, w1);
    Unmoved(k, ctx, loc, w, st, b, u.pc, w1);
    SimBlock(k, body, ctx, |ctx.locals|, loc, Some(|ctx.locals|), inSwitch, Some(n + 3), loc, w1, fuel - 1, u, b);
    var o := Exec(k.fs, ctx.inFn, body, loc, w1, fuel - 1);
    StepReaches(k.img, t, u);
    ReachThen(k.img, st, t, u);
    var end, target := t.pc + n + 6, Target(base, brk, ctx, st.pc);
    match o {
      case Normal(inner, w2) =>
        var loc2 := Narrow(inner, loc);
        var z := TurnAgain(k, s, ctx, base, inSwitch, brk, loc, w, fuel, st, b, u, loc2, w1, w2, n);
        SimStmt(k, s, ctx, base, inSwitch, brk, loc2, w2, fuel - 1, z, b);
        var o2 := Exec(k.fs, ctx.inFn, s, loc2, w2, fuel - 1);
        if o2.OutOfFuel? {
          LongRun(k, z, b, ctx.locals, end, target, ctx.locals, fuel - 1);
          LongTurn(k, st, t, u, z, b, ctx.locals, end, target, o2, fuel);
        } else {
          ReachThen(k.img, st, u, z);
          SameSlots(k, ctx, loc, w, st, b, loc2);
          EndsLessFuel(k, z, b, ctx.locals, end, target, ctx.locals, o2, fuel - 1, fuel);
          LiftEnds(k, st, z, b, ctx.locals, end, target, ctx.locals, o2, fuel, z.pc, w2);
        }
      case OutOfFuel =>
        ReachSelf(k.img, u);
        LongRun(k, u, b, ctx.locals, u.pc + n, Some(u.pc + n + 3), ctx.locals, fuel - 1);
        LongTurn(k, st, t, u, u, b, ctx.locals, end, target, o, fuel);
      case Broke(inner, w2) =>
        BreakEnds(k, ctx, loc, u, b, end, target, inner, w2, fuel);
        LiftEnds(k, st, u, b, ctx.locals, end, target, ctx.locals, Normal(Narrow(inner, loc), w2), fuel, u.pc, w1);
      case _ =>
        EndsAnywhere(k, u, b, ctx.locals, u.pc + n, Some(u.pc + n + 3), ctx.locals, o, fuel - 1, ctx.locals, end);
        RetargetEndsNoBreak(k, u, b, ctx.locals, end, Some(u.pc + n + 3), target, ctx.locals, o, fuel - 1, fuel);
        LiftEnds(k, st, u, b, ctx.locals, end, target, ctx.locals, o, fuel, u.pc, w1);
    }
  }

  /** From the end of the loop body back to its condition. */
  lemma {:induction false} TurnAgain(k: Linked, s: Stmt, ctx: Ctx, base: Option<nat>, inSwitch: bool, brk: Option<int>,
                  loc: Locals, w: World, fuel: nat, st: M.State, b: nat, u: M.State, loc2: Locals, w1: World, w2: World, n: nat)
    returns (z: M.State)
    requires Poised(k, s, ctx, base, inSwitch, brk, loc, w, fuel, st, b) && s.While? && fuel > 0
    requires n == |BlockCode(s.body, ctx, |ctx.locals|, None)|
    requires u == Became(k, st, st.pc + |ExprCode(s.c, ctx)| + 3, st.stack, w1)
    requires Ends(k, u, b, ctx.locals, u.pc + n, Some(u.pc + n + 3), ctx.locals, Normal(loc2, w2), fuel - 1)
    ensures b <= |st.stack| && "" !in loc2 && z == Became(k, st, st.pc, Refresh(st.stack, b, ctx.locals, loc2), w2)
    ensures Reaches(k.img, u, z) && Poised(k, s, ctx, base, inSwitch, brk, loc2, w2, fuel - 1, z, b)
  {
    hide M.Run, M.Step, Reaches, CallsSimulated, CodeAt, Slots, Refresh, Tidy, Static, ExprCode, BlockCode, After, StmtCode;
    WhileLayout(k.img.code, st.pc, s, ctx, brk, n);
    WhileStatic(k, s, ctx, base, inSwitch);
    FewerCalls(k, fuel, fuel - 1);
    var y := Became(k, st, u.pc + n, Refresh(st.stack, b, ctx.locals, loc2), w2);
    z := y.(pc := st.pc);
    StepLoop(k.img, y, |ExprCode(s.c, ctx)| + n + 6);
    ReachThen(k.img, u, y, z);
    BecameSettled(k, ctx, loc, w, st, b, ctx, loc2, w2, st.pc);
  }

  lemma {:induction false} LongRun(k: Linked, st: M.State, b: nat, ts: seq<Sym>, end: int, brk: Option<int>, ts0: seq<Sym>, fuel: nat)
    requires Ends(k, st, b, ts, end, brk, ts0, OutOfFuel, fuel)
    ensures RunsFor(k.img, st, fuel)
  {
  }

  /** Another run that is still going adds to the steps made before it. */
  lemma {:induction false} LongTurn(k: Linked, st: M.State, t: M.State, u: M.State, z: M.State, b: nat, ts: seq<Sym>, end: int, brk: Option<int>,
                 o: Outcome, fuel: nat)
    requires Reaches(k.img, st, t) && M.Step(k.img, t) == M.Running(u) && Reaches(k.img, u, z)
    requires o.OutOfFuel? && fuel > 0 && b <= |st.stack| && RunsFor(k.img, z, fuel - 1)
    ensures Ends(k, st, b, ts, end, brk, ts, o, fuel)
  {
    hide M.Run, M.Step, Reaches, RunsFor, Halts;
    ReachThenRun(k.img, u, z, fuel - 1);
    StepThenRun(k.img, t, u, fuel - 1);
    ReachThenRun(k.img, st, t, fuel);
  }

  lemma {:induction false} EndsLessFuel(k: Linked, st: M.State, b: nat, ts: seq<Sym>, end: int, brk: Option<int>, ts0: seq<Sym>, o: Outcome,
                     fuel: nat, fuel': nat)
    requires Ends(k, st, b, ts, end, brk, ts0, o, fuel) && !o.OutOfFuel?
    ensures Ends(k, st, b, ts, end, brk, ts0, o, fuel')
  {
    hide M.Run, Reaches, Halts, RunsFor;
  }

  lemma {:induction false} RetargetEndsNoBreak(k: Linked, st: M.State, b: nat, ts: seq<Sym>, end: int, brk1: Option<int>, brk2: Option<int>,
                            ts0: seq<Sym>, o: Outcome, fuel: nat, fuel': nat)
    requires Ends(k, st, b, ts, end, brk1, ts0, o, fuel) && !o.OutOfFuel? && !o.Broke?
    ensures Ends(k, st, b, ts, end, brk2, ts0, o, fuel')
  {
    hide M.Run, Reaches, Halts, RunsFor;
  }

  /** A break that jumps to `end` is a normal end of its loop. */
  lemma {:induction false} BreakEnds(k: Linked, ctx: Ctx, loc: Locals, u: M.State, b: nat, end: int, brk: Option<int>,
                  inner: Locals, w2: World, fuel: nat)
    requires Keys(ctx.locals, loc)
    requires exists e, ts, f :: Ends(k, u, b, ts, e, Some(end), ctx.locals, Broke(inner, w2), f)
    ensures Ends(k, u, b, ctx.locals, end, brk, ctx.locals, Normal(Narrow(inner, loc), w2), fuel)
  {
    hide M.Run, Reaches, Halts, RunsFor, Slots, Refresh;
    assert Narrow(inner, loc) == inner;
  }

  lemma {:induction false} SameSlots(k: Linked, ctx: Ctx, loc: Locals, w: World, st: M.State, b: nat, loc2: Locals)
    requires Settled(k, ctx, loc, w, st, b) && "" !in loc2
    ensures SameUnder(Refresh(st.stack, b, ctx.locals, loc2), st.stack, b, ctx.locals)
  {
    hide Agrees, Tidy;
  }

  // ----- for over a range -----

  lemma {:induction false} ForStatic(k: Linked, s: Stmt, ctx: Ctx, base: Option<nat>, inSwitch: bool)
    requires Static(k, s, ctx, base, inSwitch) && s.ForIn?
    ensures var outer := BindLoopVar(s.x, ctx);
            var inner := ReserveBound(outer);
            && Static(k, s.body, inner, Some(|inner.locals|), inSwitch)
            && ExprOk(s.lo, outer) && ExprOk(s.hi, outer) && InCtx(k, outer)
            && Find(outer.globals, s.x).Some?
            && SlotOf(s.x, outer) as int < |k.table| && k.table[SlotOf(s.x, outer)].name == s.x
    ensures After(s, ctx).locals == ctx.locals
  {
    hide Distinct, ExprOk, Find, BindLoopVar, NameOk, StmtCode;
    var outer := BindLoopVar(s.x, ctx);
    var inner := ReserveBound(outer);
    assert After(s, ctx) == AfterBlock(s.body, inner).(locals := ctx.locals);
    assert s.x != "" && |inner.locals| <= MAX_LOCALS by { ForNames(s, ctx, base, inSwitch); }
    PrefixTrans(outer.globals, After(s.body, inner).globals, k.table);
    FindPrefix(outer.globals, k.table, s.x);
  }

  lemma {:induction false} ForNames(s: Stmt, ctx: Ctx, base: Option<nat>, inSwitch: bool)
    requires s.ForIn? && StmtOk(s, ctx, base.Some?, inSwitch) && |ctx.locals| <= MAX_LOCALS
    ensures s.x != "" && |ReserveBound(BindLoopVar(s.x, ctx)).locals| <= MAX_LOCALS
  {
    hide ExprOk;
  }

  /** The pieces of a `for` loop at `p`, whose head is at `h`; `n` is the length of its body block. */
  lemma {:induction false} ForLayout(code: seq<Byte>, p: nat, s: Stmt, ctx: Ctx, brk: Option<int>, n: nat, h: nat)
    requires s.ForIn? && CodeAt(code, p, StmtCode(s, ctx, brk))
    requires var outer := BindLoopVar(s.x, ctx);
             var inner := ReserveBound(outer);
             && n == |BlockCode(s.body, inner, |inner.locals|, None)|
             && h == p + |ExprCode(s.lo, outer)| + |ExprCode(s.hi, outer)| + 3
    ensures var outer := BindLoopVar(s.x, ctx);
            var inner := ReserveBound(outer);
            var g := SlotOf(s.x, outer);
            var body := BlockCode(s.body, inner, |inner.locals|, Some(n + 8));
            && |body| == n && p + |StmtCode(s, ctx, brk)| == h + n + 16 <= |code|
            && CodeAt(code, p, ExprCode(s.lo, outer))
            && CodeAt(code, p + |ExprCode(s.lo, outer)|, ExprCode(s.hi, outer))
            && CodeAt(code, h - 3, [0x12]) && CodeAt(code, h - 2, [0x22, g])
            && CodeAt(code, h, ForTest(g, s.closed, n)) && CodeAt(code, h + 7, body)
            && CodeAt(code, h + 7 + n, ForNext(g, n)) && CodeAt(code, h + 15 + n, [0x10])
  {
    hide ExprCode, CodeAt, BindLoopVar, ForTest, ForNext;
    var outer := BindLoopVar(s.x, ctx);
    var inner := ReserveBound(outer);
    var g := SlotOf(s.x, outer);
    var lo, hi := ExprCode(s.lo, outer), ExprCode(s.hi, outer);
    var body := BlockCode(s.body, inner, |inner.locals|, Some(n + 8));
    SameLength(s.body, inner, None, Some(n + 8));
    InCode(code, p, StmtCode(s, ctx, brk));
    var head := lo + hi + [0x12, 0x22, g];
    CodeSplit3(code, p, head + ForTest(g, s.closed, n) + body, ForNext(g, n), [0x10]);
    CodeSplit3(code, p, head, ForTest(g, s.closed, n), body);
    CodeSplit3(code, p, lo, hi, [0x12, 0x22, g]);
    assert [0x12, 0x22, g] == [0x12] + [0x22, g];
    CodeSplit(code, h - 3, [0x12], [0x22, g]);
  }

  /** What the evaluator decides at the head of a loop. */
  predicate InRange(i: I16, b: I16, closed: bool) {
    if closed then i <= b else i < b
  }

  /** The test at the head of a loop whose bound `b` is on top of the stack. */
  lemma {:induction false} SimLoopTest(k: Linked, g: Byte, x: Name, b: Immediate, closed: bool, n: nat, w: World, z: M.State)
    requires Placed(k) && g as int < |k.table| && k.table[g].name == x && z.globals == Slots(k, w)
    requires |z.stack| > 0 && M.Peek(z) == Imm(b) && CodeAt(k.img.code, z.pc, ForTest(g, closed, n))
    ensures CodeAt(k.img.code, z.pc + 4, JumpCode(0x51, n + 8))
    ensures if x !in w.globals then Halts(k.img, z, M.BadOpcode, z.globals, z.out)
            else
              var i := w.globals[x];
              if !(i.Int? && b.Int?) then Halts(k.img, z, M.TypeMismatch, z.globals, z.out)
              else Reaches(k.img, z, z.(pc := z.pc + 4, stack := z.stack + [Imm(Bool(InRange(i.n, b.n, closed)))]))
  {
    hide M.Run, M.Step, Reaches, Halts, CodeAt, Slots, Placed;
    var op := Compare(if closed then M.Le else M.Lt);
    assert ForTest(g, closed, n) == ([0x20, g] + [0x13] + [OpByte(op)]) + JumpCode(0x51, n + 8);
    CodeSplit(k.img.code, z.pc, [0x20, g] + [0x13] + [OpByte(op)], JumpCode(0x51, n + 8));
    CodeSplit3(k.img.code, z.pc, [0x20, g], [0x13], [OpByte(op)]);
    GlobalPlain(k, g, w, z);
    StepGetGlobal(k.img, z, g);
    if x in w.globals {
      var i := w.globals[x];
      var t := z.(pc := z.pc + 2, stack := z.stack + [Imm(i)]);
      StepOver(k.img, t, b);
      var u := t.(pc := t.pc + 1, stack := t.stack + [Imm(b)]);
      ReachThen(k.img, z, t, u);
      StepBin(k.img, u, op, i, b, w);
      assert M.Dropped(u, 2) == z.stack;
      match Apply(op, i, b, w) {
        case Val(v, _) => ReachThen(k.img, z, u, u.(pc := u.pc + 1, stack := M.Dropped(u, 2) + [Imm(v)]));
        case Bad(err, _) => ReachThenHalt(k.img, z, u, err, u.globals, u.out);
      }
    }
  }

  /** The increment after a turn, and the jump back to the head. */
  lemma {:induction false} SimLoopNext(k: Linked, g: Byte, x: Name, n: nat, w: World, y: M.State)
    requires Placed(k) && g as int < |k.table| && k.table[g].name == x && y.globals == Slots(k, w) && y.out == w.out
    requires CodeAt(k.img.code, y.pc, ForNext(g, n)) && y.pc >= n + 7
    ensures if x !in w.globals then Halts(k.img, y, M.BadOpcode, y.globals, y.out)
            else if !w.globals[x].Int? then Halts(k.img, y, M.TypeMismatch, y.globals, y.out)
            else Reaches(k.img, y, Became(k, y, y.pc - 7 - n, y.stack, SetGlobal(w, x, Int(Wrap16(w.globals[x].n + 1)))))
  {
    hide M.Run, M.Step, Reaches, Halts, CodeAt, Slots;
    assert ForNext(g, n) == [0x20, g] + [0x36] + ([0x21, g] + JumpCode(0x53, n + 15));
    CodeSplit3(k.img.code, y.pc, [0x20, g], [0x36], [0x21, g] + JumpCode(0x53, n + 15));
    CodeSplit(k.img.code, y.pc + 3, [0x21, g], JumpCode(0x53, n + 15));
    GlobalPlain(k, g, w, y);
    StepGetGlobal(k.img, y, g);
    if x in w.globals {
      var j := w.globals[x];
      var t := y.(pc := y.pc + 2, stack := y.stack + [Imm(j)]);
      StepInc(k.img, t, j);
      assert M.Dropped(t, 1) == y.stack;
      if !j.Int? {
        ReachThenHalt(k.img, y, t, M.TypeMismatch, t.globals, t.out);
      } else {
        var next := Int(Wrap16(j.n + 1));
        var u := t.(pc := t.pc + 1, stack := y.stack + [Imm(next)]);
        ReachThen(k.img, y, t, u);
        GlobalPlain(k, g, w, u);
        StepSetGlobal(k.img, u, g);
        assert M.Dropped(u, 1) == y.stack;
        SlotUpdate(k, g, w, next);
        var v := Became(k, y, y.pc + 5, y.stack, SetGlobal(w, x, next));
        ReachThen(k.img, y, u, v);
        StepLoop(k.img, v, n + 15);
        ReachThen(k.img, y, v, v.(pc := v.pc + 3 - (n + 15)));
      }
    }
  }

  /** The machine is at the head of a loop over the global `x`, the bound `v` on top of the stack. */
  ghost predicate LoopPoised(k: Linked, x: Name, g: Byte, v: Immediate, closed: bool, body: Stmt, ctx: Ctx, inSwitch: bool,
                             n: nat, loc: Locals, w: World, fuel: nat, z: M.State, b: nat) {
    && Static(k, body, ctx, Some(|ctx.locals|), inSwitch) && CallsSimulated(k, fuel)
    && g as int < |k.table| && k.table[g].name == x
    && n == |BlockCode(body, ctx, |ctx.locals|, None)| == |BlockCode(body, ctx, |ctx.locals|, Some(n + 8))|
    && z.pc + 15 + n <= |k.img.code|
    && CodeAt(k.img.code, z.pc, ForTest(g, closed, n))
    && CodeAt(k.img.code, z.pc + 7, BlockCode(body, ctx, |ctx.locals|, Some(n + 8)))
    && CodeAt(k.img.code, z.pc + 7 + n, ForNext(g, n))
    && Settled(k, ctx, loc, w, z, b)
    && |z.stack| > 0 && M.Peek(z) == Imm(v)
    && (ctx.locals != [] ==> ctx.locals[|ctx.locals| - 1].name == "")
  }

  lemma {:induction false} SimLoop(k: Linked, x: Name, g: Byte, v: Immediate, closed: bool, body: Stmt, ctx: Ctx, inSwitch: bool,
                                   n: nat, loc: Locals, w: World, fuel: nat, z: M.State, b: nat)
    requires LoopPoised(k, x, g, v, closed, body, ctx, inSwitch, n, loc, w, fuel, z, b)
    ensures Ends(k, z, b, ctx.locals, z.pc + 15 + n, None, ctx.locals,
                 ForLoop(k.fs, ctx.inFn, x, v, closed, body, loc, w, fuel), fuel)
    decreases fuel, body, 5
  {
    hide M.Run, M.Step, Reaches, Halts, RunsFor, CallsSimulated, CodeAt, Slots, Refresh, Keys, Tidy, Static, Exec,
         LocalsAgree, BlockCode, Ends, After, ForTest, ForNext;
    StaticFacts(k, body, ctx, Some(|ctx.locals|), inSwitch);
    var end := z.pc + 15 + n;
    if fuel == 0 {
      RunsForNothing(k.img, z);
      LongEnds(k, z, b, ctx.locals, end, None, ctx.locals, fuel);
    } else {
      SimLoopTest(k, g, x, v, closed, n, w, z);
      if x !in w.globals {
        FailEnds(k, z, b, ctx.locals, end, None, ctx.locals, M.BadOpcode, w, fuel);
      } else if !(w.globals[x].Int? && v.Int?) {
        FailEnds(k, z, b, ctx.locals, end, None, ctx.locals, M.TypeMismatch, w, fuel);
      } else {
        SimLoopDecided(k, x, g, v, closed, body, ctx, inSwitch, n, loc, w, fuel, z, b);
      }
    }
  }

  /** The head of a `for` loop once the comparison is on the stack. */
  lemma {:induction false} SimLoopDecided(k: Linked, x: Name, g: Byte, v: Immediate, closed: bool, body: Stmt, ctx: Ctx, inSwitch: bool,
                                          n: nat, loc: Locals, w: World, fuel: nat, z: M.State, b: nat)
    requires LoopPoised(k, x, g, v, closed, body, ctx, inSwitch, n, loc, w, fuel, z, b) && fuel > 0
    requires x in w.globals && w.globals[x].Int? && v.Int? && CodeAt(k.img.code, z.pc + 4, JumpCode(0x51, n + 8))
    requires Reaches(k.img, z, z.(pc := z.pc + 4, stack := z.stack + [Imm(Bool(InRange(w.globals[x].n, v.n, closed)))]))
    ensures Ends(k, z, b, ctx.locals, z.pc + 15 + n, None, ctx.locals,
                 ForLoop(k.fs, ctx.inFn, x, v, closed, body, loc, w, fuel), fuel)
    decreases fuel, body, 4
  {
    hide M.Run, M.Step, Reaches, Halts, RunsFor, CallsSimulated, CodeAt, Slots, Refresh, Keys, Tidy, Static, Exec, Agrees,
         LocalsAgree, BlockCode, Ends, After, ForTest, ForNext;
    StaticFacts(k, body, ctx, Some(|ctx.locals|), inSwitch);
    var c := InRange(w.globals[x].n, v.n, closed);
    var t := z.(pc := z.pc + 4, stack := z.stack + [Imm(Bool(c))]);
    StepJumpIf(k.img, t, false, n + 8, Bool(c));
    assert M.Dropped(t, 1) == z.stack;
    if c {
      SimLoopTurn(k, x, g, v, closed, body, ctx, inSwitch, n, loc, w, fuel, z, b, t);
    } else {
      var u := z.(pc := z.pc + 15 + n);
      AgreesWorld(k, ctx, loc, w, z, b, u);
      ReachThen(k.img, z, t, u);
      NormalEnds(k, ctx, loc, w, z, b, z.pc + 15 + n, None, w, fuel);
    }
  }

  /** One turn of a `for` loop whose test, decided at `t`, held. */
  lemma {:induction false} SimLoopTurn(k: Linked, x: Name, g: Byte, v: Immediate, closed: bool, body: Stmt, ctx: Ctx,
                                       inSwitch: bool, n: nat, loc: Locals, w: World, fuel: nat, z: M.State, b: nat, t: M.State)
    requires LoopPoised(k, x, g, v, closed, body, ctx, inSwitch, n, loc, w, fuel, z, b) && fuel > 0
    requires Reaches(k.img, z, t) && M.Step(k.img, t) == M.Running(z.(pc := z.pc + 7))
    ensures Ends(k, z, b, ctx.locals, z.pc + 15 + n, None, ctx.locals,
                 match Exec(k.fs, ctx.inFn, body, loc, w, fuel - 1)
                 case Broke(inner, w2) => Normal(Narrow(inner, loc), w2)
                 case Normal(inner, w2) =>
                   if x !in w2.globals then Failed(M.BadOpcode, w2)
                   else if !w2.globals[x].Int? then Failed(M.TypeMismatch, w2)
                   else ForLoop(k.fs, ctx.inFn, x, v, closed, body, Narrow(inner, loc),
                                SetGlobal(w2, x, Int(Wrap16(w2.globals[x].n + 1))), fuel - 1)
                 case other => other, fuel)
    decreases fuel, body, 3
  {
    hide M.Run, M.Step, Reaches, Halts, RunsFor, CallsSimulated, CodeAt, Slots, Refresh, Keys, Tidy, Static, Exec, ForLoop,
         LocalsAgree, BlockCode, Ends, After, ForTest, ForNext, Agrees;
    StaticFacts(k, body, ctx, Some(|ctx.locals|), inSwitch);
    FewerCalls(k, fuel, fuel - 1);
    var end := z.pc + 15 + n;
    var u := z.(pc := z.pc + 7);
    AgreesWorld(k, ctx, loc, w, z, b, u);
    Unmoved(k, ctx, loc, w, z, b, u.pc, w);
    StepReaches(k.img, t, u);
    ReachThen(k.img, z, t, u);
    SimBlock(k, body, ctx, |ctx.locals|, loc, Some(|ctx.locals|), inSwitch, Some(n + 8), loc, w, fuel - 1, u, b);
    var o := Exec(k.fs, ctx.inFn, body, loc, w, fuel - 1);
    match o {
      case Normal(inner, w2) =>
        SimLoopAgain(k, x, g, v, closed, body, ctx, inSwitch, n, loc, w, fuel, z, b, t, Narrow(inner, loc), w2);
      case OutOfFuel =>
        ReachSelf(k.img, u);
        LongRun(k, u, b, ctx.locals, u.pc + n, Some(u.pc + n + 8), ctx.locals, fuel - 1);
        LongTurn(k, z, t, u, u, b, ctx.locals, end, None, o, fuel);
      case Broke(inner, w2) =>
        BreakEnds(k, ctx, loc, u, b, end, None, inner, w2, fuel);
        LiftEnds(k, z, u, b, ctx.locals, end, None, ctx.locals, Normal(Narrow(inner, loc), w2), fuel, u.pc, w);
      case _ =>
        EndsAnywhere(k, u, b, ctx.locals, u.pc + n, Some(u.pc + n + 8), ctx.locals, o, fuel - 1, ctx.locals, end);
        RetargetEndsNoBreak(k, u, b, ctx.locals, end, Some(u.pc + n + 8), None, ctx.locals, o, fuel - 1, fuel);
        LiftEnds(k, z, u, b, ctx.locals, end, None, ctx.locals, o, fuel, u.pc, w);
    }
  }

  lemma {:induction false} AgreesWorld(k: Linked, ctx: Ctx, loc: Locals, w: World, z: M.State, b: nat, u: M.State)
    requires Settled(k, ctx, loc, w, z, b) && u == z.(pc := u.pc)
    ensures u == Became(k, z, u.pc, z.stack, w)
  {
  }

  /** After a turn that ended normally: the increment, and the rest of the loop. */
  lemma {:induction false} SimLoopAgain(k: Linked, x: Name, g: Byte, v: Immediate, closed: bool, body: Stmt, ctx: Ctx,
                                        inSwitch: bool, n: nat, loc: Locals, w: World, fuel: nat, z: M.State, b: nat,
                                        t: M.State, loc2: Locals, w2: World)
    requires LoopPoised(k, x, g, v, closed, body, ctx, inSwitch, n, loc, w, fuel, z, b) && fuel > 0
    requires Reaches(k.img, z, t) && M.Step(k.img, t) == M.Running(z.(pc := z.pc + 7))
    requires Ends(k, z.(pc := z.pc + 7), b, ctx.locals, z.pc + 7 + n, Some(z.pc + 15 + n), ctx.locals, Normal(loc2, w2), fuel - 1)
    ensures Ends(k, z, b, ctx.locals, z.pc + 15 + n, None, ctx.locals,
                 if x !in w2.globals then Failed(M.BadOpcode, w2)
                 else if !w2.globals[x].Int? then Failed(M.TypeMismatch, w2)
                 else ForLoop(k.fs, ctx.inFn, x, v, closed, body, loc2,
                              SetGlobal(w2, x, Int(Wrap16(w2.globals[x].n + 1))), fuel - 1), fuel)
    decreases fuel, body, 2
  {
    hide M.Run, M.Step, Reaches, Halts, RunsFor, CallsSimulated, CodeAt, Slots, Refresh, Tidy, Static, ForLoop,
         LocalsAgree, BlockCode, After, ForTest, ForNext, Agrees, Keys;
    StaticFacts(k, body, ctx, Some(|ctx.locals|), inSwitch);
    var end := z.pc + 15 + n;
    var u := z.(pc := z.pc + 7);
    var stack := Refresh(z.stack, b, ctx.locals, loc2);
    var y := Became(k, z, z.pc + 7 + n, stack, w2);
    StepReaches(k.img, t, u);
    ReachThen(k.img, z, t, u);
    ReachThen(k.img, z, u, y);
    SimLoopNext(k, g, x, n, w2, y);
    if x !in w2.globals {
      ReachThenHalt(k.img, z, y, M.BadOpcode, y.globals, y.out);
    } else if !w2.globals[x].Int? {
      ReachThenHalt(k.img, z, y, M.TypeMismatch, y.globals, y.out);
    } else {
      var w3 := SetGlobal(w2, x, Int(Wrap16(w2.globals[x].n + 1)));
      var z2 := Became(k, z, z.pc, stack, w3);
      ReachThen(k.img, u, y, z2);
      ReachThen(k.img, z, u, z2);
      LoopRepoised(k, x, g, v, closed, body, ctx, inSwitch, n, loc, w, fuel, z, b, loc2, w3);
      SimLoop(k, x, g, v, closed, body, ctx, inSwitch, n, loc2, w3, fuel - 1, z2, b);
      var o := ForLoop(k.fs, ctx.inFn, x, v, closed, body, loc2, w3, fuel - 1);
      if o.OutOfFuel? {
        LongRun(k, z2, b, ctx.locals, end, None, ctx.locals, fuel - 1);
        LongTurn(k, z, t, u, z2, b, ctx.locals, end, None, o, fuel);
      } else {
        SameSlots(k, ctx, loc, w, z, b, loc2);
        EndsLessFuel(k, z2, b, ctx.locals, end, None, ctx.locals, o, fuel - 1, fuel);
        LiftEnds(k, z, z2, b, ctx.locals, end, None, ctx.locals, o, fuel, z2.pc, w3);
      }
    }
  }

  lemma {:induction false} LoopRepoised(k: Linked, x: Name, g: Byte, v: Immediate, closed: bool, body: Stmt, ctx: Ctx, inSwitch: bool,
                     n: nat, loc: Locals, w: World, fuel: nat, z: M.State, b: nat, loc2: Locals, w3: World)
    requires LoopPoised(k, x, g, v, closed, body, ctx, inSwitch, n, loc, w, fuel, z, b) && fuel > 0 && Keys(ctx.locals, loc2)
    ensures b <= |z.stack| && "" !in loc2
    ensures LoopPoised(k, x, g, v, closed, body, ctx, inSwitch, n, loc2, w3, fuel - 1,
                       Became(k, z, z.pc, Refresh(z.stack, b, ctx.locals, loc2), w3), b)
  {
    hide CallsSimulated, CodeAt, Slots, Tidy, Static, BlockCode, ForTest, ForNext, Agrees;
    BoundKept(k, ctx, loc, w, z, b, loc2, v);
    FewerCalls(k, fuel, fuel - 1);
    LoopSettled(k, ctx, loc, w, z, b, loc2, w3);
  }

  lemma {:induction false} LoopSettled(k: Linked, ctx: Ctx, loc: Locals, w: World, z: M.State, b: nat, loc2: Locals, w3: World)
    requires Settled(k, ctx, loc, w, z, b) && Keys(ctx.locals, loc2)
    ensures b <= |z.stack|
    ensures Settled(k, ctx, loc2, w3, Became(k, z, z.pc, Refresh(z.stack, b, ctx.locals, loc2), w3), b)
  {
    hide Slots, Refresh, Keys;
    BecameSettled(k, ctx, loc, w, z, b, ctx, loc2, w3, z.pc);
  }

  /** The bound on top of the stack survives the turns. */
  lemma {:induction false} BoundKept(k: Linked, ctx: Ctx, loc: Locals, w: World, z: M.State, b: nat, loc2: Locals, v: Immediate)
    requires Settled(k, ctx, loc, w, z, b) && |z.stack| > 0 && M.Peek(z) == Imm(v) && Keys(ctx.locals, loc2)
    requires ctx.locals != [] ==> ctx.locals[|ctx.locals| - 1].name == ""
    ensures "" !in loc2
    ensures var r := Refresh(z.stack, b, ctx.locals, loc2); |r| == |z.stack| && r[|r| - 1] == Imm(v)
  {
    hide Agrees, Tidy;
  }

  lemma {:induction false} SimForIn(k: Linked, s: Stmt, ctx: Ctx, base: Option<nat>, inSwitch: bool, brk: Option<int>,
                                    loc: Locals, w: World, fuel: nat, st: M.State, b: nat)
    requires Poised(k, s, ctx, base, inSwitch, brk, loc, w, fuel, st, b) && s.ForIn?
    ensures Done(k, s, ctx, base, brk, st, b, Exec(k.fs, ctx.inFn, s, loc, w, fuel), fuel)
    decreases fuel, s, 0
  {
    hide M.Run, M.Step, Reaches, Halts, RunsFor, CallsSimulated, CodeAt, Slots, Refresh, Keys, Tidy, Static, Eval, LocalsAgree,
         ExprCode, BlockCode, Ends, After, StmtCode, InCtx, ExprOk, Agrees, BindLoopVar, ForLoop, SlotOf, ReserveBound, Placed;
    var ForIn(x, lo, hi, closed, body) := s;
    var outer := BindLoopVar(x, ctx);
    var inner := ReserveBound(outer);
    var cl, ch := ExprCode(lo, outer), ExprCode(hi, outer);
    var n := |BlockCode(body, inner, |inner.locals|, None)|;
    var h := st.pc + |cl| + |ch| + 3;
    StaticFacts(k, s, ctx, base, inSwitch);
    ForStatic(k, s, ctx, base, inSwitch);
    ForLayout(k.img.code, st.pc, s, ctx, brk, n, h);
    SettledFor(k, ctx, outer, loc, w, st, b);
    SimExpr(k, outer, lo, loc, w, fuel, st);
    var end, target := h + n + 16, Target(base, brk, ctx, st.pc);
    match Eval(k.fs, lo, loc, w, fuel) {
      case Bad(err, w1) => FailEnds(k, st, b, ctx.locals, end, target, ctx.locals, err, w1, fuel);
      case Timeout => LongEnds(k, st, b, ctx.locals, end, target, ctx.locals, fuel);
      case Val(a, w1) =>
        var t := Past(k, st, |cl|, [Imm(a)], w1);
        AgreesPast(k, outer, loc, w, st, |cl|, [Imm(a)], w1);
        SimExpr(k, outer, hi, loc, w1, fuel, t);
        match Eval(k.fs, hi, loc, w1, fuel) {
          case Bad(err, w2) =>
            ReachThenHalt(k.img, st, t, err, Slots(k, w2), w2.out);
            FailEnds(k, st, b, ctx.locals, end, target, ctx.locals, err, w2, fuel);
          case Timeout =>
            ReachThenRun(k.img, st, t, fuel);
            LongEnds(k, st, b, ctx.locals, end, target, ctx.locals, fuel);
          case Val(v, w2) =>
            var u := Past(k, t, |ch|, [Imm(v)], w2);
            ReachThen(k.img, st, t, u);
            SimForBody(k, s, ctx, base, inSwitch, brk, loc, w, fuel, st, b, u, a, v, w2, n, h);
        }
    }
  }

  /** The store of the first number, once both ends of the range are on the stack of `u`; the bound stays there. */
  lemma {:induction false} HeadReached(k: Linked, st: M.State, u: M.State, a: Immediate, v: Immediate, x: Name, g: Byte, h: nat, w2: World)
    requires Placed(k) && g as int < |k.table| && k.table[g].name == x
    requires CodeAt(k.img.code, h - 3, [0x12]) && CodeAt(k.img.code, h - 2, [0x22, g]) && h >= 3
    requires u == Became(k, st, h - 3, st.stack + [Imm(a)] + [Imm(v)], w2) && Reaches(k.img, st, u)
    ensures Reaches(k.img, st, Became(k, st, h, st.stack + [Imm(v)], SetGlobal(w2, x, a)))
  {
    hide M.Run, M.Step, Reaches, CodeAt, Slots, Placed;
    StepSwap(k.img, u);
    assert M.Dropped(u, 2) == st.stack;
    var u1 := u.(pc := h - 2, stack := st.stack + [Imm(v), Imm(a)]);
    ReachThen(k.img, st, u, u1);
    GlobalPlain(k, g, w2, u1);
    StepDefineGlobal(k.img, u1, g);
    SlotUpdate(k, g, w2, a);
    assert M.Dropped(u1, 1) == st.stack + [Imm(v)];
    ReachThen(k.img, st, u1, Became(k, st, h, st.stack + [Imm(v)], SetGlobal(w2, x, a)));
  }

  /** The loop proper: both ends of the range are on the stack of `u`. */
  lemma {:induction false} SimForBody(k: Linked, s: Stmt, ctx: Ctx, base: Option<nat>, inSwitch: bool, brk: Option<int>,
                                      loc: Locals, w: World, fuel: nat, st: M.State, b: nat, u: M.State,
                                      a: Immediate, v: Immediate, w2: World, n: nat, h: nat)
    requires Poised(k, s, ctx, base, inSwitch, brk, loc, w, fuel, st, b) && s.ForIn?
    requires var outer := BindLoopVar(s.x, ctx);
             var inner := ReserveBound(outer);
             && n == |BlockCode(s.body, inner, |inner.locals|, None)|
             && h == st.pc + |ExprCode(s.lo, outer)| + |ExprCode(s.hi, outer)| + 3
    requires u == Became(k, st, h - 3, st.stack + [Imm(a)] + [Imm(v)], w2) && Reaches(k.img, st, u)
    ensures Done(k, s, ctx, base, brk, st, b,
                 ForLoop(k.fs, ctx.inFn, s.x, v, s.closed, s.body, loc, SetGlobal(w2, s.x, a), fuel), fuel)
    decreases fuel, s, -1
  {
    hide M.Run, M.Step, Reaches, Halts, RunsFor, CallsSimulated, CodeAt, Slots, Refresh, Keys, Tidy, Static, LocalsAgree,
         ExprCode, BlockCode, Ends, After, StmtCode, InCtx, Agrees, BindLoopVar, ForLoop, SlotOf, ReserveBound, Settled, Placed;
    var outer := BindLoopVar(s.x, ctx);
    var inner := ReserveBound(outer);
    StaticFacts(k, s, ctx, base, inSwitch);
    ForStatic(k, s, ctx, base, inSwitch);
    ForLayout(k.img.code, st.pc, s, ctx, brk, n, h);
    HeadReached(k, st, u, a, v, s.x, SlotOf(s.x, outer), h, w2);
    var w3 := SetGlobal(w2, s.x, a);
    var z := Became(k, st, h, st.stack + [Imm(v)], w3);
    BoundSettled(k, ctx, s.x, loc, w, st, b, v, h, w3);
    SimLoop(k, s.x, SlotOf(s.x, outer), v, s.closed, s.body, inner, inSwitch, n, loc, w3, fuel, z, if ctx.inFn then b else b + 1);
    var o := ForLoop(k.fs, ctx.inFn, s.x, v, s.closed, s.body, loc, w3, fuel);
    LoopExit(k, ctx, s.x, loc, w, st, b, v, h, w3, n, o, fuel);
    RetargetEnds(k, st, b, ctx.locals, h + n + 16, None, ctx.locals, Target(base, brk, ctx, st.pc), ctx.locals, o, fuel);
  }

  /** With the bound on the stack the machine is at a boundary of the loop's own tables. */
  lemma {:induction false} BoundSettled(k: Linked, ctx: Ctx, x: Name, loc: Locals, w: World, st: M.State, b: nat, v: Immediate, h: nat, w3: World)
    requires Settled(k, ctx, loc, w, st, b)
    ensures var inner := ReserveBound(BindLoopVar(x, ctx));
            var z := Became(k, st, h, st.stack + [Imm(v)], w3);
            && Settled(k, inner, loc, w3, z, if ctx.inFn then b else b + 1)
            && |z.stack| > 0 && M.Peek(z) == Imm(v) && inner.inFn == ctx.inFn
            && inner.locals == (if ctx.inFn then ctx.locals + [ANONYMOUS] else [])
            && (inner.locals != [] ==> inner.locals[|inner.locals| - 1].name == "")
  {
    hide Slots, Refresh, BindLoopVar, Tidy, LocalsAgree;
    var inner := ReserveBound(BindLoopVar(x, ctx));
    TidyAdd(ctx.locals, ANONYMOUS);
    assert !ctx.inFn ==> ctx.locals == [] by { TopLevelEmpty(k, ctx, loc, w, st, b); }
    BoundAgrees(ctx, inner, loc, st.stack, st.fp, v);
  }

  lemma {:induction false} BoundAgrees(ctx: Ctx, inner: Ctx, loc: Locals, stack: seq<Value>, fp: nat, v: Immediate)
    requires LocalsAgree(ctx, loc, stack, fp) && inner.inFn == ctx.inFn && (ctx.inFn ==> |stack| == fp + |ctx.locals|)
    requires inner.locals == if ctx.inFn then ctx.locals + [ANONYMOUS] else []
    ensures LocalsAgree(inner, loc, stack + [Imm(v)], fp)
  {
    hide Find, LocalsAgree, HoldsAt;
    var ts, longer := inner.locals, stack + [Imm(v)];
    forall y
      ensures HoldsAt(ts, loc, longer, fp, y)
    {
      AgreesAt(ctx, loc, stack, fp, y);
      if ctx.inFn {
        BoundAt(ctx.locals, loc, stack, fp, v, y);
      } else {
        HoldsAbove(loc, stack, fp, v, y);
      }
    }
    AgreesAt(ctx, loc, stack, fp, "");
    AgreesEverywhere(inner, loc, longer, fp);
  }

  /** The variable `y`, and nothing else, is in the slot that the tables give it. */
  ghost predicate HoldsAt(ts: seq<Sym>, loc: Locals, stack: seq<Value>, fp: nat, y: Name) {
    && (y in loc <==> Find(ts, y).Some?)
    && (y in loc ==> var i := fp + Find(ts, y).value; i < |stack| && stack[i] == Imm(loc[y]))
  }

  lemma {:induction false} AgreesAt(ctx: Ctx, loc: Locals, stack: seq<Value>, fp: nat, y: Name)
    requires LocalsAgree(ctx, loc, stack, fp)
    ensures fp + |ctx.locals| <= |stack| && HoldsAt(ctx.locals, loc, stack, fp, y) && (!ctx.inFn ==> ctx.locals == [])
  {
    hide Find;
  }

  lemma {:induction false} AgreesEverywhere(ctx: Ctx, loc: Locals, stack: seq<Value>, fp: nat)
    requires fp + |ctx.locals| <= |stack| && (forall y :: HoldsAt(ctx.locals, loc, stack, fp, y)) && (!ctx.inFn ==> ctx.locals == [])
    ensures LocalsAgree(ctx, loc, stack, fp)
  {
    hide Find;
    forall x
      ensures x in loc <==> Find(ctx.locals, x).Some?
      ensures x in loc ==> stack[fp + Find(ctx.locals, x).value] == Imm(loc[x])
    {
      assert HoldsAt(ctx.locals, loc, stack, fp, x);
    }
  }

  /** The unnamed slot of the bound hides no variable. */
  lemma {:induction false} BoundAt(ts: seq<Sym>, loc: Locals, stack: seq<Value>, fp: nat, v: Immediate, y: Name)
    requires |stack| == fp + |ts| && HoldsAt(ts, loc, stack, fp, y)
    ensures HoldsAt(ts + [ANONYMOUS], loc, stack + [Imm(v)], fp, y)
  {
    hide Find;
    FindAdd(ts, ANONYMOUS, y);
  }

  lemma {:induction false} HoldsAbove(loc: Locals, stack: seq<Value>, fp: nat, v: Immediate, y: Name)
    requires HoldsAt([], loc, stack, fp, y)
    ensures HoldsAt([], loc, stack + [Imm(v)], fp, y)
  {
  }

  /** The pop after the loop drops the bound. */
  lemma {:induction false} LoopExit(k: Linked, ctx: Ctx, x: Name, loc: Locals, w: World, st: M.State, b: nat, v: Immediate, h: nat, w3: World,
                 n: nat, o: Outcome, fuel: nat)
    requires Settled(k, ctx, loc, w, st, b) && CodeAt(k.img.code, h + 15 + n, [0x10])
    requires Reaches(k.img, st, Became(k, st, h, st.stack + [Imm(v)], w3))
    requires var inner := ReserveBound(BindLoopVar(x, ctx));
             Ends(k, Became(k, st, h, st.stack + [Imm(v)], w3), if ctx.inFn then b else b + 1, inner.locals, h + 15 + n, None,
                  inner.locals, o, fuel)
    ensures Ends(k, st, b, ctx.locals, h + 16 + n, None, ctx.locals, o, fuel)
  {
    hide M.Run, M.Step, Reaches, Halts, RunsFor, CodeAt, Slots, BindLoopVar, Refresh, Agrees, Tidy;
    var inner := ReserveBound(BindLoopVar(x, ctx));
    var b1 := if ctx.inFn then b else b + 1;
    var z := Became(k, st, h, st.stack + [Imm(v)], w3);
    BoundSettled(k, ctx, x, loc, w, st, b, v, h, w3);
    match o {
      case Normal(loc', w') =>
        BoundPopped(k, ctx, loc, w, st, b, v, loc');
        var y := Became(k, st, h + 15 + n, Refresh(z.stack, b1, inner.locals, loc'), w');
        ReachThen(k.img, st, z, y);
        StepPop(k.img, y, v);
        ReachThen(k.img, st, y, Became(k, st, h + 16 + n, Refresh(st.stack, b, ctx.locals, loc'), w'));
      case Returned(r, w') =>
        assert z.stack[..z.fp] == st.stack[..st.fp];
        ReachThen(k.img, st, z, LeftWith(k, st, r, w'));
      case Failed(err, w') => ReachThenHalt(k.img, st, z, err, Slots(k, w'), w'.out);
      case OutOfFuel => ReachThenRun(k.img, st, z, fuel);
    }
  }

  lemma {:induction false} BoundPopped(k: Linked, ctx: Ctx, loc: Locals, w: World, st: M.State, b: nat, v: Immediate, loc': Locals)
    requires Settled(k, ctx, loc, w, st, b)
    requires Keys(if ctx.inFn then ctx.locals + [ANONYMOUS] else [], loc')
    ensures Keys(ctx.locals, loc')
    ensures var r := Refresh(st.stack + [Imm(v)], if ctx.inFn then b else b + 1,
                             if ctx.inFn then ctx.locals + [ANONYMOUS] else [], loc');
            |r| > 0 && r[|r| - 1] == Imm(v) && r[..|r| - 1] == Refresh(st.stack, b, ctx.locals, loc')
  {
    hide Agrees, Tidy, Refresh, Keys;
    BoundKeys(ctx.locals, loc', ctx.inFn) by { TopLevelEmpty(k, ctx, loc, w, st, b); }
    if ctx.inFn {
      RefreshBound(st.stack, b, ctx.locals, loc', v);
    } else {
      TopLevelEmpty(k, ctx, loc, w, st, b);
      RefreshNothing(st.stack, b, loc', v);
    }
  }

  lemma {:induction false} TopLevelEmpty(k: Linked, ctx: Ctx, loc: Locals, w: World, st: M.State, b: nat)
    requires Settled(k, ctx, loc, w, st, b)
    ensures !ctx.inFn ==> ctx.locals == []
  {
  }

  lemma {:induction false} BoundKeys(ts: seq<Sym>, loc: Locals, inFn: bool)
    requires Keys(if inFn then ts + [ANONYMOUS] else [], loc) && (!inFn ==> ts == [])
    ensures Keys(ts, loc) && "" !in loc
  {
    forall y
      ensures y in loc <==> Find(ts, y).Some?
    {
      FindAdd(ts, ANONYMOUS, y);
    }
  }

  lemma {:induction false} RefreshBound(stack: seq<Value>, b: nat, ts: seq<Sym>, loc: Locals, v: Immediate)
    requires |stack| == b + |ts| && "" !in loc
    ensures Refresh(stack + [Imm(v)], b, ts + [ANONYMOUS], loc) == Refresh(stack, b, ts, loc) + [Imm(v)]
  {
    assert (stack + [Imm(v)])[..b] == stack[..b];
  }

  lemma {:induction false} RefreshNothing(stack: seq<Value>, b: nat, loc: Locals, v: Immediate)
    requires |stack| == b
    ensures Refresh(stack + [Imm(v)], b + 1, [], loc) == Refresh(stack, b, [], loc) + [Imm(v)]
  {
    assert (stack + [Imm(v)])[..b + 1] == stack + [Imm(v)];
    assert stack[..b] == stack;
  }

  // ----- switch -----

  /** What `Leaves` promises: no execution ends normally. */
  lemma {:induction false} NeverNormal(fs: seq<FuncDecl>, inFn: bool, s: Stmt, loc: Locals, w: World, fuel: nat)
    requires Leaves(s)
    ensures !Exec(fs, inFn, s, loc, w, fuel).Normal?
    decreases s, 1
  {
    match s {
      case Seq(s1, s2) =>
        if Leaves(s1) {
          NeverNormal(fs, inFn, s1, loc, w, fuel);
        } else {
          var o := Exec(fs, inFn, s1, loc, w, fuel);
          if o.Normal? {
            NeverNormal(fs, inFn, s2, o.loc, o.w, fuel);
          }
        }
      case If(c, thn, Some(els)) =>
        var r := Eval(fs, c, loc, w, fuel);
        if r.Val? {
          NeverNormal(fs, inFn, thn, loc, r.w, fuel);
          NeverNormal(fs, inFn, els, loc, r.w, fuel);
        }
      case IfLet(x, e, thn, Some(els)) =>
        var r := Eval(fs, e, loc, w, fuel);
        if r.Val? {
          var d := Declared(inFn, x, r.v, loc, r.w);
          NeverNormal(fs, inFn, thn, d.loc, d.w, fuel);
          NeverNormal(fs, inFn, els, loc, r.w, fuel);
        }
      case Switch(e, cases) =>
        var r := Eval(fs, e, loc, w, fuel);
        if r.Val? {
          NeverSelected(fs, inFn, r.v, cases, loc, r.w, fuel);
        }
      case Return(_) =>
      case Break =>
    }
  }

  lemma {:induction false} NeverSelected(fs: seq<FuncDecl>, inFn: bool, v: Immediate, cases: Cases, loc: Locals, w: World, fuel: nat)
    requires AllLeave(cases)
    ensures !Select(fs, inFn, v, cases, loc, w, fuel).Normal?
    decreases cases, 0
  {
    match cases {
      case Default(body) => NeverNormal(fs, inFn, body, loc, w, fuel);
      case Case(values, body, rest) =>
        var r := AnyEqual(fs, v, values, loc, w, fuel);
        if r.Matched? {
          NeverNormal(fs, inFn, body, loc, r.w, fuel);
          NeverSelected(fs, inFn, v, rest, loc, r.w, fuel);
        }
    }
  }

  /** The machine is at the clauses `cases`, the subject `v` on top of the stack of `t`. */
  ghost predicate CasesPoised(k: Linked, cases: Cases, ctx: Ctx, base: Option<nat>, brk: Option<int>, v: Immediate,
                              loc: Locals, w: World, fuel: nat, t: M.State, b: nat) {
    && Placed(k) && InCtx(k, ctx) && AfterCases(cases, ctx).globals <= k.table && CallsSimulated(k, fuel)
    && CasesOk(cases, ctx, base.Some?) && CarefulCases(cases, ctx, base)
    && (base.Some? ==> base.value <= |ctx.locals| && brk.Some? && 0 <= t.pc + brk.value <= |k.img.code|)
    && CodeAt(k.img.code, t.pc, CasesCode(cases, ctx, brk))
    && OverSubject(k, ctx, v, loc, w, t, b)
  }

  /** A boundary with the subject `v` pushed on top of it. */
  ghost predicate OverSubject(k: Linked, ctx: Ctx, v: Immediate, loc: Locals, w: World, t: M.State, b: nat) {
    |t.stack| > 0 && M.Peek(t) == Imm(v) && Settled(k, ctx, loc, w, t.(stack := M.Dropped(t, 1)), b)
  }

  lemma {:induction false} SubjectSettled(k: Linked, ctx: Ctx, v: Immediate, loc: Locals, w: World, t: M.State, b: nat, pc: nat, w': World)
    requires OverSubject(k, ctx, v, loc, w, t, b)
    ensures Settled(k, ctx, loc, w', Became(k, t, pc, M.Dropped(t, 1), w'), b)
    ensures OverSubject(k, ctx, v, loc, w', Became(k, t, pc, t.stack, w'), b)
    ensures Agrees(k, ctx, loc, w, t) && Keys(ctx.locals, loc) && "" !in loc
    ensures b <= |t.stack| && SameUnder(M.Dropped(t, 1), t.stack, b, ctx.locals)
    ensures SameUnder(t.stack, t.stack, b, ctx.locals)
    ensures ctx.locals[..|ctx.locals|] == ctx.locals
    ensures t == Became(k, t, t.pc, t.stack, w)
  {
    hide Tidy, Slots, LocalsAgree, AllImmediate, SameUnder, Keys;
    SubjectAgrees(k, ctx, v, loc, w, t, b);
    SubjectUnder(k, ctx, v, loc, w, t, b);
    SubjectElsewhere(k, ctx, v, loc, w, t, b, pc, w');
  }

  lemma {:induction false} SubjectElsewhere(k: Linked, ctx: Ctx, v: Immediate, loc: Locals, w: World, t: M.State, b: nat, pc: nat, w': World)
    requires OverSubject(k, ctx, v, loc, w, t, b)
    ensures Settled(k, ctx, loc, w', Became(k, t, pc, M.Dropped(t, 1), w'), b)
    ensures OverSubject(k, ctx, v, loc, w', Became(k, t, pc, t.stack, w'), b)
  {
    hide Tidy, Slots, AllImmediate;
    var q := t.(stack := M.Dropped(t, 1));
    assert LocalsAgree(ctx, loc, q.stack, q.fp);
  }

  lemma {:induction false} SubjectAgrees(k: Linked, ctx: Ctx, v: Immediate, loc: Locals, w: World, t: M.State, b: nat)
    requires OverSubject(k, ctx, v, loc, w, t, b)
    ensures Agrees(k, ctx, loc, w, t) && Keys(ctx.locals, loc) && "" !in loc
  {
    hide Tidy, Slots;
    var q := t.(stack := M.Dropped(t, 1));
    forall x | x in loc
      ensures t.stack[t.fp + Find(ctx.locals, x).value] == Imm(loc[x])
    {
      assert q.stack[q.fp + Find(ctx.locals, x).value] == Imm(loc[x]);
    }
    forall i | 0 <= i < |t.stack|
      ensures t.stack[i].Imm?
    {
      assert i < |t.stack| - 1 ==> t.stack[i] == q.stack[i];
    }
  }

  lemma {:induction false} SubjectUnder(k: Linked, ctx: Ctx, v: Immediate, loc: Locals, w: World, t: M.State, b: nat)
    requires OverSubject(k, ctx, v, loc, w, t, b)
    ensures b <= |t.stack| && SameUnder(M.Dropped(t, 1), t.stack, b, ctx.locals) && SameUnder(t.stack, t.stack, b, ctx.locals)
  {
    hide Tidy, Slots, Agrees;
    assert M.Dropped(t, 1)[..b] == t.stack[..b];
  }

  /** How the tests of a clause end: at the clause body, `miss` bytes after it, or not at all. */
  ghost predicate Decides(k: Linked, t: M.State, n: nat, miss: nat, r: MatchResult, fuel: nat) {
    match r
    case Matched(hit, w) => Reaches(k.img, t, Became(k, t, t.pc + n + (if hit then 0 else miss), t.stack, w))
    case BadMatch(err, w) => Halts(k.img, t, err, Slots(k, w), w.out)
    case TimeoutMatch => RunsFor(k.img, t, fuel)
  }

  lemma {:induction false} TestsUnfold(values: Exprs, ctx: Ctx, skip: nat)
    requires values.Exprs?
    ensures var last := values.rest.NoExprs?;
            var more := TestsCode(values.rest, ctx, skip);
            TestsCode(values, ctx, skip)
            == [0x11] + ExprCode(values.first, ctx) + ([0x40] + JumpCode(if last then 0x51 else 0x52, if last then skip else |more|))
               + more
  {
    assert TestsCode(NoExprs, ctx, skip) == [];
  }

  /** The pieces of the tests at `p`: the copy, the value, the comparison, the jump, and the tests behind it. */
  lemma {:induction false} TestLayout(code: seq<Byte>, p: nat, values: Exprs, ctx: Ctx, skip: nat)
    requires values.Exprs? && CodeAt(code, p, TestsCode(values, ctx, skip))
    ensures var m, more := |ExprCode(values.first, ctx)|, TestsCode(values.rest, ctx, skip);
            var last := values.rest.NoExprs?;
            && CodeAt(code, p, [0x11]) && CodeAt(code, p + 1, ExprCode(values.first, ctx)) && CodeAt(code, p + 1 + m, [0x40])
            && CodeAt(code, p + 2 + m, JumpCode(if last then 0x51 else 0x52, if last then skip else |more|))
            && CodeAt(code, p + 5 + m, more) && |TestsCode(values, ctx, skip)| == m + 5 + |more|
            && (last ==> more == [])
  {
    hide CodeAt, ExprCode, JumpCode, TestsCode;
    var ce, more, last := ExprCode(values.first, ctx), TestsCode(values.rest, ctx, skip), values.rest.NoExprs?;
    var jump := JumpCode(if last then 0x51 else 0x52, if last then skip else |more|);
    TestsUnfold(values, ctx, skip);
    if last { EmptyTests(ctx, skip); }
    CodeSplit(code, p, [0x11] + ce + ([0x40] + jump), more);
    CodeSplit3(code, p, [0x11], ce, [0x40] + jump);
    CodeSplit(code, p + 1 + |ce|, [0x40], jump);
  }

  /** The jump behind a comparison: the last test jumps when the values differ, the others when they are equal. */
  lemma {:induction false} TestDecided(k: Linked, t: M.State, m: nat, same: bool, last: bool, d: nat, w1: World)
    requires Reaches(k.img, t, Became(k, t, t.pc + m + 2, t.stack + [Imm(Bool(same))], w1))
    requires CodeAt(k.img.code, t.pc + m + 2, JumpCode(if last then 0x51 else 0x52, d))
    requires t.pc + m + 5 + d <= |k.img.code| <= 0xFFFF
    ensures Reaches(k.img, t, Became(k, t, t.pc + m + 5 + (if same != last then d else 0), t.stack, w1))
  {
    hide M.Run, M.Step, Reaches, Halts, CodeAt, Slots;
    var t2 := Became(k, t, t.pc + m + 2, t.stack + [Imm(Bool(same))], w1);
    StepJumpIf(k.img, t2, !last, d, Bool(same));
    assert M.Dropped(t2, 1) == t.stack;
    ReachThen(k.img, t, t2, AfterTest(t2, d, Bool(same), !last));
  }

  lemma {:induction false} SimTests(k: Linked, values: Exprs, ctx: Ctx, skip: nat, v: Immediate, loc: Locals, w: World,
                                    fuel: nat, t: M.State, b: nat)
    requires Placed(k) && InCtx(k, ctx) && CallsSimulated(k, fuel)
    requires values.Exprs? && ExprsOk(values, ctx) && OverSubject(k, ctx, v, loc, w, t, b)
    requires CodeAt(k.img.code, t.pc, TestsCode(values, ctx, skip))
    requires t.pc + |TestsCode(values, ctx, skip)| + skip <= |k.img.code| <= 0xFFFF
    ensures Decides(k, t, |TestsCode(values, ctx, skip)|, skip, AnyEqual(k.fs, v, values, loc, w, fuel), fuel)
    decreases values, 1
  {
    hide *;
    if values.rest.NoExprs? {
      SimLastTest(k, values, ctx, skip, v, loc, w, fuel, t, b);
    } else {
      SimEarlierTest(k, values, ctx, skip, v, loc, w, fuel, t, b);
    }
  }

  lemma {:induction false} SimLastTest(k: Linked, values: Exprs, ctx: Ctx, skip: nat, v: Immediate, loc: Locals, w: World,
                                       fuel: nat, t: M.State, b: nat)
    requires Placed(k) && InCtx(k, ctx) && CallsSimulated(k, fuel)
    requires values.Exprs? && values.rest.NoExprs? && ExprsOk(values, ctx) && OverSubject(k, ctx, v, loc, w, t, b)
    requires CodeAt(k.img.code, t.pc, TestsCode(values, ctx, skip))
    requires t.pc + |TestsCode(values, ctx, skip)| + skip <= |k.img.code| <= 0xFFFF
    ensures Decides(k, t, |TestsCode(values, ctx, skip)|, skip, AnyEqual(k.fs, v, values, loc, w, fuel), fuel)
  {
    hide M.Run, M.Step, Reaches, Halts, RunsFor, CallsSimulated, CodeAt, Slots, Eval, ExprCode, TestsCode, Placed, InCtx,
         OverSubject, ExprOk, JumpCode, SameValue;
    TestLayout(k.img.code, t.pc, values, ctx, skip);
    var r := SimTest(k, ctx, values.first, v, loc, w, fuel, t, b);
    if r.Val? {
      TestDecided(k, t, |ExprCode(values.first, ctx)|, SameValue(Imm(v), Imm(r.v)), true, skip, r.w);
    }
  }

  lemma {:induction false} SimEarlierTest(k: Linked, values: Exprs, ctx: Ctx, skip: nat, v: Immediate, loc: Locals, w: World,
                                          fuel: nat, t: M.State, b: nat)
    requires Placed(k) && InCtx(k, ctx) && CallsSimulated(k, fuel)
    requires values.Exprs? && values.rest.Exprs? && ExprsOk(values, ctx) && OverSubject(k, ctx, v, loc, w, t, b)
    requires CodeAt(k.img.code, t.pc, TestsCode(values, ctx, skip))
    requires t.pc + |TestsCode(values, ctx, skip)| + skip <= |k.img.code| <= 0xFFFF
    ensures Decides(k, t, |TestsCode(values, ctx, skip)|, skip, AnyEqual(k.fs, v, values, loc, w, fuel), fuel)
    decreases values, 0
  {
    hide M.Run, M.Step, Reaches, Halts, RunsFor, CallsSimulated, CodeAt, Slots, Eval, ExprCode, TestsCode, Placed, InCtx,
         OverSubject, ExprOk, JumpCode, SameValue;
    var m, more := |ExprCode(values.first, ctx)|, TestsCode(values.rest, ctx, skip);
    TestLayout(k.img.code, t.pc, values, ctx, skip);
    var r := SimTest(k, ctx, values.first, v, loc, w, fuel, t, b);
    if r.Val? {
      var same := SameValue(Imm(v), Imm(r.v));
      TestDecided(k, t, m, same, false, |more|, r.w);
      if !same {
        var t3 := Became(k, t, t.pc + m + 5, t.stack, r.w);
        SubjectSettled(k, ctx, v, loc, w, t, b, t3.pc, r.w);
        SimTests(k, values.rest, ctx, skip, v, loc, r.w, fuel, t3, b);
        LiftDecides(k, t, t3, r.w, |more|, m + 5 + |more|, skip, AnyEqual(k.fs, v, values.rest, loc, r.w, fuel), fuel);
      }
    }
  }

  lemma {:induction false} LiftDecides(k: Linked, t: M.State, t3: M.State, w1: World, n: nat, n': nat, miss: nat, r: MatchResult, fuel: nat)
    requires t3 == Became(k, t, t3.pc, t.stack, w1) && t3.pc + n == t.pc + n'
    requires Reaches(k.img, t, t3) && Decides(k, t3, n, miss, r, fuel)
    ensures Decides(k, t, n', miss, r, fuel)
  {
    hide M.Run, Reaches, Halts, RunsFor, Slots;
    match r {
      case Matched(hit, w2) => ReachThen(k.img, t, t3, Became(k, t3, t3.pc + n + (if hit then 0 else miss), t3.stack, w2));
      case BadMatch(err, w2) => ReachThenHalt(k.img, t, t3, err, Slots(k, w2), w2.out);
      case TimeoutMatch => ReachThenRun(k.img, t, t3, fuel);
    }
  }

  lemma {:induction false} EmptyTests(ctx: Ctx, skip: nat)
    ensures TestsCode(NoExprs, ctx, skip) == []
  {
  }

  /** One test: copy the subject, evaluate the value, compare. */
  lemma {:induction false} SimTest(k: Linked, ctx: Ctx, e: Expr, v: Immediate, loc: Locals, w: World, fuel: nat, t: M.State, b: nat)
    returns (r: Result)
    requires Placed(k) && InCtx(k, ctx) && CallsSimulated(k, fuel) && ExprOk(e, ctx)
    requires OverSubject(k, ctx, v, loc, w, t, b)
    requires CodeAt(k.img.code, t.pc, [0x11]) && CodeAt(k.img.code, t.pc + 1, ExprCode(e, ctx))
    requires CodeAt(k.img.code, t.pc + 1 + |ExprCode(e, ctx)|, [0x40])
    ensures r == Eval(k.fs, e, loc, w, fuel)
    ensures match r
            case Val(u, w1) =>
              Reaches(k.img, t, Became(k, t, t.pc + |ExprCode(e, ctx)| + 2,
                                       t.stack + [Imm(Bool(SameValue(Imm(v), Imm(u))))], w1))
            case Bad(err, w1) => Halts(k.img, t, err, Slots(k, w1), w1.out)
            case Timeout => RunsFor(k.img, t, fuel)
  {
    hide M.Run, M.Step, Reaches, Halts, RunsFor, CallsSimulated, CodeAt, Slots, Eval, ExprCode, Placed, InCtx, ExprOk, Settled,
         Agrees, Keys;
    var m := |ExprCode(e, ctx)|;
    SubjectSettled(k, ctx, v, loc, w, t, b, t.pc, w);
    StepDup(k.img, t, v);
    var t1 := Past(k, t, 1, [Imm(v)], w);
    AgreesPast(k, ctx, loc, w, t, 1, [Imm(v)], w);
    SimExpr(k, ctx, e, loc, w, fuel, t1);
    r := Eval(k.fs, e, loc, w, fuel);
    match r {
      case Bad(err, w1) => ReachThenHalt(k.img, t, t1, err, Slots(k, w1), w1.out);
      case Timeout => ReachThenRun(k.img, t, t1, fuel);
      case Val(u, w1) =>
        var t2 := Past(k, t1, m, [Imm(u)], w1);
        ReachThen(k.img, t, t1, t2);
        StepBin(k.img, t2, Equal(true), v, u, w1);
        assert M.Dropped(t2, 2) == t.stack;
        ReachThen(k.img, t, t2, Became(k, t, t.pc + m + 2, t.stack + [Imm(Bool(SameValue(Imm(v), Imm(u))))], w1));
    }
  }

  /** A clause body, reached with the subject still on the stack; `over` bytes of clauses follow it. */
  lemma {:induction false} SimClause(k: Linked, body: Stmt, ctx: Ctx, over: nat, base: Option<nat>, brk: Option<int>,
                                     v: Immediate, loc: Locals, w: World, fuel: nat, u: M.State, b: nat)
    requires Static(k, body, ctx, base, true) && CallsSimulated(k, fuel)
    requires LastByteReturns(StmtCode(body, ctx, None)) ==> Leaves(body)
    requires base.Some? ==> base.value <= |ctx.locals| && brk.Some? && 0 <= u.pc + brk.value <= |k.img.code|
    requires CodeAt(k.img.code, u.pc, ClauseCode(body, ctx, over, brk))
    requires u.pc + |ClauseCode(body, ctx, over, brk)| + over <= |k.img.code| <= 0xFFFF
    requires OverSubject(k, ctx, v, loc, w, u, b)
    ensures Ends(k, u, b, ctx.locals, u.pc + |ClauseCode(body, ctx, over, brk)| + over, Target(base, brk, ctx, u.pc), ctx.locals,
                 LeaveBlock(Exec(k.fs, ctx.inFn, body, loc, w, fuel), loc), fuel)
    decreases fuel, body, 5
  {
    hide M.Run, M.Step, Reaches, Halts, RunsFor, CallsSimulated, CodeAt, Slots, Refresh, Keys, Tidy, Static, LocalsAgree,
         ClauseBody, Ends, After, StmtCode, Exec, Agrees, Settled, Leaves, LastByteReturns, JumpCode;
    var end, target := u.pc + |ClauseCode(body, ctx, over, brk)| + over, Target(base, brk, ctx, u.pc);
    var o := Exec(k.fs, ctx.inFn, body, loc, w, fuel);
    var q := Became(k, u, u.pc + 1, M.Dropped(u, 1), w);
    SubjectSettled(k, ctx, v, loc, w, u, b, q.pc, w);
    var code := ClauseBody(body, ctx, Shift(brk, 1));
    var jump := if LastByteReturns(StmtCode(body, ctx, None)) then [] else JumpCode(0x50, over);
    CodeSplit3(k.img.code, u.pc, [0x10], code, jump);
    StepPop(k.img, u, v);
    SimClauseRest(k, body, ctx, over, base, Shift(brk, 1), loc, w, fuel, q, b);
    LiftEnds(k, u, q, b, ctx.locals, end, target, ctx.locals, LeaveBlock(o, loc), fuel, q.pc, w);
  }

  /** The clause body and the jump behind it, once the subject is gone. */
  lemma {:induction false} SimClauseRest(k: Linked, body: Stmt, ctx: Ctx, over: nat, base: Option<nat>, brk: Option<int>,
                                         loc: Locals, w: World, fuel: nat, q: M.State, b: nat)
    requires Static(k, body, ctx, base, true) && CallsSimulated(k, fuel)
    requires LastByteReturns(StmtCode(body, ctx, None)) ==> Leaves(body)
    requires base.Some? ==> base.value <= |ctx.locals| && brk.Some? && 0 <= q.pc + brk.value <= |k.img.code|
    requires CodeAt(k.img.code, q.pc, ClauseBody(body, ctx, brk)) && Settled(k, ctx, loc, w, q, b)
    requires !LastByteReturns(StmtCode(body, ctx, None)) ==>
               CodeAt(k.img.code, q.pc + |ClauseBody(body, ctx, brk)|, JumpCode(0x50, over))
    requires q.pc + |ClauseBody(body, ctx, brk)| + 3 + over <= |k.img.code| <= 0xFFFF || LastByteReturns(StmtCode(body, ctx, None))
    ensures var n := |ClauseBody(body, ctx, brk)| + if LastByteReturns(StmtCode(body, ctx, None)) then 0 else 3;
            Ends(k, q, b, ctx.locals, q.pc + n + over, Target(base, brk, ctx, q.pc), ctx.locals,
                 LeaveBlock(Exec(k.fs, ctx.inFn, body, loc, w, fuel), loc), fuel)
    decreases fuel, body, 4
  {
    hide M.Run, M.Step, Reaches, Halts, RunsFor, CallsSimulated, CodeAt, Slots, Refresh, Keys, Tidy, Static, LocalsAgree,
         ClauseBody, Ends, After, StmtCode, Exec, Agrees, Settled, Leaves, LastByteReturns, JumpCode;
    var code := ClauseBody(body, ctx, brk);
    var target, o := Target(base, brk, ctx, q.pc), Exec(k.fs, ctx.inFn, body, loc, w, fuel);
    SimClauseBody(k, body, ctx, base, brk, loc, w, fuel, q, b);
    if LastByteReturns(StmtCode(body, ctx, None)) {
      NeverNormal(k.fs, ctx.inFn, body, loc, w, fuel);
      EndsAnywhere(k, q, b, ctx.locals, q.pc + |code|, target, ctx.locals, LeaveBlock(o, loc), fuel, ctx.locals, q.pc + |code| + over);
    } else {
      FirstArmEnds(k, q, b, ctx.locals, target, ctx.locals, LeaveBlock(o, loc), fuel, q.pc + |code|, over);
    }
  }

  /** The statements of a clause, as a block of its own. */
  lemma {:induction false} SimClauseBody(k: Linked, body: Stmt, ctx: Ctx, base: Option<nat>, brk: Option<int>,
                                         loc: Locals, w: World, fuel: nat, q: M.State, b: nat)
    requires Static(k, body, ctx, base, true) && CallsSimulated(k, fuel)
    requires LastByteReturns(StmtCode(body, ctx, None)) ==> Leaves(body)
    requires base.Some? ==> base.value <= |ctx.locals| && brk.Some? && 0 <= q.pc + brk.value <= |k.img.code|
    requires CodeAt(k.img.code, q.pc, ClauseBody(body, ctx, brk)) && Settled(k, ctx, loc, w, q, b)
    ensures Ends(k, q, b, ctx.locals, q.pc + |ClauseBody(body, ctx, brk)|, Target(base, brk, ctx, q.pc), ctx.locals,
                 LeaveBlock(Exec(k.fs, ctx.inFn, body, loc, w, fuel), loc), fuel)
    decreases fuel, body, 3
  {
    hide M.Run, M.Step, Reaches, Halts, RunsFor, CallsSimulated, CodeAt, Slots, Refresh, Keys, Tidy, Static, LocalsAgree,
         BlockCode, Ends, After, StmtCode, Exec, Agrees, Settled, Leaves;
    if LastByteReturns(StmtCode(body, ctx, None)) {
      var o := Exec(k.fs, ctx.inFn, body, loc, w, fuel);
      var end := q.pc + |StmtCode(body, ctx, brk)|;
      SimStmt(k, body, ctx, base, true, brk, loc, w, fuel, q, b);
      NeverNormal(k.fs, ctx.inFn, body, loc, w, fuel);
      EndsAnywhere(k, q, b, After(body, ctx).locals, end, Target(base, brk, ctx, q.pc), ctx.locals, o, fuel, ctx.locals, end);
    } else {
      Unmoved(k, ctx, loc, w, q, b, q.pc, w);
      SimBlock(k, body, ctx, |ctx.locals|, loc, base, true, brk, loc, w, fuel, q, b);
    }
  }

  lemma {:induction false} CaseLayout(code: seq<Byte>, p: nat, cases: Cases, ctx: Ctx, brk: Option<int>)
    requires cases.Case? && CodeAt(code, p, CasesCode(cases, ctx, brk))
    ensures var nt := |TestsCode(cases.values, ctx, 0)|;
            var n := |ClauseCode(cases.body, ctx, 0, None)|;
            var next := AfterBlock(cases.body, ctx);
            var others := CasesCode(cases.rest, next, Shift(brk, nt + n));
            && |TestsCode(cases.values, ctx, n)| == nt && |ClauseCode(cases.body, ctx, |others|, Shift(brk, nt))| == n
            && |CasesCode(cases, ctx, brk)| == nt + n + |others| && p + nt + n + |others| <= |code|
            && CodeAt(code, p, TestsCode(cases.values, ctx, n))
            && CodeAt(code, p + nt, ClauseCode(cases.body, ctx, |others|, Shift(brk, nt)))
            && CodeAt(code, p + nt + n, others)
  {
    hide CodeAt, TestsCode, ClauseCode, AfterBlock;
    var nt := |TestsCode(cases.values, ctx, 0)|;
    var n := |ClauseCode(cases.body, ctx, 0, None)|;
    var others := CasesCode(cases.rest, AfterBlock(cases.body, ctx), Shift(brk, nt + n));
    TestsLength(cases.values, ctx, n, 0);
    ClauseLength(cases.body, ctx, 0, |others|, None, Shift(brk, nt));
    InCode(code, p, CasesCode(cases, ctx, brk));
    CodeSplit3(code, p, TestsCode(cases.values, ctx, n), ClauseCode(cases.body, ctx, |others|, Shift(brk, nt)), others);
  }

  /** The clauses run the body that `Select` selects and leave the stack without the subject. */
  lemma {:induction false} SimCases(k: Linked, cases: Cases, ctx: Ctx, base: Option<nat>, brk: Option<int>, v: Immediate,
                                    loc: Locals, w: World, fuel: nat, t: M.State, b: nat)
    requires CasesPoised(k, cases, ctx, base, brk, v, loc, w, fuel, t, b)
    ensures Ends(k, t, b, ctx.locals, t.pc + |CasesCode(cases, ctx, brk)|, Target(base, brk, ctx, t.pc), ctx.locals,
                 LeaveBlock(Select(k.fs, ctx.inFn, v, cases, loc, w, fuel), loc), fuel)
    decreases fuel, cases, 1
  {
    hide M.Run, M.Step, Reaches, Halts, RunsFor, CallsSimulated, CodeAt, Slots, Refresh, Keys, Tidy, LocalsAgree, Placed, InCtx,
         ClauseBody, Ends, After, StmtCode, Exec, Agrees, Settled, TestsCode, ClauseCode, AnyEqual, Careful, StmtOk, ExprsOk, Leaves,
         LastByteReturns;
    var q := Became(k, t, t.pc + 1, M.Dropped(t, 1), w);
    var target := Target(base, brk, ctx, t.pc);
    SubjectSettled(k, ctx, v, loc, w, t, b, q.pc, w);
    match cases {
      case NoCase =>
        StepPop(k.img, t, v);
        ReachSelf(k.img, q);
        NormalEnds(k, ctx, loc, w, q, b, q.pc, target, w, fuel);
        LiftEnds(k, t, q, b, ctx.locals, q.pc, target, ctx.locals, Normal(loc, w), fuel, q.pc, w);
        assert Narrow(loc, loc) == loc;
      case Default(body) =>
        var code := ClauseBody(body, ctx, Shift(brk, 1));
        CodeSplit(k.img.code, t.pc, [0x10], code);
        StepPop(k.img, t, v);
        DefaultStatic(k, body, ctx, base);
        SimClauseBody(k, body, ctx, base, Shift(brk, 1), loc, w, fuel, q, b);
        LiftEnds(k, t, q, b, ctx.locals, q.pc + |code|, target, ctx.locals,
                 LeaveBlock(Exec(k.fs, ctx.inFn, body, loc, w, fuel), loc), fuel, q.pc, w);
      case Case(_, _, _) => SimCase(k, cases, ctx, base, brk, v, loc, w, fuel, t, b);
    }
  }

  lemma {:induction false} DefaultStatic(k: Linked, body: Stmt, ctx: Ctx, base: Option<nat>)
    requires Placed(k) && InCtx(k, ctx) && AfterCases(Default(body), ctx).globals <= k.table
    requires CasesOk(Default(body), ctx, base.Some?) && CarefulCases(Default(body), ctx, base)
    ensures Static(k, body, ctx, base, true)
    ensures LastByteReturns(StmtCode(body, ctx, None)) ==> Leaves(body)
  {
    hide Distinct;
  }

  lemma {:induction false} CaseStatic(k: Linked, cases: Cases, ctx: Ctx, base: Option<nat>)
    requires Placed(k) && InCtx(k, ctx) && AfterCases(cases, ctx).globals <= k.table && cases.Case?
    requires CasesOk(cases, ctx, base.Some?) && CarefulCases(cases, ctx, base)
    ensures Static(k, cases.body, ctx, base, true) && cases.values.Exprs? && ExprsOk(cases.values, ctx)
    ensures LastByteReturns(StmtCode(cases.body, ctx, None)) ==> Leaves(cases.body)
    ensures InCtx(k, AfterBlock(cases.body, ctx)) && |k.img.code| <= 0xFFFF
    ensures var next := AfterBlock(cases.body, ctx);
            CasesOk(cases.rest, next, base.Some?) && CarefulCases(cases.rest, next, base)
            && AfterCases(cases.rest, next).globals <= k.table
  {
    hide Distinct, ExprsOk, StmtCode;
    PrefixTrans(AfterBlock(cases.body, ctx).globals, AfterCases(cases, ctx).globals, k.table);
  }

  lemma {:induction false} SimCase(k: Linked, cases: Cases, ctx: Ctx, base: Option<nat>, brk: Option<int>, v: Immediate,
                                   loc: Locals, w: World, fuel: nat, t: M.State, b: nat)
    requires CasesPoised(k, cases, ctx, base, brk, v, loc, w, fuel, t, b) && cases.Case?
    ensures Ends(k, t, b, ctx.locals, t.pc + |CasesCode(cases, ctx, brk)|, Target(base, brk, ctx, t.pc), ctx.locals,
                 LeaveBlock(Select(k.fs, ctx.inFn, v, cases, loc, w, fuel), loc), fuel)
    decreases fuel, cases, 0
  {
    hide M.Run, M.Step, Reaches, Halts, RunsFor, CallsSimulated, CodeAt, Slots, Refresh, Keys, Tidy, LocalsAgree, Placed, InCtx,
         BlockCode, Ends, After, StmtCode, Exec, Agrees, Settled, TestsCode, ClauseCode, AnyEqual, CasesCode, OverSubject,
         Static, CasesOk, CarefulCases, AfterCases, AfterBlock, ExprsOk, Leaves, LastByteReturns;
    var Case(values, body, rest) := cases;
    var nt := |TestsCode(values, ctx, 0)|;
    var n := |ClauseCode(body, ctx, 0, None)|;
    var next := AfterBlock(body, ctx);
    var brk2 := Shift(brk, nt + n);
    var others := CasesCode(rest, next, brk2);
    CaseStatic(k, cases, ctx, base);
    CaseLayout(k.img.code, t.pc, cases, ctx, brk);
    SimTests(k, values, ctx, n, v, loc, w, fuel, t, b);
    var end, target := t.pc + nt + n + |others|, Target(base, brk, ctx, t.pc);
    SubjectSettled(k, ctx, v, loc, w, t, b, t.pc, w);
    var o := Select(k.fs, ctx.inFn, v, cases, loc, w, fuel);
    match AnyEqual(k.fs, v, values, loc, w, fuel) {
      case BadMatch(err, w1) => FailEnds(k, t, b, ctx.locals, end, target, ctx.locals, err, w1, fuel);
      case TimeoutMatch => LongEnds(k, t, b, ctx.locals, end, target, ctx.locals, fuel);
      case Matched(hit, w1) =>
        var u := Became(k, t, t.pc + nt + (if hit then 0 else n), t.stack, w1);
        SubjectSettled(k, ctx, v, loc, w, t, b, u.pc, w1);
        if hit {
          SimClause(k, body, ctx, |others|, base, Shift(brk, nt), v, loc, w1, fuel, u, b);
        } else {
          NextSubject(k, ctx, next, v, loc, w1, u, b);
          SimCases(k, rest, next, base, brk2, v, loc, w1, fuel, u, b);
        }
        LiftEnds(k, t, u, b, ctx.locals, end, target, ctx.locals, LeaveBlock(o, loc), fuel, u.pc, w1);
    }
  }

  lemma {:induction false} NextSubject(k: Linked, ctx: Ctx, next: Ctx, v: Immediate, loc: Locals, w: World, t: M.State, b: nat)
    requires OverSubject(k, ctx, v, loc, w, t, b) && next.locals == ctx.locals && next.inFn == ctx.inFn
    ensures OverSubject(k, next, v, loc, w, t, b)
  {
    SettledFor(k, ctx, next, loc, w, t.(stack := M.Dropped(t, 1)), b);
  }

  lemma {:induction false} SwitchUnfold(s: Stmt, ctx: Ctx, brk: Option<int>)
    requires s.Switch?
    ensures StmtCode(s, ctx, brk) == ExprCode(s.e, ctx) + CasesCode(s.cases, ctx, Shift(brk, |ExprCode(s.e, ctx)|))
    ensures After(s, ctx) == AfterCases(s.cases, ctx)
  {
    hide ExprCode, CasesCode, AfterCases;
  }

  lemma {:induction false} SwitchStatic(k: Linked, s: Stmt, ctx: Ctx, base: Option<nat>, inSwitch: bool)
    requires Static(k, s, ctx, base, inSwitch) && s.Switch?
    ensures Placed(k) && InCtx(k, ctx) && ExprOk(s.e, ctx) && AfterCases(s.cases, ctx).globals <= k.table
    ensures CasesOk(s.cases, ctx, base.Some?) && CarefulCases(s.cases, ctx, base)
  {
    hide ExprOk, Distinct;
  }

  lemma {:induction false} SimSwitch(k: Linked, s: Stmt, ctx: Ctx, base: Option<nat>, inSwitch: bool, brk: Option<int>,
                                     loc: Locals, w: World, fuel: nat, st: M.State, b: nat)
    requires Poised(k, s, ctx, base, inSwitch, brk, loc, w, fuel, st, b) && s.Switch?
    ensures Done(k, s, ctx, base, brk, st, b, Exec(k.fs, ctx.inFn, s, loc, w, fuel), fuel)
    decreases fuel, s, 0
  {
    hide M.Run, M.Step, Reaches, Halts, RunsFor, CallsSimulated, CodeAt, Slots, Refresh, Keys, Tidy, LocalsAgree, Placed,
         InCtx, Ends, ExprCode, CasesCode, CasesOk, CarefulCases, AfterCases, ExprOk, Eval, Select, Agrees, Static, StmtCode,
         After;
    var Switch(e, cases) := s;
    var n := |ExprCode(e, ctx)|;
    var brk1 := Shift(brk, n);
    SwitchStatic(k, s, ctx, base, inSwitch);
    SwitchUnfold(s, ctx, brk);
    CodeSplit(k.img.code, st.pc, ExprCode(e, ctx), CasesCode(cases, ctx, brk1));
    SimExpr(k, ctx, e, loc, w, fuel, st);
    var end, target := st.pc + n + |CasesCode(cases, ctx, brk1)|, Target(base, brk, ctx, st.pc);
    match Eval(k.fs, e, loc, w, fuel) {
      case Bad(err, w1) => FailEnds(k, st, b, ctx.locals, end, target, ctx.locals, err, w1, fuel);
      case Timeout => LongEnds(k, st, b, ctx.locals, end, target, ctx.locals, fuel);
      case Val(v, w1) =>
        SimSubject(k, s, ctx, base, inSwitch, brk, loc, w, fuel, st, b, v, w1);
    }
  }

  /** The clauses of a `switch`, once its subject is on the stack. */
  lemma {:induction false} SimSubject(k: Linked, s: Stmt, ctx: Ctx, base: Option<nat>, inSwitch: bool, brk: Option<int>,
                                      loc: Locals, w: World, fuel: nat, st: M.State, b: nat, v: Immediate, w1: World)
    requires Poised(k, s, ctx, base, inSwitch, brk, loc, w, fuel, st, b) && s.Switch?
    requires Reaches(k.img, st, Past(k, st, |ExprCode(s.e, ctx)|, [Imm(v)], w1))
    ensures var n := |ExprCode(s.e, ctx)|;
            Ends(k, st, b, ctx.locals, st.pc + n + |CasesCode(s.cases, ctx, Shift(brk, n))|, Target(base, brk, ctx, st.pc), ctx.locals,
                 LeaveBlock(Select(k.fs, ctx.inFn, v, s.cases, loc, w1, fuel), loc), fuel)
    decreases fuel, s.cases, 2
  {
    hide M.Run, M.Step, Reaches, Halts, RunsFor, CallsSimulated, CodeAt, Slots, Refresh, Keys, Tidy, LocalsAgree, Placed,
         InCtx, Ends, ExprCode, CasesCode, CasesOk, CarefulCases, AfterCases, ExprOk, Eval, Select, Agrees, Static, StmtCode,
         After;
    var n, cases := |ExprCode(s.e, ctx)|, s.cases;
    var brk1 := Shift(brk, n);
    SwitchStatic(k, s, ctx, base, inSwitch);
    SwitchUnfold(s, ctx, brk);
    CodeSplit(k.img.code, st.pc, ExprCode(s.e, ctx), CasesCode(cases, ctx, brk1));
    var t := Past(k, st, n, [Imm(v)], w1);
    Unmoved(k, ctx, loc, w, st, b, t.pc, w1);
    assert M.Dropped(t, 1) == st.stack;
    SimCases(k, cases, ctx, base, brk1, v, loc, w1, fuel, t, b);
    SubjectSettled(k, ctx, v, loc, w1, t, b, t.pc, w1);
    LiftEnds(k, st, t, b, ctx.locals, st.pc + n + |CasesCode(cases, ctx, brk1)|, Target(base, brk, ctx, st.pc), ctx.locals,
             LeaveBlock(Select(k.fs, ctx.inFn, v, cases, loc, w1, fuel), loc), fuel, t.pc, w1);
  }
}
