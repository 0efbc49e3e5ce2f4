/** What the compiler's rule that a `let` cannot be assigned is worth: in an accepted program a constant keeps its value,
  * except that at top level an `if let` may take the name of one over. */
module Constants {
  import opened Bytes
  import opened Values
  import opened Syntax
  import opened CodeGen
  import opened Sessions
  import opened ExprSimulation
  import opened StmtSimulation
  import opened S = Semantics
  import Programs
  import M = Machine

  /** `x` names a constant of the table. */
  predicate Constant(ts: seq<Sym>, x: Name) {
    Find(ts, x).Some? && ts[Find(ts, x).value].isLet
  }

  /** The constants of the table have the same values in `after` as in `loc`, and no local has gone. */
  ghost predicate LetsKept(ts: seq<Sym>, loc: Locals, after: Locals) {
    loc.Keys <= after.Keys && forall x :: Constant(ts, x) ==> x in loc && x in after && after[x] == loc[x]
  }

  // ----- constants of a function -----

  ghost predicate Stays(s: Stmt, ctx: Ctx, loc: Locals, o: Outcome) {
    match o
    case Normal(l, _) => Keys(After(s, ctx).locals, l) && LetsKept(ctx.locals, loc, l)
    case Broke(l, _) => LetsKept(ctx.locals, loc, l)
    case _ => true
  }

  /** The same of the end of a block, whose own locals are gone. */
  ghost predicate BlockStays(ctx: Ctx, loc: Locals, o: Outcome) {
    match o
    case Normal(l, _) => Keys(ctx.locals, l) && LetsKept(ctx.locals, loc, l)
    case Broke(l, _) => LetsKept(ctx.locals, loc, l)
    case _ => true
  }

  ghost predicate Framed(ctx: Ctx, loc: Locals) {
    Keys(ctx.locals, loc) && (!ctx.inFn ==> ctx.locals == [])
  }

  lemma {:induction false} ConstantPrefix(a: seq<Sym>, b: seq<Sym>, x: Name)
    requires a <= b && Constant(a, x)
    ensures Constant(b, x)
  {
    FindPrefix(a, b, x);
  }

  lemma {:induction false} LetsChain(a: seq<Sym>, b: seq<Sym>, l0: Locals, l1: Locals, l2: Locals)
    requires a <= b && LetsKept(a, l0, l1) && LetsKept(b, l1, l2)
    ensures LetsKept(a, l0, l2)
  {
    forall x | Constant(a, x)
      ensures x in l0 && x in l2 && l2[x] == l0[x]
    {
      ConstantPrefix(a, b, x);
    }
  }

  lemma {:induction false} Same(ts: seq<Sym>, loc: Locals)
    requires Keys(ts, loc)
    ensures LetsKept(ts, loc, loc)
  {
  }

  lemma {:induction false} Narrowed(ctx: Ctx, loc: Locals, inner: Locals)
    requires Keys(ctx.locals, loc) && LetsKept(ctx.locals, loc, inner)
    ensures Keys(ctx.locals, Narrow(inner, loc)) && LetsKept(ctx.locals, loc, Narrow(inner, loc))
  {
    hide Find;
    var l := Narrow(inner, loc);
    assert l.Keys == loc.Keys;
  }

  /** Leaving a block that was entered with more locals. */
  lemma {:induction false} BlockLeft(ts: seq<Sym>, ctx: Ctx, loc: Locals, inner: Locals, l: Locals)
    requires ctx.locals <= ts && Keys(ctx.locals, loc) && LetsKept(ctx.locals, loc, inner) && LetsKept(ts, inner, l)
    ensures LetsKept(ctx.locals, loc, l)
    ensures Keys(ctx.locals, Narrow(l, loc)) && LetsKept(ctx.locals, loc, Narrow(l, loc))
  {
    LetsChain(ctx.locals, ts, loc, inner, l);
    Narrowed(ctx, loc, l);
  }

  /** A new local does not touch the others. */
  lemma {:induction false} LocalAdded(ts: seq<Sym>, y: Sym, loc: Locals, v: Immediate)
    requires Keys(ts, loc) && y.name != "" && Find(ts, y.name).None?
    ensures Keys(ts + [y], loc[y.name := v]) && LetsKept(ts, loc, loc[y.name := v])
  {
    KeysAdd(ts, y, loc, v);
  }

  lemma {:induction false} BoundReserved(ctx: Ctx, loc: Locals)
    requires Framed(ctx, loc)
    ensures Framed(ReserveBound(ctx), loc) && LetsKept(ctx.locals, loc, loc)
  {
    hide Find;
    Same(ctx.locals, loc);
    forall x
      ensures x in loc <==> Find(ctx.locals + [ANONYMOUS], x).Some?
    {
      FindAdd(ctx.locals, ANONYMOUS, x);
    }
  }

  lemma {:induction false} AssignStays(x: Name, v: Immediate, ctx: Ctx, loc: Locals, w: World)
    requires Framed(ctx, loc) && CanAssign(x, ctx)
    ensures var o := Stored(x, v, loc, w);
            o.Normal? ==> Keys(ctx.locals, o.loc) && LetsKept(ctx.locals, loc, o.loc)
  {
    hide Find;
    if x in loc {
      assert ctx.inFn && Find(ctx.locals, x).Some?;
      KeysUpdated(ctx.locals, loc, x, v);
    }
  }

  lemma {:induction false} StmtStays(fs: seq<FuncDecl>, s: Stmt, ctx: Ctx, inLoop: bool, inSwitch: bool, loc: Locals,
                                     w: World, fuel: nat)
    requires StmtOk(s, ctx, inLoop, inSwitch) && Framed(ctx, loc)
    ensures Stays(s, ctx, loc, Exec(fs, ctx.inFn, s, loc, w, fuel))
    decreases fuel, s, 1
  {
    hide Find, ExprOk, Eval, EvalList, Stored, CanAssign, LetsKept, Keys, Read, Apply, Text;
    assert Keys(ctx.locals, loc);
    Same(ctx.locals, loc);
    match s {
      case Seq(s1, s2) => SeqStays(fs, s, ctx, inLoop, inSwitch, loc, w, fuel);
      case Declare(isLet, x, e) =>
        var r := Eval(fs, e, loc, w, fuel);
        if ctx.inFn && r.Val? {
          LocalAdded(ctx.locals, Sym(x, isLet), loc, r.v);
        }
      case Assign(x, e) =>
        var r := Eval(fs, e, loc, w, fuel);
        if r.Val? {
          AssignStays(x, r.v, ctx, loc, r.w);
          StoredEnds(x, r.v, loc, r.w);
        }
      case Compound(op, x, e) => CompoundStays(fs, s, ctx, loc, w, fuel);
      case If(_, _, _) => IfStays(fs, s, ctx, inLoop, inSwitch, loc, w, fuel);
      case IfLet(_, _, _, _) => IfLetStays(fs, s, ctx, inLoop, inSwitch, loc, w, fuel);
      case While(_, _) => WhileStays(fs, s, ctx, inLoop, inSwitch, loc, w, fuel);
      case ForIn(_, _, _, _, _) => RangeStays(fs, s, ctx, inLoop, inSwitch, loc, w, fuel);
      case Switch(e, cases) => SwitchStays(fs, s, ctx, inLoop, inSwitch, loc, w, fuel);
      case _ =>
    }
  }

  lemma {:induction false} StoredEnds(x: Name, v: Immediate, loc: Locals, w: World)
    ensures Stored(x, v, loc, w).Normal? || Stored(x, v, loc, w).Failed?
  {
  }

  lemma {:induction false} SeqStays(fs: seq<FuncDecl>, s: Stmt, ctx: Ctx, inLoop: bool, inSwitch: bool, loc: Locals,
                                    w: World, fuel: nat)
    requires s.Seq? && StmtOk(s, ctx, inLoop, inSwitch) && Framed(ctx, loc)
    ensures Stays(s, ctx, loc, Exec(fs, ctx.inFn, s, loc, w, fuel))
    decreases fuel, s, 0
  {
    hide LetsKept, Keys;
    StmtStays(fs, s.s1, ctx, inLoop, inSwitch, loc, w, fuel);
    var o := Exec(fs, ctx.inFn, s.s1, loc, w, fuel);
    if o.Normal? {
      var mid := After(s.s1, ctx);
      StmtStays(fs, s.s2, mid, inLoop, inSwitch, o.loc, o.w, fuel);
      var p := Exec(fs, ctx.inFn, s.s2, o.loc, o.w, fuel);
      if p.Normal? || p.Broke? {
        LetsChain(ctx.locals, mid.locals, loc, o.loc, p.loc);
      }
    }
  }

  lemma {:induction false} CompoundStays(fs: seq<FuncDecl>, s: Stmt, ctx: Ctx, loc: Locals, w: World, fuel: nat)
    requires s.Compound? && CanAssign(s.x, ctx) && Framed(ctx, loc)
    ensures Stays(s, ctx, loc, Exec(fs, ctx.inFn, s, loc, w, fuel))
  {
    hide Find, Eval, Stored, CanAssign, LetsKept, Keys, Read, Apply;
    var a := Read(s.x, loc, w);
    if a.Val? {
      var b := Eval(fs, s.e, loc, a.w, fuel);
      if b.Val? {
        var r := Apply(Arith(s.op), a.v, b.v, b.w);
        if r.Val? {
          AssignStays(s.x, r.v, ctx, loc, r.w);
          StoredEnds(s.x, r.v, loc, r.w);
        }
      }
    }
  }

  /** A block entered with the locals `inner` in the tables `ctx1`, seen from where the locals were `loc`. */
  lemma {:induction false} BlockKeeps(fs: seq<FuncDecl>, s: Stmt, body: Stmt, ctx1: Ctx, inLoop: bool, inSwitch: bool,
                                      inner: Locals, ctx: Ctx, loc: Locals, w: World, fuel: nat)
    requires body < s && StmtOk(body, ctx1, inLoop, inSwitch) && Framed(ctx1, inner) && Keys(ctx.locals, loc)
    requires ctx.locals <= ctx1.locals && LetsKept(ctx.locals, loc, inner)
    ensures BlockStays(ctx, loc, LeaveBlock(Exec(fs, ctx1.inFn, body, inner, w, fuel), loc))
    decreases fuel, s, -1
  {
    hide LetsKept, Keys, StmtOk, After, Narrow;
    StmtStays(fs, body, ctx1, inLoop, inSwitch, inner, w, fuel);
    var o := Exec(fs, ctx1.inFn, body, inner, w, fuel);
    if o.Normal? || o.Broke? {
      BlockLeft(ctx1.locals, ctx, loc, inner, o.loc);
    }
  }

  lemma {:induction false} IfStays(fs: seq<FuncDecl>, s: Stmt, ctx: Ctx, inLoop: bool, inSwitch: bool, loc: Locals,
                                   w: World, fuel: nat)
    requires s.If? && StmtOk(s, ctx, inLoop, inSwitch) && Framed(ctx, loc)
    ensures Stays(s, ctx, loc, Exec(fs, ctx.inFn, s, loc, w, fuel))
    decreases fuel, s, 0
  {
    hide LetsKept, Keys, Narrow, LeaveBlock, Find, Eval;
    var If(c, thn, els) := s;
    Same(ctx.locals, loc);
    var r := Eval(fs, c, loc, w, fuel);
    if r.Val? {
      BlockKeeps(fs, s, thn, ctx, inLoop, inSwitch, loc, ctx, loc, r.w, fuel);
      if els.Some? {
        BlockKeeps(fs, s, els.value, AfterBlock(thn, ctx), inLoop, inSwitch, loc, ctx, loc, r.w, fuel);
      }
    }
  }

  lemma {:induction false} IfLetStays(fs: seq<FuncDecl>, s: Stmt, ctx: Ctx, inLoop: bool, inSwitch: bool, loc: Locals,
                                      w: World, fuel: nat)
    requires s.IfLet? && StmtOk(s, ctx, inLoop, inSwitch) && Framed(ctx, loc)
    ensures Stays(s, ctx, loc, Exec(fs, ctx.inFn, s, loc, w, fuel))
    decreases fuel, s, 0
  {
    hide LetsKept, Keys, Narrow, LeaveBlock, Find, Eval;
    var IfLet(x, e, thn, els) := s;
    Same(ctx.locals, loc);
    var r := Eval(fs, e, loc, w, fuel);
    if r.Val? {
      if !Missing(r.v) {
        var d := Declared(ctx.inFn, x, r.v, loc, r.w);
        if ctx.inFn {
          LocalAdded(ctx.locals, Sym(x, true), loc, r.v);
        }
        BlockKeeps(fs, s, thn, BindIfLet(x, ctx), inLoop, inSwitch, d.loc, ctx, loc, d.w, fuel);
      } else if els.Some? {
        BlockKeeps(fs, s, els.value, AfterBlock(thn, BindIfLet(x, ctx)).(locals := ctx.locals), inLoop, inSwitch, loc, ctx, loc, r.w, fuel);
      }
    }
  }

  lemma {:induction false} WhileStays(fs: seq<FuncDecl>, s: Stmt, ctx: Ctx, inLoop: bool, inSwitch: bool, loc: Locals,
                                      w: World, fuel: nat)
    requires s.While? && StmtOk(s, ctx, inLoop, inSwitch) && Framed(ctx, loc)
    ensures Stays(s, ctx, loc, Exec(fs, ctx.inFn, s, loc, w, fuel))
    decreases fuel, s, 0
  {
    hide LetsKept, Keys, Narrow, Find, Eval;
    Same(ctx.locals, loc);
    if fuel > 0 {
      var r := Eval(fs, s.c, loc, w, fuel);
      if r.Val? {
        StmtStays(fs, s.body, ctx, true, inSwitch, loc, r.w, fuel - 1);
        var o := Exec(fs, ctx.inFn, s.body, loc, r.w, fuel - 1);
        if o.Normal? || o.Broke? {
          Narrowed(ctx, loc, o.loc);
        }
        if o.Normal? {
          var l := Narrow(o.loc, loc);
          StmtStays(fs, s, ctx, inLoop, inSwitch, l, o.w, fuel - 1);
          var p := Exec(fs, ctx.inFn, s, l, o.w, fuel - 1);
          if p.Normal? || p.Broke? {
            LetsChain(ctx.locals, ctx.locals, loc, l, p.loc);
          }
        }
      }
    }
  }

  lemma {:induction false} RangeStays(fs: seq<FuncDecl>, s: Stmt, ctx: Ctx, inLoop: bool, inSwitch: bool, loc: Locals,
                                      w: World, fuel: nat)
    requires s.ForIn? && StmtOk(s, ctx, inLoop, inSwitch) && Framed(ctx, loc)
    ensures Stays(s, ctx, loc, Exec(fs, ctx.inFn, s, loc, w, fuel))
    decreases fuel, s, 0
  {
    hide LetsKept, Keys, Find, Eval, ForLoop, SetGlobal;
    var ForIn(x, lo, hi, closed, body) := s;
    var a := Eval(fs, lo, loc, w, fuel);
    if a.Val? {
      var b := Eval(fs, hi, loc, a.w, fuel);
      if b.Val? {
        var outer := BindLoopVar(x, ctx);
        TurnsStay(fs, x, b.v, closed, body, outer, inSwitch, loc, SetGlobal(b.w, x, a.v), fuel);
      }
    }
  }

  /** What one turn leaves. */
  ghost predicate TurnEnds(ctx: Ctx, loc: Locals, o: Outcome) {
    o.Normal? || o.Broke? ==>
      && LetsKept(ctx.locals, loc, o.loc)
      && Framed(ctx, Narrow(o.loc, loc)) && LetsKept(ctx.locals, loc, Narrow(o.loc, loc))
  }

  lemma {:induction false} TurnStays(fs: seq<FuncDecl>, body: Stmt, ctx: Ctx, inSwitch: bool, loc: Locals, w: World,
                                     fuel: nat)
    requires StmtOk(body, ReserveBound(ctx), true, inSwitch) && Framed(ctx, loc)
    ensures TurnEnds(ctx, loc, Exec(fs, ctx.inFn, body, loc, w, fuel))
    decreases fuel, body, 2
  {
    hide LetsKept, Keys, Narrow, Find, Exec, StmtOk;
    Same(ctx.locals, loc);
    BoundReserved(ctx, loc);
    var inner := ReserveBound(ctx);
    StmtStays(fs, body, inner, true, inSwitch, loc, w, fuel);
    var o := Exec(fs, ctx.inFn, body, loc, w, fuel);
    if o.Normal? || o.Broke? {
      BlockLeft(inner.locals, ctx, loc, loc, o.loc);
    }
  }

  function NextTurn(o: Outcome, x: Name): World
    requires o.Normal? && x in o.w.globals && o.w.globals[x].Int?
  {
    SetGlobal(o.w, x, Int(Wrap16(o.w.globals[x].n + 1)))
  }

  /** How the turns of a loop can end: before a turn, with an error or a return, with a break, or as the rest of them do. */
  lemma {:induction false} TurnsEnd(fs: seq<FuncDecl>, inFn: bool, x: Name, b: Immediate, closed: bool, body: Stmt,
                                    loc: Locals, w: World, fuel: nat)
    requires fuel > 0
    ensures var p, o := ForLoop(fs, inFn, x, b, closed, body, loc, w, fuel), Exec(fs, inFn, body, loc, w, fuel - 1);
            || (p.Normal? && p.loc == loc && p.w == w)
            || (p.Failed? && (p.w == w || ((o.Normal? || o.Failed?) && p.w == o.w)))
            || p.OutOfFuel?
            || (o.Returned? && p == o)
            || (o.Broke? && p == Normal(Narrow(o.loc, loc), o.w))
            || (o.Normal? && x in o.w.globals && o.w.globals[x].Int?
                && p == ForLoop(fs, inFn, x, b, closed, body, Narrow(o.loc, loc), NextTurn(o, x), fuel - 1))
  {
    hide Exec, Narrow, SetGlobal, Wrap16;
  }

  lemma {:induction false} TurnsStay(fs: seq<FuncDecl>, x: Name, b: Immediate, closed: bool, body: Stmt, ctx: Ctx,
                                     inSwitch: bool, loc: Locals, w: World, fuel: nat)
    requires StmtOk(body, ReserveBound(ctx), true, inSwitch) && Framed(ctx, loc)
    ensures BlockStays(ctx, loc, ForLoop(fs, ctx.inFn, x, b, closed, body, loc, w, fuel))
    decreases fuel, body, 0
  {
    hide LetsKept, Keys, Narrow, Find, Exec, NextTurn, StmtOk, ReserveBound, ForLoop;
    Same(ctx.locals, loc);
    if fuel > 0 {
      TurnStays(fs, body, ctx, inSwitch, loc, w, fuel - 1);
      TurnsEnd(fs, ctx.inFn, x, b, closed, body, loc, w, fuel);
      var o := Exec(fs, ctx.inFn, body, loc, w, fuel - 1);
      if o.Normal? && x in o.w.globals && o.w.globals[x].Int? {
        var l, w' := Narrow(o.loc, loc), NextTurn(o, x);
        TurnsStay(fs, x, b, closed, body, ctx, inSwitch, l, w', fuel - 1);
        KeptOn(ctx, loc, l, ForLoop(fs, ctx.inFn, x, b, closed, body, l, w', fuel - 1));
      }
    } else {
      NoTurns(fs, ctx.inFn, x, b, closed, body, loc, w);
    }
  }

  lemma {:induction false} NoTurns(fs: seq<FuncDecl>, inFn: bool, x: Name, b: Immediate, closed: bool, body: Stmt,
                                   loc: Locals, w: World)
    ensures ForLoop(fs, inFn, x, b, closed, body, loc, w, 0) == OutOfFuel
  {
  }

  lemma {:induction false} KeptOn(ctx: Ctx, loc: Locals, l: Locals, o: Outcome)
    requires LetsKept(ctx.locals, loc, l) && BlockStays(ctx, l, o)
    ensures BlockStays(ctx, loc, o)
  {
    hide LetsKept, Keys;
    if o.Normal? || o.Broke? {
      LetsChain(ctx.locals, ctx.locals, loc, l, o.loc);
    }
  }

  lemma {:induction false} SwitchStays(fs: seq<FuncDecl>, s: Stmt, ctx: Ctx, inLoop: bool, inSwitch: bool,
                                       loc: Locals, w: World, fuel: nat)
    requires s.Switch? && StmtOk(s, ctx, inLoop, inSwitch) && Framed(ctx, loc)
    ensures Stays(s, ctx, loc, Exec(fs, ctx.inFn, s, loc, w, fuel))
    decreases fuel, s, 0
  {
    hide LetsKept, Keys, Find, Eval, Select, LeaveBlock;
    var r := Eval(fs, s.e, loc, w, fuel);
    if r.Val? {
      CasesStay(fs, r.v, s.cases, ctx, inLoop, loc, r.w, fuel);
    }
  }

  lemma {:induction false} CasesStay(fs: seq<FuncDecl>, v: Immediate, cases: Cases, ctx: Ctx, inLoop: bool,
                                     loc: Locals, w: World, fuel: nat)
    requires CasesOk(cases, ctx, inLoop) && Framed(ctx, loc)
    ensures BlockStays(ctx, loc, LeaveBlock(Select(fs, ctx.inFn, v, cases, loc, w, fuel), loc))
    decreases fuel, cases, 0
  {
    hide LetsKept, Keys, Find, Narrow, AnyEqual, ExprsOk;
    Same(ctx.locals, loc);
    match cases {
      case NoCase => Narrowed(ctx, loc, loc);
      case Default(body) => ClauseStays(fs, body, ctx, inLoop, loc, w, fuel);
      case Case(values, body, rest) =>
        var r := AnyEqual(fs, v, values, loc, w, fuel);
        if r.Matched? {
          ClauseStays(fs, body, ctx, inLoop, loc, r.w, fuel);
          CasesStay(fs, v, rest, AfterBlock(body, ctx), inLoop, loc, r.w, fuel);
        }
    }
  }

  lemma {:induction false} ClauseStays(fs: seq<FuncDecl>, body: Stmt, ctx: Ctx, inLoop: bool, loc: Locals, w: World,
                                       fuel: nat)
    requires StmtOk(body, ctx, inLoop, true) && Framed(ctx, loc)
    ensures BlockStays(ctx, loc, LeaveBlock(Exec(fs, ctx.inFn, body, loc, w, fuel), loc))
    decreases fuel, body, 2
  {
    hide LetsKept, Keys, StmtOk, After, Narrow;
    Same(ctx.locals, loc);
    StmtStays(fs, body, ctx, inLoop, true, loc, w, fuel);
    var o := Exec(fs, ctx.inFn, body, loc, w, fuel);
    if o.Normal? || o.Broke? {
      BlockLeft(ctx.locals, ctx, loc, loc, o.loc);
    }
  }

  // ----- constants at top level -----

  /** `x` is as it was. */
  predicate Kept(x: Name, w: World, w': World) {
    (x in w'.globals <==> x in w.globals) && (x in w.globals ==> w'.globals[x] == w.globals[x])
  }

  ghost predicate KeptBy(x: Name, w: World, o: Outcome) {
    o.Normal? || o.Broke? || o.Returned? || o.Failed? ==> Kept(x, w, o.w)
  }

  ghost predicate KeptIn(x: Name, w: World, r: Result) {
    r.Val? || r.Bad? ==> Kept(x, w, r.w)
  }

  /** The global `x`, if there is one in the table, is a constant. */
  predicate Fixed(ts: seq<Sym>, x: Name) {
    x != "" && (Find(ts, x).Some? ==> Constant(ts, x))
  }

  /** An `if let` in the statement binds `x`. */
  predicate Rebinds(s: Stmt, x: Name) {
    match s
    case Seq(s1, s2) => Rebinds(s1, x) || Rebinds(s2, x)
    case If(_, thn, els) => Rebinds(thn, x) || (els.Some? && Rebinds(els.value, x))
    case IfLet(y, _, thn, els) => y == x || Rebinds(thn, x) || (els.Some? && Rebinds(els.value, x))
    case While(_, body) => Rebinds(body, x)
    case ForIn(_, _, _, _, body) => Rebinds(body, x)
    case Switch(_, cases) => CaseRebinds(cases, x)
    case _ => false
  }

  predicate CaseRebinds(cases: Cases, x: Name) {
    match cases
    case NoCase => false
    case Default(body) => Rebinds(body, x)
    case Case(_, body, rest) => Rebinds(body, x) || CaseRebinds(rest, x)
  }

  /** What a statement with the tables `ctx` before it and the globals `after` behind it can know of `x`: at top level it
    * is a constant already and not bound again, in a function it is at least no variable. */
  predicate Guarded(x: Name, ctx: Ctx, after: seq<Sym>, rebinds: bool) {
    Fixed(after, x) && ctx.globals <= after && (!ctx.inFn ==> Constant(ctx.globals, x) && !rebinds)
  }

  /** The functions that `sigs` describes are the first ones of `fs`. */
  predicate Described(fs: seq<FuncDecl>, sigs: seq<FuncSig>) {
    |sigs| <= |fs| && forall i :: 0 <= i < |sigs| ==> sigs[i] == SigOf(fs[i])
  }

  predicate BodyGuarded(x: Name, f: FuncDecl, ctx: Ctx) {
    && ctx.inFn && ctx.locals == ParamSyms(f.params) && FuncOk(f, ctx)
    && Guarded(x, ctx, After(f.body, ctx).globals, false)
  }

  ghost predicate Program(x: Name, fs: seq<FuncDecl>, ctxs: seq<Ctx>) {
    |ctxs| == |fs| && forall i :: 0 <= i < |fs| ==> Described(fs, ctxs[i].funcs) && BodyGuarded(x, fs[i], ctxs[i])
  }

  lemma {:induction false} FixedPrefix(a: seq<Sym>, b: seq<Sym>, x: Name)
    requires a <= b && Fixed(b, x)
    ensures Fixed(a, x)
  {
    if Find(a, x).Some? {
      FindPrefix(a, b, x);
    }
  }

  lemma {:induction false} GuardedBefore(x: Name, ctx: Ctx, mid: seq<Sym>, after: seq<Sym>, rebinds: bool)
    requires Guarded(x, ctx, after, rebinds) && ctx.globals <= mid <= after
    ensures Guarded(x, ctx, mid, rebinds)
  {
    FixedPrefix(mid, after, x);
  }

  lemma {:induction false} GuardedBehind(x: Name, ctx: Ctx, ctx1: Ctx, after: seq<Sym>, rebinds: bool)
    requires Guarded(x, ctx, after, rebinds) && ctx.globals <= ctx1.globals <= after && ctx1.inFn == ctx.inFn
    ensures Guarded(x, ctx1, after, rebinds)
  {
    if !ctx.inFn {
      ConstantPrefix(ctx.globals, ctx1.globals, x);
    }
  }

  lemma {:induction false} CalledRightly(fs: seq<FuncDecl>, sigs: seq<FuncSig>, f: Name, n: nat)
    requires Described(fs, sigs) && n <= |sigs|
    ensures var r := FindFunc(sigs[n..], f);
            r.Some? ==> Lookup(fs[n..], f) == r && n + r.value < |sigs| && |fs[n + r.value].params| == sigs[n + r.value].params
    decreases |sigs| - n
  {
    if n < |sigs| {
      CalledRightly(fs, sigs, f, n + 1);
      assert sigs[n..][1..] == sigs[n + 1..] && fs[n..][1..] == fs[n + 1..];
    }
  }

  lemma {:induction false} ListLength(fs: seq<FuncDecl>, es: Exprs, loc: Locals, w: World, fuel: nat)
    ensures var r := EvalList(fs, es, loc, w, fuel); r.Vals? ==> |r.vs| == Count(es)
    decreases es
  {
    hide Eval;
    if es.Exprs? {
      var r := Eval(fs, es.first, loc, w, fuel);
      if r.Val? {
        ListLength(fs, es.rest, loc, r.w, fuel);
      }
    }
  }

  lemma {:induction false} EvalKeeps(x: Name, fs: seq<FuncDecl>, ctxs: seq<Ctx>, e: Expr, ctx: Ctx, loc: Locals,
                                     w: World, fuel: nat)
    requires Program(x, fs, ctxs) && Described(fs, ctx.funcs) && ExprOk(e, ctx)
    ensures KeptIn(x, w, Eval(fs, e, loc, w, fuel))
    decreases fuel, e, 0
  {
    hide Program, Described, Resolve, FindFunc, Apply;
    match e {
      case Neg(e) => EvalKeeps(x, fs, ctxs, e, ctx, loc, w, fuel);
      case Not(e) => EvalKeeps(x, fs, ctxs, e, ctx, loc, w, fuel);
      case Unwrap(e) => EvalKeeps(x, fs, ctxs, e, ctx, loc, w, fuel);
      case Bin(op, l, r) =>
        PairKeeps(x, fs, ctxs, e, l, r, ctx, loc, w, fuel);
        var a := Eval(fs, l, loc, w, fuel);
        if a.Val? {
          var b := Eval(fs, r, loc, a.w, fuel);
          if b.Val? {
            AppliedKeeps(op, a.v, b.v, b.w);
          }
        }
      case And(l, r) => PairKeeps(x, fs, ctxs, e, l, r, ctx, loc, w, fuel);
      case Or(l, r) => PairKeeps(x, fs, ctxs, e, l, r, ctx, loc, w, fuel);
      case Coalesce(l, r) => PairKeeps(x, fs, ctxs, e, l, r, ctx, loc, w, fuel);
      case Call(f, args) => CallKeeps(x, fs, ctxs, e, ctx, loc, w, fuel);
      case _ =>
    }
  }

  lemma {:induction false} AppliedKeeps(op: BinOp, a: Immediate, b: Immediate, w: World)
    ensures var r := Apply(op, a, b, w); (r.Val? || r.Bad?) && r.w == w
  {
  }

  lemma {:induction false} PairKeeps(x: Name, fs: seq<FuncDecl>, ctxs: seq<Ctx>, e: Expr, l: Expr, r: Expr, ctx: Ctx,
                                     loc: Locals, w: World, fuel: nat)
    requires l < e && r < e && Program(x, fs, ctxs) && Described(fs, ctx.funcs) && ExprOk(l, ctx) && ExprOk(r, ctx)
    ensures KeptIn(x, w, Eval(fs, l, loc, w, fuel))
    ensures var a := Eval(fs, l, loc, w, fuel); a.Val? ==> KeptIn(x, w, Eval(fs, r, loc, a.w, fuel))
    decreases fuel, e, 0, 0
  {
    hide Program, Described, Eval, ExprOk;
    EvalKeeps(x, fs, ctxs, l, ctx, loc, w, fuel);
    var a := Eval(fs, l, loc, w, fuel);
    if a.Val? {
      EvalKeeps(x, fs, ctxs, r, ctx, loc, a.w, fuel);
    }
  }

  lemma {:induction false} CallKeeps(x: Name, fs: seq<FuncDecl>, ctxs: seq<Ctx>, e: Expr, ctx: Ctx, loc: Locals,
                                     w: World, fuel: nat)
    requires e.Call? && Program(x, fs, ctxs) && Described(fs, ctx.funcs) && ExprOk(e, ctx)
    ensures KeptIn(x, w, Eval(fs, e, loc, w, fuel))
    decreases fuel, e, 0, 0
  {
    hide Program, Described, Resolve, Invoke, EvalList;
    ListKeeps(x, fs, ctxs, e.args, ctx, loc, w, fuel);
    ListLength(fs, e.args, loc, w, fuel);
    var r := EvalList(fs, e.args, loc, w, fuel);
    if r.Vals? && fuel > 0 {
      CalledRightly(fs, ctx.funcs, e.f, 0);
      assert ctx.funcs[0..] == ctx.funcs && fs[0..] == fs;
      InvokeKeeps(x, fs, ctxs, e.f, r.vs, r.w, fuel - 1);
    }
  }

  lemma {:induction false} ListKeeps(x: Name, fs: seq<FuncDecl>, ctxs: seq<Ctx>, es: Exprs, ctx: Ctx, loc: Locals,
                                     w: World, fuel: nat)
    requires Program(x, fs, ctxs) && Described(fs, ctx.funcs) && ExprsOk(es, ctx)
    ensures var r := EvalList(fs, es, loc, w, fuel); r.Vals? || r.BadList? ==> Kept(x, w, r.w)
    decreases fuel, es, 0
  {
    hide Program, Described, Eval, ExprOk;
    if es.Exprs? {
      EvalKeeps(x, fs, ctxs, es.first, ctx, loc, w, fuel);
      var r := Eval(fs, es.first, loc, w, fuel);
      if r.Val? {
        ListKeeps(x, fs, ctxs, es.rest, ctx, loc, r.w, fuel);
      }
    }
  }

  lemma {:induction false} ParamKeys(params: seq<Name>, vs: seq<Immediate>)
    requires |vs| == |params|
    requires forall i :: 0 <= i < |params| ==> NameOk(params[i])
    requires forall a, b :: 0 <= a < b < |params| ==> params[a] != params[b]
    ensures Keys(ParamSyms(params), Bind(params, vs))
  {
    Programs.ParamsAgree(params, vs, Imms(vs), 0);
  }

  lemma {:induction false} InvokeKeeps(x: Name, fs: seq<FuncDecl>, ctxs: seq<Ctx>, f: Name, vs: seq<Immediate>,
                                       w: World, fuel: nat)
    requires Program(x, fs, ctxs) && Lookup(fs, f).Some? && |vs| == |fs[Lookup(fs, f).value].params|
    ensures KeptIn(x, w, Invoke(fs, f, vs, w, fuel))
    decreases fuel
  {
    hide Exec, Keys, StmtOk, After, Lookup, Fixed, Constant, Bind, Described;
    var i := Lookup(fs, f).value;
    var ctx := ctxs[i];
    assert BodyGuarded(x, fs[i], ctx);
    ParamKeys(fs[i].params, vs);
    StmtKeeps(x, fs, ctxs, fs[i].body, ctx, false, false, Bind(fs[i].params, vs), w, fuel);
  }

  lemma {:induction false} AssignKeeps(x: Name, y: Name, v: Immediate, ctx: Ctx, loc: Locals, w: World)
    requires Framed(ctx, loc) && CanAssign(y, ctx) && Fixed(ctx.globals, x)
    ensures KeptBy(x, w, Stored(y, v, loc, w))
  {
    hide Find;
  }

  lemma {:induction false} StmtKeeps(x: Name, fs: seq<FuncDecl>, ctxs: seq<Ctx>, s: Stmt, ctx: Ctx, inLoop: bool,
                                     inSwitch: bool, loc: Locals, w: World, fuel: nat)
    requires Program(x, fs, ctxs) && Described(fs, ctx.funcs)
    requires StmtOk(s, ctx, inLoop, inSwitch) && Framed(ctx, loc) && Guarded(x, ctx, After(s, ctx).globals, Rebinds(s, x))
    ensures KeptBy(x, w, Exec(fs, ctx.inFn, s, loc, w, fuel))
    decreases fuel, s, 1
  {
    hide Find, ExprOk, Eval, EvalList, Stored, CanAssign, Keys, Read, Apply, Text, Program, Described, Kept;
    assert Kept(x, w, w) by { SameWorld(x, w); }
    match s {
      case Seq(s1, s2) => SeqKeeps(x, fs, ctxs, s, ctx, inLoop, inSwitch, loc, w, fuel);
      case Declare(_, _, _) => DeclareKeeps(x, fs, ctxs, s, ctx, loc, w, fuel);
      case Assign(_, _) => StoreKeeps(x, fs, ctxs, s, ctx, loc, w, fuel);
      case Compound(_, _, _) => StoreKeeps(x, fs, ctxs, s, ctx, loc, w, fuel);
      case Do(e) => EvalKeeps(x, fs, ctxs, e, ctx, loc, w, fuel);
      case Print(args) => PrintKeeps(x, fs, ctxs, s, ctx, loc, w, fuel);
      case If(_, _, _) => IfKeeps(x, fs, ctxs, s, ctx, inLoop, inSwitch, loc, w, fuel);
      case IfLet(_, _, _, _) => IfLetKeeps(x, fs, ctxs, s, ctx, inLoop, inSwitch, loc, w, fuel);
      case While(_, _) => WhileKeeps(x, fs, ctxs, s, ctx, inLoop, inSwitch, loc, w, fuel);
      case ForIn(_, _, _, _, _) => RangeKeeps(x, fs, ctxs, s, ctx, inLoop, inSwitch, loc, w, fuel);
      case Switch(e, cases) => SwitchKeeps(x, fs, ctxs, s, ctx, inLoop, inSwitch, loc, w, fuel);
      case Return(Some(e)) => EvalKeeps(x, fs, ctxs, e, ctx, loc, w, fuel);
      case _ =>
    }
  }

  lemma {:induction false} SameWorld(x: Name, w: World)
    ensures Kept(x, w, w)
  {
  }

  lemma {:induction false} SeqKeeps(x: Name, fs: seq<FuncDecl>, ctxs: seq<Ctx>, s: Stmt, ctx: Ctx, inLoop: bool,
                                    inSwitch: bool, loc: Locals, w: World, fuel: nat)
    requires s.Seq? && Program(x, fs, ctxs) && Described(fs, ctx.funcs)
    requires StmtOk(s, ctx, inLoop, inSwitch) && Framed(ctx, loc) && Guarded(x, ctx, After(s, ctx).globals, Rebinds(s, x))
    ensures KeptBy(x, w, Exec(fs, ctx.inFn, s, loc, w, fuel))
    decreases fuel, s, 0
  {
    hide Program, Described, Keys, Fixed, Constant, LetsKept;
    var mid, last := After(s.s1, ctx), After(s, ctx).globals;
    GuardedBefore(x, ctx, mid.globals, last, Rebinds(s.s1, x));
    StmtKeeps(x, fs, ctxs, s.s1, ctx, inLoop, inSwitch, loc, w, fuel);
    StmtStays(fs, s.s1, ctx, inLoop, inSwitch, loc, w, fuel);
    var o := Exec(fs, ctx.inFn, s.s1, loc, w, fuel);
    if o.Normal? {
      GuardedBehind(x, ctx, mid, last, Rebinds(s.s2, x));
      StmtKeeps(x, fs, ctxs, s.s2, mid, inLoop, inSwitch, o.loc, o.w, fuel);
    }
  }

  lemma {:induction false} DeclareKeeps(x: Name, fs: seq<FuncDecl>, ctxs: seq<Ctx>, s: Stmt, ctx: Ctx, loc: Locals,
                                        w: World, fuel: nat)
    requires s.Declare? && Program(x, fs, ctxs) && Described(fs, ctx.funcs)
    requires StmtOk(s, ctx, false, false) && Guarded(x, ctx, After(s, ctx).globals, false)
    ensures KeptBy(x, w, Exec(fs, ctx.inFn, s, loc, w, fuel))
    decreases fuel, s, 0
  {
    hide Program, Described, Eval, ExprOk, Find;
    EvalKeeps(x, fs, ctxs, s.e, ctx, loc, w, fuel);
  }

  lemma {:induction false} StoreKeeps(x: Name, fs: seq<FuncDecl>, ctxs: seq<Ctx>, s: Stmt, ctx: Ctx, loc: Locals,
                                      w: World, fuel: nat)
    requires (s.Assign? || s.Compound?) && Program(x, fs, ctxs) && Described(fs, ctx.funcs) && Framed(ctx, loc)
    requires StmtOk(s, ctx, false, false) && Guarded(x, ctx, ctx.globals, false)
    ensures KeptBy(x, w, Exec(fs, ctx.inFn, s, loc, w, fuel))
    decreases fuel, s, 0
  {
    hide Program, Described, Eval, ExprOk, Find, CanAssign, Stored, Keys, Constant, Apply;
    ReadKeeps(s.x, loc, w);
    EvalKeeps(x, fs, ctxs, s.e, ctx, loc, w, fuel);
    var r := Eval(fs, s.e, loc, w, fuel);
    if r.Val? {
      if s.Assign? {
        AssignKeeps(x, s.x, r.v, ctx, loc, r.w);
        StoredEnds(s.x, r.v, loc, r.w);
      } else {
        var a := Read(s.x, loc, w);
        if a.Val? {
          AppliedKeeps(Arith(s.op), a.v, r.v, r.w);
          var v := Apply(Arith(s.op), a.v, r.v, r.w);
          if v.Val? {
            AssignKeeps(x, s.x, v.v, ctx, loc, r.w);
            StoredEnds(s.x, v.v, loc, r.w);
          }
        }
      }
    }
  }

  lemma {:induction false} ReadKeeps(y: Name, loc: Locals, w: World)
    ensures var r := Read(y, loc, w); (r.Val? || r.Bad?) && r.w == w
  {
  }

  lemma {:induction false} PrintKeeps(x: Name, fs: seq<FuncDecl>, ctxs: seq<Ctx>, s: Stmt, ctx: Ctx, loc: Locals,
                                      w: World, fuel: nat)
    requires s.Print? && Program(x, fs, ctxs) && Described(fs, ctx.funcs) && ExprsOk(s.args, ctx)
    ensures KeptBy(x, w, Exec(fs, ctx.inFn, s, loc, w, fuel))
    decreases fuel, s, 0
  {
    hide Program, Described, EvalList, ExprsOk, Text;
    ListKeeps(x, fs, ctxs, s.args, ctx, loc, w, fuel);
  }

  lemma {:induction false} ElseAfter(els: Option<Stmt>, ctx: Ctx)
    requires els.Some?
    ensures AfterElse(els, ctx).globals == After(els.value, ctx).globals
  {
  }

  /** The two arms of a conditional statement, the first one entered with the tables `ctx1`. */
  lemma {:induction false} ArmsGuarded(x: Name, ctx: Ctx, ctx1: Ctx, thn: Stmt, els: Option<Stmt>, rebinds: bool)
    requires var mid := AfterBlock(thn, ctx1).(locals := ctx.locals); Guarded(x, ctx, AfterElse(els, mid).globals, rebinds)
    requires ctx.globals <= ctx1.globals && ctx1.inFn == ctx.inFn
    ensures Guarded(x, ctx1, After(thn, ctx1).globals, rebinds)
    ensures els.Some? ==>
              var mid := AfterBlock(thn, ctx1).(locals := ctx.locals);
              Guarded(x, mid, After(els.value, mid).globals, rebinds)
  {
    hide Fixed, Constant, After;
    var mid := AfterBlock(thn, ctx1).(locals := ctx.locals);
    var last := AfterElse(els, mid).globals;
    GuardedBehind(x, ctx, ctx1, last, rebinds);
    GuardedBefore(x, ctx1, mid.globals, last, rebinds);
    if els.Some? {
      GuardedBehind(x, ctx, mid, last, rebinds);
      ElseAfter(els, mid);
    }
  }

  lemma {:induction false} Unbound(x: Name, ctx: Ctx, after: seq<Sym>, rebinds: bool, weaker: bool)
    requires Guarded(x, ctx, after, rebinds) && (weaker ==> rebinds)
    ensures Guarded(x, ctx, after, weaker)
  {
  }

  /** At top level the binding is another name. */
  lemma {:induction false} BindingOther(x: Name, y: Name, ctx: Ctx, after: seq<Sym>, rebinds: bool)
    requires Guarded(x, ctx, after, rebinds) && (y == x ==> rebinds)
    ensures !ctx.inFn ==> y != x
  {
  }

  /** What the arms of a conditional statement may assume: the first one starts with `ctx1`, the second one with `mid`. */
  ghost predicate ArmsReady(x: Name, ctx: Ctx, ctx1: Ctx, mid: Ctx, thn: Stmt, els: Option<Stmt>, inLoop: bool, inSwitch: bool) {
    && StmtOk(thn, ctx1, inLoop, inSwitch) && Guarded(x, ctx1, After(thn, ctx1).globals, Rebinds(thn, x))
    && (els.Some? ==> StmtOk(els.value, mid, inLoop, inSwitch) && Guarded(x, mid, After(els.value, mid).globals, Rebinds(els.value, x)))
    && SameFrame(ctx1, ctx) && SameFrame(mid, ctx) && mid.locals == ctx.locals
  }

  lemma {:induction false} IfReady(x: Name, s: Stmt, ctx: Ctx, inLoop: bool, inSwitch: bool)
    requires s.If? && StmtOk(s, ctx, inLoop, inSwitch) && Guarded(x, ctx, After(s, ctx).globals, Rebinds(s, x))
    ensures ExprOk(s.c, ctx) && ArmsReady(x, ctx, ctx, AfterBlock(s.thn, ctx), s.thn, s.els, inLoop, inSwitch)
  {
    hide Guarded, ExprOk;
    var If(c, thn, els) := s;
    var mid := AfterBlock(thn, ctx);
    assert mid == mid.(locals := ctx.locals);
    ArmsGuarded(x, ctx, ctx, thn, els, Rebinds(s, x));
    Unbound(x, ctx, After(thn, ctx).globals, Rebinds(s, x), Rebinds(thn, x));
    if els.Some? {
      Unbound(x, mid, After(els.value, mid).globals, Rebinds(s, x), Rebinds(els.value, x));
    }
  }

  lemma {:induction false} IfLetReady(x: Name, s: Stmt, ctx: Ctx, inLoop: bool, inSwitch: bool)
    requires s.IfLet? && StmtOk(s, ctx, inLoop, inSwitch) && Guarded(x, ctx, After(s, ctx).globals, Rebinds(s, x))
    ensures var bound := BindIfLet(s.x, ctx);
            ExprOk(s.e, ctx) && CanBindIfLet(s.x, ctx) && (!ctx.inFn ==> s.x != x)
            && ArmsReady(x, ctx, bound, AfterBlock(s.thn, bound).(locals := ctx.locals), s.thn, s.els, inLoop, inSwitch)
  {
    hide Guarded, ExprOk, CanBindIfLet;
    var IfLet(y, e, thn, els) := s;
    var bound := BindIfLet(y, ctx);
    var mid := AfterBlock(thn, bound).(locals := ctx.locals);
    ArmsGuarded(x, ctx, bound, thn, els, Rebinds(s, x));
    BindingOther(x, y, ctx, After(s, ctx).globals, Rebinds(s, x));
    Unbound(x, bound, After(thn, bound).globals, Rebinds(s, x), Rebinds(thn, x));
    if els.Some? {
      Unbound(x, mid, After(els.value, mid).globals, Rebinds(s, x), Rebinds(els.value, x));
    }
  }

  lemma {:induction false} IfKeeps(x: Name, fs: seq<FuncDecl>, ctxs: seq<Ctx>, s: Stmt, ctx: Ctx, inLoop: bool,
                                   inSwitch: bool, loc: Locals, w: World, fuel: nat)
    requires s.If? && Program(x, fs, ctxs) && Described(fs, ctx.funcs)
    requires StmtOk(s, ctx, inLoop, inSwitch) && Framed(ctx, loc) && Guarded(x, ctx, After(s, ctx).globals, Rebinds(s, x))
    ensures KeptBy(x, w, Exec(fs, ctx.inFn, s, loc, w, fuel))
    decreases fuel, s, 0
  {
    hide Program, Described, Keys, Guarded, Eval, ExprOk, StmtOk, After, Rebinds, AfterBlock;
    IfReady(x, s, ctx, inLoop, inSwitch);
    EvalKeeps(x, fs, ctxs, s.c, ctx, loc, w, fuel);
    var r := Eval(fs, s.c, loc, w, fuel);
    if r.Val? {
      StmtKeeps(x, fs, ctxs, s.thn, ctx, inLoop, inSwitch, loc, r.w, fuel);
      if s.els.Some? {
        StmtKeeps(x, fs, ctxs, s.els.value, AfterBlock(s.thn, ctx), inLoop, inSwitch, loc, r.w, fuel);
      }
    }
  }

  lemma {:induction false} IfLetKeeps(x: Name, fs: seq<FuncDecl>, ctxs: seq<Ctx>, s: Stmt, ctx: Ctx, inLoop: bool,
                                      inSwitch: bool, loc: Locals, w: World, fuel: nat)
    requires s.IfLet? && Program(x, fs, ctxs) && Described(fs, ctx.funcs)
    requires StmtOk(s, ctx, inLoop, inSwitch) && Framed(ctx, loc) && Guarded(x, ctx, After(s, ctx).globals, Rebinds(s, x))
    ensures KeptBy(x, w, Exec(fs, ctx.inFn, s, loc, w, fuel))
    decreases fuel, s, 0
  {
    hide Program, Described, Keys, Guarded, Eval, ExprOk, StmtOk, After, Rebinds, AfterBlock, Framed, BindIfLet, CanBindIfLet, Declared;
    IfLetReady(x, s, ctx, inLoop, inSwitch);
    EvalKeeps(x, fs, ctxs, s.e, ctx, loc, w, fuel);
    var r := Eval(fs, s.e, loc, w, fuel);
    if r.Val? {
      if !Missing(r.v) {
        var d := Declared(ctx.inFn, s.x, r.v, loc, r.w);
        BindingFramed(x, s.x, r.v, ctx, loc, r.w);
        StmtKeeps(x, fs, ctxs, s.thn, BindIfLet(s.x, ctx), inLoop, inSwitch, d.loc, d.w, fuel);
      } else if s.els.Some? {
        var mid := AfterBlock(s.thn, BindIfLet(s.x, ctx)).(locals := ctx.locals);
        SameFramed(ctx, mid, loc);
        StmtKeeps(x, fs, ctxs, s.els.value, mid, inLoop, inSwitch, loc, r.w, fuel);
      }
    }
  }

  lemma {:induction false} SameFramed(ctx: Ctx, mid: Ctx, loc: Locals)
    requires Framed(ctx, loc) && mid.locals == ctx.locals && mid.inFn == ctx.inFn
    ensures Framed(mid, loc)
  {
  }

  lemma {:induction false} BindingFramed(x: Name, y: Name, v: Immediate, ctx: Ctx, loc: Locals, w: World)
    requires Framed(ctx, loc) && CanBindIfLet(y, ctx) && (!ctx.inFn ==> y != x)
    ensures var d := Declared(ctx.inFn, y, v, loc, w);
            d.Normal? && Framed(BindIfLet(y, ctx), d.loc) && Kept(x, w, d.w)
  {
    hide Find, Keys;
    if ctx.inFn {
      LocalAdded(ctx.locals, Sym(y, true), loc, v);
    }
  }

  lemma {:induction false} WhileKeeps(x: Name, fs: seq<FuncDecl>, ctxs: seq<Ctx>, s: Stmt, ctx: Ctx, inLoop: bool,
                                      inSwitch: bool, loc: Locals, w: World, fuel: nat)
    requires s.While? && Program(x, fs, ctxs) && Described(fs, ctx.funcs)
    requires StmtOk(s, ctx, inLoop, inSwitch) && Framed(ctx, loc) && Guarded(x, ctx, After(s, ctx).globals, Rebinds(s, x))
    ensures KeptBy(x, w, Exec(fs, ctx.inFn, s, loc, w, fuel))
    decreases fuel, s, 0
  {
    hide Program, Described, Keys, Guarded, Eval, ExprOk, Find, LetsKept, Narrow;
    if fuel > 0 {
      EvalKeeps(x, fs, ctxs, s.c, ctx, loc, w, fuel);
      var r := Eval(fs, s.c, loc, w, fuel);
      if r.Val? {
        StmtKeeps(x, fs, ctxs, s.body, ctx, true, inSwitch, loc, r.w, fuel - 1);
        StmtStays(fs, s.body, ctx, true, inSwitch, loc, r.w, fuel - 1);
        var o := Exec(fs, ctx.inFn, s.body, loc, r.w, fuel - 1);
        if o.Normal? {
          Narrowed(ctx, loc, o.loc);
          StmtKeeps(x, fs, ctxs, s, ctx, inLoop, inSwitch, Narrow(o.loc, loc), o.w, fuel - 1);
        }
      }
    }
  }

  lemma {:induction false} RangeKeeps(x: Name, fs: seq<FuncDecl>, ctxs: seq<Ctx>, s: Stmt, ctx: Ctx, inLoop: bool,
                                      inSwitch: bool, loc: Locals, w: World, fuel: nat)
    requires s.ForIn? && Program(x, fs, ctxs) && Described(fs, ctx.funcs)
    requires StmtOk(s, ctx, inLoop, inSwitch) && Framed(ctx, loc) && Guarded(x, ctx, After(s, ctx).globals, Rebinds(s, x))
    ensures KeptBy(x, w, Exec(fs, ctx.inFn, s, loc, w, fuel))
    decreases fuel, s, 0
  {
    hide Program, Described, Keys, Guarded, Eval, ExprOk, Find, ForLoop, CanLoopOver, BindLoopVar;
    var ForIn(y, lo, hi, closed, body) := s;
    var outer := BindLoopVar(y, ctx);
    assert outer.globals <= After(s, ctx).globals;
    LoopVarOther(x, y, ctx, After(s, ctx).globals, Rebinds(s, x));
    EvalKeeps(x, fs, ctxs, lo, outer, loc, w, fuel);
    var a := Eval(fs, lo, loc, w, fuel);
    if a.Val? {
      EvalKeeps(x, fs, ctxs, hi, outer, loc, a.w, fuel);
      var b := Eval(fs, hi, loc, a.w, fuel);
      if b.Val? {
        GuardedIn(x, ctx, outer, After(s, ctx).globals, Rebinds(body, x));
        TurnsKeep(x, fs, ctxs, y, b.v, closed, body, outer, inSwitch, loc, SetGlobal(b.w, y, a.v), fuel);
      }
    }
  }

  lemma {:induction false} GuardedIn(x: Name, ctx: Ctx, ctx1: Ctx, after: seq<Sym>, rebinds: bool)
    requires Guarded(x, ctx, after, rebinds) && ctx.globals <= ctx1.globals <= after && ctx1.inFn == ctx.inFn
    ensures Guarded(x, ReserveBound(ctx1), after, rebinds)
  {
    GuardedBehind(x, ctx, ctx1, after, rebinds);
  }

  /** A loop does not count in a constant. */
  lemma {:induction false} LoopVarOther(x: Name, y: Name, ctx: Ctx, after: seq<Sym>, rebinds: bool)
    requires CanLoopOver(y, ctx) && BindLoopVar(y, ctx).globals <= after && Guarded(x, ctx, after, rebinds)
    ensures y != x
  {
    if y == x {
      var ts := BindLoopVar(y, ctx).globals;
      FixedPrefix(ts, after, x);
      if Find(ctx.globals, x).None? {
        FindAdd(ctx.globals, Sym(x, false), x);
      }
    }
  }

  lemma {:induction false} CountKeeps(x: Name, y: Name, o: Outcome)
    requires y != x && o.Normal? && y in o.w.globals && o.w.globals[y].Int?
    ensures Kept(x, o.w, NextTurn(o, y))
  {
    hide Wrap16;
  }

  lemma {:induction false} TurnsKeep(x: Name, fs: seq<FuncDecl>, ctxs: seq<Ctx>, y: Name, b: Immediate, closed: bool,
                                     body: Stmt, ctx: Ctx, inSwitch: bool, loc: Locals, w: World, fuel: nat)
    requires y != x && Program(x, fs, ctxs) && Described(fs, ctx.funcs) && Framed(ctx, loc)
    requires StmtOk(body, ReserveBound(ctx), true, inSwitch)
    requires Guarded(x, ReserveBound(ctx), After(body, ReserveBound(ctx)).globals, Rebinds(body, x))
    ensures KeptBy(x, w, ForLoop(fs, ctx.inFn, y, b, closed, body, loc, w, fuel))
    decreases fuel, body, 0
  {
    hide Program, Described, Framed, Guarded, LetsKept, Narrow, Exec, ForLoop, StmtOk, After, NextTurn, Rebinds, ReserveBound, Kept;
    SameWorld(x, w);
    if fuel > 0 {
      BoundReserved(ctx, loc);
      ReservedFrame(ctx);
      StmtKeeps(x, fs, ctxs, body, ReserveBound(ctx), true, inSwitch, loc, w, fuel - 1);
      TurnStays(fs, body, ctx, inSwitch, loc, w, fuel - 1);
      TurnsEnd(fs, ctx.inFn, y, b, closed, body, loc, w, fuel);
      var o := Exec(fs, ctx.inFn, body, loc, w, fuel - 1);
      if o.Normal? && y in o.w.globals && o.w.globals[y].Int? {
        var w' := NextTurn(o, y);
        CountKeeps(x, y, o);
        TurnsKeep(x, fs, ctxs, y, b, closed, body, ctx, inSwitch, Narrow(o.loc, loc), w', fuel - 1);
        KeptThrough(x, w, o.w, w', ForLoop(fs, ctx.inFn, y, b, closed, body, Narrow(o.loc, loc), w', fuel - 1));
      }
    } else {
      NoTurns(fs, ctx.inFn, y, b, closed, body, loc, w);
    }
  }

  lemma {:induction false} ReservedFrame(ctx: Ctx)
    ensures SameFrame(ReserveBound(ctx), ctx)
  {
  }

  lemma {:induction false} KeptThrough(x: Name, w: World, w1: World, w2: World, o: Outcome)
    requires Kept(x, w, w1) && Kept(x, w1, w2) && KeptBy(x, w2, o)
    ensures KeptBy(x, w, o)
  {
  }

  lemma {:induction false} SwitchKeeps(x: Name, fs: seq<FuncDecl>, ctxs: seq<Ctx>, s: Stmt, ctx: Ctx, inLoop: bool,
                                       inSwitch: bool, loc: Locals, w: World, fuel: nat)
    requires s.Switch? && Program(x, fs, ctxs) && Described(fs, ctx.funcs)
    requires StmtOk(s, ctx, inLoop, inSwitch) && Framed(ctx, loc) && Guarded(x, ctx, After(s, ctx).globals, Rebinds(s, x))
    ensures KeptBy(x, w, Exec(fs, ctx.inFn, s, loc, w, fuel))
    decreases fuel, s, 0
  {
    hide Program, Described, Keys, Guarded, Eval, ExprOk, Find, Select;
    EvalKeeps(x, fs, ctxs, s.e, ctx, loc, w, fuel);
    var r := Eval(fs, s.e, loc, w, fuel);
    if r.Val? {
      CasesKeep(x, fs, ctxs, r.v, s.cases, ctx, inLoop, loc, r.w, fuel);
    }
  }

  lemma {:induction false} CasesKeep(x: Name, fs: seq<FuncDecl>, ctxs: seq<Ctx>, v: Immediate, cases: Cases, ctx: Ctx,
                                     inLoop: bool, loc: Locals, w: World, fuel: nat)
    requires Program(x, fs, ctxs) && Described(fs, ctx.funcs) && Framed(ctx, loc)
    requires CasesOk(cases, ctx, inLoop) && Guarded(x, ctx, AfterCases(cases, ctx).globals, CaseRebinds(cases, x))
    ensures KeptBy(x, w, Select(fs, ctx.inFn, v, cases, loc, w, fuel))
    decreases fuel, cases, 0
  {
    hide Program, Described, Keys, Fixed, Constant, ExprsOk, Find, AnyEqual, Exec;
    match cases {
      case NoCase =>
      case Default(body) => StmtKeeps(x, fs, ctxs, body, ctx, inLoop, true, loc, w, fuel);
      case Case(values, body, rest) =>
        var mid, last := AfterBlock(body, ctx), AfterCases(cases, ctx).globals;
        TestsKeep(x, fs, ctxs, v, values, ctx, loc, w, fuel);
        var r := AnyEqual(fs, v, values, loc, w, fuel);
        if r.Matched? {
          GuardedBefore(x, ctx, mid.globals, last, Rebinds(body, x));
          StmtKeeps(x, fs, ctxs, body, ctx, inLoop, true, loc, r.w, fuel);
          GuardedBehind(x, ctx, mid, last, CaseRebinds(rest, x));
          CasesKeep(x, fs, ctxs, v, rest, mid, inLoop, loc, r.w, fuel);
        }
    }
  }

  lemma {:induction false} TestsKeep(x: Name, fs: seq<FuncDecl>, ctxs: seq<Ctx>, v: Immediate, values: Exprs,
                                     ctx: Ctx, loc: Locals, w: World, fuel: nat)
    requires Program(x, fs, ctxs) && Described(fs, ctx.funcs) && ExprsOk(values, ctx)
    ensures var r := AnyEqual(fs, v, values, loc, w, fuel); r.Matched? || r.BadMatch? ==> Kept(x, w, r.w)
    decreases fuel, values, 1
  {
    hide Program, Described, Eval, ExprOk;
    if values.Exprs? {
      EvalKeeps(x, fs, ctxs, values.first, ctx, loc, w, fuel);
      var r := Eval(fs, values.first, loc, w, fuel);
      if r.Val? {
        TestsKeep(x, fs, ctxs, v, values.rest, ctx, loc, r.w, fuel);
      }
    }
  }

  // ----- whole programs -----

  /** The functions of `items` are the next ones of `fs` behind those of the session. */
  predicate Next(fs: seq<FuncDecl>, items: seq<Item>, z: Session) {
    Described(fs, z.funcs) && |z.funcs| + |Functions(items)| <= |fs|
    && fs[|z.funcs|..|z.funcs| + |Functions(items)|] == Functions(items)
  }

  lemma {:induction false} NextItem(fs: seq<FuncDecl>, items: seq<Item>, z: Session)
    requires items != [] && Next(fs, items, z)
    ensures Next(fs, items[1..], AddItem(z, items[0]))
    ensures items[0].Func? ==> Described(fs, FuncCtx(items[0].f, z).funcs) && fs[|z.funcs|] == items[0].f == Functions(items)[0]
  {
    var n, gs := |z.funcs|, Functions(items);
    if items[0].Func? {
      assert gs == [items[0].f] + Functions(items[1..]);
      assert fs[n] == fs[n..n + |gs|][0];
      assert fs[n + 1..n + |gs|] == fs[n..n + |gs|][1..] == Functions(items[1..]);
    } else {
      assert gs == Functions(items[1..]);
    }
  }

  lemma {:induction false} GlobalsGrow(items: seq<Item>, z: Session)
    ensures z.globals <= SessionAfter(items, z).globals
    decreases |items|
  {
    hide After;
    if items != [] {
      GlobalsGrow(items[1..], AddItem(z, items[0]));
    }
  }

  lemma {:induction false} FunctionsGuarded(x: Name, fs: seq<FuncDecl>, items: seq<Item>, z: Session)
    requires ItemsOk(items, z) && Next(fs, items, z) && Fixed(SessionAfter(items, z).globals, x)
    ensures |FuncCtxs(items, z)| == |Functions(items)|
    ensures forall i :: 0 <= i < |Functions(items)| ==>
              Described(fs, FuncCtxs(items, z)[i].funcs) && BodyGuarded(x, Functions(items)[i], FuncCtxs(items, z)[i])
    decreases |items|
  {
    hide After, FuncOk, StmtOk, Described, Next, Fixed, Constant, Rebinds;
    if items != [] {
      var z1 := AddItem(z, items[0]);
      NextItem(fs, items, z);
      FunctionsGuarded(x, fs, items[1..], z1);
      if items[0].Func? {
        GlobalsGrow(items[1..], z1);
        FixedPrefix(z1.globals, SessionAfter(items, z).globals, x);
      }
    }
  }

  lemma {:induction false} NoLocals(l: Locals)
    requires Keys([], l)
    ensures l == map[]
  {
    assert l.Keys == {};
  }

  lemma {:induction false} TopsKeep(x: Name, fs: seq<FuncDecl>, ctxs: seq<Ctx>, items: seq<Item>, z: Session,
                                    w: World, fuel: nat)
    requires Program(x, fs, ctxs) && ItemsOk(items, z) && Next(fs, items, z)
    requires Constant(z.globals, x) && Fixed(SessionAfter(items, z).globals, x) && !Rebinds(Body(items), x)
    ensures KeptBy(x, w, Exec(fs, false, Body(items), map[], w, fuel))
    decreases |items|
  {
    hide Program, After, FuncOk, StmtOk, Next, Fixed, Constant, Keys;
    if items != [] {
      var z1, rest := AddItem(z, items[0]), items[1..];
      NextItem(fs, items, z);
      GlobalsGrow(rest, z1);
      ConstantPrefix(z.globals, z1.globals, x);
      if items[0].Func? {
        TopsKeep(x, fs, ctxs, rest, z1, w, fuel);
      } else {
        TopKeeps(x, fs, ctxs, items[0].s, z, SessionAfter(items, z).globals, w, fuel);
        var o := Exec(fs, false, items[0].s, map[], w, fuel);
        if o.Normal? {
          TopsKeep(x, fs, ctxs, rest, z1, o.w, fuel);
        }
      }
    }
  }

  lemma {:induction false} TopKeeps(x: Name, fs: seq<FuncDecl>, ctxs: seq<Ctx>, s: Stmt, z: Session, last: seq<Sym>,
                                    w: World, fuel: nat)
    requires Program(x, fs, ctxs) && Described(fs, z.funcs) && StmtOk(s, TopCtx(z), false, false)
    requires Constant(z.globals, x) && After(s, TopCtx(z)).globals <= last && Fixed(last, x) && !Rebinds(s, x)
    ensures var o := Exec(fs, false, s, map[], w, fuel);
            KeptBy(x, w, o) && (o.Normal? ==> o.loc == map[])
  {
    hide Program, After, StmtOk, Described, Exec, Rebinds;
    var ctx := TopCtx(z);
    FixedPrefix(After(s, ctx).globals, last, x);
    assert Framed(ctx, map[]);
    StmtKeeps(x, fs, ctxs, s, ctx, false, false, map[], w, fuel);
    StmtStays(fs, s, ctx, false, false, map[], w, fuel);
    var o := Exec(fs, false, s, map[], w, fuel);
    if o.Normal? {
      assert After(s, ctx).locals == [];
      NoLocals(o.loc);
    }
  }

  lemma {:induction false} Behind(front: seq<Item>, rest: seq<Item>, z: Session, fs: seq<FuncDecl>)
    requires ItemsOk(front + rest, z) && Next(fs, front + rest, z)
    ensures ItemsOk(rest, SessionAfter(front, z)) && Next(fs, rest, SessionAfter(front, z))
    ensures SessionAfter(front + rest, z) == SessionAfter(rest, SessionAfter(front, z))
    decreases |front|
  {
    hide ItemOk, Next;
    if front == [] {
      assert front + rest == rest;
    } else {
      assert (front + rest)[1..] == front[1..] + rest;
      NextItem(fs, front + rest, z);
      Behind(front[1..], rest, AddItem(z, front[0]), fs);
    }
  }

  /** A constant that a program declares at top level has the same value after any of the rest of the program, unless
    * an `if let` at top level takes its name over. */
  lemma {:induction false} LetStays(front: seq<Item>, rest: seq<Item>, x: Name, w: World, fuel: nat)
    requires ItemsOk(front + rest, FRESH) && Constant(SessionAfter(front, FRESH).globals, x) && !Rebinds(Body(rest), x)
    ensures KeptBy(x, w, Exec(Functions(front + rest), false, Body(rest), map[], w, fuel))
  {
    hide ItemsOk, Rebinds, BodyGuarded, Constant, Described;
    var items := front + rest;
    var fs, ctxs, z := Functions(items), FuncCtxs(items, FRESH), SessionAfter(front, FRESH);
    assert Next(fs, items, FRESH) by { NoneDescribed(fs); }
    Behind(front, rest, FRESH, fs);
    GlobalsGrow(rest, z);
    ConstantPrefix(z.globals, SessionAfter(items, FRESH).globals, x);
    ConstantFixed(SessionAfter(items, FRESH).globals, x);
    FunctionsGuarded(x, fs, items, FRESH);
    TopsKeep(x, fs, ctxs, rest, z, w, fuel);
  }

  lemma {:induction false} NoneDescribed(fs: seq<FuncDecl>)
    ensures Described(fs, [])
  {
  }

  lemma {:induction false} ConstantFixed(ts: seq<Sym>, x: Name)
    requires Constant(ts, x)
    ensures Fixed(ts, x)
  {
  }

  /** A constant in a function has the same value after any statement in its scope. */
  lemma {:induction false} LocalLetStays(fs: seq<FuncDecl>, s: Stmt, ctx: Ctx, inLoop: bool, inSwitch: bool, x: Name,
      loc: Locals, w: World, fuel: nat)
    requires ctx.inFn && StmtOk(s, ctx, inLoop, inSwitch) && Keys(ctx.locals, loc) && Constant(ctx.locals, x)
    ensures var o := Exec(fs, true, s, loc, w, fuel);
            x in loc && (o.Normal? || o.Broke? ==> x in o.loc && o.loc[x] == loc[x])
  {
    hide StmtOk, Exec, Keys;
    assert Framed(ctx, loc);
    StmtStays(fs, s, ctx, inLoop, inSwitch, loc, w, fuel);
    Same(ctx.locals, loc);
  }

  // let x = 5; if let x = 7 { }
  const FIVE := Declare(true, "x", IntLit(5))
  const SEVEN := IfLet("x", IntLit(7), Skip, None)
  const TAKEN_OVER: seq<Item> := [Top(FIVE), Top(SEVEN)]

  const W5 := World(map["x" := Int(5)], [])
  const W7 := World(map["x" := Int(7)], [])

  /** An accepted program in which a constant changes. */
  lemma {:induction false} LetTakenOver(fuel: nat)
    ensures ItemsOk(TAKEN_OVER, FRESH) && Constant(SessionAfter(TAKEN_OVER[..1], FRESH).globals, "x")
    ensures Programs.Meaning(TAKEN_OVER[..1], fuel) == Normal(map[], W5)
    ensures Programs.Meaning(TAKEN_OVER, fuel) == Normal(map[], W7)
  {
    hide ItemsOk, Exec, Body, Functions, Constant, SessionAfter;
    assert TAKEN_OVER[..1] == [Top(FIVE)];
    TakenOverOk();
    TakenOverRuns(fuel);
    OneTop(FIVE);
    TwoTops(FIVE, SEVEN);
  }

  lemma {:induction false} OneTop(s: Stmt)
    ensures Body([Top(s)]) == Seq(s, Skip) && Functions([Top(s)]) == []
  {
    assert [Top(s)][1..] == [];
  }

  lemma {:induction false} TwoTops(s: Stmt, t: Stmt)
    ensures Body([Top(s), Top(t)]) == Seq(s, Seq(t, Skip)) && Functions([Top(s), Top(t)]) == []
  {
    assert [Top(s), Top(t)][1..] == [Top(t)];
    OneTop(t);
  }

  lemma {:induction false} TakenOverRuns(fuel: nat)
    ensures Exec([], false, Seq(FIVE, Skip), map[], Programs.NOTHING, fuel) == Normal(map[], W5)
    ensures Exec([], false, Seq(FIVE, Seq(SEVEN, Skip)), map[], Programs.NOTHING, fuel) == Normal(map[], W7)
  {
    assert Eval([], IntLit(5), map[], Programs.NOTHING, fuel) == Val(Int(5), Programs.NOTHING);
    assert Exec([], false, FIVE, map[], Programs.NOTHING, fuel) == Normal(map[], W5);
    assert Eval([], IntLit(7), map[], W5, fuel) == Val(Int(7), W5);
    assert SetGlobal(W5, "x", Int(7)) == W7;
    assert Exec([], false, Skip, map[], W7, fuel) == Normal(map[], W7);
    assert Narrow(map[], map[]) == map[];
    assert Exec([], false, SEVEN, map[], W5, fuel) == Normal(map[], W7);
    assert Exec([], false, Seq(SEVEN, Skip), map[], W5, fuel) == Normal(map[], W7);
  }

  lemma {:induction false} TakenOverOk()
    ensures ItemsOk(TAKEN_OVER, FRESH) && Constant(SessionAfter([Top(FIVE)], FRESH).globals, "x")
  {
    var z := AddItem(FRESH, Top(FIVE));
    assert z.globals == [Sym("x", true)] && Find(z.globals, "x") == Some(0);
    assert TAKEN_OVER[1..] == [Top(SEVEN)] && [Top(SEVEN)][1..] == [] && [Top(FIVE)][1..] == [];
    assert ItemOk(Top(FIVE), FRESH);
    assert BindIfLet("x", TopCtx(z)) == TopCtx(z);
    assert ItemOk(Top(SEVEN), z);
    assert ItemsOk([Top(SEVEN)], z);
  }
}
