/** Whole programs: running a compiled program does what the program means. */
module Programs {
  import opened Bytes
  import opened Values
  import opened Syntax
  import opened CodeGen
  import opened Sessions
  import opened Runs
  import opened ExprSimulation
  import opened StmtSimulation
  import opened S = Semantics
  import Failures
  import M = Machine

  /** The conditions of `Careful`; and the end of a body whose last byte looks like a return is never reached. */
  predicate ItemCareful(item: Item, z: Session) {
    match item
    case Func(f) =>
      var ctx := FuncCtx(f, z);
      Careful(f.body, ctx, None) && (LastByteReturns(StmtCode(f.body, ctx, None)) ==> Leaves(f.body))
    case Top(s) => Careful(s, TopCtx(z), None)
  }

  predicate ItemsCareful(items: seq<Item>, z: Session)
    decreases |items|
  {
    items == [] || (ItemCareful(items[0], z) && ItemsCareful(items[1..], AddItem(z, items[0])))
  }

  ghost function LinkedOf(items: seq<Item>): Linked {
    Linked(Functions(items), FuncCtxs(items, FRESH), SessionAfter(items, FRESH).globals, ImageOf(items))
  }

  /** A program the compiler accepts without reporting a limit, and that meets its silent conditions. */
  predicate Compiled(items: seq<Item>) {
    && ItemsOk(items, FRESH) && ItemsCareful(items, FRESH)
    && |ImageOf(items).code| <= 0xFFFF
  }

  // ----- sessions grow -----

  ghost predicate Consistent(z: Session) {
    && |z.funcs| == |z.starts| <= MAX_FUNCS
    && |z.globals| <= MAX_GLOBALS && Distinct(z.globals)
    && forall i, j :: 0 <= i < j < |z.funcs| ==> z.funcs[i].name != z.funcs[j].name
  }

  lemma {:induction false} DistinctAdd(ts: seq<Sym>, y: Sym)
    requires Distinct(ts) && y.name != "" && Find(ts, y.name).None?
    ensures Distinct(ts + [y])
  {
  }

  /** A statement adds only new global names, and no more than the table holds. */
  lemma {:induction false} GlobalsStayDistinct(s: Stmt, ctx: Ctx, inLoop: bool, inSwitch: bool)
    requires StmtOk(s, ctx, inLoop, inSwitch) && Distinct(ctx.globals) && |ctx.globals| <= MAX_GLOBALS
    ensures Distinct(After(s, ctx).globals) && |After(s, ctx).globals| <= MAX_GLOBALS
    decreases s
  {
    hide ExprOk;
    match s {
      case Seq(s1, s2) =>
        GlobalsStayDistinct(s1, ctx, inLoop, inSwitch);
        GlobalsStayDistinct(s2, After(s1, ctx), inLoop, inSwitch);
      case Declare(isLet, x, _) =>
        if !ctx.inFn {
          DistinctAdd(ctx.globals, Sym(x, isLet));
        }
      case If(_, thn, els) =>
        GlobalsStayDistinct(thn, ctx, inLoop, inSwitch);
        if els.Some? {
          assert ElseOk(els, AfterBlock(thn, ctx), inLoop, inSwitch);
          assert After(s, ctx) == AfterBlock(els.value, AfterBlock(thn, ctx));
          GlobalsStayDistinct(els.value, AfterBlock(thn, ctx), inLoop, inSwitch);
        }
      case IfLet(x, _, thn, els) =>
        var inner := BindIfLet(x, ctx);
        BindingStaysDistinct(x, ctx);
        GlobalsStayDistinct(thn, inner, inLoop, inSwitch);
        if els.Some? {
          assert ElseOk(els, AfterBlock(thn, inner).(locals := ctx.locals), inLoop, inSwitch);
          assert After(s, ctx) == AfterBlock(els.value, AfterBlock(thn, inner).(locals := ctx.locals));
          GlobalsStayDistinct(els.value, AfterBlock(thn, inner).(locals := ctx.locals), inLoop, inSwitch);
        }
      case While(_, body) => GlobalsStayDistinct(body, ctx, true, inSwitch);
      case ForIn(x, _, _, _, body) =>
        LoopVarStaysDistinct(x, ctx);
        GlobalsStayDistinct(body, ReserveBound(BindLoopVar(x, ctx)), true, inSwitch);
      case Switch(_, cases) => CasesStayDistinct(cases, ctx, inLoop);
      case _ =>
    }
  }

  lemma {:induction false} BindingStaysDistinct(x: Name, ctx: Ctx)
    requires CanBindIfLet(x, ctx) && Distinct(ctx.globals) && |ctx.globals| <= MAX_GLOBALS
    ensures Distinct(BindIfLet(x, ctx).globals) && |BindIfLet(x, ctx).globals| <= MAX_GLOBALS
  {
    if !ctx.inFn && Find(ctx.globals, x).None? {
      DistinctAdd(ctx.globals, Sym(x, true));
    }
  }

  lemma {:induction false} LoopVarStaysDistinct(x: Name, ctx: Ctx)
    requires CanLoopOver(x, ctx) && Distinct(ctx.globals) && |ctx.globals| <= MAX_GLOBALS
    ensures Distinct(BindLoopVar(x, ctx).globals) && |BindLoopVar(x, ctx).globals| <= MAX_GLOBALS
  {
    if Find(ctx.globals, x).None? {
      DistinctAdd(ctx.globals, Sym(x, false));
    }
  }

  lemma {:induction false} CasesStayDistinct(cases: Cases, ctx: Ctx, inLoop: bool)
    requires CasesOk(cases, ctx, inLoop) && Distinct(ctx.globals) && |ctx.globals| <= MAX_GLOBALS
    ensures Distinct(AfterCases(cases, ctx).globals) && |AfterCases(cases, ctx).globals| <= MAX_GLOBALS
    decreases cases
  {
    match cases {
      case NoCase =>
      case Default(body) => GlobalsStayDistinct(body, ctx, inLoop, true);
      case Case(_, body, rest) =>
        GlobalsStayDistinct(body, ctx, inLoop, true);
        CasesStayDistinct(rest, AfterBlock(body, ctx), inLoop);
    }
  }

  lemma {:induction false} ItemStep(item: Item, z: Session)
    requires ItemOk(item, z) && Consistent(z)
    ensures Consistent(AddItem(z, item))
    ensures z.globals <= AddItem(z, item).globals && z.funcs <= AddItem(z, item).funcs
    ensures z.starts <= AddItem(z, item).starts && z.arena <= AddItem(z, item).arena
  {
    hide StmtCode, StmtOk, After;
    match item {
      case Func(f) => GlobalsStayDistinct(f.body, FuncCtx(f, z), false, false);
      case Top(s) => GlobalsStayDistinct(s, TopCtx(z), false, false);
    }
  }

  /** Bodies stay where they are: every part of a session is a prefix of the later one. */
  lemma {:induction false} SessionGrows(items: seq<Item>, z: Session)
    requires ItemsOk(items, z) && Consistent(z)
    ensures var r := SessionAfter(items, z);
            Consistent(r) && z.globals <= r.globals && z.funcs <= r.funcs && z.starts <= r.starts && z.arena <= r.arena
    decreases |items|
  {
    if items != [] {
      ItemStep(items[0], z);
      SessionGrows(items[1..], AddItem(z, items[0]));
    }
  }

  /** Where function `i` of `items` ends up. */
  ghost predicate FuncInPlace(f: FuncDecl, ctx: Ctx, i: nat, r: Session) {
    && i < |r.starts| && i < |r.funcs|
    && r.funcs[i] == SigOf(f)
    && CodeAt(r.arena, r.starts[i], FuncCode(f, ctx))
    && FuncOk(f, ctx)
    && ctx.inFn && ctx.hasReturn == f.hasReturn && ctx.locals == ParamSyms(f.params)
    && After(f.body, ctx).globals <= r.globals && ctx.funcs <= r.funcs
  }

  lemma {:induction false} FunctionsInPlace(items: seq<Item>, z: Session, i: nat)
    requires ItemsOk(items, z) && Consistent(z)
    ensures |Functions(items)| == |FuncCtxs(items, z)|
    ensures |SessionAfter(items, z).starts| == |z.starts| + |Functions(items)|
    ensures i < |Functions(items)| ==>
              FuncInPlace(Functions(items)[i], FuncCtxs(items, z)[i], |z.starts| + i, SessionAfter(items, z))
    decreases |items|
  {
    hide AddItem, ItemOk, FuncInPlace, Consistent, FuncCtx;
    if items != [] {
      var z1, rest := AddItem(z, items[0]), items[1..];
      ItemStep(items[0], z);
      StartsGrow(items[0], z);
      match items[0] {
        case Top(_) => FunctionsInPlace(rest, z1, i);
        case Func(f) =>
          FunctionsInPlace(rest, z1, if i > 0 then i - 1 else 0);
          if i == 0 {
            FirstInPlace(f, rest, z);
          }
      }
    }
  }

  lemma {:induction false} StartsGrow(item: Item, z: Session)
    ensures |AddItem(z, item).starts| == |z.starts| + (if item.Func? then 1 else 0)
  {
  }

  lemma {:induction false} FirstInPlace(f: FuncDecl, rest: seq<Item>, z: Session)
    requires ItemOk(Func(f), z) && Consistent(z) && ItemsOk(rest, AddItem(z, Func(f)))
    ensures FuncInPlace(f, FuncCtx(f, z), |z.starts|, SessionAfter(rest, AddItem(z, Func(f))))
  {
    hide StmtCode, StmtOk, After, Careful, FuncCode;
    var z1 := AddItem(z, Func(f));
    ItemStep(Func(f), z);
    SessionGrows(rest, z1);
    var r := SessionAfter(rest, z1);
    var c := FuncCode(f, FuncCtx(f, z));
    assert r.arena[|z.arena|..|z.arena| + |c|] == z1.arena[|z.arena|..] == c;
    assert r.funcs[|z.starts|] == z1.funcs[|z.starts|];
    assert r.starts[|z.starts|] == z1.starts[|z.starts|];
  }

  /** The silent conditions hold of each function. */
  lemma {:induction false} FunctionCareful(items: seq<Item>, z: Session, i: nat)
    requires ItemsCareful(items, z)
    ensures |Functions(items)| == |FuncCtxs(items, z)|
    ensures i < |Functions(items)| ==>
              var f, ctx := Functions(items)[i], FuncCtxs(items, z)[i];
              Careful(f.body, ctx, None) && (LastByteReturns(StmtCode(f.body, ctx, None)) ==> Leaves(f.body))
    decreases |items|
  {
    hide AddItem, FuncCtx, Careful, LastByteReturns, StmtCode, Leaves;
    if items != [] {
      match items[0] {
        case Top(_) => FunctionCareful(items[1..], AddItem(z, items[0]), i);
        case Func(_) => FunctionCareful(items[1..], AddItem(z, items[0]), if i > 0 then i - 1 else 0);
      }
    }
  }

  // ----- the linked program -----

  /** Function `i` is in place, compiled with the tables the program gives it. */
  ghost predicate FuncSituated(k: Linked, i: nat) {
    && i < |k.fs| == |k.ctxs| == |k.img.funcs|
    && FuncOk(k.fs[i], k.ctxs[i]) && Static(k, k.fs[i].body, k.ctxs[i], None, false)
    && k.ctxs[i].inFn && k.ctxs[i].locals == ParamSyms(k.fs[i].params)
    && CodeAt(k.img.code, k.img.funcs[i].start, FuncCode(k.fs[i], k.ctxs[i]))
  }

  /** The last byte of the body of function `i` does not mislead the compiler. */
  ghost predicate TestedRightly(k: Linked, i: nat)
    requires i < |k.fs| == |k.ctxs|
  {
    LastByteReturns(StmtCode(k.fs[i].body, k.ctxs[i], None)) ==> Leaves(k.fs[i].body)
  }

  ghost predicate FuncReady(k: Linked, i: nat) {
    FuncSituated(k, i) && TestedRightly(k, i)
  }

  lemma {:induction false} ProgramReady(items: seq<Item>)
    requires Compiled(items)
    ensures var k := LinkedOf(items);
            var z := SessionAfter(items, FRESH);
            && Placed(k) && (forall i :: 0 <= i < |k.fs| ==> FuncReady(k, i))
            && Consistent(z) && |z.funcs| == |k.fs|
            && (forall i :: 0 <= i < |k.fs| ==> z.funcs[i] == SigOf(k.fs[i]))
  {
    hide SessionAfter, ItemsOk, ItemsCareful, FuncInPlace, TopCode;
    var k, z := LinkedOf(items), SessionAfter(items, FRESH);
    SessionGrows(items, FRESH);
    FunctionsInPlace(items, FRESH, 0);
    forall i | 0 <= i < |k.fs|
      ensures k.img.funcs[i].start < |k.img.code| && k.img.funcs[i].params == |k.fs[i].params| && z.funcs[i] == SigOf(k.fs[i])
    {
      FunctionsInPlace(items, FRESH, i);
      EntryPlaced(k.img, z, TopCode(items, FRESH), k.fs[i], k.ctxs[i], i);
    }
    forall i | 0 <= i < |k.fs|
      ensures FuncReady(k, i)
    {
      FunctionsInPlace(items, FRESH, i);
      FunctionCareful(items, FRESH, i);
      EntryPlaced(k.img, z, TopCode(items, FRESH), k.fs[i], k.ctxs[i], i);
      EntryReady(k, z, i);
    }
  }

  lemma {:induction false} EntryPlaced(img: M.Image, z: Session, top: seq<Byte>, f: FuncDecl, ctx: Ctx, i: nat)
    requires img == M.Image(z.arena + top + HALT, Entries(z)) && |img.code| <= 0xFFFF
    requires FuncInPlace(f, ctx, i, z)
    ensures img.funcs[i].start == z.starts[i] && img.funcs[i].start < |img.code|
    ensures img.funcs[i].params == |f.params| && z.funcs[i] == SigOf(f)
    ensures CodeAt(img.code, img.funcs[i].start, FuncCode(f, ctx))
  {
    hide StmtOk, Careful, Leaves, StmtCode, LastByteReturns, After, FuncCode;
    var c := FuncCode(f, ctx);
    NonEmpty(f, ctx);
    var p := z.starts[i];
    assert img.code[p..p + |c|] == z.arena[p..p + |c|];
  }

  lemma {:induction false} NonEmpty(f: FuncDecl, ctx: Ctx)
    ensures |FuncCode(f, ctx)| > 0
  {
    hide StmtCode;
  }

  lemma {:induction false} EntryReady(k: Linked, z: Session, i: nat)
    requires Placed(k) && k.table == z.globals && |k.fs| == |z.funcs| && i < |k.fs| && FuncInPlace(k.fs[i], k.ctxs[i], i, z)
    requires forall j :: 0 <= j < |k.fs| ==> z.funcs[j] == SigOf(k.fs[j])
    requires CodeAt(k.img.code, k.img.funcs[i].start, FuncCode(k.fs[i], k.ctxs[i]))
    requires Careful(k.fs[i].body, k.ctxs[i], None) && TestedRightly(k, i)
    ensures FuncReady(k, i)
  {
    hide StmtOk, Careful, Leaves, StmtCode, LastByteReturns, CodeAt, After, FuncCode, Distinct;
    var ctx := k.ctxs[i];
    PrefixTrans(ctx.globals, After(k.fs[i].body, ctx).globals, z.globals);
    forall j | 0 <= j < |ctx.funcs|
      ensures ctx.funcs[j] == SigOf(k.fs[j])
    {
      assert ctx.funcs[j] == z.funcs[j];
    }
  }

  // ----- calls -----

  lemma {:induction false} BindAt(params: seq<Name>, vs: seq<Immediate>, i: nat)
    requires |vs| == |params| && i < |params|
    requires forall a, b :: 0 <= a < b < |params| ==> params[a] != params[b]
    ensures params[i] in Bind(params, vs) && Bind(params, vs)[params[i]] == vs[i]
    decreases |params|
  {
    if i > 0 {
      BindAt(params[1..], vs[1..], i - 1);
    } else if params[0] in Bind(params[1..], vs[1..]) {
      BindOnly(params[1..], vs[1..], params[0]);
    }
  }

  lemma {:induction false} BindOnly(params: seq<Name>, vs: seq<Immediate>, x: Name)
    requires |vs| == |params| && x in Bind(params, vs)
    ensures x in params
    decreases |params|
  {
    if x != params[0] {
      BindOnly(params[1..], vs[1..], x);
    }
  }

  /** The arguments on the stack are the values of the parameters. */
  lemma {:induction false} ParamsAgree(params: seq<Name>, vs: seq<Immediate>, stack: seq<Value>, fp: nat)
    requires |vs| == |params| && fp <= |stack| && stack[fp..] == Imms(vs)
    requires forall i :: 0 <= i < |params| ==> NameOk(params[i])
    requires forall a, b :: 0 <= a < b < |params| ==> params[a] != params[b]
    ensures Keys(ParamSyms(params), Bind(params, vs)) && Tidy(ParamSyms(params))
    ensures forall x :: x in Bind(params, vs) ==>
              stack[fp + Find(ParamSyms(params), x).value] == Imm(Bind(params, vs)[x])
  {
    var ts, loc := ParamSyms(params), Bind(params, vs);
    assert forall j :: 0 <= j < |ts| ==> ts[j].name == params[j] && params[j] != "";
    forall x
      ensures x in loc <==> Find(ts, x).Some?
      ensures x in loc ==> stack[fp + Find(ts, x).value] == Imm(loc[x])
    {
      if x in loc {
        BindOnly(params, vs, x);
        var j :| 0 <= j < |params| && params[j] == x;
        assert ts[j].name == x;
      }
      if Find(ts, x).Some? {
        var j := Find(ts, x).value;
        BindAt(params, vs, j);
        assert stack[fp + j] == stack[fp..][j] == Imm(vs[j]);
      }
    }
  }

  /** A function starts at a boundary: its parameters are its first locals. */
  lemma {:induction false} EnteredSettled(k: Linked, i: nat, vs: seq<Immediate>, w: World, e: M.State)
    requires FuncSituated(k, i) && Entered(k, i, vs, w, e)
    ensures Settled(k, k.ctxs[i], Bind(k.fs[i].params, vs), w, e, e.fp)
  {
    hide Static, StmtCode, Leaves, CodeAt, Slots, StmtOk, LastByteReturns, FuncCode, Tidy, Bind, Find, AllImmediate;
    ParamsAgree(k.fs[i].params, vs, e.stack, e.fp);
  }

  /** Every call of a compiled function does what the evaluator says of it, whatever its fuel. */
  lemma {:induction false} SimCalls(k: Linked, fuel: nat)
    requires Placed(k) && forall i :: 0 <= i < |k.fs| ==> FuncReady(k, i)
    requires forall i :: 0 <= i < |k.fs| ==> Lookup(k.fs, k.fs[i].name) == Some(i)
    ensures CallsSimulated(k, fuel)
    decreases fuel
  {
    hide Placed, FuncReady, Entered, CallYields;
    forall i: nat, vs, w, e, f: nat | f < fuel && Entered(k, i, vs, w, e)
      ensures CallYields(k, i, vs, w, e, f)
    {
      SimCalls(k, f);
      EnteredIndex(k, i, vs, w, e);
      SimBody(k, i, vs, w, e, f);
    }
  }

  lemma {:induction false} EnteredIndex(k: Linked, i: nat, vs: seq<Immediate>, w: World, e: M.State)
    requires Entered(k, i, vs, w, e)
    ensures i < |k.fs| && |e.frames| > 0 && e.fp <= |e.stack|
  {
  }

  lemma {:induction false} SimBody(k: Linked, i: nat, vs: seq<Immediate>, w: World, e: M.State, f: nat)
    requires FuncReady(k, i) && Entered(k, i, vs, w, e) && CallsSimulated(k, f)
    requires Lookup(k.fs, k.fs[i].name) == Some(i)
    ensures CallYields(k, i, vs, w, e, f)
  {
    hide M.Run, M.Step, Reaches, Halts, RunsFor, CallsSimulated, CodeAt, Slots, Refresh, Keys, Settled, Static, StmtCode,
         After, Exec, Leaves, FuncOk;
    var fd, ctx := k.fs[i], k.ctxs[i];
    var loc := Bind(fd.params, vs);
    var code := StmtCode(fd.body, ctx, None);
    EnteredSettled(k, i, vs, w, e);
    var tail: seq<Byte> := if LastByteReturns(code) then [] else [0x62];
    assert FuncCode(fd, ctx) == code + tail;
    CodeSplit(k.img.code, e.pc, code, tail);
    SimStmt(k, fd.body, ctx, None, false, None, loc, w, f, e, e.fp);
    var o := Exec(k.fs, true, fd.body, loc, w, f);
    match o {
      case Normal(loc1, w1) =>
        if LastByteReturns(code) {
          NeverNormal(k.fs, true, fd.body, loc, w, f);
        } else {
          RefreshImmediate(e.stack, e.fp, After(fd.body, ctx).locals, loc1);
          FallOff(k, i, vs, w, e, e.pc + |code|, Refresh(e.stack, e.fp, After(fd.body, ctx).locals, loc1), w1);
        }
      case _ =>
    }
  }

  /** When control reaches the end of a body, the function returns nil exactly if the raw test of the last
    * byte has failed; otherwise the machine runs on, in the same frame, into whatever code follows. */
  lemma {:induction false} EndOfBody(k: Linked, i: nat, vs: seq<Immediate>, w: World, e: M.State, f: nat)
    requires FuncSituated(k, i) && Entered(k, i, vs, w, e) && CallsSimulated(k, f)
    requires Exec(k.fs, true, k.fs[i].body, Bind(k.fs[i].params, vs), w, f).Normal?
    ensures var fd, ctx := k.fs[i], k.ctxs[i];
            var o := Exec(k.fs, true, fd.body, Bind(fd.params, vs), w, f);
            if !LastByteReturns(StmtCode(fd.body, ctx, None)) then Reaches(k.img, e, LeftWith(k, e, Nil, o.w))
            else Reaches(k.img, e, Became(k, e, e.pc + |FuncCode(fd, ctx)|,
                                          Refresh(e.stack, e.fp, After(fd.body, ctx).locals, o.loc), o.w))
  {
    hide M.Run, M.Step, Reaches, Halts, RunsFor, CallsSimulated, CodeAt, Slots, Refresh, Keys, Settled, Static, StmtCode,
         After, Exec, Leaves, FuncOk, Became, LeftWith;
    var fd, ctx := k.fs[i], k.ctxs[i];
    var loc := Bind(fd.params, vs);
    var code := StmtCode(fd.body, ctx, None);
    EnteredSettled(k, i, vs, w, e);
    var tail: seq<Byte> := if LastByteReturns(code) then [] else [0x62];
    assert FuncCode(fd, ctx) == code + tail;
    CodeSplit(k.img.code, e.pc, code, tail);
    SimStmt(k, fd.body, ctx, None, false, None, loc, w, f, e, e.fp);
    var o := Exec(k.fs, true, fd.body, loc, w, f);
    var stack := Refresh(e.stack, e.fp, After(fd.body, ctx).locals, o.loc);
    RefreshImmediate(e.stack, e.fp, After(fd.body, ctx).locals, o.loc);
    if !LastByteReturns(code) {
      FallOff(k, i, vs, w, e, e.pc + |code|, stack, o.w);
    }
  }

  /** Falling off the end of a body runs the void return behind it. */
  lemma {:induction false} FallOff(k: Linked, i: nat, vs: seq<Immediate>, w: World, e: M.State, end: nat, stack: seq<Value>, w1: World)
    requires Entered(k, i, vs, w, e) && CodeAt(k.img.code, end, [0x62])
    requires |stack| >= e.fp && stack[..e.fp] == e.stack[..e.fp] && AllImmediate(stack)
    requires Reaches(k.img, e, Became(k, e, end, stack, w1))
    ensures Reaches(k.img, e, LeftWith(k, e, Nil, w1))
  {
    hide M.Run, M.Step, Reaches, CodeAt, Slots;
    var t := Became(k, e, end, stack, w1);
    StepReturnVoid(k.img, t);
    ReachThen(k.img, e, t, LeftWith(k, e, Nil, w1));
  }

  // ----- top-level code -----

  /** What is left of a program: `items` is still to run, in the session `z`. */
  ghost predicate TopPoised(k: Linked, items: seq<Item>, z: Session, w: World, fuel: nat, st: M.State) {
    && Placed(k) && CallsSimulated(k, fuel)
    && ItemsOk(items, z) && ItemsCareful(items, z) && Consistent(z)
    && SessionAfter(items, z).globals == k.table
    && |SessionAfter(items, z).funcs| == |k.fs|
    && (forall i :: 0 <= i < |k.fs| ==> SessionAfter(items, z).funcs[i] == SigOf(k.fs[i]))
    && CodeAt(k.img.code, st.pc, TopCode(items, z))
    && Settled(k, TopCtx(z), map[], w, st, 0)
  }

  lemma {:induction false} TopStatic(k: Linked, items: seq<Item>, z: Session, w: World, fuel: nat, st: M.State)
    requires TopPoised(k, items, z, w, fuel, st) && items != [] && items[0].Top?
    ensures Static(k, items[0].s, TopCtx(z), None, false)
  {
    hide CodeAt, Agrees, CallsSimulated, TopCode, StmtOk, Careful, After, Distinct;
    var s := items[0].s;
    ItemStep(items[0], z);
    SessionGrows(items[1..], AddItem(z, items[0]));
    PrefixTrans(z.globals, After(s, TopCtx(z)).globals, k.table);
    var r := SessionAfter(items, z);
    forall i | 0 <= i < |z.funcs|
      ensures z.funcs[i] == SigOf(k.fs[i])
    {
      assert z.funcs[i] == r.funcs[i];
    }
  }

  /** At top level there are no locals, and nothing on the stack between statements. */
  lemma {:induction false} TopBoundary(k: Linked, z: Session, z': Session, w: World, st: M.State, loc: Locals, end: nat, w': World)
    requires Settled(k, TopCtx(z), map[], w, st, 0) && Keys([], loc)
    ensures loc == map[] && Refresh(st.stack, 0, [], loc) == []
    ensures Settled(k, TopCtx(z'), map[], w', Became(k, st, end, [], w'), 0)
  {
    hide Slots;
  }

  lemma {:induction false} SimTops(k: Linked, items: seq<Item>, z: Session, w: World, fuel: nat, st: M.State)
    requires TopPoised(k, items, z, w, fuel, st)
    ensures Ends(k, st, 0, [], st.pc + |TopCode(items, z)|, None, [],
                 Exec(k.fs, false, Body(items), map[], w, fuel), fuel)
    decreases |items|
  {
    hide M.Run, M.Step, Reaches, Halts, RunsFor, CallsSimulated, CodeAt, Slots, Refresh, Keys, Placed, Agrees, Static,
         StmtCode, After, Tidy, Ends, Settled, AddItem, Consistent, ItemOk, ItemCareful, Exec;
    if items == [] {
      assert st.pc >= 0 && |TopCode(items, z)| == 0;
      TopDone(k, z, w, st, fuel);
    } else {
      var z1, rest := AddItem(z, items[0]), items[1..];
      ItemStep(items[0], z);
      match items[0] {
        case Func(_) =>
          assert TopCode(items, z) == TopCode(rest, z1);
          TopSettled(k, z, z1, w, st);
          SimTops(k, rest, z1, w, fuel, st);
        case Top(s) =>
          var ctx, code, more := TopCtx(z), StmtCode(s, TopCtx(z), None), TopCode(rest, z1);
          CodeSplit(k.img.code, st.pc, code, more);
          TopStatic(k, items, z, w, fuel, st);
          SimStmt(k, s, ctx, None, false, None, map[], w, fuel, st, 0);
          SimTopRest(k, s, rest, z, z1, w, fuel, st, code, more);
      }
    }
  }

  lemma {:induction false} TopDone(k: Linked, z: Session, w: World, st: M.State, fuel: nat)
    requires Settled(k, TopCtx(z), map[], w, st, 0)
    ensures Ends(k, st, 0, [], st.pc, None, [], Exec(k.fs, false, Skip, map[], w, fuel), fuel)
  {
    hide M.Run, Reaches, Slots;
    ReachSelf(k.img, st);
    TopBoundary(k, z, z, w, st, map[], st.pc, w);
    assert st.stack == [];
    assert Became(k, st, st.pc, [], w) == st;
  }

  lemma {:induction false} TopSettled(k: Linked, z: Session, z1: Session, w: World, st: M.State)
    requires Settled(k, TopCtx(z), map[], w, st, 0)
    ensures Settled(k, TopCtx(z1), map[], w, st, 0)
  {
    hide Slots;
  }

  /** The statements after `s`, once `s` has run. */
  lemma {:induction false} SimTopRest(k: Linked, s: Stmt, rest: seq<Item>, z: Session, z1: Session, w: World, fuel: nat,
                                      st: M.State, code: seq<Byte>, more: seq<Byte>)
    requires Settled(k, TopCtx(z), map[], w, st, 0) && z1 == AddItem(z, Top(s)) && code == StmtCode(s, TopCtx(z), None)
    requires Done(k, s, TopCtx(z), None, None, st, 0, Exec(k.fs, false, s, map[], w, fuel), fuel)
    requires more == TopCode(rest, z1) && CodeAt(k.img.code, st.pc + |code|, more)
    requires Placed(k) && CallsSimulated(k, fuel) && ItemsOk(rest, z1) && ItemsCareful(rest, z1) && Consistent(z1)
    requires SessionAfter(rest, z1).globals == k.table && |SessionAfter(rest, z1).funcs| == |k.fs|
    requires forall i :: 0 <= i < |k.fs| ==> SessionAfter(rest, z1).funcs[i] == SigOf(k.fs[i])
    ensures Ends(k, st, 0, [], st.pc + |code| + |more|, None, [],
                 Exec(k.fs, false, Seq(s, Body(rest)), map[], w, fuel), fuel)
    decreases |rest| + 1, 0
  {
    hide M.Run, M.Step, Reaches, Halts, RunsFor, CallsSimulated, CodeAt, Slots, Refresh, Keys, Placed, Agrees, Static,
         StmtCode, Tidy, Ends, Settled, AddItem, Consistent, ItemsOk, ItemsCareful, SessionAfter, TopCode;
    var o := Exec(k.fs, false, s, map[], w, fuel);
    assert After(s, TopCtx(z)).locals == [];
    if o.Normal? {
      var t := Became(k, st, st.pc + |code|, [], o.w);
      NormalEnd(k, st, st.pc + |code|, o, fuel);
      TopBoundary(k, z, z1, w, st, o.loc, t.pc, o.w);
      SimTops(k, rest, z1, o.w, fuel, t);
      TopLift(k, st, t, st.pc + |code| + |more|, Exec(k.fs, false, Body(rest), map[], o.w, fuel), fuel, o.w);
    } else {
      EndsAnywhere(k, st, 0, [], st.pc + |code|, None, [], o, fuel, [], st.pc + |code| + |more|);
    }
  }

  lemma {:induction false} NormalEnd(k: Linked, st: M.State, end: nat, o: Outcome, fuel: nat)
    requires Ends(k, st, 0, [], end, None, [], o, fuel) && o.Normal?
    ensures Keys([], o.loc) && Reaches(k.img, st, Became(k, st, end, [], o.w))
  {
    hide Reaches, Slots;
    assert Refresh(st.stack, 0, [], o.loc) == [];
  }

  lemma {:induction false} TopLift(k: Linked, st: M.State, t: M.State, end: nat, o: Outcome, fuel: nat, w: World)
    requires Reaches(k.img, st, t) && t == Became(k, st, t.pc, [], w)
    requires Ends(k, t, 0, [], end, None, [], o, fuel)
    ensures Ends(k, st, 0, [], end, None, [], o, fuel)
  {
    hide Reaches, Slots, Ends;
    LiftEnds(k, st, t, 0, [], end, None, [], o, fuel, t.pc, w);
  }

  // ----- whole programs -----

  const NOTHING := World(map[], [])

  function NoGlobals(): (r: seq<Option<Value>>)
    ensures |r| == MAX_GLOBALS
  {
    seq(MAX_GLOBALS, _ => None)
  }

  /** The state in which the machine starts the program `items`. */
  function StartOf(items: seq<Item>, heap: Heap): M.State {
    M.Start(EntryOf(items), NoGlobals(), heap)
  }

  /** What `items` means, with `fuel` to spend on loops and calls. */
  function Meaning(items: seq<Item>, fuel: nat): Outcome {
    Exec(Functions(items), false, Body(items), map[], NOTHING, fuel)
  }

  /** The globals array for the globals of `w`. */
  ghost function GlobalsOf(items: seq<Item>, w: World): seq<Option<Value>> {
    Slots(LinkedOf(items), w)
  }

  lemma {:induction false} NamesUnique(items: seq<Item>, k: Linked, i: nat)
    requires Compiled(items) && k == LinkedOf(items) && i < |k.fs|
    ensures Lookup(k.fs, k.fs[i].name) == Some(i)
  {
    hide SessionAfter, FuncReady, Placed, ItemsOk, ItemsCareful, TopCode, Functions, FuncCtxs;
    ProgramReady(items);
    var z := SessionAfter(items, FRESH);
    forall j | 0 <= j < i
      ensures k.fs[j].name != k.fs[i].name
    {
      assert z.funcs[j] == SigOf(k.fs[j]) && z.funcs[i] == SigOf(k.fs[i]);
    }
    LookupFirst(k.fs, k.fs[i].name, i);
  }

  lemma {:induction false} StartPoised(items: seq<Item>, k: Linked, heap: Heap, fuel: nat)
    requires Compiled(items) && k == LinkedOf(items)
    ensures TopPoised(k, items, FRESH, NOTHING, fuel, StartOf(items, heap))
    ensures CodeAt(k.img.code, EntryOf(items) + |TopCode(items, FRESH)|, HALT)
  {
    hide SessionAfter, FuncReady, Placed, ItemsOk, ItemsCareful, TopCode, Functions, FuncCtxs, CallsSimulated;
    ProgramReady(items);
    forall i | 0 <= i < |k.fs|
      ensures Lookup(k.fs, k.fs[i].name) == Some(i)
    {
      NamesUnique(items, k, i);
    }
    SimCalls(k, fuel);
    var st := StartOf(items, heap);
    var arena, top := SessionAfter(items, FRESH).arena, TopCode(items, FRESH);
    assert k.img.code[|arena|..|arena| + |top|] == top;
    assert k.img.code[|arena| + |top|..|arena| + |top| + 1] == HALT;
    assert NoGlobals() == Slots(k, NOTHING);
  }

  /** Running a compiled program does what the program means: it stops with the same globals, output and
    * error, or it is still running as long as the evaluator is; unless stack or call frames fill up. */
  lemma {:induction false} CompilationPreservesMeaning(items: seq<Item>, heap: Heap, fuel: nat)
    requires Compiled(items)
    ensures var img, st := ImageOf(items), StartOf(items, heap);
            match Meaning(items, fuel)
            case Normal(_, w) => Halts(img, st, M.Ok, GlobalsOf(items, w), w.out)
            case Failed(err, w) => Halts(img, st, err, GlobalsOf(items, w), w.out)
            case OutOfFuel => RunsFor(img, st, fuel)
            case Broke(_, _) => false
            case Returned(_, _) => false
  {
    hide M.Run, M.Step, Reaches, Halts, RunsFor, CodeAt, Slots, Exec, TopPoised, ImageOf, Body, Functions, Compiled;
    var k, st := LinkedOf(items), StartOf(items, heap);
    StartPoised(items, k, heap, fuel);
    SimTops(k, items, FRESH, NOTHING, fuel, st);
    var end := EntryOf(items) + |TopCode(items, FRESH)|;
    var o := Meaning(items, fuel);
    match o {
      case Normal(_, w) =>
        NormalEnd(k, st, end, o, fuel);
        StepHalt(k.img, Became(k, st, end, [], w));
        ReachThenHalt(k.img, st, Became(k, st, end, [], w), M.Ok, Slots(k, w), w.out);
      case _ =>
    }
  }

  lemma {:induction false} StepHalt(img: M.Image, s: M.State)
    requires CodeAt(img.code, s.pc, HALT)
    ensures Halts(img, s, M.Ok, s.globals, s.out)
  {
    StepAt(img, s, HALT);
    StepHalts(img, s, M.Ok);
  }

  /** The program ends with `err` (or Ok), these globals and this output. */
  ghost predicate Means(items: seq<Item>, err: M.Err, globals: seq<Option<Value>>, out: seq<seq<Byte>>, fuel: nat) {
    match Meaning(items, fuel)
    case Normal(_, w) => err == M.Ok && globals == GlobalsOf(items, w) && out == w.out
    case Failed(e, w) => err == e && globals == GlobalsOf(items, w) && out == w.out
    case _ => false
  }

  /** In both directions: when the stack and the call frames suffice, the machine stops in a certain way
    * exactly when the program means to. In particular it runs forever exactly when the program does. */
  lemma {:induction false} MachineStopsAsMeant(items: seq<Item>, heap: Heap, err: M.Err, globals: seq<Option<Value>>, out: seq<seq<Byte>>)
    requires Compiled(items) && !Overflows(ImageOf(items), StartOf(items, heap))
    ensures (exists n: nat :: StopsAs(M.Run(ImageOf(items), StartOf(items, heap), n), err, globals, out))
       <==> (exists fuel: nat :: Means(items, err, globals, out, fuel))
  {
    hide M.Run, ImageOf, StartOf, Meaning, Slots, Overflows, Compiled;
    var img, st := ImageOf(items), StartOf(items, heap);
    if fuel: nat :| Means(items, err, globals, out, fuel) {
      CompilationPreservesMeaning(items, heap, fuel);
    }
    if n: nat :| StopsAs(M.Run(img, st, n), err, globals, out) {
      CompilationPreservesMeaning(items, heap, n);
      var (e, g, o) := EndOf(items, n);
      var m: nat :| StopsAs(M.Run(img, st, m), e, g, o);
      if n <= m { M.RunStays(img, st, n, m); } else { M.RunStays(img, st, m, n); }
      assert Means(items, err, globals, out, n);
    }
  }

  ghost function EndOf(items: seq<Item>, fuel: nat): (r: (M.Err, seq<Option<Value>>, seq<seq<Byte>>))
    ensures Meaning(items, fuel).Normal? || Meaning(items, fuel).Failed? ==> Means(items, r.0, r.1, r.2, fuel)
  {
    match Meaning(items, fuel)
    case Normal(_, w) => (M.Ok, GlobalsOf(items, w), w.out)
    case Failed(e, w) => (e, GlobalsOf(items, w), w.out)
    case _ => (M.Ok, [], [])
  }

  /** A run of a compiled program that stops does so normally, with an error of the language, or because
    * the stack or the call frames are full: never on an empty stack, and never out of memory. */
  lemma {:induction false} HowProgramsStop(items: seq<Item>, heap: Heap, n: nat)
    requires Compiled(items) && M.Run(ImageOf(items), StartOf(items, heap), n).Stopped?
    ensures var e := M.Run(ImageOf(items), StartOf(items, heap), n).err;
            e == M.Ok || e == M.StackOver || Failures.ProgramError(e)
  {
    hide M.Run, ImageOf, StartOf, Slots, Compiled, Exec, Functions, Body;
    var img, st := ImageOf(items), StartOf(items, heap);
    if Overflows(img, st) {
      var m: nat :| M.Run(img, st, m).Stopped? && M.Run(img, st, m).err == M.StackOver;
      if n <= m { M.RunStays(img, st, n, m); } else { M.RunStays(img, st, m, n); }
    } else {
      CompilationPreservesMeaning(items, heap, n);
      Failures.ExecErrors(Functions(items), false, Body(items), map[], NOTHING, n);
      var (e, g, o) := EndOf(items, n);
      var m: nat :| StopsAs(M.Run(img, st, m), e, g, o);
      if n <= m { M.RunStays(img, st, n, m); } else { M.RunStays(img, st, m, n); }
    }
  }
}
