/** The statement boundaries that the evaluator passes, with the tables, the place in the code and the frame
  * that belong to each: before and after every statement, through arms, clauses, turns of loops, case values
  * and the bodies of called functions, whether or not any of them ever ends. */
module Visits {
  import opened Bytes
  import opened Values
  import opened Syntax
  import opened CodeGen
  import opened Sessions
  import opened S = Semantics
  import M = Machine

  /** The code that runs when the program starts, or the code of one function. */
  datatype Unit = MainCode | FunctionCode(i: nat)

  /** A place in the code of a unit, `depth` calls deep, inside `for` loops over ranges that end at `bounds`,
    * the outermost first. */
  datatype Spot = Spot(unit: Unit, off: nat, depth: nat, bounds: seq<Immediate>)

  /** What the evaluator knows at a statement boundary. */
  datatype Boundary = Boundary(at: Spot, ctx: Ctx, loc: Locals, w: World)

  /** Where the code of a unit starts in an image whose main code starts at `entry`. */
  function Base(img: M.Image, entry: nat, u: Unit): nat {
    match u
    case MainCode => entry
    case FunctionCode(i) => if i < |img.funcs| then img.funcs[i].start else 0
  }

  function Ahead(at: Spot, n: nat): Spot {
    at.(off := at.off + n)
  }

  /** Bytes of a statement; how a break is patched does not matter. */
  function Size(s: Stmt, ctx: Ctx): nat {
    |StmtCode(s, ctx, None)|
  }

  /** Unnamed slots among the first `n` of `ts`. */
  function Unnamed(ts: seq<Sym>, n: nat): (r: nat)
    requires n <= |ts|
    ensures r <= n
  {
    if n == 0 then 0 else Unnamed(ts, n - 1) + (if ts[n - 1].name == "" then 1 else 0)
  }

  /** The frame between two statements: each local in the slot its table position says, and in each unnamed
    * slot the bound of the `for` loop that reserved it. At top level there are only the bounds. */
  function FrameOf(ctx: Ctx, loc: Locals, bounds: seq<Immediate>): (r: seq<Value>)
    ensures |r| == if ctx.inFn then |ctx.locals| else |bounds|
  {
    if !ctx.inFn then seq(|bounds|, i requires 0 <= i < |bounds| => Imm(bounds[i]))
    else
      seq(|ctx.locals|, i requires 0 <= i < |ctx.locals| =>
        var y := ctx.locals[i].name;
        var j := Unnamed(ctx.locals, i);
        if y == "" then Imm(if j < |bounds| then bounds[j] else Nil)
        else Imm(if y in loc then loc[y] else Nil))
  }

  // ----- expressions -----

  /** Evaluating `e` in a frame `depth` calls deep passes `p`, in a function it calls. */
  ghost predicate ExprVisits(fs: seq<FuncDecl>, tabs: seq<Ctx>, e: Expr, depth: nat, loc: Locals, w: World, fuel: nat, p: Boundary)
    decreases fuel, e, 0
  {
    match e
    case Neg(e) => ExprVisits(fs, tabs, e, depth, loc, w, fuel, p)
    case Not(e) => ExprVisits(fs, tabs, e, depth, loc, w, fuel, p)
    case Unwrap(e) => ExprVisits(fs, tabs, e, depth, loc, w, fuel, p)
    case Bin(_, l, r) =>
      || ExprVisits(fs, tabs, l, depth, loc, w, fuel, p)
      || (match Eval(fs, l, loc, w, fuel)
          case Val(_, w1) => ExprVisits(fs, tabs, r, depth, loc, w1, fuel, p)
          case _ => false)
    case And(l, r) =>
      || ExprVisits(fs, tabs, l, depth, loc, w, fuel, p)
      || (match Eval(fs, l, loc, w, fuel)
          case Val(a, w1) => a == Bool(true) && ExprVisits(fs, tabs, r, depth, loc, w1, fuel, p)
          case _ => false)
    case Or(l, r) =>
      || ExprVisits(fs, tabs, l, depth, loc, w, fuel, p)
      || (match Eval(fs, l, loc, w, fuel)
          case Val(a, w1) => a == Bool(false) && ExprVisits(fs, tabs, r, depth, loc, w1, fuel, p)
          case _ => false)
    case Coalesce(l, r) =>
      || ExprVisits(fs, tabs, l, depth, loc, w, fuel, p)
      || (match Eval(fs, l, loc, w, fuel)
          case Val(a, w1) => Missing(a) && ExprVisits(fs, tabs, r, depth, loc, w1, fuel, p)
          case _ => false)
    case Call(f, args) =>
      || ListVisits(fs, tabs, args, depth, loc, w, fuel, p)
      || (match EvalList(fs, args, loc, w, fuel)
          case Vals(vs, w1) => fuel > 0 && CallVisits(fs, tabs, f, vs, depth, w1, fuel - 1, p)
          case _ => false)
    case _ => false
  }

  ghost predicate ListVisits(fs: seq<FuncDecl>, tabs: seq<Ctx>, es: Exprs, depth: nat, loc: Locals, w: World, fuel: nat, p: Boundary)
    decreases fuel, es, 0
  {
    match es
    case NoExprs => false
    case Exprs(e, rest) =>
      || ExprVisits(fs, tabs, e, depth, loc, w, fuel, p)
      || (match Eval(fs, e, loc, w, fuel)
          case Val(_, w1) => ListVisits(fs, tabs, rest, depth, loc, w1, fuel, p)
          case _ => false)
  }

  /** A call made `depth` calls deep: the body runs one deeper, from its first byte, in a frame of its own. */
  ghost predicate CallVisits(fs: seq<FuncDecl>, tabs: seq<Ctx>, f: Name, vs: seq<Immediate>, depth: nat, w: World, fuel: nat, p: Boundary)
    decreases fuel
  {
    match Lookup(fs, f)
    case None => false
    case Some(i) =>
      i < |tabs|
      && StmtVisits(fs, tabs, fs[i].body, tabs[i], Spot(FunctionCode(i), 0, depth + 1, []), Bind(fs[i].params, vs), w, fuel, p)
  }

  // ----- statements -----

  /** Executing `s`, whose code is at `at`, passes `p`: before it, after it when it ends normally, or inside. */
  ghost predicate StmtVisits(fs: seq<FuncDecl>, tabs: seq<Ctx>, s: Stmt, ctx: Ctx, at: Spot, loc: Locals, w: World, fuel: nat, p: Boundary)
    decreases fuel, s, 2
  {
    || p == Boundary(at, ctx, loc, w)
    || (match Exec(fs, ctx.inFn, s, loc, w, fuel)
        case Normal(loc1, w1) => p == Boundary(Ahead(at, Size(s, ctx)), After(s, ctx), loc1, w1)
        case _ => false)
    || PartVisits(fs, tabs, s, ctx, at, loc, w, fuel, p)
  }

  ghost predicate PartVisits(fs: seq<FuncDecl>, tabs: seq<Ctx>, s: Stmt, ctx: Ctx, at: Spot, loc: Locals, w: World, fuel: nat, p: Boundary)
    decreases fuel, s, 1
  {
    match s
    case Seq(_, _) => SeqVisits(fs, tabs, s, ctx, at, loc, w, fuel, p)
    case If(_, _, _) => IfVisits(fs, tabs, s, ctx, at, loc, w, fuel, p)
    case IfLet(_, _, _, _) => IfLetVisits(fs, tabs, s, ctx, at, loc, w, fuel, p)
    case While(_, _) => WhileVisits(fs, tabs, s, ctx, at, loc, w, fuel, p)
    case ForIn(_, _, _, _, _) => ForVisits(fs, tabs, s, ctx, at, loc, w, fuel, p)
    case Switch(e, cases) =>
      || ExprVisits(fs, tabs, e, at.depth, loc, w, fuel, p)
      || (match Eval(fs, e, loc, w, fuel)
          case Val(v, w1) => CasesVisit(fs, tabs, v, cases, ctx, Ahead(at, |ExprCode(e, ctx)|), loc, w1, fuel, p)
          case _ => false)
    case Declare(_, _, e) => ExprVisits(fs, tabs, e, at.depth, loc, w, fuel, p)
    case Assign(_, e) => ExprVisits(fs, tabs, e, at.depth, loc, w, fuel, p)
    case Compound(_, x, e) => Read(x, loc, w).Val? && ExprVisits(fs, tabs, e, at.depth, loc, w, fuel, p)
    case Do(e) => ExprVisits(fs, tabs, e, at.depth, loc, w, fuel, p)
    case Print(args) => ListVisits(fs, tabs, args, at.depth, loc, w, fuel, p)
    case Return(result) => result.Some? && ExprVisits(fs, tabs, result.value, at.depth, loc, w, fuel, p)
    case _ => false
  }

  ghost predicate SeqVisits(fs: seq<FuncDecl>, tabs: seq<Ctx>, s: Stmt, ctx: Ctx, at: Spot, loc: Locals, w: World, fuel: nat, p: Boundary)
    requires s.Seq?
    decreases fuel, s, 0
  {
    || StmtVisits(fs, tabs, s.s1, ctx, at, loc, w, fuel, p)
    || (match Exec(fs, ctx.inFn, s.s1, loc, w, fuel)
        case Normal(loc1, w1) =>
          StmtVisits(fs, tabs, s.s2, After(s.s1, ctx), Ahead(at, Size(s.s1, ctx)), loc1, w1, fuel, p)
        case _ => false)
  }

  /** Bytes from the start of a conditional to its second arm. */
  function SecondArm(test: nat, first: nat): nat {
    test + 3 + first + 3
  }

  ghost predicate IfVisits(fs: seq<FuncDecl>, tabs: seq<Ctx>, s: Stmt, ctx: Ctx, at: Spot, loc: Locals, w: World, fuel: nat, p: Boundary)
    requires s.If?
    decreases fuel, s, 0
  {
    var n := |ExprCode(s.c, ctx)|;
    || ExprVisits(fs, tabs, s.c, at.depth, loc, w, fuel, p)
    || (match Eval(fs, s.c, loc, w, fuel)
        case Val(v, w1) =>
          if v == Bool(true) then StmtVisits(fs, tabs, s.thn, ctx, Ahead(at, n + 3), loc, w1, fuel, p)
          else
            v == Bool(false) && s.els.Some?
            && StmtVisits(fs, tabs, s.els.value, AfterBlock(s.thn, ctx),
                          Ahead(at, SecondArm(n, |BlockCode(s.thn, ctx, |ctx.locals|, None)|)), loc, w1, fuel, p)
        case _ => false)
  }

  ghost predicate IfLetVisits(fs: seq<FuncDecl>, tabs: seq<Ctx>, s: Stmt, ctx: Ctx, at: Spot, loc: Locals, w: World, fuel: nat, p: Boundary)
    requires s.IfLet?
    decreases fuel, s, 0
  {
    var n, store, inner := |ExprCode(s.e, ctx)|, |BindingCode(s.x, ctx)|, BindIfLet(s.x, ctx);
    || ExprVisits(fs, tabs, s.e, at.depth, loc, w, fuel, p)
    || (match Eval(fs, s.e, loc, w, fuel)
        case Val(v, w1) =>
          if !Missing(v) then
            var d := Declared(ctx.inFn, s.x, v, loc, w1);
            StmtVisits(fs, tabs, s.thn, inner, Ahead(at, n + 3 + store), d.loc, d.w, fuel, p)
          else
            s.els.Some?
            && StmtVisits(fs, tabs, s.els.value, AfterBlock(s.thn, inner).(locals := ctx.locals),
                          Ahead(at, SecondArm(n, store + |BlockCode(s.thn, inner, |ctx.locals|, None)|)), loc, w1, fuel, p)
        case _ => false)
  }

  /** The condition, the body, and the next turn, which starts at the same place. */
  ghost predicate WhileVisits(fs: seq<FuncDecl>, tabs: seq<Ctx>, s: Stmt, ctx: Ctx, at: Spot, loc: Locals, w: World, fuel: nat, p: Boundary)
    requires s.While?
    decreases fuel, s, 0
  {
    fuel > 0 &&
    (|| ExprVisits(fs, tabs, s.c, at.depth, loc, w, fuel, p)
     || (match Eval(fs, s.c, loc, w, fuel)
         case Val(v, w1) =>
           v == Bool(true) &&
           (|| StmtVisits(fs, tabs, s.body, ctx, Ahead(at, |ExprCode(s.c, ctx)| + 3), loc, w1, fuel - 1, p)
            || (match Exec(fs, ctx.inFn, s.body, loc, w1, fuel - 1)
                case Normal(inner, w2) => StmtVisits(fs, tabs, s, ctx, at, Narrow(inner, loc), w2, fuel - 1, p)
                case _ => false))
         case _ => false))
  }

  ghost predicate ForVisits(fs: seq<FuncDecl>, tabs: seq<Ctx>, s: Stmt, ctx: Ctx, at: Spot, loc: Locals, w: World, fuel: nat, p: Boundary)
    requires s.ForIn?
    decreases fuel, s, 0
  {
    var outer := BindLoopVar(s.x, ctx);
    var head := |ExprCode(s.lo, outer)| + |ExprCode(s.hi, outer)| + 3;
    || ExprVisits(fs, tabs, s.lo, at.depth, loc, w, fuel, p)
    || (match Eval(fs, s.lo, loc, w, fuel)
        case Val(a, w1) =>
          || ExprVisits(fs, tabs, s.hi, at.depth, loc, w1, fuel, p)
          || (match Eval(fs, s.hi, loc, w1, fuel)
              case Val(b, w2) =>
                TurnsVisit(fs, tabs, s.x, b, s.closed, s.body, ReserveBound(outer),
                           Ahead(at, head).(bounds := at.bounds + [b]), loc, SetGlobal(w2, s.x, a), fuel, p)
              case _ => false)
        case _ => false)
  }

  /** The turns of a `for` loop whose head is at `at` and whose bound is `b`. */
  ghost predicate TurnsVisit(fs: seq<FuncDecl>, tabs: seq<Ctx>, x: Name, b: Immediate, closed: bool, body: Stmt, ctx: Ctx,
                             at: Spot, loc: Locals, w: World, fuel: nat, p: Boundary)
    decreases fuel, body, 3
  {
    fuel > 0 && x in w.globals && w.globals[x].Int? && b.Int?
    && (if closed then w.globals[x].n <= b.n else w.globals[x].n < b.n) &&
    (|| StmtVisits(fs, tabs, body, ctx, Ahead(at, 7), loc, w, fuel - 1, p)
     || (match Exec(fs, ctx.inFn, body, loc, w, fuel - 1)
         case Normal(inner, w1) =>
           x in w1.globals && w1.globals[x].Int?
           && TurnsVisit(fs, tabs, x, b, closed, body, ctx, at, Narrow(inner, loc),
                         SetGlobal(w1, x, Int(Wrap16(w1.globals[x].n + 1))), fuel - 1, p)
         case _ => false))
  }

  /** The clauses at `at`, tested in order; the body of a clause starts once the subject is gone. */
  ghost predicate CasesVisit(fs: seq<FuncDecl>, tabs: seq<Ctx>, v: Immediate, cases: Cases, ctx: Ctx, at: Spot, loc: Locals, w: World,
                             fuel: nat, p: Boundary)
    decreases fuel, cases, 0
  {
    match cases
    case NoCase => false
    case Default(body) => StmtVisits(fs, tabs, body, ctx, Ahead(at, 1), loc, w, fuel, p)
    case Case(values, body, rest) =>
      var tests, n := |TestsCode(values, ctx, 0)|, |ClauseCode(body, ctx, 0, None)|;
      || TestsVisit(fs, tabs, v, values, at.depth, loc, w, fuel, p)
      || (match AnyEqual(fs, v, values, loc, w, fuel)
          case Matched(hit, w1) =>
            if hit then StmtVisits(fs, tabs, body, ctx, Ahead(at, tests + 1), loc, w1, fuel, p)
            else CasesVisit(fs, tabs, v, rest, AfterBlock(body, ctx), Ahead(at, tests + n), loc, w1, fuel, p)
          case _ => false)
  }

  /** The values of a clause up to the first equal one. */
  ghost predicate TestsVisit(fs: seq<FuncDecl>, tabs: seq<Ctx>, v: Immediate, values: Exprs, depth: nat, loc: Locals, w: World,
                             fuel: nat, p: Boundary)
    decreases fuel, values, 1
  {
    match values
    case NoExprs => false
    case Exprs(e, rest) =>
      || ExprVisits(fs, tabs, e, depth, loc, w, fuel, p)
      || (match Eval(fs, e, loc, w, fuel)
          case Val(u, w1) => !SameValue(Imm(v), Imm(u)) && TestsVisit(fs, tabs, v, rest, depth, loc, w1, fuel, p)
          case _ => false)
  }

  // ----- programs -----

  /** The top-level statements of `items`, whose code starts `off` bytes into the main code. */
  ghost predicate ItemsVisit(fs: seq<FuncDecl>, tabs: seq<Ctx>, items: seq<Item>, z: Session, off: nat, w: World, fuel: nat, p: Boundary)
    decreases |items|
  {
    items != [] &&
    match items[0]
    case Func(_) => ItemsVisit(fs, tabs, items[1..], AddItem(z, items[0]), off, w, fuel, p)
    case Top(s) =>
      var at, ctx := Spot(MainCode, off, 0, []), TopCtx(z);
      || StmtVisits(fs, tabs, s, ctx, at, map[], w, fuel, p)
      || (match Exec(fs, false, s, map[], w, fuel)
          case Normal(_, w1) => ItemsVisit(fs, tabs, items[1..], AddItem(z, items[0]), off + Size(s, ctx), w1, fuel, p)
          case _ => false)
  }

  /** With `fuel` to spend on loops and calls the program passes the boundary `p`, whether it ends or not. */
  ghost predicate Visited(items: seq<Item>, fuel: nat, p: Boundary) {
    ItemsVisit(Functions(items), FuncCtxs(items, FRESH), items, FRESH, 0, World(map[], []), fuel, p)
  }
}
