/** The bytecode of each construct, as a function of its tree and of the symbol tables in force.
  *
  * All jumps are relative, so the code of a construct does not depend on where it is placed. */
module CodeGen {
  import opened Bytes
  import opened Values
  import opened Syntax
  import M = Machine

  const MAX_LOCALS := 16
  const MAX_GLOBALS := 32
  const MAX_FUNCS := 16
  const IDENT_MAX := 12

  /** An entry of the locals or globals table; the slot number is its position. */
  datatype Sym = Sym(name: Name, isLet: bool)

  /** The slot a `for` loop reserves for its bound: it has no name and is never found. */
  const ANONYMOUS := Sym("", false)

  datatype FuncSig = FuncSig(name: Name, params: nat, hasReturn: bool)

  datatype Ctx = Ctx(locals: seq<Sym>, globals: seq<Sym>, funcs: seq<FuncSig>, inFn: bool, hasReturn: bool)

  predicate NameOk(x: Name) {
    1 <= |x| < IDENT_MAX
  }

  /** locals_find and globals_find: the first entry called `x`. */
  function Find(ts: seq<Sym>, x: Name): (r: Option<nat>)
    ensures r.Some? ==> r.value < |ts| && ts[r.value].name == x && x != ""
    ensures r.Some? ==> forall j :: 0 <= j < r.value ==> ts[j].name != x
    ensures r.None? && x != "" ==> forall j :: 0 <= j < |ts| ==> ts[j].name != x
    decreases |ts|
  {
    if x == "" || |ts| == 0 then None
    else if ts[0].name == x then Some(0)
    else match Find(ts[1..], x) case Some(i) => Some(i + 1) case None => None
  }

  function FindFunc(ts: seq<FuncSig>, f: Name): (r: Option<nat>)
    ensures r.Some? ==> r.value < |ts| && ts[r.value].name == f
    ensures r.Some? ==> forall j :: 0 <= j < r.value ==> ts[j].name != f
    ensures r.None? ==> forall j :: 0 <= j < |ts| ==> ts[j].name != f
    decreases |ts|
  {
    if |ts| == 0 then None
    else if ts[0].name == f then Some(0)
    else match FindFunc(ts[1..], f) case Some(i) => Some(i + 1) case None => None
  }

  /** Where a name lives: locals shadow globals. */
  datatype Place = Local(i: nat) | Global(i: nat) | Nowhere

  function Resolve(x: Name, ctx: Ctx): (p: Place)
    ensures p.Local? ==> ctx.inFn && Find(ctx.locals, x) == Some(p.i)
    ensures p.Global? ==> Find(ctx.globals, x) == Some(p.i) && (ctx.inFn ==> Find(ctx.locals, x).None?)
  {
    if ctx.inFn && Find(ctx.locals, x).Some? then Local(Find(ctx.locals, x).value)
    else if Find(ctx.globals, x).Some? then Global(Find(ctx.globals, x).value)
    else Nowhere
  }

  // ----- expressions -----

  function OpByte(op: BinOp): Byte {
    match op
    case Arith(Add) => 0x30
    case Arith(Sub) => 0x31
    case Arith(Mul) => 0x32
    case Arith(Div) => 0x33
    case Arith(Mod) => 0x34
    case Equal(same) => if same then 0x40 else 0x41
    case Compare(Lt) => 0x42
    case Compare(Le) => 0x43
    case Compare(Gt) => 0x44
    case Compare(Ge) => 0x45
  }

  /** emit_int_literal picks the shorter of two forms. */
  function IntCode(n: I16): seq<Byte> {
    if 0 <= n <= 255 then [0x03, n] else [0x04] + Le16(n)
  }

  function GetCode(x: Name, ctx: Ctx): seq<Byte> {
    match Resolve(x, ctx)
    case Local(i) => [0x23, i % 0x100]
    case Global(i) => [0x20, i % 0x100]
    case Nowhere => []
  }

  function SetCode(x: Name, ctx: Ctx): seq<Byte> {
    match Resolve(x, ctx)
    case Local(i) => [0x24, i % 0x100]
    case Global(i) => [0x21, i % 0x100]
    case Nowhere => []
  }

  /** A jump instruction over `distance` bytes. */
  function JumpCode(op: Byte, distance: int): (r: seq<Byte>)
    ensures |r| == 3
  {
    [op] + Le16(distance)
  }

  function CallCode(f: Name, argc: nat, ctx: Ctx): seq<Byte> {
    match FindFunc(ctx.funcs, f)
    case Some(i) => [0x60, i % 0x100, argc % 0x100]
    case None => []
  }

  function ExprCode(e: Expr, ctx: Ctx): seq<Byte> {
    match e
    case IntLit(n) => IntCode(n)
    case BoolLit(b) => [if b then 0x01 else 0x02]
    case NilLit => [0x00]
    case Var(x) => GetCode(x, ctx)
    case Neg(e) => ExprCode(e, ctx) + [0x35]
    case Not(e) => ExprCode(e, ctx) + [0x46]
    case Unwrap(e) => ExprCode(e, ctx) + [0x70]
    case Bin(op, l, r) => ExprCode(l, ctx) + ExprCode(r, ctx) + [OpByte(op)]
    case And(l, r) => ShortCircuit(ExprCode(l, ctx), 0x51, ExprCode(r, ctx))
    case Or(l, r) => ShortCircuit(ExprCode(l, ctx), 0x52, ExprCode(r, ctx))
    case Coalesce(l, r) => ExprCode(l, ctx) + JumpCode(0x72, |ExprCode(r, ctx)|) + ExprCode(r, ctx)
    case Call(f, args) => ExprsCode(args, ctx) + CallCode(f, Count(args), ctx)
  }

  /** `l`, then a test of a copy of it that jumps over `r` or drops `l` in favour of `r`. */
  function ShortCircuit(l: seq<Byte>, test: Byte, r: seq<Byte>): seq<Byte> {
    l + ([0x11] + JumpCode(test, |r| + 1) + [0x10]) + r
  }

  function ExprsCode(es: Exprs, ctx: Ctx): seq<Byte> {
    match es
    case NoExprs => []
    case Exprs(e, rest) => ExprCode(e, ctx) + ExprsCode(rest, ctx)
  }

  /** The compiler accepts `e`: names resolve, calls have the declared number of arguments. */
  predicate ExprOk(e: Expr, ctx: Ctx) {
    match e
    case IntLit(_) => true
    case BoolLit(_) => true
    case NilLit => true
    case Var(x) => NameOk(x) && !Resolve(x, ctx).Nowhere?
    case Neg(e) => ExprOk(e, ctx)
    case Not(e) => ExprOk(e, ctx)
    case Unwrap(e) => ExprOk(e, ctx)
    case Bin(_, l, r) => ExprOk(l, ctx) && ExprOk(r, ctx)
    case And(l, r) => ExprOk(l, ctx) && ExprOk(r, ctx)
    case Or(l, r) => ExprOk(l, ctx) && ExprOk(r, ctx)
    case Coalesce(l, r) => ExprOk(l, ctx) && ExprOk(r, ctx)
    case Call(f, args) =>
      && NameOk(f) && Resolve(f, ctx).Nowhere?
      && FindFunc(ctx.funcs, f).Some?
      && ctx.funcs[FindFunc(ctx.funcs, f).value].params == Count(args) <= 255
      && ExprsOk(args, ctx)
  }

  predicate ExprsOk(es: Exprs, ctx: Ctx) {
    match es
    case NoExprs => true
    case Exprs(e, rest) => ExprOk(e, ctx) && ExprsOk(rest, ctx)
  }

  // ----- symbol tables after a statement -----

  function AddLocal(ctx: Ctx, y: Sym): Ctx { ctx.(locals := ctx.locals + [y]) }
  function AddGlobal(ctx: Ctx, y: Sym): Ctx { ctx.(globals := ctx.globals + [y]) }

  /** Tables with the name an `if let` binds; at top level an existing global is reused. */
  function BindIfLet(x: Name, ctx: Ctx): (r: Ctx)
    ensures ctx.globals <= r.globals && ctx.locals <= r.locals && SameFrame(r, ctx)
  {
    if ctx.inFn then AddLocal(ctx, Sym(x, true))
    else if Find(ctx.globals, x).Some? then ctx
    else AddGlobal(ctx, Sym(x, true))
  }

  /** Tables with the global that a `for` loop counts in. */
  function BindLoopVar(x: Name, ctx: Ctx): (r: Ctx)
    ensures ctx.globals <= r.globals && r.locals == ctx.locals && SameFrame(r, ctx)
    ensures x != "" ==> Find(r.globals, x).Some?
  {
    if Find(ctx.globals, x).Some? then ctx
    else
      var r := AddGlobal(ctx, Sym(x, false));
      assert r.globals[|ctx.globals|].name == x;
      r
  }

  /** Inside a function the bound of a `for` loop takes the next local slot. */
  function ReserveBound(ctx: Ctx): Ctx {
    if ctx.inFn then AddLocal(ctx, ANONYMOUS) else ctx
  }

  predicate SameFrame(a: Ctx, b: Ctx) {
    a.funcs == b.funcs && a.inFn == b.inFn && a.hasReturn == b.hasReturn
  }

  function After(s: Stmt, ctx: Ctx): (r: Ctx)
    ensures ctx.globals <= r.globals && ctx.locals <= r.locals && SameFrame(r, ctx)
    ensures !ctx.inFn ==> r.locals == ctx.locals
    decreases s, 1
  {
    match s
    case Skip => ctx
    case Seq(s1, s2) => After(s2, After(s1, ctx))
    case Declare(isLet, x, _) => if ctx.inFn then AddLocal(ctx, Sym(x, isLet)) else AddGlobal(ctx, Sym(x, isLet))
    case If(_, thn, els) => AfterElse(els, AfterBlock(thn, ctx))
    case IfLet(x, _, thn, els) => AfterElse(els, AfterBlock(thn, BindIfLet(x, ctx)).(locals := ctx.locals))
    case While(_, body) => AfterBlock(body, ctx)
    case ForIn(x, _, _, _, body) => AfterBlock(body, ReserveBound(BindLoopVar(x, ctx))).(locals := ctx.locals)
    case Switch(_, cases) => AfterCases(cases, ctx)
    case _ => ctx
  }

  /** A block pops the locals declared in it; the globals declared in it stay. */
  function AfterBlock(s: Stmt, ctx: Ctx): (r: Ctx)
    ensures ctx.globals <= r.globals && r.locals == ctx.locals && SameFrame(r, ctx)
    decreases s, 2
  {
    After(s, ctx).(locals := ctx.locals)
  }

  function AfterElse(els: Option<Stmt>, ctx: Ctx): (r: Ctx)
    ensures ctx.globals <= r.globals && r.locals == ctx.locals && SameFrame(r, ctx)
    decreases els, 3
  {
    if els.Some? then AfterBlock(els.value, ctx) else ctx
  }

  function AfterCases(cases: Cases, ctx: Ctx): (r: Ctx)
    ensures ctx.globals <= r.globals && r.locals == ctx.locals && SameFrame(r, ctx)
    decreases cases, 0
  {
    match cases
    case NoCase => ctx
    case Default(body) => AfterBlock(body, ctx)
    case Case(_, body, rest) => AfterCases(rest, AfterBlock(body, ctx))
  }

  // ----- statements -----

  function Pops(n: nat): (r: seq<Byte>)
    ensures |r| == n
  {
    seq(n, _ => 0x10)
  }

  /** Distance to the end of the enclosing loop, seen `n` bytes further on. */
  function Shift(brk: Option<int>, n: int): Option<int> {
    match brk case Some(d) => Some(d - n) case None => None
  }

  /** A `break` whose target is `d` bytes after its first byte, or one not patched yet. */
  function BreakCode(brk: Option<int>): (r: seq<Byte>)
    ensures |r| == 3
  {
    match brk
    case Some(d) => JumpCode(0x50, d - 3)
    case None => [0x50, 0xFF, 0xFF]
  }

  /** The raw test made at the end of function and clause bodies: is the last byte a return? */
  predicate LastByteReturns(code: seq<Byte>) {
    |code| > 0 && (code[|code| - 1] == 0x61 || code[|code| - 1] == 0x62)
  }

  /** Locals that the end of a block has to pop, for a block entered with `base` locals. */
  function Excess(s: Stmt, ctx: Ctx, base: nat): (n: nat)
    requires base <= |ctx.locals|
  {
    |After(s, ctx).locals| - base
  }

  /** The global slot of `x` in the tables `ctx`. */
  function SlotOf(x: Name, ctx: Ctx): Byte {
    match Find(ctx.globals, x) case Some(i) => i % 0x100 case None => 0
  }

  /** The code of `s`. `brk` is the distance from its first byte to the target of its free breaks. */
  function StmtCode(s: Stmt, ctx: Ctx, brk: Option<int>): seq<Byte>
    decreases s, 1
  {
    match s
    case Skip => []
    case Seq(_, _) => SeqCode(s, ctx, brk)
    case If(_, _, _) => IfCode(s, ctx, brk)
    case IfLet(_, _, _, _) => IfLetCode(s, ctx, brk)
    case While(_, _) => WhileCode(s, ctx)
    case ForIn(_, _, _, _, _) => ForInCode(s, ctx)
    case Switch(_, _) => SwitchCode(s, ctx, brk)
    case Break => BreakCode(brk)
    case _ => SimpleCode(s, ctx)
  }

  /** Statements without a body. */
  function SimpleCode(s: Stmt, ctx: Ctx): seq<Byte> {
    match s
    case Declare(_, _, e) => ExprCode(e, ctx) + (if ctx.inFn then [] else [0x22, |ctx.globals| % 0x100])
    case Assign(x, e) => ExprCode(e, ctx) + SetCode(x, ctx)
    case Compound(op, x, e) => GetCode(x, ctx) + ExprCode(e, ctx) + ([OpByte(Arith(op))] + SetCode(x, ctx))
    case Do(e) => ExprCode(e, ctx) + [0x10]
    case Print(args) => ExprsCode(args, ctx) + [0x63, M.BUILTIN_PRINT, Count(args) % 0x100, 0x10]
    case Return(None) => [0x62]
    case Return(Some(e)) => ExprCode(e, ctx) + [0x61]
    case _ => []
  }

  function SeqCode(s: Stmt, ctx: Ctx, brk: Option<int>): seq<Byte>
    requires s.Seq?
    decreases s, 0
  {
    var Seq(s1, s2) := s;
    var c1 := StmtCode(s1, ctx, brk);
    c1 + StmtCode(s2, After(s1, ctx), Shift(brk, |c1|))
  }

  function IfCode(s: Stmt, ctx: Ctx, brk: Option<int>): seq<Byte>
    requires s.If?
    decreases s, 0
  {
    var If(c, thn, els) := s;
    var n := |ExprCode(c, ctx)|;
    ExprCode(c, ctx)
    + ArmsCode(0x51, BlockCode(thn, ctx, |ctx.locals|, Shift(brk, n + 3)), els, AfterBlock(thn, ctx), Shift(brk, n))
  }

  /** The store of an `if let` binding: none inside a function, where the value already sits in its slot. */
  function BindingCode(x: Name, ctx: Ctx): seq<Byte> {
    if ctx.inFn then [] else [0x22, SlotOf(x, BindIfLet(x, ctx))]
  }

  function IfLetCode(s: Stmt, ctx: Ctx, brk: Option<int>): seq<Byte>
    requires s.IfLet?
    decreases s, 0
  {
    var IfLet(x, e, thn, els) := s;
    var n := |ExprCode(e, ctx)|;
    var inner := BindIfLet(x, ctx);
    var store := BindingCode(x, ctx);
    ExprCode(e, ctx)
    + ArmsCode(0x73, store + BlockCode(thn, inner, |ctx.locals|, Shift(brk, n + 3 + |store|)), els,
               AfterBlock(thn, inner).(locals := ctx.locals), Shift(brk, n))
  }

  function WhileCode(s: Stmt, ctx: Ctx): seq<Byte>
    requires s.While?
    decreases s, 0
  {
    var While(c, body) := s;
    var cond := ExprCode(c, ctx);
    var n := |BlockCode(body, ctx, |ctx.locals|, None)|;
    cond + JumpCode(0x51, n + 3)
    + BlockCode(body, ctx, |ctx.locals|, Some(n + 3)) + JumpCode(0x53, |cond| + n + 6)
  }

  /** The test at the head of a `for` loop: compare the variable with the bound on the stack. */
  function ForTest(g: Byte, closed: bool, n: nat): (r: seq<Byte>)
    ensures |r| == 7
  {
    [0x20, g, 0x13, if closed then 0x43 else 0x42] + JumpCode(0x51, n + 8)
  }

  /** The increment and the jump back. */
  function ForNext(g: Byte, n: nat): (r: seq<Byte>)
    ensures |r| == 8
  {
    [0x20, g, 0x36, 0x21, g] + JumpCode(0x53, n + 15)
  }

  function ForInCode(s: Stmt, ctx: Ctx): seq<Byte>
    requires s.ForIn?
    decreases s, 0
  {
    var ForIn(x, lo, hi, closed, body) := s;
    var outer := BindLoopVar(x, ctx);
    var inner := ReserveBound(outer);
    var g := SlotOf(x, outer);
    var n := |BlockCode(body, inner, |inner.locals|, None)|;
    ExprCode(lo, outer) + ExprCode(hi, outer) + [0x12, 0x22, g]
    + ForTest(g, closed, n) + BlockCode(body, inner, |inner.locals|, Some(n + 8)) + ForNext(g, n) + [0x10]
  }

  function SwitchCode(s: Stmt, ctx: Ctx, brk: Option<int>): seq<Byte>
    requires s.Switch?
    decreases s, 0
  {
    var Switch(e, cases) := s;
    ExprCode(e, ctx) + CasesCode(cases, ctx, Shift(brk, |ExprCode(e, ctx)|))
  }

  /** A block's code followed by the pops that bring the locals back to `base`. */
  function BlockCode(s: Stmt, ctx: Ctx, base: nat, brk: Option<int>): seq<Byte>
    requires base <= |ctx.locals|
    decreases s, 2
  {
    StmtCode(s, ctx, brk) + Pops(Excess(s, ctx, base))
  }

  /** A conditional jump `test` around the first arm `thn`, and the second arm if there is one. */
  function ArmsCode(test: Byte, thn: seq<Byte>, els: Option<Stmt>, ctx: Ctx, brk: Option<int>): seq<Byte>
    decreases els, 3
  {
    match els
    case None => JumpCode(test, |thn|) + thn
    case Some(s) =>
      var other := BlockCode(s, ctx, |ctx.locals|, Shift(brk, 3 + |thn| + 3));
      JumpCode(test, |thn| + 3) + thn + JumpCode(0x50, |other|) + other
  }

  /** The clauses from here on. The subject is on the stack; every path drops it. */
  function CasesCode(cases: Cases, ctx: Ctx, brk: Option<int>): seq<Byte>
    decreases cases, 0
  {
    match cases
    case NoCase => [0x10]
    case Default(body) => [0x10] + ClauseBody(body, ctx, Shift(brk, 1))
    case Case(values, body, rest) =>
      var tests := |TestsCode(values, ctx, 0)|;
      var n := |ClauseCode(body, ctx, 0, None)|;
      var others := CasesCode(rest, AfterBlock(body, ctx), Shift(brk, tests + n));
      TestsCode(values, ctx, n) + ClauseCode(body, ctx, |others|, Shift(brk, tests)) + others
  }

  /** The statements of a clause. Its locals are popped at the end, unless the last byte is a return. */
  function ClauseBody(body: Stmt, ctx: Ctx, brk: Option<int>): seq<Byte>
    decreases body, 3
  {
    if LastByteReturns(StmtCode(body, ctx, None)) then StmtCode(body, ctx, brk) else BlockCode(body, ctx, |ctx.locals|, brk)
  }

  /** A clause: drop the subject, run the body and jump over the `others` bytes of the clauses behind it. */
  function ClauseCode(body: Stmt, ctx: Ctx, others: nat, brk: Option<int>): seq<Byte>
    decreases body, 4
  {
    [0x10] + ClauseBody(body, ctx, Shift(brk, 1))
    + if LastByteReturns(StmtCode(body, ctx, None)) then [] else JumpCode(0x50, others)
  }

  /** Compare the subject with each value; jump over `skip` bytes when none is equal. */
  function TestsCode(values: Exprs, ctx: Ctx, skip: nat): seq<Byte> {
    match values
    case NoExprs => []
    case Exprs(e, NoExprs) => [0x11] + ExprCode(e, ctx) + ([0x40] + JumpCode(0x51, skip))
    case Exprs(e, rest) =>
      var more := TestsCode(rest, ctx, skip);
      [0x11] + ExprCode(e, ctx) + ([0x40] + JumpCode(0x52, |more|)) + more
  }

  // ----- statements the compiler accepts -----

  predicate CanDeclare(x: Name, ctx: Ctx) {
    NameOk(x)
    && (if ctx.inFn then Find(ctx.locals, x).None? && |ctx.locals| < MAX_LOCALS
        else Find(ctx.globals, x).None? && |ctx.globals| < MAX_GLOBALS)
  }

  predicate CanBindIfLet(x: Name, ctx: Ctx) {
    CanDeclare(x, ctx) || (!ctx.inFn && NameOk(x) && Find(ctx.globals, x).Some?)
  }

  predicate CanLoopOver(x: Name, ctx: Ctx) {
    && NameOk(x)
    && (match Find(ctx.globals, x)
        case Some(i) => !ctx.globals[i].isLet
        case None => |ctx.globals| < MAX_GLOBALS)
    && (ctx.inFn ==> |ctx.locals| < MAX_LOCALS)
  }

  predicate CanAssign(x: Name, ctx: Ctx) {
    NameOk(x)
    && (match Resolve(x, ctx)
        case Local(i) => !ctx.locals[i].isLet
        case Global(i) => !ctx.globals[i].isLet
        case Nowhere => false)
  }

  predicate StmtOk(s: Stmt, ctx: Ctx, inLoop: bool, inSwitch: bool)
    decreases s, 1
  {
    match s
    case Skip => true
    case Seq(s1, s2) => StmtOk(s1, ctx, inLoop, inSwitch) && StmtOk(s2, After(s1, ctx), inLoop, inSwitch)
    case Declare(_, x, e) => ExprOk(e, ctx) && CanDeclare(x, ctx)
    case Assign(x, e) => CanAssign(x, ctx) && ExprOk(e, ctx)
    case Compound(op, x, e) => op != M.Mod && CanAssign(x, ctx) && ExprOk(e, ctx)
    case Do(e) => ExprOk(e, ctx)
    case Print(args) => ExprsOk(args, ctx) && Count(args) <= 255
    case If(c, thn, els) =>
      ExprOk(c, ctx) && StmtOk(thn, ctx, inLoop, inSwitch)
      && ElseOk(els, AfterBlock(thn, ctx), inLoop, inSwitch)
    case IfLet(x, e, thn, els) =>
      ExprOk(e, ctx) && CanBindIfLet(x, ctx) && StmtOk(thn, BindIfLet(x, ctx), inLoop, inSwitch)
      && ElseOk(els, AfterBlock(thn, BindIfLet(x, ctx)).(locals := ctx.locals), inLoop, inSwitch)
    case While(c, body) => ExprOk(c, ctx) && StmtOk(body, ctx, true, inSwitch)
    case ForIn(x, lo, hi, _, body) =>
      CanLoopOver(x, ctx) && ExprOk(lo, BindLoopVar(x, ctx)) && ExprOk(hi, BindLoopVar(x, ctx))
      && StmtOk(body, ReserveBound(BindLoopVar(x, ctx)), true, inSwitch)
    case Switch(e, cases) => !inSwitch && ExprOk(e, ctx) && CasesOk(cases, ctx, inLoop)
    case Break => inLoop
    case Return(result) =>
      ctx.inFn && (result.Some? <==> ctx.hasReturn) && (result.Some? ==> ExprOk(result.value, ctx))
  }

  predicate ElseOk(els: Option<Stmt>, ctx: Ctx, inLoop: bool, inSwitch: bool)
    decreases els, 2
  {
    els.Some? ==> StmtOk(els.value, ctx, inLoop, inSwitch)
  }

  predicate CasesOk(cases: Cases, ctx: Ctx, inLoop: bool)
    decreases cases, 0
  {
    match cases
    case NoCase => true
    case Default(body) => StmtOk(body, ctx, inLoop, true)
    case Case(values, body, rest) =>
      values.Exprs? && ExprsOk(values, ctx) && StmtOk(body, ctx, inLoop, true)
      && CasesOk(rest, AfterBlock(body, ctx), inLoop)
  }

  // ----- functions -----

  function ParamSyms(params: seq<Name>): (r: seq<Sym>)
    ensures |r| == |params|
  {
    seq(|params|, i requires 0 <= i < |params| => Sym(params[i], false))
  }

  function SigOf(f: FuncDecl): FuncSig {
    FuncSig(f.name, |f.params|, f.hasReturn)
  }

  /** Tables while the body of `f` is compiled: its own signature is already declared. */
  function BodyCtx(f: FuncDecl, globals: seq<Sym>, funcs: seq<FuncSig>): Ctx {
    Ctx(ParamSyms(f.params), globals, funcs + [SigOf(f)], true, f.hasReturn)
  }

  /** A body is followed by a void return unless its last byte looks like a return. */
  function FuncCode(f: FuncDecl, ctx: Ctx): seq<Byte> {
    var body := StmtCode(f.body, ctx, None);
    if LastByteReturns(body) then body else body + [0x62]
  }

  predicate FuncOk(f: FuncDecl, ctx: Ctx) {
    && NameOk(f.name)
    && |f.params| <= MAX_LOCALS
    && (forall i :: 0 <= i < |f.params| ==> NameOk(f.params[i]))
    && (forall i, j :: 0 <= i < j < |f.params| ==> f.params[i] != f.params[j])
    && StmtOk(f.body, ctx, false, false)
    && (f.hasReturn ==> LastByteReturns(StmtCode(f.body, ctx, None)))
  }
}
