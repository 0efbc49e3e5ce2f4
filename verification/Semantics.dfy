/** What a program means, stated directly on its tree: a big-step evaluator with a fuel bound.
  *
  * Inside a function `let` and `var` make locals; at top level they make globals. The variable of
  * a `for` loop is a global in both places, as the language reference says. */
module Semantics {
  import opened Bytes
  import opened Values
  import opened Syntax
  import M = Machine

  type Locals = map<Name, Immediate>

  /** What a program can change besides its locals. */
  datatype World = World(globals: map<Name, Immediate>, out: seq<seq<Byte>>)

  datatype Result =
    | Val(v: Immediate, w: World)
    | Bad(err: M.Err, w: World)
    | Timeout

  datatype ListResult =
    | Vals(vs: seq<Immediate>, w: World)
    | BadList(err: M.Err, w: World)
    | TimeoutList

  datatype Outcome =
    | Normal(loc: Locals, w: World)
    | Broke(loc: Locals, w: World)
    | Returned(v: Immediate, w: World)
    | Failed(err: M.Err, w: World)
    | OutOfFuel

  function Apply(op: BinOp, a: Immediate, b: Immediate, w: World): Result {
    match op
    case Arith(op) =>
      if !(a.Int? && b.Int?) then Bad(M.TypeMismatch, w)
      else (match M.Arith(op, a.n, b.n)
            case Value16(n) => Val(Int(n), w)
            case IntErr(e) => Bad(e, w))
    case Equal(same) => Val(Bool(SameValue(Imm(a), Imm(b)) == same), w)
    case Compare(op) =>
      if a.Int? && b.Int? then Val(Bool(M.Compare(op, a.n, b.n)), w) else Bad(M.TypeMismatch, w)
  }

  predicate Missing(v: Immediate) {
    v.Nil? || v.OptNil?
  }

  function Read(x: Name, loc: Locals, w: World): Result {
    if x in loc then Val(loc[x], w)
    else if x in w.globals then Val(w.globals[x], w)
    else Bad(M.BadOpcode, w)
  }

  function SetGlobal(w: World, x: Name, v: Immediate): World {
    w.(globals := w.globals[x := v])
  }

  /** The function called `f`: the first with that name. */
  function Lookup(fs: seq<FuncDecl>, f: Name): (r: Option<nat>)
    ensures r.Some? ==> r.value < |fs| && fs[r.value].name == f
    decreases |fs|
  {
    if |fs| == 0 then None
    else if fs[0].name == f then Some(0)
    else match Lookup(fs[1..], f) case Some(i) => Some(i + 1) case None => None
  }

  function Bind(params: seq<Name>, vs: seq<Immediate>): Locals
    decreases |params|
  {
    if |params| == 0 || |vs| == 0 then map[]
    else map[params[0] := vs[0]] + Bind(params[1..], vs[1..])
  }

  function Text(vs: seq<Immediate>): seq<Byte>
    decreases |vs|
  {
    if vs == [] then [] else ImmediateText(vs[0]) + Text(vs[1..])
  }

  /** The value of `e`, with the world as the calls in `e` leave it. */
  function Eval(fs: seq<FuncDecl>, e: Expr, loc: Locals, w: World, fuel: nat): Result
    decreases fuel, e, 0
  {
    match e
    case IntLit(n) => Val(Int(n), w)
    case BoolLit(b) => Val(Bool(b), w)
    case NilLit => Val(Nil, w)
    case Var(x) => Read(x, loc, w)
    case Neg(e) =>
      (match Eval(fs, e, loc, w, fuel)
       case Val(v, w) =>
         if v.Int? then (var n: int := v.n; Val(Int(Wrap16(-n)), w)) else Bad(M.TypeMismatch, w)
       case other => other)
    case Not(e) =>
      (match Eval(fs, e, loc, w, fuel)
       case Val(v, w) => if v.Bool? then Val(Bool(!v.b), w) else Bad(M.TypeMismatch, w)
       case other => other)
    case Unwrap(e) =>
      (match Eval(fs, e, loc, w, fuel)
       case Val(v, w) => if Missing(v) then Bad(M.RuntimeErr, w) else Val(v, w)
       case other => other)
    case Bin(op, l, r) =>
      (match Eval(fs, l, loc, w, fuel)
       case Val(a, w) =>
         (match Eval(fs, r, loc, w, fuel)
          case Val(b, w) => Apply(op, a, b, w)
          case other => other)
       case other => other)
    case And(l, r) =>
      (match Eval(fs, l, loc, w, fuel)
       case Val(a, w) =>
         if !a.Bool? then Bad(M.TypeMismatch, w) else if a.b then Eval(fs, r, loc, w, fuel) else Val(a, w)
       case other => other)
    case Or(l, r) =>
      (match Eval(fs, l, loc, w, fuel)
       case Val(a, w) =>
         if !a.Bool? then Bad(M.TypeMismatch, w) else if a.b then Val(a, w) else Eval(fs, r, loc, w, fuel)
       case other => other)
    case Coalesce(l, r) =>
      (match Eval(fs, l, loc, w, fuel)
       case Val(a, w) => if Missing(a) then Eval(fs, r, loc, w, fuel) else Val(a, w)
       case other => other)
    case Call(f, args) =>
      (match EvalList(fs, args, loc, w, fuel)
       case Vals(vs, w) => if fuel == 0 then Timeout else Invoke(fs, f, vs, w, fuel - 1)
       case BadList(err, w) => Bad(err, w)
       case TimeoutList => Timeout)
  }

  /** The values of `es`, evaluated from left to right. */
  function EvalList(fs: seq<FuncDecl>, es: Exprs, loc: Locals, w: World, fuel: nat): ListResult
    decreases fuel, es, 0
  {
    match es
    case NoExprs => Vals([], w)
    case Exprs(e, rest) =>
      match Eval(fs, e, loc, w, fuel)
      case Bad(err, w) => BadList(err, w)
      case Timeout => TimeoutList
      case Val(v, w) =>
        match EvalList(fs, rest, loc, w, fuel)
        case Vals(vs, w) => Vals([v] + vs, w)
        case other => other
  }

  /** Call `f`. Falling off the end of the body, or a bare return, yields nil. */
  function Invoke(fs: seq<FuncDecl>, f: Name, vs: seq<Immediate>, w: World, fuel: nat): Result
    decreases fuel
  {
    match Lookup(fs, f)
    case None => Bad(M.BadOpcode, w)
    case Some(i) =>
      match Exec(fs, true, fs[i].body, Bind(fs[i].params, vs), w, fuel)
      case Normal(_, w) => Val(Nil, w)
      case Broke(_, w) => Val(Nil, w)
      case Returned(v, w) => Val(v, w)
      case Failed(err, w) => Bad(err, w)
      case OutOfFuel => Timeout
  }

  /** The locals of an enclosing block, with the values an inner block left in them. */
  function Narrow(inner: Locals, outer: Locals): Locals {
    map x | x in inner && x in outer :: inner[x]
  }

  function LeaveBlock(o: Outcome, outer: Locals): Outcome {
    match o
    case Normal(loc, w) => Normal(Narrow(loc, outer), w)
    case other => other
  }

  /** Bind a name: a local inside a function, a global at top level. */
  function Declared(inFn: bool, x: Name, v: Immediate, loc: Locals, w: World): Outcome {
    if inFn then Normal(loc[x := v], w) else Normal(loc, SetGlobal(w, x, v))
  }

  /** Store into the variable `x`; a global must have been defined by then. */
  function Stored(x: Name, v: Immediate, loc: Locals, w: World): Outcome {
    if x in loc then Normal(loc[x := v], w)
    else if x in w.globals then Normal(loc, SetGlobal(w, x, v))
    else Failed(M.BadOpcode, w)
  }

  function Exec(fs: seq<FuncDecl>, inFn: bool, s: Stmt, loc: Locals, w: World, fuel: nat): Outcome
    decreases fuel, s, 1
  {
    match s
    case Skip => Normal(loc, w)
    case Seq(s1, s2) =>
      (match Exec(fs, inFn, s1, loc, w, fuel)
       case Normal(loc, w) => Exec(fs, inFn, s2, loc, w, fuel)
       case other => other)
    case Declare(_, x, e) =>
      (match Eval(fs, e, loc, w, fuel)
       case Val(v, w) => Declared(inFn, x, v, loc, w)
       case Bad(err, w) => Failed(err, w)
       case Timeout => OutOfFuel)
    case Assign(x, e) =>
      (match Eval(fs, e, loc, w, fuel)
       case Val(v, w) => Stored(x, v, loc, w)
       case Bad(err, w) => Failed(err, w)
       case Timeout => OutOfFuel)
    case Compound(op, x, e) =>
      (match Read(x, loc, w)
       case Bad(err, w) => Failed(err, w)
       case Timeout => OutOfFuel
       case Val(a, w) =>
         match Eval(fs, e, loc, w, fuel)
         case Bad(err, w) => Failed(err, w)
         case Timeout => OutOfFuel
         case Val(b, w) =>
           match Apply(Arith(op), a, b, w)
           case Val(v, w) => Stored(x, v, loc, w)
           case Bad(err, w) => Failed(err, w)
           case Timeout => OutOfFuel)
    case Do(e) =>
      (match Eval(fs, e, loc, w, fuel)
       case Val(_, w) => Normal(loc, w)
       case Bad(err, w) => Failed(err, w)
       case Timeout => OutOfFuel)
    case Print(args) =>
      (match EvalList(fs, args, loc, w, fuel)
       case Vals(vs, w) => Normal(loc, w.(out := w.out + [Text(vs)]))
       case BadList(err, w) => Failed(err, w)
       case TimeoutList => OutOfFuel)
    case If(c, thn, els) =>
      (match Eval(fs, c, loc, w, fuel)
       case Bad(err, w) => Failed(err, w)
       case Timeout => OutOfFuel
       case Val(v, w) =>
         if !v.Bool? then Failed(M.TypeMismatch, w)
         else if v.b then LeaveBlock(Exec(fs, inFn, thn, loc, w, fuel), loc)
         else if els.Some? then LeaveBlock(Exec(fs, inFn, els.value, loc, w, fuel), loc)
         else Normal(loc, w))
    case IfLet(x, e, thn, els) =>
      (match Eval(fs, e, loc, w, fuel)
       case Bad(err, w) => Failed(err, w)
       case Timeout => OutOfFuel
       case Val(v, w) =>
         if !Missing(v) then
           (match Declared(inFn, x, v, loc, w)
            case Normal(inner, w) => LeaveBlock(Exec(fs, inFn, thn, inner, w, fuel), loc)
            case other => other)
         else if els.Some? then LeaveBlock(Exec(fs, inFn, els.value, loc, w, fuel), loc)
         else Normal(loc, w))
    case While(c, body) =>
      if fuel == 0 then OutOfFuel
      else
        (match Eval(fs, c, loc, w, fuel)
         case Bad(err, w) => Failed(err, w)
         case Timeout => OutOfFuel
         case Val(v, w) =>
           if !v.Bool? then Failed(M.TypeMismatch, w)
           else if !v.b then Normal(loc, w)
           else
             match Exec(fs, inFn, body, loc, w, fuel - 1)
             case Normal(inner, w) => Exec(fs, inFn, s, Narrow(inner, loc), w, fuel - 1)
             case Broke(inner, w) => Normal(Narrow(inner, loc), w)
             case other => other)
    case ForIn(x, lo, hi, closed, body) =>
      (match Eval(fs, lo, loc, w, fuel)
       case Bad(err, w) => Failed(err, w)
       case Timeout => OutOfFuel
       case Val(a, w) =>
         match Eval(fs, hi, loc, w, fuel)
         case Bad(err, w) => Failed(err, w)
         case Timeout => OutOfFuel
         case Val(b, w) => ForLoop(fs, inFn, x, b, closed, body, loc, SetGlobal(w, x, a), fuel))
    case Switch(e, cases) =>
      (match Eval(fs, e, loc, w, fuel)
       case Bad(err, w) => Failed(err, w)
       case Timeout => OutOfFuel
       case Val(v, w) => LeaveBlock(Select(fs, inFn, v, cases, loc, w, fuel), loc))
    case Break => Broke(loc, w)
    case Return(None) => Returned(Nil, w)
    case Return(Some(e)) =>
      (match Eval(fs, e, loc, w, fuel)
       case Val(v, w) => Returned(v, w)
       case Bad(err, w) => Failed(err, w)
       case Timeout => OutOfFuel)
  }

  /** The turns of a `for` loop whose bound is `b`; the loop variable is the global `x`. */
  function ForLoop(fs: seq<FuncDecl>, inFn: bool, x: Name, b: Immediate, closed: bool, body: Stmt,
                   loc: Locals, w: World, fuel: nat): Outcome
    decreases fuel, body, 0
  {
    if fuel == 0 then OutOfFuel
    else if x !in w.globals then Failed(M.BadOpcode, w)
    else
      var i := w.globals[x];
      if !(i.Int? && b.Int?) then Failed(M.TypeMismatch, w)
      else if !(if closed then i.n <= b.n else i.n < b.n) then Normal(loc, w)
      else
        match Exec(fs, inFn, body, loc, w, fuel - 1)
        case Broke(inner, w) => Normal(Narrow(inner, loc), w)
        case Normal(inner, w) =>
          if x !in w.globals then Failed(M.BadOpcode, w)
          else
            var j := w.globals[x];
            if !j.Int? then Failed(M.TypeMismatch, w)
            else ForLoop(fs, inFn, x, b, closed, body, Narrow(inner, loc),
                         SetGlobal(w, x, Int(Wrap16(j.n + 1))), fuel - 1)
        case other => other
  }

  datatype MatchResult =
    | Matched(hit: bool, w: World)
    | BadMatch(err: M.Err, w: World)
    | TimeoutMatch

  /** Whether `v` equals one of `values`; no value after the first equal one is evaluated. */
  function AnyEqual(fs: seq<FuncDecl>, v: Immediate, values: Exprs, loc: Locals, w: World, fuel: nat): MatchResult
    decreases fuel, values, 1
  {
    match values
    case NoExprs => Matched(false, w)
    case Exprs(e, rest) =>
      match Eval(fs, e, loc, w, fuel)
      case Bad(err, w) => BadMatch(err, w)
      case Timeout => TimeoutMatch
      case Val(u, w) =>
        if SameValue(Imm(v), Imm(u)) then Matched(true, w) else AnyEqual(fs, v, rest, loc, w, fuel)
  }

  /** Run the first clause with a value equal to `v`, or the default clause if there is none. */
  function Select(fs: seq<FuncDecl>, inFn: bool, v: Immediate, cases: Cases, loc: Locals, w: World, fuel: nat): Outcome
    decreases fuel, cases, 0
  {
    match cases
    case NoCase => Normal(loc, w)
    case Default(body) => Exec(fs, inFn, body, loc, w, fuel)
    case Case(values, body, rest) =>
      match AnyEqual(fs, v, values, loc, w, fuel)
      case BadMatch(err, w) => Failed(err, w)
      case TimeoutMatch => OutOfFuel
      case Matched(hit, w) =>
        if hit then Exec(fs, inFn, body, loc, w, fuel) else Select(fs, inFn, v, rest, loc, w, fuel)
  }
}
