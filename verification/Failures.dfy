/** The errors a program can end with. */
module Failures {
  import opened Bytes
  import opened Values
  import opened Syntax
  import opened S = Semantics
  import M = Machine

  /** The errors that belong to the language. */
  predicate ProgramError(e: M.Err) {
    e == M.TypeMismatch || e == M.DivZero || e == M.RuntimeErr || e == M.BadOpcode
  }

  ghost predicate SoundResult(r: Result) {
    r.Bad? ==> ProgramError(r.err)
  }

  ghost predicate SoundOutcome(o: Outcome) {
    o.Failed? ==> ProgramError(o.err)
  }

  lemma {:induction false} EvalErrors(fs: seq<FuncDecl>, e: Expr, loc: Locals, w: World, fuel: nat)
    ensures SoundResult(Eval(fs, e, loc, w, fuel))
    decreases fuel, e, 0
  {
    match e {
      case Neg(e) => EvalErrors(fs, e, loc, w, fuel);
      case Not(e) => EvalErrors(fs, e, loc, w, fuel);
      case Unwrap(e) => EvalErrors(fs, e, loc, w, fuel);
      case Bin(_, l, r) => PairErrors(fs, e, l, r, loc, w, fuel);
      case And(l, r) => PairErrors(fs, e, l, r, loc, w, fuel);
      case Or(l, r) => PairErrors(fs, e, l, r, loc, w, fuel);
      case Coalesce(l, r) => PairErrors(fs, e, l, r, loc, w, fuel);
      case Call(f, args) =>
        ListErrors(fs, args, loc, w, fuel);
        var r := EvalList(fs, args, loc, w, fuel);
        if r.Vals? && fuel > 0 {
          InvokeErrors(fs, f, r.vs, r.w, fuel - 1);
        }
      case _ =>
    }
  }

  lemma {:induction false} PairErrors(fs: seq<FuncDecl>, e: Expr, l: Expr, r: Expr, loc: Locals, w: World, fuel: nat)
    requires l < e && r < e
    ensures SoundResult(Eval(fs, l, loc, w, fuel))
    ensures var rl := Eval(fs, l, loc, w, fuel); rl.Val? ==> SoundResult(Eval(fs, r, loc, rl.w, fuel))
    decreases fuel, e, 0, 0
  {
    EvalErrors(fs, l, loc, w, fuel);
    var rl := Eval(fs, l, loc, w, fuel);
    if rl.Val? {
      EvalErrors(fs, r, loc, rl.w, fuel);
    }
  }

  lemma {:induction false} ListErrors(fs: seq<FuncDecl>, es: Exprs, loc: Locals, w: World, fuel: nat)
    ensures var r := EvalList(fs, es, loc, w, fuel); r.BadList? ==> ProgramError(r.err)
    decreases fuel, es, 0
  {
    if es.Exprs? {
      EvalErrors(fs, es.first, loc, w, fuel);
      var r := Eval(fs, es.first, loc, w, fuel);
      if r.Val? {
        ListErrors(fs, es.rest, loc, r.w, fuel);
      }
    }
  }

  lemma {:induction false} InvokeErrors(fs: seq<FuncDecl>, f: Name, vs: seq<Immediate>, w: World, fuel: nat)
    ensures SoundResult(Invoke(fs, f, vs, w, fuel))
    decreases fuel
  {
    match Lookup(fs, f) {
      case None =>
      case Some(i) => ExecErrors(fs, true, fs[i].body, Bind(fs[i].params, vs), w, fuel);
    }
  }

  lemma {:induction false} ExecErrors(fs: seq<FuncDecl>, inFn: bool, s: Stmt, loc: Locals, w: World, fuel: nat)
    ensures SoundOutcome(Exec(fs, inFn, s, loc, w, fuel))
    decreases fuel, s, 1
  {
    match s {
      case Seq(s1, s2) =>
        ExecErrors(fs, inFn, s1, loc, w, fuel);
        var o := Exec(fs, inFn, s1, loc, w, fuel);
        if o.Normal? {
          ExecErrors(fs, inFn, s2, o.loc, o.w, fuel);
        }
      case Declare(_, _, e) => EvalErrors(fs, e, loc, w, fuel);
      case Assign(_, e) => EvalErrors(fs, e, loc, w, fuel);
      case Compound(_, x, e) =>
        var a := Read(x, loc, w);
        if a.Val? {
          EvalErrors(fs, e, loc, a.w, fuel);
        }
      case Do(e) => EvalErrors(fs, e, loc, w, fuel);
      case Print(args) => ListErrors(fs, args, loc, w, fuel);
      case If(_, _, _) => BranchErrors(fs, inFn, s, loc, w, fuel);
      case IfLet(_, _, _, _) => BranchErrors(fs, inFn, s, loc, w, fuel);
      case While(_, _) => WhileErrors(fs, inFn, s, loc, w, fuel);
      case ForIn(_, _, _, _, _) => RangeErrors(fs, inFn, s, loc, w, fuel);
      case Switch(e, cases) =>
        EvalErrors(fs, e, loc, w, fuel);
        var r := Eval(fs, e, loc, w, fuel);
        if r.Val? {
          SelectErrors(fs, inFn, r.v, cases, loc, r.w, fuel);
        }
      case Return(Some(e)) => EvalErrors(fs, e, loc, w, fuel);
      case _ =>
    }
  }

  lemma {:induction false} BranchErrors(fs: seq<FuncDecl>, inFn: bool, s: Stmt, loc: Locals, w: World, fuel: nat)
    requires s.If? || s.IfLet?
    ensures SoundOutcome(Exec(fs, inFn, s, loc, w, fuel))
    decreases fuel, s, 0
  {
    match s {
      case If(c, thn, els) =>
        EvalErrors(fs, c, loc, w, fuel);
        var r := Eval(fs, c, loc, w, fuel);
        if r.Val? {
          ArmErrors(fs, inFn, s, thn, els, loc, loc, r.w, r.w, fuel);
        }
      case IfLet(x, e, thn, els) =>
        EvalErrors(fs, e, loc, w, fuel);
        var r := Eval(fs, e, loc, w, fuel);
        if r.Val? {
          var d := Declared(inFn, x, r.v, loc, r.w);
          ArmErrors(fs, inFn, s, thn, els, d.loc, loc, d.w, r.w, fuel);
        }
    }
  }

  lemma {:induction false} RangeErrors(fs: seq<FuncDecl>, inFn: bool, s: Stmt, loc: Locals, w: World, fuel: nat)
    requires s.ForIn?
    ensures SoundOutcome(Exec(fs, inFn, s, loc, w, fuel))
    decreases fuel, s, 0
  {
    var ForIn(x, lo, hi, closed, body) := s;
    EvalErrors(fs, lo, loc, w, fuel);
    var a := Eval(fs, lo, loc, w, fuel);
    if a.Val? {
      EvalErrors(fs, hi, loc, a.w, fuel);
      var b := Eval(fs, hi, loc, a.w, fuel);
      if b.Val? {
        ForErrors(fs, inFn, x, b.v, closed, body, loc, SetGlobal(b.w, x, a.v), fuel);
      }
    }
  }

  lemma {:induction false} ArmErrors(fs: seq<FuncDecl>, inFn: bool, s: Stmt, thn: Stmt, els: Option<Stmt>,
                                     inner: Locals, outer: Locals, w1: World, w2: World, fuel: nat)
    requires thn < s && (els.Some? ==> els.value < s)
    ensures SoundOutcome(Exec(fs, inFn, thn, inner, w1, fuel))
    ensures els.Some? ==> SoundOutcome(Exec(fs, inFn, els.value, outer, w2, fuel))
    decreases fuel, s, -1
  {
    ExecErrors(fs, inFn, thn, inner, w1, fuel);
    if els.Some? {
      ExecErrors(fs, inFn, els.value, outer, w2, fuel);
    }
  }

  lemma {:induction false} WhileErrors(fs: seq<FuncDecl>, inFn: bool, s: Stmt, loc: Locals, w: World, fuel: nat)
    requires s.While?
    ensures SoundOutcome(Exec(fs, inFn, s, loc, w, fuel))
    decreases fuel, s, 0
  {
    if fuel > 0 {
      EvalErrors(fs, s.c, loc, w, fuel);
      var r := Eval(fs, s.c, loc, w, fuel);
      if r.Val? {
        ExecErrors(fs, inFn, s.body, loc, r.w, fuel - 1);
        var o := Exec(fs, inFn, s.body, loc, r.w, fuel - 1);
        if o.Normal? {
          ExecErrors(fs, inFn, s, Narrow(o.loc, loc), o.w, fuel - 1);
        }
      }
    }
  }

  lemma {:induction false} ForErrors(fs: seq<FuncDecl>, inFn: bool, x: Name, b: Immediate, closed: bool, body: Stmt,
                                     loc: Locals, w: World, fuel: nat)
    ensures SoundOutcome(ForLoop(fs, inFn, x, b, closed, body, loc, w, fuel))
    decreases fuel, body, 0
  {
    hide Exec, Narrow, SetGlobal, Wrap16;
    if fuel > 0 {
      ExecErrors(fs, inFn, body, loc, w, fuel - 1);
      var o := Exec(fs, inFn, body, loc, w, fuel - 1);
      if o.Normal? && x in o.w.globals && o.w.globals[x].Int? {
        ForErrors(fs, inFn, x, b, closed, body, Narrow(o.loc, loc),
                  SetGlobal(o.w, x, Int(Wrap16(o.w.globals[x].n + 1))), fuel - 1);
      }
    }
  }

  lemma {:induction false} SelectErrors(fs: seq<FuncDecl>, inFn: bool, v: Immediate, cases: Cases, loc: Locals, w: World, fuel: nat)
    ensures SoundOutcome(Select(fs, inFn, v, cases, loc, w, fuel))
    decreases fuel, cases, 0
  {
    match cases {
      case NoCase =>
      case Default(body) => ExecErrors(fs, inFn, body, loc, w, fuel);
      case Case(values, body, rest) =>
        MatchErrors(fs, v, values, loc, w, fuel);
        var r := AnyEqual(fs, v, values, loc, w, fuel);
        if r.Matched? {
          ExecErrors(fs, inFn, body, loc, r.w, fuel);
          SelectErrors(fs, inFn, v, rest, loc, r.w, fuel);
        }
    }
  }

  lemma {:induction false} MatchErrors(fs: seq<FuncDecl>, v: Immediate, values: Exprs, loc: Locals, w: World, fuel: nat)
    ensures var r := AnyEqual(fs, v, values, loc, w, fuel); r.BadMatch? ==> ProgramError(r.err)
    decreases fuel, values, 1
  {
    if values.Exprs? {
      EvalErrors(fs, values.first, loc, w, fuel);
      var r := Eval(fs, values.first, loc, w, fuel);
      if r.Val? {
        MatchErrors(fs, v, values.rest, loc, r.w, fuel);
      }
    }
  }
}
