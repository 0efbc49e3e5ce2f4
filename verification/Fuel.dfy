/** Fuel only bounds how long the evaluator may take: an outcome it reaches with some fuel it reaches with any more. */
module Fuel {
  import opened Bytes
  import opened Values
  import opened Syntax
  import opened S = Semantics
  import M = Machine

  lemma {:induction false} EvalMore(fs: seq<FuncDecl>, e: Expr, loc: Locals, w: World, f: nat, g: nat)
    requires f <= g && !Eval(fs, e, loc, w, f).Timeout?
    ensures Eval(fs, e, loc, w, g) == Eval(fs, e, loc, w, f)
    decreases f, e, 0
  {
    match e {
      case Neg(e) => EvalMore(fs, e, loc, w, f, g);
      case Not(e) => EvalMore(fs, e, loc, w, f, g);
      case Unwrap(e) => EvalMore(fs, e, loc, w, f, g);
      case Bin(_, l, r) =>
        EvalMore(fs, l, loc, w, f, g);
        var v := Eval(fs, l, loc, w, f);
        if v.Val? {
          EvalMore(fs, r, loc, v.w, f, g);
        }
      case And(_, _) => ShortMore(fs, e, loc, w, f, g);
      case Or(_, _) => ShortMore(fs, e, loc, w, f, g);
      case Coalesce(l, r) =>
        EvalMore(fs, l, loc, w, f, g);
        var v := Eval(fs, l, loc, w, f);
        if v.Val? && Missing(v.v) {
          EvalMore(fs, r, loc, v.w, f, g);
        }
      case Call(h, args) =>
        ListMore(fs, args, loc, w, f, g);
        var r := EvalList(fs, args, loc, w, f);
        if r.Vals? {
          InvokeMore(fs, h, r.vs, r.w, f - 1, g - 1);
        }
      case _ =>
    }
  }

  lemma {:induction false} ShortMore(fs: seq<FuncDecl>, e: Expr, loc: Locals, w: World, f: nat, g: nat)
    requires (e.And? || e.Or?) && f <= g && !Eval(fs, e, loc, w, f).Timeout?
    ensures Eval(fs, e, loc, w, g) == Eval(fs, e, loc, w, f)
    decreases f, e, -1
  {
    EvalMore(fs, e.l, loc, w, f, g);
    var v := Eval(fs, e.l, loc, w, f);
    if v.Val? && v.v == Bool(e.And?) {
      EvalMore(fs, e.r, loc, v.w, f, g);
    }
  }

  lemma {:induction false} ListMore(fs: seq<FuncDecl>, es: Exprs, loc: Locals, w: World, f: nat, g: nat)
    requires f <= g && !EvalList(fs, es, loc, w, f).TimeoutList?
    ensures EvalList(fs, es, loc, w, g) == EvalList(fs, es, loc, w, f)
    decreases f, es, 0
  {
    if es.Exprs? {
      EvalMore(fs, es.first, loc, w, f, g);
      var v := Eval(fs, es.first, loc, w, f);
      if v.Val? {
        ListMore(fs, es.rest, loc, v.w, f, g);
      }
    }
  }

  lemma {:induction false} InvokeMore(fs: seq<FuncDecl>, h: Name, vs: seq<Immediate>, w: World, f: nat, g: nat)
    requires f <= g && !Invoke(fs, h, vs, w, f).Timeout?
    ensures Invoke(fs, h, vs, w, g) == Invoke(fs, h, vs, w, f)
    decreases f
  {
    var i := Lookup(fs, h);
    if i.Some? {
      ExecMore(fs, true, fs[i.value].body, Bind(fs[i.value].params, vs), w, f, g);
    }
  }

  /** What a statement does with some fuel it does with more. */
  lemma {:induction false} ExecMore(fs: seq<FuncDecl>, inFn: bool, s: Stmt, loc: Locals, w: World, f: nat, g: nat)
    requires f <= g && !Exec(fs, inFn, s, loc, w, f).OutOfFuel?
    ensures Exec(fs, inFn, s, loc, w, g) == Exec(fs, inFn, s, loc, w, f)
    decreases f, s, 2
  {
    if s.If? || s.IfLet? {
      ArmsMore(fs, inFn, s, loc, w, f, g);
    } else if s.While? {
      WhileMore(fs, inFn, s, loc, w, f, g);
    } else if s.ForIn? {
      ForMore(fs, inFn, s, loc, w, f, g);
    } else if s.Seq? {
      ExecMore(fs, inFn, s.s1, loc, w, f, g);
      var o := Exec(fs, inFn, s.s1, loc, w, f);
      if o.Normal? {
        ExecMore(fs, inFn, s.s2, o.loc, o.w, f, g);
      }
    } else if s.Switch? {
      EvalMore(fs, s.e, loc, w, f, g);
      var v := Eval(fs, s.e, loc, w, f);
      if v.Val? {
        SelectMore(fs, inFn, v.v, s.cases, loc, v.w, f, g);
      }
    } else {
      SimpleMore(fs, inFn, s, loc, w, f, g);
    }
  }

  lemma {:induction false} SimpleMore(fs: seq<FuncDecl>, inFn: bool, s: Stmt, loc: Locals, w: World, f: nat, g: nat)
    requires f <= g && !Exec(fs, inFn, s, loc, w, f).OutOfFuel?
    requires !s.If? && !s.IfLet? && !s.While? && !s.ForIn? && !s.Seq? && !s.Switch?
    ensures Exec(fs, inFn, s, loc, w, g) == Exec(fs, inFn, s, loc, w, f)
    decreases f, s, 0
  {
    match s {
      case Declare(_, _, e) => EvalMore(fs, e, loc, w, f, g);
      case Assign(_, e) => EvalMore(fs, e, loc, w, f, g);
      case Compound(_, x, e) =>
        if Read(x, loc, w).Val? {
          EvalMore(fs, e, loc, Read(x, loc, w).w, f, g);
        }
      case Do(e) => EvalMore(fs, e, loc, w, f, g);
      case Print(args) => ListMore(fs, args, loc, w, f, g);
      case Return(result) =>
        if result.Some? {
          EvalMore(fs, result.value, loc, w, f, g);
        }
      case _ =>
    }
  }

  lemma {:induction false} ArmsMore(fs: seq<FuncDecl>, inFn: bool, s: Stmt, loc: Locals, w: World, f: nat, g: nat)
    requires (s.If? || s.IfLet?) && f <= g && !Exec(fs, inFn, s, loc, w, f).OutOfFuel?
    ensures Exec(fs, inFn, s, loc, w, g) == Exec(fs, inFn, s, loc, w, f)
    decreases f, s, 0
  {
    var e := if s.If? then s.c else s.e;
    EvalMore(fs, e, loc, w, f, g);
    var v := Eval(fs, e, loc, w, f);
    if v.Val? {
      if s.If? && v.v == Bool(true) {
        ExecMore(fs, inFn, s.thn, loc, v.w, f, g);
      } else if s.IfLet? && !Missing(v.v) {
        var d := Declared(inFn, s.x, v.v, loc, v.w);
        ExecMore(fs, inFn, s.thn, d.loc, d.w, f, g);
      } else if s.els.Some? && (s.IfLet? || v.v.Bool?) {
        ExecMore(fs, inFn, s.els.value, loc, v.w, f, g);
      }
    }
  }

  lemma {:induction false} WhileMore(fs: seq<FuncDecl>, inFn: bool, s: Stmt, loc: Locals, w: World, f: nat, g: nat)
    requires s.While? && f <= g && !Exec(fs, inFn, s, loc, w, f).OutOfFuel?
    ensures Exec(fs, inFn, s, loc, w, g) == Exec(fs, inFn, s, loc, w, f)
    decreases f, s, 0
  {
    EvalMore(fs, s.c, loc, w, f, g);
    var v := Eval(fs, s.c, loc, w, f);
    if v.Val? && v.v == Bool(true) {
      ExecMore(fs, inFn, s.body, loc, v.w, f - 1, g - 1);
      var o := Exec(fs, inFn, s.body, loc, v.w, f - 1);
      if o.Normal? {
        ExecMore(fs, inFn, s, Narrow(o.loc, loc), o.w, f - 1, g - 1);
      }
    }
  }

  lemma {:induction false} ForMore(fs: seq<FuncDecl>, inFn: bool, s: Stmt, loc: Locals, w: World, f: nat, g: nat)
    requires s.ForIn? && f <= g && !Exec(fs, inFn, s, loc, w, f).OutOfFuel?
    ensures Exec(fs, inFn, s, loc, w, g) == Exec(fs, inFn, s, loc, w, f)
    decreases f, s, 0
  {
    EvalMore(fs, s.lo, loc, w, f, g);
    var a := Eval(fs, s.lo, loc, w, f);
    if a.Val? {
      EvalMore(fs, s.hi, loc, a.w, f, g);
      var b := Eval(fs, s.hi, loc, a.w, f);
      if b.Val? {
        TurnsMore(fs, inFn, s.x, b.v, s.closed, s.body, loc, SetGlobal(b.w, s.x, a.v), f, g);
      }
    }
  }

  lemma {:induction false} TurnsMore(fs: seq<FuncDecl>, inFn: bool, x: Name, b: Immediate, closed: bool, body: Stmt,
                                     loc: Locals, w: World, f: nat, g: nat)
    requires f <= g && !ForLoop(fs, inFn, x, b, closed, body, loc, w, f).OutOfFuel?
    ensures ForLoop(fs, inFn, x, b, closed, body, loc, w, g) == ForLoop(fs, inFn, x, b, closed, body, loc, w, f)
    decreases f, body, 3
  {
    hide ForLoop, Exec, Narrow, SetGlobal, Wrap16;
    if f > 0 && Turning(x, b, closed, w) {
      TurnFinished(fs, inFn, x, b, closed, body, loc, w, f);
      ExecMore(fs, inFn, body, loc, w, f - 1, g - 1);
      var o := Exec(fs, inFn, body, loc, w, f - 1);
      if o.Normal? && x in o.w.globals && o.w.globals[x].Int? {
        NextTurn(fs, inFn, x, b, closed, body, loc, w, f, o.loc, o.w);
        NextTurn(fs, inFn, x, b, closed, body, loc, w, g, o.loc, o.w);
        TurnsMore(fs, inFn, x, b, closed, body, Narrow(o.loc, loc), SetGlobal(o.w, x, Int(Wrap16(o.w.globals[x].n + 1))), f - 1, g - 1);
      } else {
        LastTurn(fs, inFn, x, b, closed, body, loc, w, f, g);
      }
    } else {
      LastTurn(fs, inFn, x, b, closed, body, loc, w, f, g);
    }
  }

  predicate Turning(x: Name, b: Immediate, closed: bool, w: World)
  {
    x in w.globals && w.globals[x].Int? && b.Int? && (if closed then w.globals[x].n <= b.n else w.globals[x].n < b.n)
  }

  lemma {:induction false} TurnFinished(fs: seq<FuncDecl>, inFn: bool, x: Name, b: Immediate, closed: bool, body: Stmt,
                                        loc: Locals, w: World, f: nat)
    requires f > 0 && Turning(x, b, closed, w) && !ForLoop(fs, inFn, x, b, closed, body, loc, w, f).OutOfFuel?
    ensures !Exec(fs, inFn, body, loc, w, f - 1).OutOfFuel?
  {
    hide Exec, Narrow, SetGlobal, Wrap16;
  }

  /** A turn with another one to come. */
  lemma {:induction false} NextTurn(fs: seq<FuncDecl>, inFn: bool, x: Name, b: Immediate, closed: bool, body: Stmt,
                                    loc: Locals, w: World, f: nat, inner: Locals, w1: World)
    requires f > 0 && Turning(x, b, closed, w) && Exec(fs, inFn, body, loc, w, f - 1) == Normal(inner, w1)
    requires x in w1.globals && w1.globals[x].Int?
    ensures ForLoop(fs, inFn, x, b, closed, body, loc, w, f)
         == ForLoop(fs, inFn, x, b, closed, body, Narrow(inner, loc), SetGlobal(w1, x, Int(Wrap16(w1.globals[x].n + 1))), f - 1)
  {
    hide Exec, Narrow, SetGlobal, Wrap16;
  }

  /** The loop ends before a turn or with one. */
  lemma {:induction false} LastTurn(fs: seq<FuncDecl>, inFn: bool, x: Name, b: Immediate, closed: bool, body: Stmt,
                                    loc: Locals, w: World, f: nat, g: nat)
    requires f <= g && !ForLoop(fs, inFn, x, b, closed, body, loc, w, f).OutOfFuel?
    requires f > 0 && Turning(x, b, closed, w) ==>
      var o := Exec(fs, inFn, body, loc, w, f - 1);
      o == Exec(fs, inFn, body, loc, w, g - 1) && !(o.Normal? && x in o.w.globals && o.w.globals[x].Int?)
    ensures ForLoop(fs, inFn, x, b, closed, body, loc, w, g) == ForLoop(fs, inFn, x, b, closed, body, loc, w, f)
  {
    hide Exec, Narrow, SetGlobal, Wrap16;
  }

  lemma {:induction false} SelectMore(fs: seq<FuncDecl>, inFn: bool, v: Immediate, cases: Cases, loc: Locals, w: World, f: nat, g: nat)
    requires f <= g && !Select(fs, inFn, v, cases, loc, w, f).OutOfFuel?
    ensures Select(fs, inFn, v, cases, loc, w, g) == Select(fs, inFn, v, cases, loc, w, f)
    decreases f, cases, 0
  {
    match cases {
      case NoCase =>
      case Default(body) => ExecMore(fs, inFn, body, loc, w, f, g);
      case Case(values, body, rest) =>
        MatchMore(fs, v, values, loc, w, f, g);
        var r := AnyEqual(fs, v, values, loc, w, f);
        if r.Matched? {
          if r.hit {
            ExecMore(fs, inFn, body, loc, r.w, f, g);
          } else {
            SelectMore(fs, inFn, v, rest, loc, r.w, f, g);
          }
        }
    }
  }

  lemma {:induction false} MatchMore(fs: seq<FuncDecl>, v: Immediate, values: Exprs, loc: Locals, w: World, f: nat, g: nat)
    requires f <= g && !AnyEqual(fs, v, values, loc, w, f).TimeoutMatch?
    ensures AnyEqual(fs, v, values, loc, w, g) == AnyEqual(fs, v, values, loc, w, f)
    decreases f, values, 1
  {
    if values.Exprs? {
      EvalMore(fs, values.first, loc, w, f, g);
      var r := Eval(fs, values.first, loc, w, f);
      if r.Val? && !SameValue(Imm(v), Imm(r.v)) {
        MatchMore(fs, v, values.rest, loc, r.w, f, g);
      }
    }
  }
}
