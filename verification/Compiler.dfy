/** The one-pass compiler: it reads tokens, appends bytecode to a buffer, and goes back to fill in jump
  * distances. Each method is proved against the code that CodeGen gives for the tree. */
module Compiler {
  import opened Bytes
  import opened Values
  import opened Syntax
  import opened CodeGen
  import opened Grammar
  import opened Patching
  import opened Rotation
  import opened Sessions
  import M = Machine

  /** Why a compile fails: the program is wrong, or a fixed-size table or buffer is full. */
  datatype Fault = Rejected | Limit

  const LOOPS_MAX_DEPTH := 4
  const LOOPS_MAX_BREAKS := 4
  const SWITCH_MAX_CASES := 24

  /** A jump whose distance is not known yet. */
  const OPEN := 0xFFFF

  lemma {:induction false} PatchPlaceholder(a: seq<Byte>, op: Byte, k: int, b: seq<Byte>)
    ensures PatchOne(a + JumpCode(op, k) + b, |a| + 1, |a| + 3 + |b|) == a + JumpCode(op, |b|) + b
  {
    var r := PatchOne(a + JumpCode(op, k) + b, |a| + 1, |a| + 3 + |b|);
    var e := a + JumpCode(op, |b|) + b;
    forall i | 0 <= i < |r|
      ensures r[i] == e[i]
    {
    }
  }

  // ----- what one turn of the parsing loops adds -----

  lemma {:induction false} InfixTurn(l: Expr, ts: seq<Token>, min: nat, ctx: Ctx)
    requires ExprOk(l, ctx) && InfixPrec(Head(ts)) > 0 && InfixPrec(Head(ts)) >= min
    ensures var r := Climb(ts[1..], InfixPrec(Head(ts)) + 1, true, ctx);
            && (r.NoParse? ==> Infix(l, ts, min, ctx) == NoParse)
            && (r.Parsed? ==> ExprOk(Combine(Head(ts), l, r.e), ctx)
                              && Infix(l, ts, min, ctx) == Infix(Combine(Head(ts), l, r.e), r.rest, min, ctx))
  {
    hide Climb;
  }

  /** The code of `l t r`, once the code `cr` of `r` stands behind what was emitted for `t`. */
  lemma {:induction false} CombinedCode(t: Token, l: Expr, r: Expr, ctx: Ctx)
    requires InfixPrec(t) > 0
    ensures var cl, cr := ExprCode(l, ctx), ExprCode(r, ctx);
            ExprCode(Combine(t, l, r), ctx)
            == match t
               case TAnd => cl + [0x11] + JumpCode(0x51, |cr| + 1) + ([0x10] + cr)
               case TOr => cl + [0x11] + JumpCode(0x52, |cr| + 1) + ([0x10] + cr)
               case TCoalesce => cl + JumpCode(0x72, |cr|) + cr
               case TOp(op) => cl + cr + [OpByte(op)]
               case _ => []
  {
    hide ShortCircuit, JumpCode, OpByte;
    var cl, cr := ExprCode(l, ctx), ExprCode(r, ctx);
    match t {
      case TAnd =>
        assert ExprCode(And(l, r), ctx) == ShortCircuit(cl, 0x51, cr);
        ShortCircuitCode(cl, 0x51, cr);
      case TOr =>
        assert ExprCode(Or(l, r), ctx) == ShortCircuit(cl, 0x52, cr);
        ShortCircuitCode(cl, 0x52, cr);
      case TCoalesce => assert ExprCode(Coalesce(l, r), ctx) == cl + JumpCode(0x72, |cr|) + cr;
      case TOp(op) => assert ExprCode(Bin(op, l, r), ctx) == cl + cr + [OpByte(op)];
    }
  }

  /** The code of what takes a single token, and of a call. */
  lemma {:induction false} SimpleCodes(ctx: Ctx)
    ensures forall n :: ExprCode(IntLit(n), ctx) == IntCode(n)
    ensures ExprCode(BoolLit(true), ctx) == [0x01] && ExprCode(BoolLit(false), ctx) == [0x02]
    ensures ExprCode(NilLit, ctx) == [0x00]
    ensures forall x :: ExprCode(Var(x), ctx) == GetCode(x, ctx)
    ensures forall e :: ExprCode(Neg(e), ctx) == ExprCode(e, ctx) + [0x35]
    ensures forall e :: ExprCode(Not(e), ctx) == ExprCode(e, ctx) + [0x46]
    ensures forall e :: ExprCode(Unwrap(e), ctx) == ExprCode(e, ctx) + [0x70]
    ensures forall f, es :: ExprCode(Call(f, es), ctx) == ExprsCode(es, ctx) + CallCode(f, Count(es), ctx)
  {
  }

  lemma {:induction false} ShortCircuitTree(t: Token, l: Expr, r: Expr, ctx: Ctx)
    requires t == TAnd || t == TOr
    ensures var cl, tail := ExprCode(l, ctx), [0x10] + ExprCode(r, ctx);
            ExprCode(Combine(t, l, r), ctx) == cl + [0x11] + JumpCode(if t == TAnd then 0x51 else 0x52, |tail|) + tail
  {
    hide ExprCode, JumpCode;
    CombinedCode(t, l, r, ctx);
  }

  lemma {:induction false} CombinedCases(t: Token, l: Expr, r: Parsed)
    ensures r.NoParse? ==> Combined(t, l, r) == NoParse
    ensures r.Parsed? ==> Combined(t, l, r) == Parsed(Combine(t, l, r.e), r.rest)
  {
  }

  lemma {:induction false} ShortCircuitCode(cl: seq<Byte>, test: Byte, cr: seq<Byte>)
    ensures ShortCircuit(cl, test, cr) == cl + [0x11] + JumpCode(test, |cr| + 1) + ([0x10] + cr)
  {
  }

  lemma {:induction false} NamedNothing(x: Name, ts: seq<Token>, ctx: Ctx)
    requires |x| < IDENT_MAX && Resolve(x, ctx).Nowhere?
    ensures x == "" || FindFunc(ctx.funcs, x).None? || Head(ts) != TLParen ==> Named(x, ts, ctx) == NoParse
  {
  }

  lemma {:induction false} NamedCall(x: Name, ts: seq<Token>, f: nat, ctx: Ctx)
    requires 0 < |x| < IDENT_MAX && Resolve(x, ctx).Nowhere? && FindFunc(ctx.funcs, x) == Some(f) && Head(ts) == TLParen
    ensures var r := Arguments(ts[1..], ctx);
            if r.ParsedArgs? && Head(r.rest) == TRParen && Count(r.es) == ctx.funcs[f].params <= 255 then
              && Named(x, ts, ctx) == Parsed(Call(x, r.es), r.rest[1..])
              && ExprCode(Call(x, r.es), ctx) == ExprsCode(r.es, ctx) + [0x60, f % 0x100, Count(r.es) % 0x100]
            else Named(x, ts, ctx) == NoParse
  {
    hide Arguments, ExprsCode, Resolve, ExprsOk;
  }

  /** The arguments `done`, read already, in front of the arguments `es`. */
  function Listed(done: seq<Expr>, es: Exprs): Exprs
    decreases |done|
  {
    if done == [] then es else Listed(done[..|done| - 1], Exprs(done[|done| - 1], es))
  }

  function Codes(done: seq<Expr>, ctx: Ctx): seq<Byte>
    decreases |done|
  {
    if done == [] then [] else Codes(done[..|done| - 1], ctx) + ExprCode(done[|done| - 1], ctx)
  }

  lemma {:induction false} ListedFacts(done: seq<Expr>, es: Exprs, ctx: Ctx)
    ensures Count(Listed(done, es)) == |done| + Count(es)
    ensures ExprsCode(Listed(done, es), ctx) == Codes(done, ctx) + ExprsCode(es, ctx)
    decreases |done|
  {
    hide ExprCode;
    if done != [] {
      ListedFacts(done[..|done| - 1], Exprs(done[|done| - 1], es), ctx);
    }
  }

  function Prepend(done: seq<Expr>, r: ParsedArgs): ParsedArgs {
    match r case NoArgs => NoArgs case ParsedArgs(es, rest) => ParsedArgs(Listed(done, es), rest)
  }

  /** With 256 arguments or more, no call is read. */
  lemma {:induction false} TooMany(done: seq<Expr>, r: ParsedArgs, ctx: Ctx)
    requires |done| == 256
    ensures Prepend(done, r).ParsedArgs? ==> Count(Prepend(done, r).es) > 255
  {
    if r.ParsedArgs? {
      ListedFacts(done, r.es, ctx);
    }
  }

  lemma {:induction false} ListTurn(done: seq<Expr>, ts: seq<Token>, ctx: Ctx)
    ensures match Climb(ts, PREC_LOWEST, true, ctx)
            case NoParse => Prepend(done, ArgumentList(ts, ctx)) == NoArgs
            case Parsed(e, rest) =>
              Prepend(done, ArgumentList(ts, ctx))
              == if Head(rest) == TComma then Prepend(done + [e], ArgumentList(rest[1..], ctx))
                 else ParsedArgs(Listed(done + [e], NoExprs), rest)
  {
    hide Climb, ExprCode;
    var r := Climb(ts, PREC_LOWEST, true, ctx);
    if r.Parsed? {
      assert (done + [r.e])[..|done|] == done;
    }
  }

  lemma {:induction false} NothingListed(ctx: Ctx)
    ensures forall es :: Listed([], es) == es
    ensures Codes([], ctx) == [] && ExprsCode(NoExprs, ctx) == [] && Count(NoExprs) == 0
  {
  }

  lemma {:induction false} ListedAdd(done: seq<Expr>, e: Expr, es: Exprs)
    ensures Listed(done + [e], es) == Listed(done, Exprs(e, es))
  {
    assert (done + [e])[..|done|] == done;
  }

  /** An argument behind 255 others makes the list too long, whatever follows. */
  lemma {:induction false} TurnTooMany(done: seq<Expr>, ts: seq<Token>, ctx: Ctx)
    requires |done| == 255 && Climb(ts, PREC_LOWEST, true, ctx).Parsed?
    ensures var r := Prepend(done, ArgumentList(ts, ctx)); r.ParsedArgs? ==> Count(r.es) > 255
  {
    hide Climb, ExprCode, ArgumentList, Count;
    var r := Climb(ts, PREC_LOWEST, true, ctx);
    ListTurn(done, ts, ctx);
    TooMany(done + [r.e], if Head(r.rest) == TComma then ArgumentList(r.rest[1..], ctx) else ParsedArgs(NoExprs, r.rest), ctx);
  }

  lemma {:induction false} CodesAdd(done: seq<Expr>, e: Expr, ctx: Ctx)
    ensures Codes(done + [e], ctx) == Codes(done, ctx) + ExprCode(e, ctx)
  {
    assert (done + [e])[..|done|] == done;
  }

  // ----- statements -----

  /** The open loops after the innermost one has recorded `sites`. */
  function WithSites(loops: seq<seq<nat>>, sites: seq<nat>): (r: seq<seq<nat>>)
    ensures |r| == |loops|
  {
    if loops == [] then [] else loops[|loops| - 1 := loops[|loops| - 1] + sites]
  }

  lemma {:induction false} NoSites(loops: seq<seq<nat>>)
    ensures WithSites(loops, []) == loops
  {
    if loops != [] {
      assert loops[|loops| - 1] + [] == loops[|loops| - 1];
    }
  }

  lemma {:induction false} SitesTwice(loops: seq<seq<nat>>, a: seq<nat>, b: seq<nat>)
    ensures WithSites(WithSites(loops, a), b) == WithSites(loops, a + b)
  {
    if loops != [] {
      assert loops[|loops| - 1] + a + b == loops[|loops| - 1] + (a + b);
    }
  }

  lemma {:induction false} AssignFacts(s: Stmt, ctx: Ctx, inLoop: bool, inSwitch: bool, n: nat)
    requires s.Assign? || s.Compound?
    ensures var load := if s.Compound? then GetCode(s.x, ctx) else [];
            var op := if s.Compound? then [OpByte(Arith(s.op))] else [];
            && StmtCode(s, ctx, None) == load + (ExprCode(s.e, ctx) + op + SetCode(s.x, ctx))
            && After(s, ctx) == ctx && Moved(BreakSites(s, ctx), n) == []
    ensures StmtOk(s, ctx, inLoop, inSwitch)
         == ((s.Compound? ==> s.op != M.Mod) && CanAssign(s.x, ctx) && ExprOk(s.e, ctx))
  {
    hide ExprCode, ExprOk, GetCode, SetCode, CanAssign;
    if s.Assign? {
      assert StmtCode(s, ctx, None) == ExprCode(s.e, ctx) + SetCode(s.x, ctx);
    } else {
      assert StmtCode(s, ctx, None)
          == GetCode(s.x, ctx) + ExprCode(s.e, ctx) + ([OpByte(Arith(s.op))] + SetCode(s.x, ctx));
    }
  }

  lemma {:induction false} SeqFacts(s: Stmt, ctx: Ctx, inLoop: bool, inSwitch: bool, n: nat)
    requires s.Seq?
    ensures var c1, ctx1 := StmtCode(s.s1, ctx, None), After(s.s1, ctx);
            && StmtCode(s, ctx, None) == c1 + StmtCode(s.s2, ctx1, None)
            && After(s, ctx) == After(s.s2, ctx1)
            && StmtOk(s, ctx, inLoop, inSwitch) == (StmtOk(s.s1, ctx, inLoop, inSwitch) && StmtOk(s.s2, ctx1, inLoop, inSwitch))
            && Moved(BreakSites(s, ctx), n) == Moved(BreakSites(s.s1, ctx), n) + Moved(BreakSites(s.s2, ctx1), n + |c1|)
  {
    hide StmtCode, After, StmtOk, BreakSites;
    SeqUnfolds(s, ctx, inLoop, inSwitch);
    var n1 := |StmtCode(s.s1, ctx, None)|;
    var b2 := BreakSites(s.s2, After(s.s1, ctx));
    MovedConcat(BreakSites(s.s1, ctx), Moved(b2, n1), n);
    MovedTwice(b2, n1, n);
  }

  lemma {:induction false} SeqUnfolds(s: Stmt, ctx: Ctx, inLoop: bool, inSwitch: bool)
    requires s.Seq?
    ensures var c1, ctx1 := StmtCode(s.s1, ctx, None), After(s.s1, ctx);
            && StmtCode(s, ctx, None) == c1 + StmtCode(s.s2, ctx1, None)
            && After(s, ctx) == After(s.s2, ctx1)
            && StmtOk(s, ctx, inLoop, inSwitch) == (StmtOk(s.s1, ctx, inLoop, inSwitch) && StmtOk(s.s2, ctx1, inLoop, inSwitch))
            && BreakSites(s, ctx) == BreakSites(s.s1, ctx) + Moved(BreakSites(s.s2, ctx1), |c1|)
  {
  }

  lemma {:induction false} IfFacts(s: Stmt, ctx: Ctx, inLoop: bool, inSwitch: bool, n: nat)
    requires s.If?
    ensures var c, mid := ExprCode(s.c, ctx), AfterBlock(s.thn, ctx);
            && StmtCode(s, ctx, None) == c + ArmsCode(0x51, BlockCode(s.thn, ctx, |ctx.locals|, None), s.els, mid, None)
            && After(s, ctx) == AfterElse(s.els, mid)
            && Moved(BreakSites(s, ctx), n) == ArmSites([], s.thn, ctx, |ctx.locals|, s.els, mid, n + |c|)
    ensures StmtOk(s, ctx, inLoop, inSwitch)
         == (ExprOk(s.c, ctx) && StmtOk(s.thn, ctx, inLoop, inSwitch)
             && ElseOk(s.els, AfterBlock(s.thn, ctx), inLoop, inSwitch))
  {
    hide StmtCode, After, StmtOk, BreakSites, ArmsCode, BlockCode;
    IfUnfolds(s, ctx, inLoop, inSwitch);
    ArmSitesMoved([], s.thn, ctx, |ctx.locals|, s.els, AfterBlock(s.thn, ctx), |ExprCode(s.c, ctx)|, n);
  }

  lemma {:induction false} IfUnfolds(s: Stmt, ctx: Ctx, inLoop: bool, inSwitch: bool)
    requires s.If?
    ensures var c, mid := ExprCode(s.c, ctx), AfterBlock(s.thn, ctx);
            && StmtCode(s, ctx, None) == c + ArmsCode(0x51, BlockCode(s.thn, ctx, |ctx.locals|, None), s.els, mid, None)
            && After(s, ctx) == AfterElse(s.els, mid)
            && BreakSites(s, ctx) == ArmSites([], s.thn, ctx, |ctx.locals|, s.els, mid, |c|)
    ensures StmtOk(s, ctx, inLoop, inSwitch)
         == (ExprOk(s.c, ctx) && StmtOk(s.thn, ctx, inLoop, inSwitch)
             && ElseOk(s.els, AfterBlock(s.thn, ctx), inLoop, inSwitch))
  {
    hide ArmsCode, BlockCode, ExprCode, ExprOk;
  }

  lemma {:induction false} IfLetFacts(s: Stmt, ctx: Ctx, inLoop: bool, inSwitch: bool, n: nat)
    requires s.IfLet?
    ensures var c, inner, store := ExprCode(s.e, ctx), BindIfLet(s.x, ctx), BindingCode(s.x, ctx);
            var mid := AfterBlock(s.thn, inner).(locals := ctx.locals);
            && StmtCode(s, ctx, None)
               == c + ArmsCode(0x73, store + BlockCode(s.thn, inner, |ctx.locals|, None), s.els, mid, None)
            && After(s, ctx) == AfterElse(s.els, mid)
            && Moved(BreakSites(s, ctx), n) == ArmSites(store, s.thn, inner, |ctx.locals|, s.els, mid, n + |c|)
    ensures StmtOk(s, ctx, inLoop, inSwitch)
         == (ExprOk(s.e, ctx) && CanBindIfLet(s.x, ctx) && StmtOk(s.thn, BindIfLet(s.x, ctx), inLoop, inSwitch)
             && ElseOk(s.els, AfterBlock(s.thn, BindIfLet(s.x, ctx)).(locals := ctx.locals), inLoop, inSwitch))
  {
    hide StmtCode, After, StmtOk, BreakSites, ArmsCode, BlockCode, BindIfLet;
    IfLetUnfolds(s, ctx, inLoop, inSwitch);
    ArmSitesMoved(BindingCode(s.x, ctx), s.thn, BindIfLet(s.x, ctx), |ctx.locals|, s.els,
                  AfterBlock(s.thn, BindIfLet(s.x, ctx)).(locals := ctx.locals), |ExprCode(s.e, ctx)|, n);
  }

  lemma {:induction false} IfLetUnfolds(s: Stmt, ctx: Ctx, inLoop: bool, inSwitch: bool)
    requires s.IfLet?
    ensures var c, inner, store := ExprCode(s.e, ctx), BindIfLet(s.x, ctx), BindingCode(s.x, ctx);
            var mid := AfterBlock(s.thn, inner).(locals := ctx.locals);
            && StmtCode(s, ctx, None)
               == c + ArmsCode(0x73, store + BlockCode(s.thn, inner, |ctx.locals|, None), s.els, mid, None)
            && After(s, ctx) == AfterElse(s.els, mid)
            && BreakSites(s, ctx) == ArmSites(store, s.thn, inner, |ctx.locals|, s.els, mid, |c|)
    ensures StmtOk(s, ctx, inLoop, inSwitch)
         == (ExprOk(s.e, ctx) && CanBindIfLet(s.x, ctx) && StmtOk(s.thn, BindIfLet(s.x, ctx), inLoop, inSwitch)
             && ElseOk(s.els, AfterBlock(s.thn, BindIfLet(s.x, ctx)).(locals := ctx.locals), inLoop, inSwitch))
  {
    hide *;
    IfLetBytes(s, ctx);
    IfLetTables(s, ctx);
    IfLetSites(s, ctx);
    IfLetOk(s, ctx, inLoop, inSwitch);
  }

  lemma {:induction false} IfLetBytes(s: Stmt, ctx: Ctx)
    requires s.IfLet?
    ensures var c, inner, store := ExprCode(s.e, ctx), BindIfLet(s.x, ctx), BindingCode(s.x, ctx);
            StmtCode(s, ctx, None)
            == c + ArmsCode(0x73, store + BlockCode(s.thn, inner, |ctx.locals|, None), s.els,
                            AfterBlock(s.thn, inner).(locals := ctx.locals), None)
  {
    hide ArmsCode, BlockCode, ExprCode, BindIfLet, BindingCode, AfterBlock;
  }

  lemma {:induction false} IfLetTables(s: Stmt, ctx: Ctx)
    requires s.IfLet?
    ensures After(s, ctx) == AfterElse(s.els, AfterBlock(s.thn, BindIfLet(s.x, ctx)).(locals := ctx.locals))
  {
    hide AfterElse, AfterBlock, BindIfLet;
  }

  lemma {:induction false} IfLetSites(s: Stmt, ctx: Ctx)
    requires s.IfLet?
    ensures var inner := BindIfLet(s.x, ctx);
            BreakSites(s, ctx) == ArmSites(BindingCode(s.x, ctx), s.thn, inner, |ctx.locals|, s.els,
                                           AfterBlock(s.thn, inner).(locals := ctx.locals), |ExprCode(s.e, ctx)|)
  {
    hide ExprCode, BindIfLet, StmtCode;
  }

  lemma {:induction false} IfLetOk(s: Stmt, ctx: Ctx, inLoop: bool, inSwitch: bool)
    requires s.IfLet?
    ensures StmtOk(s, ctx, inLoop, inSwitch)
         == (ExprOk(s.e, ctx) && CanBindIfLet(s.x, ctx) && StmtOk(s.thn, BindIfLet(s.x, ctx), inLoop, inSwitch)
             && ElseOk(s.els, AfterBlock(s.thn, BindIfLet(s.x, ctx)).(locals := ctx.locals), inLoop, inSwitch))
  {
    hide ExprOk, BindIfLet, CanBindIfLet, AfterBlock;
  }

  lemma {:induction false} BlockParts(s: Stmt, ctx: Ctx, base: nat)
    requires base <= |ctx.locals|
    ensures BlockCode(s, ctx, base, None) == StmtCode(s, ctx, None) + Pops(|After(s, ctx).locals| - base)
    ensures base <= |After(s, ctx).locals| && After(s, ctx).locals[..base] == ctx.locals[..base]
  {
    hide StmtCode, After;
  }

  lemma {:induction false} ArmsUnfold(test: Byte, first: seq<Byte>, other: Stmt, ctx: Ctx)
    ensures var code := BlockCode(other, ctx, |ctx.locals|, None);
            ArmsCode(test, first, Some(other), ctx, None)
            == JumpCode(test, |first| + 3) + first + JumpCode(0x50, |code|) + code
  {
    hide BlockCode;
  }

  lemma {:induction false} ArmSitesJoin(store: seq<Byte>, thn: Stmt, inner: Ctx, base: nat, els: Option<Stmt>, outer: Ctx, n: nat,
                     lps: seq<seq<nat>>)
    requires base <= |inner.locals|
    ensures var first := store + BlockCode(thn, inner, base, None);
            WithSites(WithSites(lps, Moved(BreakSites(thn, inner), n + 3 + |store|)), ElseSites(els, outer, n + 3 + |first| + 3))
            == WithSites(lps, ArmSites(store, thn, inner, base, els, outer, n))
  {
    hide BreakSites, BlockCode, ElseSites, Moved, WithSites;
    SitesTwice(lps, Moved(BreakSites(thn, inner), n + 3 + |store|),
               ElseSites(els, outer, n + 3 + |store + BlockCode(thn, inner, base, None)| + 3));
  }

  lemma {:induction false} RegroupArm(a: seq<Byte>, b: seq<Byte>, c: seq<Byte>, d: seq<Byte>)
    ensures a + (b + c) + d == a + b + (c + d)
  {
  }

  lemma {:induction false} NoStore(code: seq<Byte>)
    ensures [] + code == code
  {
  }

  lemma {:induction false} BoundLocals(x: Name, ctx: Ctx)
    ensures |ctx.locals| <= |BindIfLet(x, ctx).locals| && BindIfLet(x, ctx).locals[..|ctx.locals|] == ctx.locals
  {
  }

  /** A new name is found in the slot it was added to. */
  lemma {:induction false} GlobalAdded(ts: seq<Sym>, y: Sym)
    requires Find(ts, y.name).None? && y.name != ""
    ensures Find(ts + [y], y.name) == Some(|ts|)
  {
    assert (ts + [y])[|ts|] == y;
    assert forall j :: 0 <= j < |ts| ==> (ts + [y])[j] == ts[j];
  }

  // ----- loops -----

  /** Patching the breaks of a loop body, once everything up to the loop's exit has been emitted. */
  lemma {:induction false} LoopPatched(pre: seq<Byte>, body: Stmt, ctx: Ctx, post: seq<Byte>)
    ensures var open, sites := BlockCode(body, ctx, |ctx.locals|, None), BreakSites(body, ctx);
            var d := |open| + |post|;
            && Inside(Moved(sites, |pre|), |pre + open + post|)
            && PatchAll(pre + open + post, Moved(sites, |pre|), |pre| + d)
               == pre + BlockCode(body, ctx, |ctx.locals|, Some(d)) + post
            && |BlockCode(body, ctx, |ctx.locals|, Some(d))| == |open|
  {
    hide BlockCode, BreakSites, PatchAll, Moved;
    var open := BlockCode(body, ctx, |ctx.locals|, None);
    var d := |open| + |post|;
    PatchBlock(body, ctx, |ctx.locals|, d);
    PatchMiddle(pre, open, post, BreakSites(body, ctx), |pre| + d);
  }

  lemma {:induction false} OpenLoop(loops: seq<seq<nat>>, sites: seq<nat>)
    ensures WithSites(loops + [[]], sites) == loops + [sites] && loops + [[]] != []
  {
    assert [] + sites == sites;
  }

  /** A closed loop: `head`, the exit jump, the body, `next` and the jump back to `start`. */
  function LoopCode(head: seq<Byte>, body: Stmt, ctx: Ctx, next: seq<Byte>, start: nat): seq<Byte> {
    var n := |BlockCode(body, ctx, |ctx.locals|, None)| + |next|;
    head + JumpCode(0x51, n + 3) + BlockCode(body, ctx, |ctx.locals|, Some(n + 3)) + next
    + JumpCode(0x53, |head| + 3 + n + 3 - start)
  }

  lemma {:induction false} WhileLayout(out: seq<Byte>, c: seq<Byte>, open: seq<Byte>)
    ensures var j := JumpCode(0x51, OPEN);
            out + (c + j) + open == out + c + j + (open + []) && out + (c + j) + open == out + (c + j + open)
  {
  }

  lemma {:induction false} WhileFacts(s: Stmt, ctx: Ctx, inLoop: bool, inSwitch: bool, out: seq<Byte>)
    requires s.While?
    ensures LoopCode(out + ExprCode(s.c, ctx), s.body, ctx, [], |out|) == out + StmtCode(s, ctx, None)
    ensures After(s, ctx) == AfterBlock(s.body, ctx) && Moved(BreakSites(s, ctx), |out|) == []
    ensures StmtOk(s, ctx, inLoop, inSwitch) == (ExprOk(s.c, ctx) && StmtOk(s.body, ctx, true, inSwitch))
  {
    hide ExprCode, ExprOk, BlockCode, JumpCode;
    var c, n := ExprCode(s.c, ctx), |BlockCode(s.body, ctx, |ctx.locals|, None)|;
    var jump, block, back := JumpCode(0x51, n + 3), BlockCode(s.body, ctx, |ctx.locals|, Some(n + 3)), JumpCode(0x53, |c| + n + 6);
    assert StmtCode(s, ctx, None) == c + jump + block + back;
    assert out + c + jump + block + [] + back == out + (c + jump + block + back);
  }

  /** What a `for` loop emits in front of its turns. */
  function ForHead(s: Stmt, outer: Ctx): seq<Byte>
    requires s.ForIn?
  {
    ExprCode(s.lo, outer) + ExprCode(s.hi, outer) + [0x12, 0x22, SlotOf(s.x, outer)]
  }

  function ForCheck(s: Stmt, outer: Ctx): (r: seq<Byte>)
    requires s.ForIn?
    ensures |r| == 4
  {
    [0x20, SlotOf(s.x, outer), 0x13, if s.closed then 0x43 else 0x42]
  }

  function ForStep(s: Stmt, outer: Ctx): (r: seq<Byte>)
    requires s.ForIn?
    ensures |r| == 5
  {
    [0x20, SlotOf(s.x, outer), 0x36, 0x21, SlotOf(s.x, outer)]
  }

  lemma {:induction false} ForFacts(s: Stmt, ctx: Ctx, inLoop: bool, inSwitch: bool, out: seq<Byte>)
    requires s.ForIn?
    ensures var outer := BindLoopVar(s.x, ctx);
            var inner := ReserveBound(outer);
            var head := out + ForHead(s, outer);
            && LoopCode(head + ForCheck(s, outer), s.body, inner, ForStep(s, outer), |head|) + [0x10] == out + StmtCode(s, ctx, None)
            && After(s, ctx) == AfterBlock(s.body, inner).(locals := ctx.locals)
            && Moved(BreakSites(s, ctx), |out|) == []
            && StmtOk(s, ctx, inLoop, inSwitch)
               == (CanLoopOver(s.x, ctx) && ExprOk(s.lo, outer) && ExprOk(s.hi, outer) && StmtOk(s.body, inner, true, inSwitch))
  {
    hide ExprCode, ExprOk, BlockCode, JumpCode, BindLoopVar, ReserveBound, CanLoopOver, SlotOf, StmtOk, LoopCode;
    ForUnfolds(s, ctx, inLoop, inSwitch);
    var outer := BindLoopVar(s.x, ctx);
    var inner := ReserveBound(outer);
    var n := |BlockCode(s.body, inner, |inner.locals|, None)|;
    ForLayout(s, out, ForHead(s, outer), outer, inner, n);
  }

  lemma {:induction false} ForUnfolds(s: Stmt, ctx: Ctx, inLoop: bool, inSwitch: bool)
    requires s.ForIn?
    ensures var outer := BindLoopVar(s.x, ctx);
            var inner := ReserveBound(outer);
            var n, g := |BlockCode(s.body, inner, |inner.locals|, None)|, SlotOf(s.x, outer);
            && StmtCode(s, ctx, None) == ForHead(s, outer) + ForTest(g, s.closed, n)
                                         + BlockCode(s.body, inner, |inner.locals|, Some(n + 8)) + ForNext(g, n) + [0x10]
            && After(s, ctx) == AfterBlock(s.body, inner).(locals := ctx.locals)
            && BreakSites(s, ctx) == []
            && StmtOk(s, ctx, inLoop, inSwitch)
               == (CanLoopOver(s.x, ctx) && ExprOk(s.lo, outer) && ExprOk(s.hi, outer) && StmtOk(s.body, inner, true, inSwitch))
  {
    hide ExprCode, ExprOk, BlockCode, JumpCode, BindLoopVar, ReserveBound, CanLoopOver, SlotOf, ForTest, ForNext;
  }

  lemma {:induction false} ForLayout(s: Stmt, out: seq<Byte>, head: seq<Byte>, outer: Ctx, inner: Ctx, n: nat)
    requires s.ForIn? && n == |BlockCode(s.body, inner, |inner.locals|, None)|
    ensures var g := SlotOf(s.x, outer);
            LoopCode(out + head + ForCheck(s, outer), s.body, inner, ForStep(s, outer), |out + head|) + [0x10]
            == out + (head + ForTest(g, s.closed, n) + BlockCode(s.body, inner, |inner.locals|, Some(n + 8)) + ForNext(g, n) + [0x10])
  {
    hide BlockCode, JumpCode, SlotOf;
    var g := SlotOf(s.x, outer);
    var check, step := ForCheck(s, outer), ForStep(s, outer);
    var j, back, block := JumpCode(0x51, n + 8), JumpCode(0x53, n + 15), BlockCode(s.body, inner, |inner.locals|, Some(n + 8));
    assert ForTest(g, s.closed, n) == check + j && ForNext(g, n) == step + back;
    assert out + head + check + j + block + step + back + [0x10]
        == out + (head + (check + j) + block + (step + back) + [0x10]);
  }

  // ----- switch -----

  lemma {:induction false} TestsUnfold(values: Exprs, ctx: Ctx, skip: int)
    requires values.Exprs? && skip >= 0
    ensures var c, more := ExprCode(values.first, ctx), TestsCode(values.rest, ctx, skip);
            TestsCode(values, ctx, skip)
            == if values.rest == NoExprs then [0x11] + c + [0x40] + JumpCode(0x51, skip)
               else [0x11] + c + [0x40] + JumpCode(0x52, |more|) + more
  {
    hide ExprCode, JumpCode;
    var c, more := ExprCode(values.first, ctx), TestsCode(values.rest, ctx, skip);
    if values.rest == NoExprs {
      assert [0x11] + c + ([0x40] + JumpCode(0x51, skip)) == [0x11] + c + [0x40] + JumpCode(0x51, skip);
    } else {
      assert [0x11] + c + ([0x40] + JumpCode(0x52, |more|)) + more == [0x11] + c + [0x40] + JumpCode(0x52, |more|) + more;
    }
  }

  /** The last two bytes of the tests are the distance to jump when none succeeds. */
  lemma {:induction false} TestsTail(values: Exprs, ctx: Ctx, k1: nat, k2: nat)
    requires values.Exprs?
    ensures var a, b := TestsCode(values, ctx, k1), TestsCode(values, ctx, k2);
            |a| == |b| >= 2 && a[..|a| - 2] == b[..|a| - 2] && b == b[..|a| - 2] + Le16(k2)
    decreases values
  {
    hide ExprCode;
    TestsUnfold(values, ctx, k1);
    TestsUnfold(values, ctx, k2);
    if values.rest != NoExprs {
      TestsTail(values.rest, ctx, k1, k2);
    }
  }

  lemma {:induction false} PatchTests(out: seq<Byte>, values: Exprs, ctx: Ctx, clause: seq<Byte>)
    requires values.Exprs?
    ensures var a := TestsCode(values, ctx, OPEN);
            && |a| >= 2
            && PatchOne(out + a + clause, |out| + |a| - 2, |out| + |a| + |clause|)
               == out + TestsCode(values, ctx, |clause|) + clause
  {
    hide TestsCode, Le16;
    var a, b := TestsCode(values, ctx, OPEN), TestsCode(values, ctx, |clause|);
    TestsTail(values, ctx, OPEN, |clause|);
    var site := |out| + |a| - 2;
    var r, e := PatchOne(out + a + clause, site, |out| + |a| + |clause|), out + b + clause;
    var d := Le16(|clause|);
    forall i | 0 <= i < |r|
      ensures r[i] == e[i]
    {
      if |out| <= i < site {
        assert a[..|a| - 2][i - |out|] == b[..|a| - 2][i - |out|];
      } else if site <= i < site + 2 {
        assert b[i - |out|] == d[i - site];
      }
    }
  }

  lemma {:induction false} CaseFacts(cases: Cases, ctx: Ctx, inLoop: bool, n: nat)
    requires cases.Case?
    ensures var mid := AfterBlock(cases.body, ctx);
            var others := CasesCode(cases.rest, mid, None);
            var clause := ClauseCode(cases.body, ctx, |others|, None);
            var t := |TestsCode(cases.values, ctx, OPEN)|;
            && CasesCode(cases, ctx, None) == TestsCode(cases.values, ctx, |clause|) + clause + others
            && AfterCases(cases, ctx) == AfterCases(cases.rest, mid)
            && CasesOk(cases, ctx, inLoop)
               == (cases.values.Exprs? && ExprsOk(cases.values, ctx) && StmtOk(cases.body, ctx, inLoop, true)
                   && CasesOk(cases.rest, mid, inLoop))
            && Moved(CasesSites(cases, ctx), n)
               == Moved(BreakSites(cases.body, ctx), n + t + 1) + Moved(CasesSites(cases.rest, mid), n + t + |clause|)
  {
    hide TestsCode, ClauseCode, StmtOk, ExprsOk, BreakSites, Moved, After;
    var mid := AfterBlock(cases.body, ctx);
    var others := CasesCode(cases.rest, mid, None);
    ClauseLength(cases.body, ctx, 0, |others|, None, None);
    var clause := ClauseCode(cases.body, ctx, |others|, None);
    TestsLength(cases.values, ctx, 0, OPEN);
    TestsLength(cases.values, ctx, |clause|, OPEN);
    var t := |TestsCode(cases.values, ctx, OPEN)|;
    MovedConcat(Moved(BreakSites(cases.body, ctx), t + 1), Moved(CasesSites(cases.rest, mid), t + |clause|), n);
    MovedTwice(BreakSites(cases.body, ctx), t + 1, n);
    MovedTwice(CasesSites(cases.rest, mid), t + |clause|, n);
  }

  lemma {:induction false} SwitchFacts(s: Stmt, ctx: Ctx, inLoop: bool, inSwitch: bool, n: nat)
    requires s.Switch?
    ensures var c := ExprCode(s.e, ctx);
            && StmtCode(s, ctx, None) == c + CasesCode(s.cases, ctx, None)
            && After(s, ctx) == AfterCases(s.cases, ctx)
            && StmtOk(s, ctx, inLoop, inSwitch) == (!inSwitch && ExprOk(s.e, ctx) && CasesOk(s.cases, ctx, inLoop))
            && Moved(BreakSites(s, ctx), n) == Moved(CasesSites(s.cases, ctx), n + |c|)
  {
    hide ExprCode, ExprOk, CasesCode, CasesOk, AfterCases, CasesSites, Moved;
    MovedTwice(CasesSites(s.cases, ctx), |ExprCode(s.e, ctx)|, n);
  }

  lemma {:induction false} LastByteBehind(out: seq<Byte>, code: seq<Byte>)
    requires |out| > 0 && out[|out| - 1] == 0x10
    ensures LastByteReturns(out + code) == LastByteReturns(code)
  {
    if code != [] {
      assert (out + code)[|out + code| - 1] == code[|code| - 1];
    }
  }

  lemma {:induction false} ClauseParts(body: Stmt, ctx: Ctx, others: nat)
    ensures ClauseCode(body, ctx, others, None)
         == if LastByteReturns(StmtCode(body, ctx, None)) then [0x10] + ClauseBody(body, ctx, None)
            else [0x10] + ClauseBody(body, ctx, None) + JumpCode(0x50, others)
  {
    hide ClauseBody, StmtCode, JumpCode;
    assert [0x10] + ClauseBody(body, ctx, None) + [] == [0x10] + ClauseBody(body, ctx, None);
  }

  // ----- functions -----

  lemma {:induction false} BodyCtxOf(f: FuncDecl, z: Session)
    ensures FuncCtx(f, z) == Ctx(ParamSyms(f.params), z.globals, z.funcs + [SigOf(f)], true, f.hasReturn)
  {
  }

  lemma {:induction false} ParamsAdd(params: seq<Name>, i: nat)
    requires i < |params|
    ensures ParamSyms(params[..i + 1]) == ParamSyms(params[..i]) + [Sym(params[i], false)]
  {
  }

  lemma {:induction false} ParamFound(params: seq<Name>, x: Name)
    requires x != ""
    ensures Find(ParamSyms(params), x).None? <==> x !in params
  {
    var ts := ParamSyms(params);
    if x in params {
      var i :| 0 <= i < |params| && params[i] == x;
      assert ts[i].name == x;
    }
    if Find(ts, x).Some? {
      assert ts[Find(ts, x).value].name == params[Find(ts, x).value];
    }
  }

  /** The parameter lists the compiler accepts. */
  predicate ParamsOk(params: seq<Name>) {
    && |params| <= MAX_LOCALS
    && (forall i :: 0 <= i < |params| ==> NameOk(params[i]))
    && (forall i, j :: 0 <= i < j < |params| ==> params[i] != params[j])
  }

  lemma {:induction false} NoParams()
    ensures forall params: seq<Name> :: ParamsOk(params[..0]) && ParamSyms(params[..0]) == []
  {
  }

  /** Parameter `i` can be declared behind the ones before it exactly if the list is fine so far. */
  lemma {:induction false} ParamsStep(params: seq<Name>, i: nat)
    requires i < |params| && ParamsOk(params[..i])
    ensures var x, before := params[i], ParamSyms(params[..i]);
            var ok := 0 < |x| < IDENT_MAX && Find(before, x).None? && |before| < MAX_LOCALS;
            && ParamSyms(params[..i + 1]) == before + [Sym(x, false)]
            && (ok ==> ParamsOk(params[..i + 1])) && (!ok ==> !ParamsOk(params))
  {
    ParamsAdd(params, i);
    if params[i] != "" {
      ParamFound(params[..i], params[i]);
      if params[i] in params[..i] {
        var j :| 0 <= j < i && params[..i][j] == params[i];
        assert params[j] == params[i];
      } else {
        assert forall j :: 0 <= j < i ==> params[j] == params[..i][j];
      }
    }
  }

  /** What the rotation of a finished body does to the code: arena, body, top-level code. */
  lemma {:induction false} RotatedCode(all: seq<Byte>, lo: nat, mid: nat, hi: nat)
    requires lo <= mid <= hi <= |all|
    ensures var r := Rotated(all, lo, mid, hi);
            && r[..lo + (hi - mid)] == all[..lo] + all[mid..hi]
            && r[lo + (hi - mid)..hi] == all[lo..mid]
  {
  }

  // ----- programs -----

  predicate ItemWritable(item: Item) {
    match item case Func(f) => StmtWritable(f.body) case Top(s) => StmtWritable(s)
  }

  predicate ProgramWritable(items: seq<Item>) {
    forall i :: 0 <= i < |items| ==> ItemWritable(items[i])
  }

  /** The session after those of `programs` that `accepted` marks. */
  function SessionAfterAll(programs: seq<seq<Item>>, accepted: seq<bool>, z: Session): Session
    requires |accepted| == |programs|
    decreases |programs|
  {
    if programs == [] then z
    else
      var n := |programs| - 1;
      var before := SessionAfterAll(programs[..n], accepted[..n], z);
      if accepted[n] then SessionAfter(programs[n], before) else before
  }

  lemma {:induction false} AllLocals(ctx: Ctx)
    ensures ctx.locals[..|ctx.locals|] == ctx.locals
  {
  }

  lemma {:induction false} PopsAdd(n: nat)
    ensures Pops(n) + [0x10] == Pops(n + 1)
  {
  }

  /** opcode_for_binop; 0xFF traps. */
  function BinOpcode(t: Token): Byte {
    match t case TOp(op) => OpByte(op) case _ => 0xFF
  }

  lemma {:induction false} Regroup(a: seq<Byte>, b: seq<Byte>, c: seq<Byte>, d: seq<Byte>)
    ensures a + b + c + d == a + (b + c + d)
  {
  }

  lemma {:induction false} Joins(a: seq<Byte>, b: seq<Byte>, c: seq<Byte>, d: seq<Byte>)
    ensures a + (b + c) + d == a + b + c + d == a + (b + c + d)
  {
  }

  lemma {:induction false} UnwrapFacts(e: Expr, ctx: Ctx)
    ensures ExprCode(Unwrap(e), ctx) == ExprCode(e, ctx) + [0x70] && ExprOk(Unwrap(e), ctx) == ExprOk(e, ctx)
  {
  }


  lemma {:induction false} CasesParts(cases: Cases)
    requires CasesWritable(cases) && cases.Case?
    ensures (cases.values.Exprs? ==> ArgsWritable(cases.values)) && StmtWritable(cases.body)
  {
  }


  class Parser {
    const bc: array<Byte>
    var pos: nat
    var err: Option<Fault>
    var toks: seq<Token>
    var at: nat
    var globals: seq<Sym>
    var locals: seq<Sym>
    var funcs: seq<FuncSig>
    var starts: seq<nat>
    var arenaUsed: nat
    var inFn: bool
    var fnHasReturn: bool
    var inSwitch: bool
    var loops: seq<seq<nat>>  // for each open loop, the operands of its breaks
    var parked: seq<nat>      // the LIFO of values that outlive a recursive call
    var switchEnds: nat       // how many ends of clauses wait for the end of the switch

    ghost predicate Valid()
      reads this
    {
      && pos <= bc.Length && at <= |toks| && arenaUsed <= pos && (!inFn ==> locals == [])
      && (err == Some(Limit) ==> AtLimit())
    }

    /** The buffer is full, as many loops are open as can be, the innermost one has as many breaks as it can have, or
      * the switch has as many clauses that end with a jump as it can have. */
    ghost predicate AtLimit()
      reads this`pos, this`loops, this`switchEnds
    {
      || pos == bc.Length
      || |loops| >= LOOPS_MAX_DEPTH || (loops != [] && |loops[|loops| - 1]| >= LOOPS_MAX_BREAKS)
      || switchEnds >= SWITCH_MAX_CASES
    }

    /** The bytecode so far. */
    ghost function Out(): (r: seq<Byte>)
      reads this`pos, bc
      requires pos <= bc.Length
      ensures |r| == pos
    {
      bc[..pos]
    }

    /** The symbol tables in force. */
    ghost function Tables(): Ctx
      reads this
    {
      Ctx(locals, globals, funcs, inFn, fnHasReturn)
    }

    ghost function Rest(): seq<Token>
      reads this
      requires Valid()
    {
      toks[at..]
    }

    /** Code below `out` is never touched again. */
    ghost predicate Kept(out: seq<Byte>)
      reads this`pos, bc
    {
      pos <= bc.Length && out <= Out()
    }

    /** `code` has been appended to `out`, unless the buffer is full or the compile had failed before. */
    ghost predicate Wrote(err0: Option<Fault>, out: seq<Byte>, code: seq<Byte>)
      reads this, bc
      requires Valid()
    {
      && (err0.Some? ==> err == err0)
      && (err0.None? ==> err.None? || err == Some(Limit))
      && (if err.None? then Out() == out + code else Kept(out))
    }

    /** Code of `n` bytes behind the first `before` fails to be appended exactly if the buffer is too small for it. */
    ghost predicate FailsIfFull(err0: Option<Fault>, before: nat, n: nat)
      reads this
    {
      err0.None? ==> (err == if before + n <= bc.Length then None else Some(Limit))
    }

    lemma {:induction false} KeptBelow(out: seq<Byte>, code: seq<Byte>)
      requires Valid() && Kept(out + code)
      ensures Kept(out)
    {
      assert out <= out + code;
    }

    lemma {:induction false} KeptNow()
      requires Valid()
      ensures Kept(Out())
    {
    }

    // ----- errors and tokens -----

    /** parser_fail: the first failure wins. */
    method Fail(f: Fault)
      modifies this`err
      ensures err == if old(err).Some? then old(err) else Some(f)
    {
      if err.None? {
        err := Some(f);
      }
    }

    /** The current token. */
    method Tok() returns (t: Token)
      requires Valid()
      ensures t == Head(Rest())
    {
      t := if at < |toks| then toks[at] else TEnd;
    }

    /** lexer_next. */
    method Advance()
      requires Valid()
      modifies this`at
      ensures Valid()
      ensures old(Rest()) != [] ==> Rest() == old(Rest())[1..] && at > old(at)
      ensures old(Rest()) == [] ==> Rest() == []
    {
      if at < |toks| {
        at := at + 1;
      }
    }

    // ----- emission -----

    method EmitByte(b: Byte)
      requires Valid()
      modifies this`pos, this`err, bc
      ensures Valid() && Wrote(old(err), old(Out()), [b])
      ensures FailsIfFull(old(err), old(pos), 1)
    {
      if err.Some? {
        return;
      }
      if pos >= bc.Length {
        Fail(Limit);
        return;
      }
      bc[pos] := b;
      pos := pos + 1;
    }

    method EmitPair(op: Byte, operand: Byte)
      requires Valid()
      modifies this`pos, this`err, bc
      ensures Valid() && Wrote(old(err), old(Out()), [op, operand])
      ensures FailsIfFull(old(err), old(pos), 2)
    {
      EmitByte(op);
      EmitByte(operand);
    }

    method EmitTriple(a: Byte, b: Byte, c: Byte)
      requires Valid()
      modifies this`pos, this`err, bc
      ensures Valid() && Wrote(old(err), old(Out()), [a, b, c])
      ensures FailsIfFull(old(err), old(pos), 3)
    {
      EmitByte(a);
      EmitByte(b);
      EmitByte(c);
    }

    method EmitWord(op: Byte, w: int)
      requires Valid()
      modifies this`pos, this`err, bc
      ensures Valid() && Wrote(old(err), old(Out()), [op] + Le16(w))
      ensures FailsIfFull(old(err), old(pos), 3)
    {
      EmitTriple(op, Le16(w)[0], Le16(w)[1]);
    }

    /** emit_int_literal: the shorter form for 0 to 255. */
    method EmitInt(n: I16)
      requires Valid()
      modifies this`pos, this`err, bc
      ensures Valid() && Wrote(old(err), old(Out()), IntCode(n))
      ensures FailsIfFull(old(err), old(pos), |IntCode(n)|)
    {
      if 0 <= n <= 255 {
        EmitPair(0x03, n);
      } else {
        EmitWord(0x04, n);
      }
    }

    /** A jump still to be aimed; `site` is where its operand is. */
    method EmitPlaceholder(op: Byte) returns (site: nat)
      requires Valid()
      modifies this`pos, this`err, bc
      ensures Valid() && Wrote(old(err), old(Out()), JumpCode(op, OPEN))
      ensures err.None? ==> site == old(pos) + 1
      ensures FailsIfFull(old(err), old(pos), 3)
    {
      site := pos + 1;
      EmitTriple(op, 0xFF, 0xFF);
    }

    /** patch_jump_to_here. */
    method PatchHere(site: nat)
      requires Valid() && site + 2 <= pos
      modifies bc
      ensures Valid()
      ensures Out() == if err.None? then PatchOne(old(Out()), site, pos) else old(Out())
    {
      if err.Some? {
        return;
      }
      var d := Le16(pos - (site + 2));
      bc[site] := d[0];
      bc[site + 1] := d[1];
    }

    /** Aim the jump between the code `a` and the code `b` behind the end of `b`. */
    method AimHere(site: nat, ghost a: seq<Byte>, ghost op: Byte, ghost b: seq<Byte>)
      requires Valid() && err.None? && Out() == a + JumpCode(op, OPEN) + b && site == |a| + 1
      modifies bc
      ensures Valid() && Out() == a + JumpCode(op, |b|) + b
    {
      hide PatchOne, JumpCode;
      PatchPlaceholder(a, op, OPEN, b);
      PatchHere(site);
    }

    /** emit_loop: jump back to `start`. */
    method EmitLoop(start: nat)
      requires Valid() && start <= pos
      modifies this`pos, this`err, bc
      ensures Valid() && Wrote(old(err), old(Out()), JumpCode(0x53, old(pos) + 3 - start))
      ensures FailsIfFull(old(err), old(pos), 3)
    {
      var back := pos + 3 - start;
      EmitTriple(0x53, Le16(back)[0], Le16(back)[1]);
    }

    method Park(v: nat)
      modifies this`parked
      ensures parked == old(parked) + [v]
    {
      parked := parked + [v];
    }

    method Unpark() returns (v: nat)
      requires |parked| > 0
      modifies this`parked
      ensures v == old(parked)[|old(parked)| - 1] && parked == old(parked)[..|old(parked)| - 1]
    {
      v := parked[|parked| - 1];
      parked := parked[..|parked| - 1];
    }

    // ----- expressions -----

    /** The tokens that `r` consumes have been read, and the code of its tree appended to `out`. */
    ghost predicate Reads(r: Parsed, out: seq<Byte>)
      reads this, bc
      requires Valid()
    {
      && (r.NoParse? ==> err.Some?)
      && (r.Parsed? ==> err.None? || err == Some(Limit))
      && (if err.None? then Rest() == r.rest && Out() == out + ExprCode(r.e, Tables()) else Kept(out))
    }

    /** The slot of a name, as the find functions of the tables give it. */
    method Lookup(x: Name) returns (p: Place)
      requires Valid()
      ensures p == Resolve(x, Tables())
    {
      if inFn {
        var i := FindSym(locals, x);
        if i >= 0 {
          return Local(i);
        }
      }
      var g := FindSym(globals, x);
      p := if g >= 0 then Global(g) else Nowhere;
    }

    /** locals_find and globals_find: the first entry with the name, or -1. */
    static method FindSym(ts: seq<Sym>, x: Name) returns (i: int)
      ensures i == match Find(ts, x) case Some(k) => k case None => -1
    {
      if x == "" {
        return -1;
      }
      i := 0;
      while i < |ts|
        invariant 0 <= i <= |ts|
        invariant forall j :: 0 <= j < i ==> ts[j].name != x
      {
        if ts[i].name == x {
          assert Find(ts, x).Some?;
          return;
        }
        i := i + 1;
      }
      i := -1;
    }

    /** funcs_find. */
    static method FindFunction(ts: seq<FuncSig>, x: Name) returns (i: int)
      ensures i == match FindFunc(ts, x) case Some(k) => k case None => -1
    {
      i := 0;
      while i < |ts|
        invariant 0 <= i <= |ts|
        invariant forall j :: 0 <= j < i ==> ts[j].name != x
      {
        if ts[i].name == x {
          assert FindFunc(ts, x).Some?;
          return;
        }
        i := i + 1;
      }
      i := -1;
    }

    method ParseConstant(t: Token)
      requires Valid() && err.None? && t == Head(Rest()) && (t.TInt? || t == TTrue || t == TFalse || t == TNil)
      modifies this`pos, this`err, this`at, bc
      ensures Valid()
      ensures Reads(Primary(old(Rest()), Tables()), old(Out()))
    {
      hide ExprOk, Named, Climb, ExprCode, IntCode;
      SimpleCodes(Tables());
      if t.TInt? {
        EmitInt(t.n);
      } else {
        EmitByte(if t == TTrue then 0x01 else if t == TFalse then 0x02 else 0x00);
      }
      Advance();
    }


    method ParsePrimary()
      requires Valid() && err.None?
      modifies this`pos, this`err, this`at, this`parked, bc
      ensures Valid() && parked == old(parked)
      ensures Reads(Primary(old(Rest()), Tables()), old(Out()))
      decreases |toks| - at, 0
    {
      hide AtLimit, ExprOk, Named, Climb, ExprCode, IntCode;
      SimpleCodes(Tables());
      var t := Tok();
      match t {
        case TInt(_) => ParseConstant(t);
        case TTrue => ParseConstant(t);
        case TFalse => ParseConstant(t);
        case TNil => ParseConstant(t);
        case TLParen =>
          ParseGroup();
        case TBang => ParsePrefix(0x46);
        case TOp(op) =>
          if op == Arith(M.Sub) {
            ParsePrefix(0x35);
          } else {
            Fail(Rejected);
          }
        case TIdent(x) => ParseName(Clamp(x));
        case _ => Fail(Rejected);
      }
    }

    /** An opening parenthesis, and everything up to the closing one. */
    method ParseGroup()
      requires Valid() && err.None? && Head(Rest()) == TLParen
      modifies this`pos, this`err, this`at, this`parked, bc
      ensures Valid() && parked == old(parked)
      ensures Reads(Primary(old(Rest()), Tables()), old(Out()))
      decreases |toks| - at, 0, 0
    {
      hide ExprOk, Climb, ExprCode;
      Advance();
      ParseOperand(PREC_LOWEST);
      if err.Some? {
        return;
      }
      var close := Tok();
      if close != TRParen {
        Fail(Rejected);
        return;
      }
      Advance();
    }

    /** A primary and the infix operators from `min` on, without postfix operators in between: what stands
      * behind an opening parenthesis or a prefix operator. */
    method ParseOperand(min: nat)
      requires Valid() && err.None?
      modifies this`pos, this`err, this`at, this`parked, bc
      ensures Valid() && parked == old(parked)
      ensures Reads(Climb(old(Rest()), min, false, Tables()), old(Out()))
      decreases |toks| - at, 2
    {
      hide ExprOk, Primary, Infix;
      ghost var out, r := Out(), Primary(Rest(), Tables());
      ParsePrimary();
      if err.None? {
        ParseInfixLoop(min, r.e, out);
      }
    }

    /** A prefix operator: its operand, then its opcode. */
    method ParsePrefix(op: Byte)
      requires Valid() && err.None? && Rest() != [] && (op == 0x35 || op == 0x46)
      modifies this`pos, this`err, this`at, this`parked, bc
      ensures Valid() && parked == old(parked)
      ensures Reads(Prefixed(op == 0x46, Climb(old(Rest())[1..], PREC_UNARY, false, Tables())), old(Out()))
      decreases |toks| - at, 0, 0
    {
      hide ExprOk, Climb, ExprCode;
      SimpleCodes(Tables());
      Advance();
      ParseOperand(PREC_UNARY);
      if err.Some? {
        return;
      }
      EmitByte(op);
    }

    /** An identifier: the load of a variable, or a call. */
    method ParseName(x: Name)
      requires Valid() && err.None? && Rest() != [] && |x| < IDENT_MAX
      modifies this`pos, this`err, this`at, this`parked, bc
      ensures Valid() && parked == old(parked)
      ensures Reads(Named(x, old(Rest())[1..], Tables()), old(Out()))
      decreases |toks| - at, 0, 0
    {
      hide Arguments, ExprsOk, ExprsCode, ExprCode, ExprOk;
      SimpleCodes(Tables());
      var place := Lookup(x);
      match place {
        case Local(i) =>
          EmitPair(0x23, i % 0x100);
          Advance();
        case Global(i) =>
          EmitPair(0x20, i % 0x100);
          Advance();
        case Nowhere => ParseCallOf(x);
      }
    }

    /** A name that is no variable: the call of a function with that name. */
    method ParseCallOf(x: Name)
      requires Valid() && err.None? && Rest() != [] && |x| < IDENT_MAX && Resolve(x, Tables()).Nowhere?
      modifies this`pos, this`err, this`at, this`parked, bc
      ensures Valid() && parked == old(parked)
      ensures Reads(Named(x, old(Rest())[1..], Tables()), old(Out()))
      decreases |toks| - at, 0, 0, 0
    {
      hide AtLimit, Arguments, ExprsOk, ExprsCode, ExprCode, ExprOk, Resolve, Count, Named, CallCode;
      NamedNothing(x, Rest()[1..], Tables());
      var f := FindFunction(funcs, x);
      if x == "" || f < 0 {
        Fail(Rejected);
        return;
      }
      Advance();
      var open := Tok();
      if open != TLParen {
        Fail(Rejected);
        return;
      }
      NamedCall(x, Rest(), f, Tables());
      ParseCall(f);
    }

    /** parse_call_arglist_emit: the arguments in parentheses, then the call of function `f`. */
    method ParseCall(f: nat)
      requires Valid() && err.None? && f < |funcs| && Rest() != []
      modifies this`pos, this`err, this`at, this`parked, bc
      ensures Valid() && parked == old(parked) && (err.Some? ==> Kept(old(Out())))
      ensures var r := Arguments(old(Rest())[1..], Tables());
              if r.ParsedArgs? && Head(r.rest) == TRParen && Count(r.es) == funcs[f].params <= 255 then
                err == Some(Limit)
                || (err.None? && Rest() == r.rest[1..]
                    && Out() == old(Out()) + ExprsCode(r.es, Tables()) + [0x60, f % 0x100, Count(r.es) % 0x100])
              else err.Some?
      decreases |toks| - at, 8
    {
      hide AtLimit, Arguments, ExprsOk, ExprsCode, Count;
      Advance();
      var argc := ParseArguments(f);
      if err.Some? {
        return;
      }
      var t := Tok();
      if t != TRParen {
        Fail(Rejected);
        return;
      }
      Advance();
      if funcs[f].params != argc {
        Fail(Rejected);
        return;
      }
      EmitTriple(0x60, f % 0x100, argc % 0x100);
    }

    /** The arguments up to the closing parenthesis. */
    method ParseArguments(f: nat) returns (argc: nat)
      requires Valid() && err.None?
      modifies this`pos, this`err, this`at, this`parked, bc
      ensures Valid() && parked == old(parked) && (err.Some? ==> Kept(old(Out())))
      ensures ReadsArgs(Arguments(old(Rest()), Tables()), old(Out()), argc)
      decreases |toks| - at, 7
    {
      hide ExprsCode, ArgumentList;
      NothingListed(Tables());
      argc := 0;
      var t := Tok();
      if t != TRParen {
        argc := ParseArgumentList(f);
      }
    }

    ghost predicate ReadsArgs(r: ParsedArgs, out: seq<Byte>, argc: nat)
      reads this, bc
      requires Valid()
    {
      if r.NoArgs? then err.Some?
      else if err.Some? then err == Some(Limit) || Count(r.es) > 255
      else Rest() == r.rest && argc == Count(r.es) <= 255 && Out() == out + ExprsCode(r.es, Tables())
    }

    /** One argument. The function and the running count outlive the recursive call on the LIFO. */
    method ParseArgument(f: nat, argc: nat) returns (n: nat)
      requires Valid() && err.None?
      modifies this`pos, this`err, this`at, this`parked, bc
      ensures Valid() && parked == old(parked) && n == argc
      ensures Reads(Expression(old(Rest()), Tables()), old(Out()))
      decreases |toks| - at, 5, 0
    {
      ghost var before := parked;
      Park(f);
      Park(argc);
      assert (before + [f] + [argc])[..|before| + 1] == before + [f] && (before + [f])[..|before|] == before;
      ParseExpression();
      n := Unpark();
      var g := Unpark();
    }

    /** The argument loop that started at `ts`, after the arguments `done`. */
    ghost predicate InArguments(ts: seq<Token>, out: seq<Byte>, done: seq<Expr>, more: bool, argc: nat)
      reads this, bc
      requires Valid()
    {
      && argc == |done| <= 255 && Out() == out + Codes(done, Tables())
      && if more then ArgumentList(ts, Tables()) == Prepend(done, ArgumentList(Rest(), Tables()))
         else ArgumentList(ts, Tables()) == ParsedArgs(Listed(done, NoExprs), Rest())
    }

    /** One turn of the argument loop; it goes on behind a comma. */
    method ParseArgumentTurn(f: nat, argc: nat, ghost ts: seq<Token>, ghost out: seq<Byte>, ghost done: seq<Expr>)
      returns (n: nat, more: bool, ghost done': seq<Expr>)
      requires Valid() && err.None? && InArguments(ts, out, done, true, argc)
      modifies this`pos, this`err, this`at, this`parked, bc
      ensures Valid() && parked == old(parked)
      ensures if err.None? then InArguments(ts, out, done', more, n) && at > old(at)
              else Kept(out) && ReadsArgs(ArgumentList(ts, Tables()), out, n)
      decreases |toks| - at, 5, 1
    {
      hide AtLimit, ExprCode, ExprOk, Climb, ArgumentList, Listed, Codes, Count, Kept, Prepend;
      ghost var ctx, rest0, r := Tables(), Rest(), Climb(Rest(), PREC_LOWEST, true, Tables());
      ListTurn(done, Rest(), ctx);
      more, done' := false, done;
      n := ParseArgument(f, argc);
      if err.Some? {
        KeptBelow(out, Codes(done, ctx));
        return;
      }
      CodesAdd(done, r.e, ctx);
      done' := done + [r.e];
      if n == 255 {
        TurnTooMany(done, rest0, ctx);
        KeptNow();
        KeptBelow(out, Codes(done', ctx));
        Fail(Rejected);
        return;
      }
      n := n + 1;
      var t := Tok();
      if t == TComma {
        Advance();
        more := true;
      }
    }

    /** The argument loop. */
    method ParseArgumentList(f: nat) returns (argc: nat)
      requires Valid() && err.None?
      modifies this`pos, this`err, this`at, this`parked, bc
      ensures Valid() && parked == old(parked) && (err.Some? ==> Kept(old(Out())))
      ensures ReadsArgs(ArgumentList(old(Rest()), Tables()), old(Out()), argc)
      decreases |toks| - at, 6
    {
      hide ArgumentList, Listed, Codes, ExprsCode, Count, Kept;
      ghost var ctx, out, done, ts := Tables(), Out(), [], Rest();
      NothingListed(ctx);
      argc := 0;
      var more := true;
      while more
        invariant Valid() && err.None? && parked == old(parked) && at >= old(at)
        invariant InArguments(ts, out, done, more, argc)
        decreases |toks| - at, more
      {
        argc, more, done := ParseArgumentTurn(f, argc, ts, out, done);
        if err.Some? {
          return;
        }
      }
      ListedFacts(done, NoExprs, ctx);
    }

    /** apply_postfix, behind the code of `e`. */
    method ApplyPostfix(ghost e: Expr, ghost out: seq<Byte>)
      requires Valid() && err.None? && ExprOk(e, Tables()) && Out() == out + ExprCode(e, Tables())
      modifies this`pos, this`err, this`at, bc
      ensures Valid() && at >= old(at)
      ensures Reads(Postfix(e, old(Rest())), out)
    {
      hide AtLimit, ExprCode, ExprOk;
      ghost var e1 := e;
      var t := Tok();
      while t == TBang
        invariant Valid() && err.None? && toks == old(toks) && at >= old(at) && t == Head(Rest())
        invariant Out() == out + ExprCode(e1, Tables())
        invariant Postfix(e1, Rest()) == Postfix(e, old(Rest()))
        decreases |toks| - at
      {
        Advance();
        EmitByte(0x70);
        if err.Some? {
          return;
        }
        UnwrapFacts(e1, Tables());
        e1 := Unwrap(e1);
        t := Tok();
      }
    }

    /** parse_infix_loop, behind the code of the left operand `l`. */
    method ParseInfixLoop(min: nat, ghost l: Expr, ghost out: seq<Byte>)
      requires Valid() && err.None? && ExprOk(l, Tables()) && Out() == out + ExprCode(l, Tables())
      modifies this`pos, this`err, this`at, this`parked, bc
      ensures Valid() && parked == old(parked)
      ensures Reads(Infix(l, old(Rest()), min, Tables()), out)
      decreases |toks| - at, 1
    {
      hide AtLimit, ExprCode, ExprOk, Climb, Primary, PatchOne;
      ghost var ctx, e := Tables(), l;
      while true
        invariant Valid() && err.None? && parked == old(parked) && toks == old(toks) && at >= old(at)
        invariant ExprOk(e, ctx) && Out() == out + ExprCode(e, ctx)
        invariant Infix(e, Rest(), min, ctx) == Infix(l, old(Rest()), min, ctx)
        decreases |toks| - at
      {
        var t := Tok();
        var p := InfixPrec(t);
        if p == PREC_NONE || p < min {
          return;
        }
        InfixTurn(e, Rest(), min, ctx);
        ghost var r := Climb(Rest()[1..], p + 1, true, ctx);
        Advance();
        ParseOperator(t, p, e, out);
        if err.Some? {
          return;
        }
        e := Combine(t, e, r.e);
      }
    }

    /** What follows an infix operator: its right operand, and before it the jumps that may skip it. */
    method ParseOperator(t: Token, p: nat, ghost l: Expr, ghost out: seq<Byte>)
      requires Valid() && err.None? && p == InfixPrec(t) > 0 && Out() == out + ExprCode(l, Tables())
      modifies this`pos, this`err, this`at, this`parked, bc
      ensures Valid() && parked == old(parked)
      ensures Reads(Combined(t, l, Climb(old(Rest()), p + 1, true, Tables())), out)
      decreases |toks| - at, 5
    {
      hide ExprCode, ExprOk, Climb, Combine, PatchOne;
      if t == TAnd || t == TOr {
        ParseShortCircuit(t, p, l, out);
      } else if t == TCoalesce {
        ParseCoalesce(p, l, out);
      } else {
        ParseBinary(t, p, l, out);
      }
    }

    /** The right operand of an operator that evaluates both, and the operator. */
    method ParseBinary(t: Token, p: nat, ghost l: Expr, ghost out: seq<Byte>)
      requires Valid() && err.None? && p == InfixPrec(t) > 0 && t.TOp? && Out() == out + ExprCode(l, Tables())
      modifies this`pos, this`err, this`at, this`parked, bc
      ensures Valid() && parked == old(parked)
      ensures Reads(Combined(t, l, Climb(old(Rest()), p + 1, true, Tables())), out)
      decreases |toks| - at, 4
    {
      hide ExprCode, ExprOk, Climb, Combine, PatchOne, InfixPrec, OpByte;
      ghost var cl, q := ExprCode(l, Tables()), Climb(Rest(), p + 1, true, Tables());
      ParseRhs(p);
      if err.None? {
        CombinedCode(t, l, q.e, Tables());
        Regroup(out, cl, ExprCode(q.e, Tables()), [OpByte(t.op)]);
        EmitByte(BinOpcode(t));
      }
    }

    method ParseCoalesce(p: nat, ghost l: Expr, ghost out: seq<Byte>)
      requires Valid() && err.None? && p == InfixPrec(TCoalesce) > 0 && Out() == out + ExprCode(l, Tables())
      modifies this`pos, this`err, this`at, this`parked, bc
      ensures Valid() && parked == old(parked)
      ensures Reads(Combined(TCoalesce, l, Climb(old(Rest()), p + 1, true, Tables())), out)
      decreases |toks| - at, 4
    {
      hide ExprCode, ExprOk, Climb, Combine, PatchOne, JumpCode, InfixPrec;
      ghost var ctx := Tables();
      ghost var q := Climb(Rest(), p + 1, true, ctx);
      var skip := EmitPlaceholder(0x72);
      if err.Some? {
        return;
      }
      ParseRhs(p);
      if err.None? {
        AimCoalesce(skip, l, q.e, out);
      }
    }

    /** Aim the jump around the right operand of `??`. */
    method AimCoalesce(skip: nat, ghost l: Expr, ghost r: Expr, ghost out: seq<Byte>)
      requires Valid() && err.None? && InfixPrec(TCoalesce) > 0
      requires var cl := ExprCode(l, Tables());
               Out() == out + cl + JumpCode(0x72, OPEN) + ExprCode(r, Tables()) && skip == |out| + |cl| + 1
      modifies bc
      ensures Valid() && Out() == out + ExprCode(Combine(TCoalesce, l, r), Tables())
    {
      hide ExprCode, Combine, PatchOne, JumpCode, InfixPrec;
      ghost var ctx, cl, cr := Tables(), ExprCode(l, Tables()), ExprCode(r, Tables());
      AimHere(skip, out + cl, 0x72, cr);
      Regroup(out, cl, JumpCode(0x72, |cr|), cr);
      CombinedCode(TCoalesce, l, r, ctx);
    }

    /** Test a copy of the value on the stack; drop the value itself when the test fails. */
    method EmitTest(test: Byte) returns (site: nat)
      requires Valid()
      modifies this`pos, this`err, bc
      ensures Valid() && Wrote(old(err), old(Out()), [0x11] + JumpCode(test, OPEN) + [0x10])
      ensures err.None? ==> site == old(pos) + 2
    {
      hide JumpCode;
      EmitByte(0x11);
      site := EmitPlaceholder(test);
      EmitByte(0x10);
    }

    method ParseShortCircuit(t: Token, p: nat, ghost l: Expr, ghost out: seq<Byte>)
      requires Valid() && err.None? && p == InfixPrec(t) && (t == TAnd || t == TOr) && Out() == out + ExprCode(l, Tables())
      modifies this`pos, this`err, this`at, this`parked, bc
      ensures Valid() && parked == old(parked)
      ensures Reads(Combined(t, l, Climb(old(Rest()), p + 1, true, Tables())), out)
      decreases |toks| - at, 4
    {
      hide AtLimit, ExprCode, ExprOk, Climb, Combine, PatchOne, JumpCode, InfixPrec, Combined;
      ghost var ctx, cl := Tables(), ExprCode(l, Tables());
      ghost var q := Climb(Rest(), p + 1, true, ctx);
      CombinedCases(t, l, q);
      var test: Byte := if t == TAnd then 0x51 else 0x52;
      var end := EmitTest(test);
      if err.Some? {
        KeptBelow(out, cl);
        return;
      }
      ParseRhs(p);
      if err.Some? {
        KeptBelow(out + cl, [0x11] + JumpCode(test, OPEN) + [0x10]);
        KeptBelow(out, cl);
        return;
      }
      AimShortCircuit(t, end, l, q.e, out);
    }

    /** The test of a short-circuit operator jumps behind its right operand. */
    method AimShortCircuit(t: Token, end: nat, ghost l: Expr, ghost r: Expr, ghost out: seq<Byte>)
      requires Valid() && err.None? && (t == TAnd || t == TOr)
      requires var test: Byte := if t == TAnd then 0x51 else 0x52;
               var cl := ExprCode(l, Tables());
               && end == |out| + |cl| + 2
               && Out() == out + cl + [0x11] + JumpCode(test, OPEN) + [0x10] + ExprCode(r, Tables())
      modifies bc
      ensures Valid() && Out() == out + ExprCode(Combine(t, l, r), Tables())
    {
      hide ExprCode, Combine, PatchOne, JumpCode;
      ghost var ctx, cl := Tables(), ExprCode(l, Tables());
      var test: Byte := if t == TAnd then 0x51 else 0x52;
      ghost var tail := [0x10] + ExprCode(r, ctx);
      assert Out() == out + cl + [0x11] + JumpCode(test, OPEN) + tail;
      AimHere(end, out + cl + [0x11], test, tail);
      Regroup(out, cl + [0x11], JumpCode(test, |tail|), tail);
      ShortCircuitTree(t, l, r, ctx);
    }


    /** parse_rhs: a primary, its postfix operators, and infix operators that bind more tightly. */
    method ParseRhs(p: nat)
      requires Valid() && err.None?
      modifies this`pos, this`err, this`at, this`parked, bc
      ensures Valid() && parked == old(parked)
      ensures Reads(Climb(old(Rest()), p + 1, true, Tables()), old(Out()))
      decreases |toks| - at, 3
    {
      hide ExprOk, Primary, Infix, Postfix, ExprCode;
      ghost var out, r := Out(), Primary(Rest(), Tables());
      ParsePrimary();
      if err.Some? {
        return;
      }
      ghost var q := Postfix(r.e, r.rest);
      ApplyPostfix(r.e, out);
      if err.Some? {
        return;
      }
      ParseInfixLoop(p + 1, q.e, out);
    }

    method ParseExpression()
      requires Valid() && err.None?
      modifies this`pos, this`err, this`at, this`parked, bc
      ensures Valid() && parked == old(parked)
      ensures Reads(Expression(old(Rest()), Tables()), old(Out()))
      decreases |toks| - at, 4
    {
      hide Climb;
      ParseRhs(0);
    }

    // ----- expressions inside statements -----

    /** The effect of compiling something with the code `code` that is accepted exactly if `ok`. */
    ghost predicate Emitted(ok: bool, out: seq<Byte>, code: seq<Byte>)
      reads this, bc
      requires Valid()
    {
      && (err == Some(Rejected) ==> !ok)
      && (if err.None? then ok && Out() == out + code else Kept(out))
    }

    /** Compile the text of `e`. What comes behind an expression in a statement ends it. */
    method CompileExpr(e: Expr)
      requires Valid() && err.None? && TextOf(e)
      modifies this`pos, this`err, this`toks, this`at, this`parked, bc
      ensures Valid() && parked == old(parked)
      ensures Emitted(ExprOk(e, Tables()), old(Out()), ExprCode(e, Tables()))
    {
      hide Expression, ExprOk, ExprCode, Written, Writable;
      ghost var out := Out();
      ExactlyTheWellFormed(e, Tables());
      toks := Written(e, PREC_LOWEST) + [TEnd];
      at := 0;
      assert Rest() == toks;
      ParseExpression();
      if err.Some? {
        return;
      }
      var t := Tok();
      if t != TEnd {
        ghost var r := Expression(toks, Tables());
        KeptBelow(out, ExprCode(r.e, Tables()));
        Fail(Rejected);
      }
    }

    /** The expressions of a list, up to `rest`, have been compiled. */
    ghost predicate InExprs(es: Exprs, rest: Exprs, out: seq<Byte>, done: seq<Expr>)
      reads this, bc
      requires Valid()
    {
      && |done| <= 255 && ArgsWritable(rest) && es == Listed(done, rest)
      && Out() == out + Codes(done, Tables()) && ExprsOk(es, Tables()) == ExprsOk(rest, Tables())
    }

    /** The arguments of `print`, which are not counted against a signature. */
    method CompileExprs(es: Exprs) returns (argc: nat)
      requires Valid() && err.None? && ArgsWritable(es)
      modifies this`pos, this`err, this`toks, this`at, this`parked, bc
      ensures Valid() && parked == old(parked)
      ensures Emitted(ExprsOk(es, Tables()) && Count(es) <= 255, old(Out()), ExprsCode(es, Tables()))
      ensures err.None? ==> argc == Count(es)
    {
      hide ExprOk, ExprCode, Kept, Writable, Listed, Codes;
      ghost var out, done := Out(), [];
      NothingListed(Tables());
      argc := 0;
      var rest := es;
      while rest.Exprs?
        invariant Valid() && err.None? && parked == old(parked) && argc == |done|
        invariant InExprs(es, rest, out, done)
        decreases rest
      {
        CompileNextExpr(rest.first, rest.rest, argc, es, out, done);
        done := done + [rest.first];
        if err.Some? {
          return;
        }
        rest := rest.rest;
        argc := argc + 1;
      }
      ListedFacts(done, NoExprs, Tables());
    }

    method CompileNextExpr(e: Expr, rest: Exprs, argc: nat, ghost es: Exprs, ghost out: seq<Byte>, ghost done: seq<Expr>)
      requires Valid() && err.None? && argc == |done| && InExprs(es, Exprs(e, rest), out, done)
      modifies this`pos, this`err, this`toks, this`at, this`parked, bc
      ensures Valid() && parked == old(parked)
      ensures if err.None? then InExprs(es, rest, out, done + [e])
              else Kept(out) && (err == Some(Rejected) ==> !ExprsOk(es, Tables()) || Count(es) > 255)
    {
      hide ExprOk, ExprCode, Kept, Writable, Listed, Codes, Count;
      ghost var ctx := Tables();
      ListedAdd(done, e, rest);
      CodesAdd(done, e, ctx);
      CompileExpr(e);
      if err.Some? {
        KeptBelow(out, Codes(done, ctx));
        return;
      }
      if argc == 255 {
        ListedFacts(done + [e], rest, ctx);
        KeptNow();
        KeptBelow(out, Codes(done + [e], ctx));
        Fail(Rejected);
      }
    }

    // ----- symbol tables -----

    /** locals_declare; the empty name reserves an anonymous slot. */
    method DeclareLocal(x: Name, isLet: bool) returns (ok: bool)
      requires Valid() && inFn
      modifies this`locals
      ensures Valid()
      ensures ok == (|x| < IDENT_MAX && Find(old(locals), x).None? && |old(locals)| < MAX_LOCALS)
      ensures locals == if ok then old(locals) + [Sym(x, isLet)] else old(locals)
    {
      var i := FindSym(locals, x);
      ok := |x| < IDENT_MAX && i < 0 && |locals| < MAX_LOCALS;
      if ok {
        locals := locals + [Sym(x, isLet)];
      }
    }

    /** globals_define. */
    method DefineGlobal(x: Name, isLet: bool) returns (ok: bool)
      requires Valid()
      modifies this`globals
      ensures Valid()
      ensures ok == (NameOk(x) && Find(old(globals), x).None? && |old(globals)| < MAX_GLOBALS)
      ensures globals == if ok then old(globals) + [Sym(x, isLet)] else old(globals)
    {
      var i := FindSym(globals, x);
      ok := 0 < |x| < IDENT_MAX && i < 0 && |globals| < MAX_GLOBALS;
      if ok {
        globals := globals + [Sym(x, isLet)];
      }
    }

    /** locals_truncate. */
    method TruncateLocals(n: nat)
      requires Valid()
      modifies this`locals
      ensures Valid() && locals == if n < |old(locals)| then old(locals)[..n] else old(locals)
    {
      if n < |locals| {
        locals := locals[..n];
      }
    }

    // ----- statements -----

    /** The effect of compiling `s` from these tables, behind the code `out`. */
    ghost predicate Did(s: Stmt, ctx: Ctx, out: seq<Byte>, lps: seq<seq<nat>>, sw: bool)
      reads this, bc
      requires Valid()
    {
      && ctx.globals <= globals
      && Emitted(StmtOk(s, ctx, lps != [], sw), out, StmtCode(s, ctx, None))
      && (err.None? ==> Tables() == After(s, ctx) && loops == WithSites(lps, Moved(BreakSites(s, ctx), |out|)))
    }

    /** The effect of compiling `s` as a block that takes the locals back to the first `base`. */
    ghost predicate DidBlock(s: Stmt, base: nat, ctx: Ctx, out: seq<Byte>, lps: seq<seq<nat>>, sw: bool)
      reads this, bc
      requires Valid() && base <= |ctx.locals|
    {
      && ctx.globals <= globals
      && Emitted(StmtOk(s, ctx, lps != [], sw), out, BlockCode(s, ctx, base, None))
      && (err.None? ==> Tables() == After(s, ctx).(locals := ctx.locals[..base])
                        && loops == WithSites(lps, Moved(BreakSites(s, ctx), |out|)))
    }

    /** The effect of compiling the statements of a clause. */
    ghost predicate DidClauseBody(body: Stmt, ctx: Ctx, out: seq<Byte>, lps: seq<seq<nat>>, sw: bool, returned: bool)
      reads this, bc
      requires Valid()
    {
      && ctx.globals <= globals
      && Emitted(StmtOk(body, ctx, lps != [], sw), out, ClauseBody(body, ctx, None))
      && (err.None? ==>
            && Tables() == AfterBlock(body, ctx) && returned == LastByteReturns(StmtCode(body, ctx, None))
            && loops == WithSites(lps, Moved(BreakSites(body, ctx), |out|)))
    }

    method CompileStmt(s: Stmt)
      requires Valid() && err.None? && StmtWritable(s)
      modifies this`pos, this`err, this`toks, this`at, this`parked, this`globals, this`locals, this`loops, this`inSwitch, this`switchEnds, bc
      ensures Valid()
      ensures Did(s, old(Tables()), old(Out()), old(loops), old(inSwitch))
      ensures err.None? ==> parked == old(parked) && inSwitch == old(inSwitch)
      decreases s, 9
    {
      hide AtLimit;
      match s {
        case Skip =>
          NoSites(loops);
          assert Out() + [] == Out();
        case Seq(_, _) => CompileSeq(s);
        case Declare(_, _, _) => CompileDeclare(s);
        case Assign(_, _) => CompileAssign(s);
        case Compound(_, _, _) => CompileAssign(s);
        case Do(_) => CompileDo(s);
        case Print(_) => CompilePrint(s);
        case If(_, _, _) => CompileIf(s);
        case IfLet(_, _, _, _) => CompileIfLet(s);
        case While(_, _) => CompileWhile(s);
        case ForIn(_, _, _, _, _) => CompileForIn(s);
        case Switch(_, _) => CompileSwitch(s);
        case Break => CompileBreak();
        case Return(_) => CompileReturn(s);
      }
    }

    /** The statements of a block, one after the other. */
    method CompileSeq(s: Stmt)
      requires Valid() && err.None? && StmtWritable(s) && s.Seq?
      modifies this`pos, this`err, this`toks, this`at, this`parked, this`globals, this`locals, this`loops, this`inSwitch, this`switchEnds, bc
      ensures Valid()
      ensures Did(s, old(Tables()), old(Out()), old(loops), old(inSwitch))
      ensures err.None? ==> parked == old(parked) && inSwitch == old(inSwitch)
      decreases s, 8
    {
      hide StmtCode, After, StmtOk, BreakSites, StmtWritable;
      SeqParts(s);
      ghost var ctx, out, lps := Tables(), Out(), loops;
      SeqFacts(s, ctx, lps != [], inSwitch, |out|);
      CompileStmt(s.s1);
      if err.Some? {
        return;
      }
      CompileStmt(s.s2);
      if err.Some? {
        KeptBelow(out, StmtCode(s.s1, ctx, None));
      } else {
        SitesTwice(lps, Moved(BreakSites(s.s1, ctx), |out|),
                   Moved(BreakSites(s.s2, After(s.s1, ctx)), |out| + |StmtCode(s.s1, ctx, None)|));
      }
    }

    static lemma {:induction false} SeqParts(s: Stmt)
      requires s.Seq? && StmtWritable(s)
      ensures StmtWritable(s.s1) && StmtWritable(s.s2)
    {
    }

    /** parse_var_decl: inside a function the value stays on the stack as the next local. */
    method CompileDeclare(s: Stmt)
      requires Valid() && err.None? && StmtWritable(s) && s.Declare?
      modifies this`pos, this`err, this`toks, this`at, this`parked, this`globals, this`locals, bc
      ensures Valid() && parked == old(parked)
      ensures Did(s, old(Tables()), old(Out()), old(loops), old(inSwitch))
    {
      hide AtLimit, ExprOk, ExprCode, Writable;
      NoSites(loops);
      ghost var out, c := Out(), ExprCode(s.e, Tables());
      CompileExpr(s.e);
      if err.Some? {
        return;
      }
      if inFn {
        var ok := DeclareLocal(s.x, s.isLet);
        if !ok || s.x == "" {
          KeptBelow(out, c);
          Fail(Rejected);
        }
      } else {
        CompileDefine(s, out, c, Tables());
      }
    }

    /** The value that has just been compiled becomes a global. */
    method CompileDefine(s: Stmt, ghost out: seq<Byte>, ghost c: seq<Byte>, ghost ctx: Ctx)
      requires Valid() && err.None? && s.Declare? && !inFn && ctx == Tables() && c == ExprCode(s.e, ctx) && Out() == out + c
      requires ExprOk(s.e, ctx) && loops == WithSites(loops, Moved(BreakSites(s, ctx), |out|))
      modifies this`pos, this`err, this`globals, bc
      ensures Valid()
      ensures Did(s, ctx, out, old(loops), inSwitch)
    {
      hide ExprOk, ExprCode;
      var g := |globals|;
      var ok := DefineGlobal(s.x, s.isLet);
      if !ok {
        KeptBelow(out, c);
        Fail(Rejected);
        return;
      }
      EmitPair(0x22, g % 0x100);
      if err.Some? {
        KeptBelow(out, c);
      }
    }


    /** parse_assignment; a compound assignment loads the variable first and stores the result. */
    method CompileAssign(s: Stmt)
      requires Valid() && err.None? && StmtWritable(s) && (s.Assign? || s.Compound?)
      modifies this`pos, this`err, this`toks, this`at, this`parked, bc
      ensures Valid() && parked == old(parked)
      ensures Did(s, old(Tables()), old(Out()), old(loops), old(inSwitch))
    {
      hide ExprOk, ExprCode, Writable, StmtOk, StmtCode, After, BreakSites, GetCode, SetCode, CanAssign, Resolve, Kept, WithSites;
      NoSites(loops);
      KeptNow();
      AssignFacts(s, Tables(), loops != [], inSwitch, pos);
      ghost var out, load := Out(), if s.Compound? then GetCode(s.x, Tables()) else [];
      var ok, place := Assignable(s.x);
      if !ok || (s.Compound? && s.op == M.Mod) {
        Fail(Rejected);
        return;
      }
      if s.Compound? {
        EmitLoad(s.x, place);
        if err.Some? {
          return;
        }
      }
      StoreInto(s, place, out, load);
    }

    /** The value of an assignment, and the store. */
    method StoreInto(s: Stmt, place: Place, ghost out: seq<Byte>, ghost load: seq<Byte>)
      requires Valid() && err.None? && StmtWritable(s) && (s.Assign? || s.Compound?)
      requires place == Resolve(s.x, Tables()) && !place.Nowhere? && CanAssign(s.x, Tables()) && (s.Compound? ==> s.op != M.Mod)
      requires load == (if s.Compound? then GetCode(s.x, Tables()) else []) && Out() == out + load
      modifies this`pos, this`err, this`toks, this`at, this`parked, bc
      ensures Valid() && parked == old(parked)
      ensures Did(s, old(Tables()), out, old(loops), old(inSwitch))
    {
      hide ExprOk, ExprCode, Writable, StmtOk, StmtCode, After, BreakSites, GetCode, SetCode, CanAssign, Resolve, Kept, WithSites;
      NoSites(loops);
      AssignFacts(s, Tables(), loops != [], inSwitch, |out|);
      CompileStore(s, place);
      if err.Some? {
        KeptBelow(out, load);
      }
    }


    /** The place of a variable, and whether it may be assigned to. */
    method Assignable(x: Name) returns (ok: bool, place: Place)
      requires Valid()
      ensures ok == CanAssign(x, Tables()) && place == Resolve(x, Tables()) && (ok ==> !place.Nowhere?)
    {
      place := Lookup(x);
      ok := 0 < |x| < IDENT_MAX
            && match place case Local(i) => !locals[i].isLet case Global(i) => !globals[i].isLet case Nowhere => false;
    }

    method EmitLoad(x: Name, place: Place)
      requires Valid() && place == Resolve(x, Tables()) && !place.Nowhere?
      modifies this`pos, this`err, bc
      ensures Valid() && Wrote(old(err), old(Out()), GetCode(x, Tables()))
    {
      hide Resolve;
      EmitPair(if place.Local? then 0x23 else 0x20, place.i % 0x100);
    }

    /** The value and the store of an assignment to `place`. */
    method CompileStore(s: Stmt, place: Place)
      requires Valid() && err.None? && StmtWritable(s) && (s.Assign? || s.Compound?)
      requires place == Resolve(s.x, Tables()) && !place.Nowhere?
      modifies this`pos, this`err, this`toks, this`at, this`parked, bc
      ensures Valid() && parked == old(parked)
      ensures Emitted(ExprOk(s.e, Tables()), old(Out()),
                      ExprCode(s.e, Tables()) + (if s.Compound? then [OpByte(Arith(s.op))] else []) + SetCode(s.x, Tables()))
    {
      hide ExprOk, ExprCode, Writable, OpByte, Resolve, SetCode;
      ghost var out, c := Out(), ExprCode(s.e, Tables());
      CompileExpr(s.e);
      if err.Some? {
        return;
      }
      ghost var op := if s.Compound? then [OpByte(Arith(s.op))] else [];
      if s.Compound? {
        EmitByte(OpByte(Arith(s.op)));
      }
      EmitSet(s.x, place);
      Regroup(out, c, op, SetCode(s.x, Tables()));
      KeptBelow(out, c);
    }

    /** The instruction that stores into the place of `x`. */
    method EmitSet(x: Name, place: Place)
      requires Valid() && place == Resolve(x, Tables()) && !place.Nowhere?
      modifies this`pos, this`err, bc
      ensures Valid() && Wrote(old(err), old(Out()), SetCode(x, Tables()))
    {
      hide Resolve;
      EmitPair(if place.Local? then 0x24 else 0x21, place.i % 0x100);
    }

    /** An expression statement outside the interactive mode drops its value. */
    method CompileDo(s: Stmt)
      requires Valid() && err.None? && StmtWritable(s) && s.Do?
      modifies this`pos, this`err, this`toks, this`at, this`parked, bc
      ensures Valid() && parked == old(parked)
      ensures Did(s, old(Tables()), old(Out()), old(loops), old(inSwitch))
    {
      hide ExprOk, ExprCode, Writable;
      NoSites(loops);
      CompileExpr(s.e);
      if err.None? {
        EmitByte(0x10);
      }
    }

    /** parse_print_call. */
    method CompilePrint(s: Stmt)
      requires Valid() && err.None? && StmtWritable(s) && s.Print?
      modifies this`pos, this`err, this`toks, this`at, this`parked, bc
      ensures Valid() && parked == old(parked)
      ensures Did(s, old(Tables()), old(Out()), old(loops), old(inSwitch))
    {
      hide AtLimit, ExprsOk, ExprsCode, ArgsWritable, Count, Did;
      ghost var ctx, out, c := Tables(), Out(), ExprsCode(s.args, Tables());
      var argc := CompileExprs(s.args);
      if err.None? {
        EmitTriple(0x63, M.BUILTIN_PRINT, argc % 0x100);
        EmitByte(0x10);
        if err.Some? {
          KeptBelow(out, c);
        } else {
          Regroup(out, c, [0x63, M.BUILTIN_PRINT, argc % 0x100], [0x10]);
        }
      }
      PrintDone(s, ctx, out);
    }

    lemma {:induction false} PrintDone(s: Stmt, ctx: Ctx, out: seq<Byte>)
      requires Valid() && s.Print? && Tables() == ctx && (err == Some(Rejected) ==> !(ExprsOk(s.args, ctx) && Count(s.args) <= 255))
      requires if err.Some? then Kept(out)
               else ExprsOk(s.args, ctx) && Count(s.args) <= 255
                    && Out() == out + (ExprsCode(s.args, ctx) + ([0x63, M.BUILTIN_PRINT, Count(s.args) % 0x100] + [0x10]))
      ensures Did(s, ctx, out, loops, inSwitch)
    {
      hide ExprsOk, ExprsCode, Count, Kept;
      NoSites(loops);
      assert [0x63, M.BUILTIN_PRINT, Count(s.args) % 0x100] + [0x10] == [0x63, M.BUILTIN_PRINT, Count(s.args) % 0x100, 0x10];
    }

    /** parse_return. */
    method CompileReturn(s: Stmt)
      requires Valid() && err.None? && StmtWritable(s) && s.Return?
      modifies this`pos, this`err, this`toks, this`at, this`parked, bc
      ensures Valid() && parked == old(parked)
      ensures Did(s, old(Tables()), old(Out()), old(loops), old(inSwitch))
    {
      hide ExprOk, ExprCode, Writable;
      NoSites(loops);
      if !inFn || s.result.Some? != fnHasReturn {
        Fail(Rejected);
        return;
      }
      if s.result.None? {
        EmitByte(0x62);
        return;
      }
      CompileExpr(s.result.value);
      if err.None? {
        EmitByte(0x61);
      }
    }

    /** parse_break: a jump whose target is known when the loop is closed. */
    method CompileBreak()
      requires Valid() && err.None?
      modifies this`pos, this`err, this`loops, bc
      ensures Valid()
      ensures err == Some(Limit) ==>
                old(pos) + 3 > bc.Length || (old(loops) != [] && |old(loops)[|old(loops)| - 1]| >= LOOPS_MAX_BREAKS)
      ensures Did(Break, old(Tables()), old(Out()), old(loops), old(inSwitch))
    {
      if loops == [] {
        Fail(Rejected);
        return;
      }
      var site := EmitPlaceholder(0x50);
      if err.Some? {
        return;
      }
      var open := loops[|loops| - 1];
      if |open| >= LOOPS_MAX_BREAKS {
        Fail(Limit);
        return;
      }
      assert Moved([1], old(pos)) == [site];
      loops := loops[|loops| - 1 := open + [site]];
    }

    /** parse_block_scoped: the block, then a pop for each local above the first `base`. */
    method CompileScoped(s: Stmt, base: nat)
      requires Valid() && err.None? && StmtWritable(s) && base <= |locals|
      modifies this`pos, this`err, this`toks, this`at, this`parked, this`globals, this`locals, this`loops, this`inSwitch, this`switchEnds, bc
      ensures Valid()
      ensures DidBlock(s, base, old(Tables()), old(Out()), old(loops), old(inSwitch))
      ensures err.None? ==> parked == old(parked) && inSwitch == old(inSwitch)
      decreases s, 10
    {
      hide StmtCode, After, StmtOk, BreakSites, StmtWritable, BlockCode, WithSites, Kept, Moved, Pops;
      ghost var ctx, out, lps, sw := Tables(), Out(), loops, inSwitch;
      CompileStmt(s);
      if err.None? {
        PopBlock(s, base, ctx, out, lps, sw);
      }
    }

    /** The end of a block whose statements have been compiled. */
    method PopBlock(ghost s: Stmt, base: nat, ghost ctx: Ctx, ghost out: seq<Byte>, ghost lps: seq<seq<nat>>, ghost sw: bool)
      requires Valid() && err.None? && Did(s, ctx, out, lps, sw) && base <= |ctx.locals|
      modifies this`pos, this`err, this`locals, bc
      ensures Valid() && DidBlock(s, base, ctx, out, lps, sw)
    {
      hide StmtCode, After, StmtOk, BreakSites, BlockCode, WithSites, Kept, Moved, Pops;
      BlockParts(s, ctx, base);
      PopLocals(base, out, StmtCode(s, ctx, None));
    }

    /** Pop the locals above the first `base`, and forget them. */
    method PopLocals(base: nat, ghost out: seq<Byte>, ghost code: seq<Byte>)
      requires Valid() && err.None? && base <= |locals| && Out() == out + code
      modifies this`pos, this`err, this`locals, bc
      ensures Valid() && locals == old(locals)[..base]
      ensures Wrote(None, out, code + Pops(|old(locals)| - base))
    {
      ghost var all := locals;
      while |locals| > base
        invariant Valid() && base <= |locals| <= |all| && locals == all[..|locals|] && (inFn || locals == [])
        invariant Wrote(None, out, code + Pops(|all| - |locals|))
      {
        ghost var n := |all| - |locals|;
        PopsAdd(n);
        EmitByte(0x10);
        TruncateLocals(|locals| - 1);
        assert code + Pops(n) + [0x10] == code + Pops(n + 1);
        if err.Some? {
          KeptBelow(out, []);
        }
      }
    }

    /** A block, with a jump operand parked on the LIFO meanwhile. */
    method CompileParked(s: Stmt, base: nat, site: nat) returns (v: nat)
      requires Valid() && err.None? && StmtWritable(s) && base <= |locals|
      modifies this`pos, this`err, this`toks, this`at, this`parked, this`globals, this`locals, this`loops, this`inSwitch, this`switchEnds, bc
      ensures Valid()
      ensures DidBlock(s, base, old(Tables()), old(Out()), old(loops), old(inSwitch))
      ensures err.None? ==> parked == old(parked) && inSwitch == old(inSwitch) && v == site
      decreases s, 11
    {
      hide StmtCode, After, StmtOk, BreakSites, StmtWritable, BlockCode, Kept;
      Park(site);
      CompileScoped(s, base);
      v := site;
      if err.None? {
        v := Unpark();
      }
    }

    /** What follows the first arm of a conditional: the second arm, if any, with the jump around it. The
      * test at `site` is aimed behind the first arm. */
    method CompileElse(site: nat, els: Option<Stmt>, ghost test: Byte, ghost pre: seq<Byte>, ghost first: seq<Byte>,
                       ghost whole: Stmt)
      requires Valid() && err.None? && ElseWritable(els) && (els.Some? ==> els.value < whole)
      requires Out() == pre + JumpCode(test, OPEN) + first && site == |pre| + 1
      modifies this`pos, this`err, this`toks, this`at, this`parked, this`globals, this`locals, this`loops, this`inSwitch, this`switchEnds, bc
      ensures Valid() && old(globals) <= globals
      ensures Emitted(ElseOk(els, old(Tables()), old(loops) != [], old(inSwitch)), pre,
                      ArmsCode(test, first, els, old(Tables()), None))
      ensures err.None? ==>
                && Tables() == AfterElse(els, old(Tables())) && parked == old(parked) && inSwitch == old(inSwitch)
                && loops == WithSites(old(loops), ElseSites(els, old(Tables()), |pre| + 3 + |first| + 3))
      decreases whole, 6
    {
      hide StmtCode, After, StmtOk, BreakSites, StmtWritable, BlockCode, JumpCode, PatchOne;
      match els {
        case None =>
          AimHere(site, pre, test, first);
          NoSites(loops);
          assert pre + (JumpCode(test, |first|) + first) == pre + JumpCode(test, |first|) + first;
        case Some(other) => CompileSecondArm(site, other, test, pre, first);
      }
    }

    method CompileSecondArm(site: nat, other: Stmt, ghost test: Byte, ghost pre: seq<Byte>, ghost first: seq<Byte>)
      requires Valid() && err.None? && StmtWritable(other)
      requires Out() == pre + JumpCode(test, OPEN) + first && site == |pre| + 1
      modifies this`pos, this`err, this`toks, this`at, this`parked, this`globals, this`locals, this`loops, this`inSwitch, this`switchEnds, bc
      ensures Valid() && old(globals) <= globals
      ensures Emitted(StmtOk(other, old(Tables()), old(loops) != [], old(inSwitch)), pre,
                      ArmsCode(test, first, Some(other), old(Tables()), None))
      ensures err.None? ==>
                && Tables() == AfterBlock(other, old(Tables())) && parked == old(parked) && inSwitch == old(inSwitch)
                && loops == WithSites(old(loops), Moved(BreakSites(other, old(Tables())), |pre| + 3 + |first| + 3))
      decreases other, 13
    {
      hide StmtCode, After, StmtOk, BreakSites, StmtWritable, BlockCode, JumpCode, PatchOne, Moved, Kept, ArmsCode, WithSites;
      ArmsUnfold(test, first, other, Tables());
      ghost var head := JumpCode(test, |first| + 3) + first;
      ghost var code := BlockCode(other, Tables(), |locals|, None);
      var end := SkipSecondArm(site, test, pre, first);
      if err.None? {
        assert pre + (head + JumpCode(0x50, OPEN)) == pre + head + JumpCode(0x50, OPEN);
        CompileSkipped(end, other, pre + head);
        FinishArms(pre, head, JumpCode(0x50, |code|) + code);
        assert head + (JumpCode(0x50, |code|) + code) == head + JumpCode(0x50, |code|) + code;
      }
    }

    /** A block behind a jump that skips it. */
    method CompileSkipped(site: nat, s: Stmt, ghost head: seq<Byte>)
      requires Valid() && err.None? && StmtWritable(s) && Out() == head + JumpCode(0x50, OPEN) && site == |head| + 1
      modifies this`pos, this`err, this`toks, this`at, this`parked, this`globals, this`locals, this`loops, this`inSwitch, this`switchEnds, bc
      ensures Valid() && old(globals) <= globals
      ensures var code := BlockCode(s, old(Tables()), |old(locals)|, None);
              Emitted(StmtOk(s, old(Tables()), old(loops) != [], old(inSwitch)), head, JumpCode(0x50, |code|) + code)
      ensures err.None? ==>
                && Tables() == AfterBlock(s, old(Tables())) && parked == old(parked) && inSwitch == old(inSwitch)
                && loops == WithSites(old(loops), Moved(BreakSites(s, old(Tables())), |head| + 3))
      decreases s, 12
    {
      hide StmtCode, After, StmtOk, BreakSites, StmtWritable, BlockCode, JumpCode, PatchOne, Moved, Kept, WithSites;
      AllLocals(Tables());
      ghost var code := BlockCode(s, Tables(), |locals|, None);
      var end := CompileParked(s, |locals|, site);
      if err.Some? {
        KeptBelow(head, JumpCode(0x50, OPEN));
        return;
      }
      AimHere(end, head, 0x50, code);
      assert head + JumpCode(0x50, |code|) + code == head + (JumpCode(0x50, |code|) + code);
    }

    /** The jump at the end of the first arm; the test is aimed behind it. */
    method SkipSecondArm(site: nat, ghost test: Byte, ghost pre: seq<Byte>, ghost first: seq<Byte>) returns (end: nat)
      requires Valid() && err.None? && Out() == pre + JumpCode(test, OPEN) + first && site == |pre| + 1
      modifies this`pos, this`err, bc
      ensures Valid() && Wrote(None, pre, JumpCode(test, |first| + 3) + first + JumpCode(0x50, OPEN))
      ensures err.None? ==> end == |pre| + 3 + |first| + 1
    {
      hide JumpCode, PatchOne;
      ghost var jump := JumpCode(0x50, OPEN);
      end := EmitPlaceholder(0x50);
      if err.Some? {
        KeptBelow(pre, JumpCode(test, OPEN) + first);
        return;
      }
      assert Out() == pre + JumpCode(test, OPEN) + (first + jump);
      AimHere(site, pre, test, first + jump);
      assert Out() == pre + (JumpCode(test, |first| + 3) + first + jump);
    }

    /** A condition and the jump that it decides. */
    method CompileTest(e: Expr, op: Byte) returns (site: nat)
      requires Valid() && err.None? && TextOf(e)
      modifies this`pos, this`err, this`toks, this`at, this`parked, bc
      ensures Valid() && parked == old(parked)
      ensures Emitted(ExprOk(e, Tables()), old(Out()), ExprCode(e, Tables()) + JumpCode(op, OPEN))
      ensures err.None? ==> site == old(pos) + |ExprCode(e, Tables())| + 1
    {
      hide ExprOk, ExprCode, JumpCode, TextOf;
      ghost var out, c := Out(), ExprCode(e, Tables());
      CompileExpr(e);
      site := 0;
      if err.Some? {
        return;
      }
      site := EmitPlaceholder(op);
      if err.Some? {
        KeptBelow(out, c);
      } else {
        assert Out() == out + (c + JumpCode(op, OPEN));
      }
    }

    /** The effect of compiling both arms of a conditional, the first of them behind `store`. */
    ghost predicate DidArms(thn: Stmt, base: nat, els: Option<Stmt>, test: Byte, pre: seq<Byte>, store: seq<Byte>,
                            inner: Ctx, lps: seq<seq<nat>>, sw: bool)
      reads this, bc
      requires Valid() && base <= |inner.locals|
    {
      var outer := AfterBlock(thn, inner).(locals := inner.locals[..base]);
      && inner.globals <= globals
      && Emitted(StmtOk(thn, inner, lps != [], sw) && ElseOk(els, outer, lps != [], sw), pre,
                 ArmsCode(test, store + BlockCode(thn, inner, base, None), els, outer, None))
      && (err.None? ==> Tables() == AfterElse(els, outer)
                        && loops == WithSites(lps, ArmSites(store, thn, inner, base, els, outer, |pre|)))
    }

    /** Both arms of a conditional whose test stands between `pre` and `store`. */
    method CompileArms(site: nat, thn: Stmt, base: nat, els: Option<Stmt>, ghost test: Byte, ghost pre: seq<Byte>,
                       ghost store: seq<Byte>, ghost whole: Stmt)
      requires Valid() && err.None? && StmtWritable(thn) && ElseWritable(els) && base <= |locals|
      requires thn < whole && (els.Some? ==> els.value < whole)
      requires Out() == pre + (JumpCode(test, OPEN) + store) && site == |pre| + 1
      modifies this`pos, this`err, this`toks, this`at, this`parked, this`globals, this`locals, this`loops, this`inSwitch, this`switchEnds, bc
      ensures Valid()
      ensures DidArms(thn, base, els, test, pre, store, old(Tables()), old(loops), old(inSwitch))
      ensures err.None? ==> parked == old(parked) && inSwitch == old(inSwitch)
      decreases whole, 7
    {
      hide AtLimit, StmtCode, After, StmtOk, BreakSites, BlockCode, JumpCode, PatchOne, ArmsCode, ElseOk, ElseSites, Moved, Kept,
           WithSites, AfterElse, StmtWritable, ElseWritable, ArmSites, DidArms, AfterBlock;
      ghost var inner, lps, sw := Tables(), loops, inSwitch;
      ghost var block := BlockCode(thn, inner, base, None);
      var skip := CompileParked(thn, base, site);
      if err.Some? {
        FirstArmFailed(thn, base, els, test, pre, store, inner, lps, sw);
        return;
      }
      RegroupArm(pre, JumpCode(test, OPEN), store, block);
      ghost var outer := Tables();
      CompileElse(skip, els, test, pre, store + block, whole);
      BothArmsDone(thn, base, els, test, pre, store, inner, outer, lps, sw);
    }

    lemma {:induction false} FirstArmFailed(thn: Stmt, base: nat, els: Option<Stmt>, test: Byte, pre: seq<Byte>, store: seq<Byte>,
                         inner: Ctx, lps: seq<seq<nat>>, sw: bool)
      requires Valid() && base <= |inner.locals| && err.Some?
      requires DidBlock(thn, base, inner, pre + (JumpCode(test, OPEN) + store), lps, sw)
      ensures DidArms(thn, base, els, test, pre, store, inner, lps, sw)
    {
      hide StmtCode, After, StmtOk, BlockCode, JumpCode, Kept;
      KeptBelow(pre, JumpCode(test, OPEN) + store);
    }

    lemma {:induction false} BothArmsDone(thn: Stmt, base: nat, els: Option<Stmt>, test: Byte, pre: seq<Byte>, store: seq<Byte>,
                       inner: Ctx, outer: Ctx, lps: seq<seq<nat>>, sw: bool)
      requires Valid() && base <= |inner.locals| && inner.globals <= outer.globals <= globals
      requires StmtOk(thn, inner, lps != [], sw) && outer == After(thn, inner).(locals := inner.locals[..base])
      requires Emitted(ElseOk(els, outer, lps != [], sw), pre,
                       ArmsCode(test, store + BlockCode(thn, inner, base, None), els, outer, None))
      requires err.None? ==>
                 && Tables() == AfterElse(els, outer)
                 && loops == WithSites(WithSites(lps, Moved(BreakSites(thn, inner), |pre + (JumpCode(test, OPEN) + store)|)),
                                       ElseSites(els, outer, |pre| + 3 + |store + BlockCode(thn, inner, base, None)| + 3))
      ensures DidArms(thn, base, els, test, pre, store, inner, lps, sw)
    {
      hide StmtCode, After, StmtOk, BlockCode, JumpCode, Kept, ArmsCode, WithSites, Moved, ElseSites, AfterElse, ElseOk,
           BreakSites, ArmSites;
      assert outer == AfterBlock(thn, inner).(locals := inner.locals[..base]);
      ArmSitesJoin(store, thn, inner, base, els, outer, |pre|, lps);
      GlobalsPrefix(inner.globals, outer.globals);
    }

    lemma {:induction false} GlobalsPrefix(a: seq<Sym>, b: seq<Sym>)
      requires a <= b <= globals
      ensures a <= globals
    {
    }

    /** parse_if. */
    method CompileIf(s: Stmt)
      requires Valid() && err.None? && StmtWritable(s) && s.If?
      modifies this`pos, this`err, this`toks, this`at, this`parked, this`globals, this`locals, this`loops, this`inSwitch, this`switchEnds, bc
      ensures Valid()
      ensures Did(s, old(Tables()), old(Out()), old(loops), old(inSwitch))
      ensures err.None? ==> parked == old(parked) && inSwitch == old(inSwitch)
      decreases s, 8
    {
      hide AtLimit, StmtCode, After, StmtOk, BreakSites, BlockCode, JumpCode, PatchOne, ArmsCode, ElseOk, ExprOk, ExprCode, TextOf,
           ElseSites, Moved, Kept, WithSites, AfterElse, ArmSites;
      ghost var ctx, out, c := Tables(), Out(), ExprCode(s.c, Tables());
      IfFacts(s, ctx, loops != [], inSwitch, |out|);
      AllLocals(ctx);
      var skip := CompileTest(s.c, 0x51);
      if err.Some? {
        return;
      }
      assert out + (c + JumpCode(0x51, OPEN)) == out + c + (JumpCode(0x51, OPEN) + []);
      CompileArms(skip, s.thn, |locals|, s.els, 0x51, out + c, [], s);
      NoStore(BlockCode(s.thn, ctx, |ctx.locals|, None));
      FinishArms(out, c, ArmsCode(0x51, BlockCode(s.thn, ctx, |ctx.locals|, None), s.els, AfterBlock(s.thn, ctx), None));
    }

    /** parse_if_let: the bound name is a local of the first arm, or a global. */
    method CompileIfLet(s: Stmt)
      requires Valid() && err.None? && StmtWritable(s) && s.IfLet?
      modifies this`pos, this`err, this`toks, this`at, this`parked, this`globals, this`locals, this`loops, this`inSwitch, this`switchEnds, bc
      ensures Valid()
      ensures Did(s, old(Tables()), old(Out()), old(loops), old(inSwitch))
      ensures err.None? ==> parked == old(parked) && inSwitch == old(inSwitch)
      decreases s, 8
    {
      hide AtLimit, StmtCode, After, StmtOk, BreakSites, BlockCode, JumpCode, PatchOne, ArmsCode, ElseOk, ExprOk, ExprCode, TextOf,
           ElseSites, Moved, Kept, WithSites, AfterElse, ArmSites, BindIfLet, CanBindIfLet, BindingCode, DidArms, Did;
      ghost var ctx, out, c, lps, sw := Tables(), Out(), ExprCode(s.e, Tables()), loops, inSwitch;
      ghost var store := BindingCode(s.x, ctx);
      var skip := CompileTest(s.e, 0x73);
      if err.Some? {
        IfLetFails(s, ctx, out, lps, sw);
        return;
      }
      var base := |locals|;
      BindName(s.x);
      if err.Some? {
        KeptBelow(out, c + JumpCode(0x73, OPEN));
        IfLetFails(s, ctx, out, lps, sw);
        return;
      }
      BoundLocals(s.x, ctx);
      RegroupArm(out, c, JumpCode(0x73, OPEN), store);
      CompileArms(skip, s.thn, base, s.els, 0x73, out + c, store, s);
      IfLetDone(s, ctx, out, lps, sw);
    }

    lemma {:induction false} IfLetFails(s: Stmt, ctx: Ctx, out: seq<Byte>, lps: seq<seq<nat>>, sw: bool)
      requires Valid() && s.IfLet? && err.Some? && Kept(out) && ctx.globals <= globals
      requires err == Some(Rejected) ==> !ExprOk(s.e, ctx) || !CanBindIfLet(s.x, ctx)
      ensures Did(s, ctx, out, lps, sw)
    {
      hide StmtCode, After, StmtOk, BreakSites, ExprOk, CanBindIfLet, Kept, ElseOk;
      IfLetFacts(s, ctx, lps != [], sw, |out|);
    }

    lemma {:induction false} IfLetDone(s: Stmt, ctx: Ctx, out: seq<Byte>, lps: seq<seq<nat>>, sw: bool)
      requires Valid() && s.IfLet? && |ctx.locals| <= |BindIfLet(s.x, ctx).locals|
      requires ExprOk(s.e, ctx) && CanBindIfLet(s.x, ctx)
      requires DidArms(s.thn, |ctx.locals|, s.els, 0x73, out + ExprCode(s.e, ctx), BindingCode(s.x, ctx),
                       BindIfLet(s.x, ctx), lps, sw)
      ensures Did(s, ctx, out, lps, sw)
    {
      hide StmtCode, After, StmtOk, BreakSites, BlockCode, ArmsCode, ElseOk, ExprOk, ExprCode, Moved, Kept, WithSites,
           AfterElse, ArmSites, BindIfLet, CanBindIfLet, BindingCode;
      var c, inner, store := ExprCode(s.e, ctx), BindIfLet(s.x, ctx), BindingCode(s.x, ctx);
      IfLetFacts(s, ctx, lps != [], sw, |out|);
      BoundLocals(s.x, ctx);
      FinishArms(out, c, ArmsCode(0x73, store + BlockCode(s.thn, inner, |ctx.locals|, None), s.els,
                                  AfterBlock(s.thn, inner).(locals := ctx.locals), None));
      GlobalsPrefix(ctx.globals, inner.globals);
    }

    /** Declare the name an `if let` binds, and store the value if it is a global. */
    method BindName(x: Name)
      requires Valid() && err.None?
      modifies this`pos, this`err, this`globals, this`locals, bc
      ensures Valid() && old(globals) <= globals
      ensures Emitted(CanBindIfLet(x, old(Tables())), old(Out()), BindingCode(x, old(Tables())))
      ensures err.None? ==> Tables() == BindIfLet(x, old(Tables()))
    {
      if inFn {
        var ok := DeclareLocal(x, true);
        if !ok || x == "" {
          Fail(Rejected);
        }
        assert Out() + [] == Out();
      } else {
        BindGlobal(x);
      }
    }

    /** At program level an `if let` name is a global; one that is there is used again. */
    method BindGlobal(x: Name)
      requires Valid() && err.None? && !inFn
      modifies this`pos, this`err, this`globals, bc
      ensures Valid() && old(globals) <= globals
      ensures Emitted(CanBindIfLet(x, old(Tables())), old(Out()), BindingCode(x, old(Tables())))
      ensures err.None? ==> Tables() == BindIfLet(x, old(Tables()))
    {
      var g := FindSym(globals, x);
      if g < 0 {
        g := |globals|;
        var ok := DefineGlobal(x, true);
        if !ok {
          Fail(Rejected);
          return;
        }
        GlobalAdded(old(globals), Sym(x, true));
      } else if |x| >= IDENT_MAX {
        Fail(Rejected);
        return;
      }
      EmitPair(0x22, g % 0x100);
    }

    lemma {:induction false} FinishArms(out: seq<Byte>, c: seq<Byte>, arms: seq<Byte>)
      requires Valid()
      ensures err.Some? && Kept(out + c) ==> Kept(out)
      ensures out + c + arms == out + (c + arms)
    {
      if Kept(out + c) {
        KeptBelow(out, c);
      }
    }

    // ----- loops -----

    /** loops_enter. */
    method EnterLoop()
      requires Valid() && err.None?
      modifies this`loops, this`err
      ensures Valid() && loops == if err.None? then old(loops) + [[]] else old(loops)
      ensures err == if |old(loops)| < LOOPS_MAX_DEPTH then None else Some(Limit)
    {
      if |loops| >= LOOPS_MAX_DEPTH {
        Fail(Limit);
        return;
      }
      loops := loops + [[]];
    }

    /** loops_exit: aim all breaks of the innermost loop here. */
    method ExitLoop()
      requires Valid() && err.None? && loops != [] && Inside(loops[|loops| - 1], pos)
      modifies this`loops, bc
      ensures Valid() && loops == old(loops)[..|old(loops)| - 1]
      ensures Out() == PatchAll(old(Out()), old(loops)[|old(loops)| - 1], pos)
    {
      hide PatchOne;
      var open := loops[|loops| - 1];
      var i := 0;
      while i < |open|
        invariant Valid() && err.None? && loops == old(loops) && 0 <= i <= |open| && Inside(open[i..], pos)
        invariant PatchAll(Out(), open[i..], pos) == PatchAll(old(Out()), open, pos)
      {
        PatchHere(open[i]);
        i := i + 1;
      }
      loops := loops[..|loops| - 1];
    }

    /** The end of a loop: the jump back to `start`, then the exit jump and the breaks aimed here. */
    method CloseLoop(start: nat, exit: nat, ghost head: seq<Byte>, ghost body: Stmt, ghost ctx: Ctx, ghost next: seq<Byte>)
      requires Valid() && err.None? && start <= |head| && exit == |head| + 1
      requires Out() == head + JumpCode(0x51, OPEN) + (BlockCode(body, ctx, |ctx.locals|, None) + next)
      requires loops != [] && loops[|loops| - 1] == Moved(BreakSites(body, ctx), |head| + 3)
      modifies this`pos, this`err, this`loops, bc
      ensures Valid() && (err.None? || err == Some(Limit))
      ensures if err.None? then Out() == LoopCode(head, body, ctx, next, start) else Kept(old(Out()))
      ensures err.None? ==> loops == old(loops)[..|old(loops)| - 1]
    {
      hide JumpCode, BlockCode, BreakSites, PatchAll, PatchOne, Moved, Kept;
      ghost var open := BlockCode(body, ctx, |ctx.locals|, None);
      ghost var back := JumpCode(0x53, |head| + 3 + |open + next| + 3 - start);
      ghost var jump := JumpCode(0x51, |open + next| + 3);
      EmitLoop(start);
      if err.Some? {
        return;
      }
      assert head + JumpCode(0x51, OPEN) + (open + next) + back == head + JumpCode(0x51, OPEN) + (open + next + back);
      AimHere(exit, head, 0x51, open + next + back);
      assert head + jump + (open + next + back) == (head + jump) + open + (next + back);
      LoopPatched(head + jump, body, ctx, next + back);
      ExitLoop();
      ghost var done := BlockCode(body, ctx, |ctx.locals|, Some(|open| + |next| + 3));
      assert (head + jump) + done + (next + back) == head + jump + done + next + back;
    }

    /** parse_while. */
    method CompileWhile(s: Stmt)
      requires Valid() && err.None? && StmtWritable(s) && s.While?
      modifies this`pos, this`err, this`toks, this`at, this`parked, this`globals, this`locals, this`loops, this`inSwitch, this`switchEnds, bc
      ensures Valid()
      ensures Did(s, old(Tables()), old(Out()), old(loops), old(inSwitch))
      ensures err.None? ==> parked == old(parked) && inSwitch == old(inSwitch)
      decreases s, 8
    {
      hide AtLimit, StmtCode, After, StmtOk, BreakSites, BlockCode, JumpCode, ExprOk, ExprCode, TextOf, Moved, Kept, WithSites,
           Did, LoopCode;
      ghost var ctx, out, c, lps, sw := Tables(), Out(), ExprCode(s.c, Tables()), loops, inSwitch;
      var loopStart := pos;
      var exit := CompileTest(s.c, 0x51);
      if err.None? {
        KeptNow();
        EnterLoop();
      }
      if err.Some? {
        WhileFails(s, ctx, out, c + JumpCode(0x51, OPEN), lps, sw);
        return;
      }
      exit, loopStart := CompileLoopBody(s.body, exit, loopStart);
      if err.Some? {
        WhileBodyFails(s, ctx, out, lps, sw);
        return;
      }
      OpenLoop(lps, Moved(BreakSites(s.body, ctx), |out| + |c| + 3));
      ghost var open := BlockCode(s.body, ctx, |ctx.locals|, None);
      WhileLayout(out, c, open);
      CloseLoop(loopStart, exit, out + c, s.body, ctx, []);
      WhileDone(s, ctx, out, c + JumpCode(0x51, OPEN) + open, lps, sw);
    }

    /** A loop body. Where the loop starts and its exit jump wait on the LIFO. */
    method CompileLoopBody(body: Stmt, exit: nat, start: nat) returns (exit': nat, start': nat)
      requires Valid() && err.None? && StmtWritable(body)
      modifies this`pos, this`err, this`toks, this`at, this`parked, this`globals, this`locals, this`loops, this`inSwitch, this`switchEnds, bc
      ensures Valid()
      ensures DidBlock(body, |old(locals)|, old(Tables()), old(Out()), old(loops), old(inSwitch))
      ensures err.None? ==> parked == old(parked) && inSwitch == old(inSwitch) && exit' == exit && start' == start
      decreases body, 12
    {
      hide StmtCode, After, StmtOk, BreakSites, StmtWritable, BlockCode, Kept;
      Park(start);
      exit' := CompileParked(body, |locals|, exit);
      start' := start;
      if err.None? {
        start' := Unpark();
      }
    }

    lemma {:induction false} WhileFails(s: Stmt, ctx: Ctx, out: seq<Byte>, code: seq<Byte>, lps: seq<seq<nat>>, sw: bool)
      requires Valid() && s.While? && err.Some? && (Kept(out) || Kept(out + code)) && ctx.globals <= globals
      requires err == Some(Rejected) ==> !ExprOk(s.c, ctx)
      ensures Did(s, ctx, out, lps, sw)
    {
      hide StmtCode, After, StmtOk, BreakSites, ExprOk, ExprCode, Kept, LoopCode;
      WhileFacts(s, ctx, lps != [], sw, out);
      if Kept(out + code) {
        KeptBelow(out, code);
      }
    }

    lemma {:induction false} WhileBodyFails(s: Stmt, ctx: Ctx, out: seq<Byte>, lps: seq<seq<nat>>, sw: bool)
      requires Valid() && s.While? && err.Some?
      requires DidBlock(s.body, |ctx.locals|, ctx, out + (ExprCode(s.c, ctx) + JumpCode(0x51, OPEN)), lps + [[]], sw)
      ensures Did(s, ctx, out, lps, sw)
    {
      hide StmtCode, After, StmtOk, BreakSites, ExprOk, ExprCode, Kept, JumpCode, BlockCode, LoopCode;
      WhileFacts(s, ctx, lps != [], sw, out);
      KeptBelow(out, ExprCode(s.c, ctx) + JumpCode(0x51, OPEN));
    }

    lemma {:induction false} WhileDone(s: Stmt, ctx: Ctx, out: seq<Byte>, code: seq<Byte>, lps: seq<seq<nat>>, sw: bool)
      requires Valid() && s.While? && ExprOk(s.c, ctx) && StmtOk(s.body, ctx, true, sw) && ctx.globals <= globals
      requires err.None? || err == Some(Limit)
      requires if err.None? then Out() == LoopCode(out + ExprCode(s.c, ctx), s.body, ctx, [], |out|) else Kept(out + code)
      requires err.None? ==> Tables() == AfterBlock(s.body, ctx) && loops == lps
      ensures Did(s, ctx, out, lps, sw)
    {
      hide StmtCode, After, StmtOk, BreakSites, ExprOk, ExprCode, Kept, JumpCode, BlockCode, LoopCode, WithSites;
      WhileFacts(s, ctx, lps != [], sw, out);
      NoSites(lps);
      if err.Some? {
        KeptBelow(out, code);
      }
    }

    /** The global a `for` loop counts in: one that exists and may change, or a new one. */
    method BindLoopVariable(x: Name) returns (g: Byte)
      requires Valid() && err.None?
      modifies this`err, this`globals
      ensures Valid() && old(globals) <= globals
      ensures if err.None? then Tables() == BindLoopVar(x, old(Tables())) && g == SlotOf(x, Tables())
              else err == Some(Rejected)
      ensures err.None? == (NameOk(x) && match Find(old(globals), x)
                                         case Some(i) => !old(globals)[i].isLet
                                         case None => |old(globals)| < MAX_GLOBALS)
    {
      g := 0;
      if !(0 < |x| < IDENT_MAX) {
        Fail(Rejected);
        return;
      }
      var i := FindSym(globals, x);
      if i >= 0 {
        if globals[i].isLet {
          Fail(Rejected);
          return;
        }
        g := i % 0x100;
        return;
      }
      GlobalAdded(globals, Sym(x, false));
      g := |globals| % 0x100;
      var ok := DefineGlobal(x, false);
      if !ok {
        Fail(Rejected);
      }
    }

    /** The bounds, low over high, and the low one into the loop variable. */
    method CompileRange(lo: Expr, hi: Expr, g: Byte)
      requires Valid() && err.None? && TextOf(lo) && TextOf(hi)
      modifies this`pos, this`err, this`toks, this`at, this`parked, bc
      ensures Valid() && parked == old(parked)
      ensures Emitted(ExprOk(lo, Tables()) && ExprOk(hi, Tables()), old(Out()),
                      ExprCode(lo, Tables()) + ExprCode(hi, Tables()) + [0x12, 0x22, g])
    {
      hide ExprOk, ExprCode, TextOf, Kept;
      ghost var out, a, b := Out(), ExprCode(lo, Tables()), ExprCode(hi, Tables());
      CompileExpr(lo);
      if err.Some? {
        return;
      }
      CompileExpr(hi);
      if err.Some? {
        KeptBelow(out, a);
        return;
      }
      EmitBounds(g, out, a, b);
    }

    /** Swap the bounds and define the loop variable as the lower one. */
    method EmitBounds(g: Byte, ghost out: seq<Byte>, ghost a: seq<Byte>, ghost b: seq<Byte>)
      requires Valid() && err.None? && Out() == out + a + b
      modifies this`pos, this`err, bc
      ensures Valid() && Emitted(true, out, a + b + [0x12, 0x22, g])
    {
      assert out + a + b == out + (a + b);
      EmitTriple(0x12, 0x22, g);
      if err.Some? {
        KeptBelow(out, a + b);
      } else {
        assert out + (a + b) + [0x12, 0x22, g] == out + (a + b + [0x12, 0x22, g]);
      }
    }


    /** Inside a function the bound that stays on the stack takes an anonymous slot. */
    method ReserveSlot()
      requires Valid() && err.None?
      modifies this`err, this`locals
      ensures Valid()
      ensures err.None? == (inFn ==> |old(locals)| < MAX_LOCALS) && (err.Some? ==> err == Some(Rejected))
      ensures err.None? ==> Tables() == ReserveBound(old(Tables()))
    {
      if inFn {
        var ok := DeclareLocal("", false);
        if !ok {
          Fail(Rejected);
        }
      }
    }

    method EmitLoopTest(g: Byte, closed: bool) returns (exit: nat)
      requires Valid() && err.None?
      modifies this`pos, this`err, bc
      ensures Valid() && Wrote(None, old(Out()), [0x20, g, 0x13, if closed then 0x43 else 0x42] + JumpCode(0x51, OPEN))
      ensures err.None? ==> exit == old(pos) + 5
    {
      hide JumpCode;
      EmitTriple(0x20, g, 0x13);
      EmitByte(if closed then 0x43 else 0x42);
      exit := EmitPlaceholder(0x51);
    }

    method EmitLoopStep(g: Byte)
      requires Valid() && err.None?
      modifies this`pos, this`err, bc
      ensures Valid() && Wrote(None, old(Out()), [0x20, g, 0x36, 0x21, g])
    {
      EmitTriple(0x20, g, 0x36);
      EmitPair(0x21, g);
    }

    /** The body of a `for` loop. Three values wait on the LIFO. */
    method CompileForBody(body: Stmt, start: nat, exit: nat, g: nat) returns (start': nat, exit': nat, g': nat)
      requires Valid() && err.None? && StmtWritable(body)
      modifies this`pos, this`err, this`toks, this`at, this`parked, this`globals, this`locals, this`loops, this`inSwitch, this`switchEnds, bc
      ensures Valid()
      ensures DidBlock(body, |old(locals)|, old(Tables()), old(Out()), old(loops), old(inSwitch))
      ensures err.None? ==> parked == old(parked) && inSwitch == old(inSwitch)
                            && start' == start && exit' == exit && g' == g
      decreases body, 13
    {
      hide StmtCode, After, StmtOk, BreakSites, StmtWritable, BlockCode, Kept;
      Park(start);
      g', exit' := CompileLoopBody(body, g, exit);
      start' := start;
      if err.None? {
        start' := Unpark();
      }
    }

    /** Everything of a `for` statement up to its loop. */
    method CompileForHead(s: Stmt) returns (g: Byte)
      requires Valid() && err.None? && StmtWritable(s) && s.ForIn?
      modifies this`pos, this`err, this`toks, this`at, this`parked, this`globals, this`locals, bc
      ensures Valid() && parked == old(parked) && old(globals) <= globals
      ensures var ctx, outer := old(Tables()), BindLoopVar(s.x, old(Tables()));
              && Emitted(CanLoopOver(s.x, ctx) && ExprOk(s.lo, outer) && ExprOk(s.hi, outer), old(Out()), ForHead(s, outer))
              && (err.None? ==> Tables() == ReserveBound(outer) && g == SlotOf(s.x, outer))
    {
      hide ExprOk, ExprCode, TextOf, Kept, SlotOf;
      KeptNow();
      ghost var out := Out();
      g := BindLoopVariable(s.x);
      if err.Some? {
        return;
      }
      CompileRange(s.lo, s.hi, g);
      if err.Some? {
        return;
      }
      KeptNow();
      KeptBelow(out, ForHead(s, Tables()));
      ReserveSlot();
    }

    /** parse_for_in over a range. */
    method CompileForIn(s: Stmt)
      requires Valid() && err.None? && StmtWritable(s) && s.ForIn?
      modifies this`pos, this`err, this`toks, this`at, this`parked, this`globals, this`locals, this`loops, this`inSwitch, this`switchEnds, bc
      ensures Valid()
      ensures Did(s, old(Tables()), old(Out()), old(loops), old(inSwitch))
      ensures err.None? ==> parked == old(parked) && inSwitch == old(inSwitch)
      decreases s, 8
    {
      hide AtLimit, StmtCode, After, StmtOk, BreakSites, BlockCode, JumpCode, ExprOk, TextOf, Kept, Did, LoopCode, BindLoopVar,
           ReserveBound, CanLoopOver, ForHead, SlotOf, ForCheck, ForStep;
      ghost var ctx, out, lps, sw := Tables(), Out(), loops, inSwitch;
      ghost var outer := BindLoopVar(s.x, ctx);
      ghost var inner, head := ReserveBound(outer), ForHead(s, outer);
      var g := CompileForHead(s);
      if err.Some? {
        ForHeadFails(s, ctx, out, lps, sw);
        return;
      }
      CompileForLoop(s, g, out, ctx, outer);
      if err.Some? {
        ForLoopFails(s, ctx, out, lps, sw);
        return;
      }
      SlotReserved(outer);
      EmitByte(0x10);
      if inFn {
        TruncateLocals(|locals| - 1);
      }
      ForDone(s, ctx, out, lps, sw);
    }

    /** The loop itself, from its test to its exit. */
    method CompileForLoop(s: Stmt, g: Byte, ghost out: seq<Byte>, ghost ctx: Ctx, ghost outer: Ctx)
      requires Valid() && err.None? && StmtWritable(s) && s.ForIn? && g == SlotOf(s.x, outer)
      requires Out() == out + ForHead(s, outer)
      modifies this`pos, this`err, this`toks, this`at, this`parked, this`globals, this`locals, this`loops, this`inSwitch, this`switchEnds, bc
      ensures Valid() && old(globals) <= globals
      ensures var inner, head := old(Tables()), out + ForHead(s, outer);
              if err.None? then
                && StmtOk(s.body, inner, true, old(inSwitch))
                && Out() == LoopCode(head + ForCheck(s, outer), s.body, inner, ForStep(s, outer), |head|)
                && Tables() == AfterBlock(s.body, inner) && loops == old(loops)
                && parked == old(parked) && inSwitch == old(inSwitch)
              else Kept(head) && (err == Some(Rejected) ==> !StmtOk(s.body, inner, true, old(inSwitch)))
      decreases s, 7
    {
      hide StmtCode, After, StmtOk, BreakSites, BlockCode, JumpCode, Kept, LoopCode, ForHead, SlotOf, Moved, WithSites;
      ghost var inner, head, lps := Tables(), Out(), loops;
      ghost var check, jump := ForCheck(s, outer), JumpCode(0x51, OPEN);
      var loopStart := pos;
      var exit := EmitLoopTest(g, s.closed);
      if err.Some? {
        return;
      }
      KeptNow();
      KeptBelow(head, check + jump);
      EnterLoop();
      if err.Some? {
        return;
      }
      RunForLoop(s, loopStart, exit, g, head, inner, outer, lps);
    }

    /** The body of a `for` loop, and what follows it. */
    method RunForLoop(s: Stmt, start: nat, test: nat, g: Byte, ghost head: seq<Byte>, ghost inner: Ctx, ghost outer: Ctx, ghost lps: seq<seq<nat>>)
      requires Valid() && err.None? && StmtWritable(s) && s.ForIn? && g == SlotOf(s.x, outer) && inner == Tables()
      requires start == |head| && test == |head| + 5 && loops == lps + [[]]
      requires Out() == head + (ForCheck(s, outer) + JumpCode(0x51, OPEN))
      modifies this`pos, this`err, this`toks, this`at, this`parked, this`globals, this`locals, this`loops, this`inSwitch, this`switchEnds, bc
      ensures Valid() && old(globals) <= globals
      ensures if err.None? then
                && StmtOk(s.body, inner, true, old(inSwitch))
                && Out() == LoopCode(head + ForCheck(s, outer), s.body, inner, ForStep(s, outer), |head|)
                && Tables() == AfterBlock(s.body, inner) && loops == lps
                && parked == old(parked) && inSwitch == old(inSwitch)
              else Kept(head) && (err == Some(Rejected) ==> !StmtOk(s.body, inner, true, old(inSwitch)))
      decreases s, 6
    {
      hide StmtCode, After, StmtOk, BreakSites, BlockCode, JumpCode, Kept, LoopCode, ForHead, SlotOf, Moved, WithSites;
      ghost var check, jump := ForCheck(s, outer), JumpCode(0x51, OPEN);
      var loopStart, exit, gidx := CompileForBody(s.body, start, test, g);
      if err.Some? {
        KeptBelow(head, check + jump);
        return;
      }
      AllLocals(inner);
      OpenLoop(lps, Moved(BreakSites(s.body, inner), |head + (check + jump)|));
      EndForLoop(s, loopStart, exit, gidx % 0x100, head, inner, outer);
    }


    /** The end of a turn, and the end of the loop. */
    method EndForLoop(s: Stmt, loopStart: nat, exit: nat, g: Byte, ghost head: seq<Byte>, ghost inner: Ctx, ghost outer: Ctx)
      requires Valid() && err.None? && s.ForIn? && g == SlotOf(s.x, outer) && loopStart == |head| && exit == |head| + 5
      requires Out() == head + (ForCheck(s, outer) + JumpCode(0x51, OPEN)) + BlockCode(s.body, inner, |inner.locals|, None)
      requires loops != [] && loops[|loops| - 1] == Moved(BreakSites(s.body, inner), |head| + 7)
      modifies this`pos, this`err, this`loops, bc
      ensures Valid() && (err.None? || err == Some(Limit))
      ensures if err.None? then Out() == LoopCode(head + ForCheck(s, outer), s.body, inner, ForStep(s, outer), |head|)
              else Kept(head)
      ensures err.None? ==> loops == old(loops)[..|old(loops)| - 1]
    {
      hide BreakSites, BlockCode, JumpCode, Kept, LoopCode, SlotOf, Moved;
      ghost var check, jump, open, step := ForCheck(s, outer), JumpCode(0x51, OPEN), BlockCode(s.body, inner, |inner.locals|, None),
                                           ForStep(s, outer);
      EmitLoopStep(g);
      assert head + (check + jump) + open == head + (check + jump + open);
      assert head + (check + jump + open) + step == head + (check + jump + open + step);
      if err.Some? {
        KeptBelow(head, check + jump + open);
        return;
      }
      assert head + (check + jump + open + step) == (head + check) + jump + (open + step);
      CloseLoop(loopStart, exit, head + check, s.body, inner, step);
      if err.Some? {
        KeptBelow(head, check + jump + open + step);
      }
    }

    lemma {:induction false} ForHeadFails(s: Stmt, ctx: Ctx, out: seq<Byte>, lps: seq<seq<nat>>, sw: bool)
      requires Valid() && s.ForIn? && err.Some? && Kept(out) && ctx.globals <= globals
      requires var outer := BindLoopVar(s.x, ctx);
               err == Some(Rejected) ==> !(CanLoopOver(s.x, ctx) && ExprOk(s.lo, outer) && ExprOk(s.hi, outer))
      ensures Did(s, ctx, out, lps, sw)
    {
      hide StmtCode, After, StmtOk, BreakSites, ExprOk, BindLoopVar, CanLoopOver, Kept, LoopCode, ForHead;
      ForFacts(s, ctx, lps != [], sw, out);
    }

    lemma {:induction false} ForLoopFails(s: Stmt, ctx: Ctx, out: seq<Byte>, lps: seq<seq<nat>>, sw: bool)
      requires Valid() && s.ForIn? && err.Some? && ctx.globals <= globals
      requires Kept(out + ForHead(s, BindLoopVar(s.x, ctx)))
      requires err == Some(Rejected) ==> !StmtOk(s.body, ReserveBound(BindLoopVar(s.x, ctx)), true, sw)
      ensures Did(s, ctx, out, lps, sw)
    {
      hide StmtCode, After, StmtOk, BreakSites, ExprOk, BindLoopVar, CanLoopOver, Kept, LoopCode, ForHead, ReserveBound;
      ForFacts(s, ctx, lps != [], sw, out);
      KeptBelow(out, ForHead(s, BindLoopVar(s.x, ctx)));
    }

    lemma {:induction false} ForDone(s: Stmt, ctx: Ctx, out: seq<Byte>, lps: seq<seq<nat>>, sw: bool)
      requires Valid() && s.ForIn? && ctx.globals <= globals
      requires var outer := BindLoopVar(s.x, ctx);
               var inner, head := ReserveBound(outer), out + ForHead(s, outer);
               && CanLoopOver(s.x, ctx) && ExprOk(s.lo, outer) && ExprOk(s.hi, outer) && StmtOk(s.body, inner, true, sw)
               && Wrote(None, LoopCode(head + ForCheck(s, outer), s.body, inner, ForStep(s, outer), |head|), [0x10])
               && (err.None? ==> Tables() == AfterBlock(s.body, inner).(locals := ctx.locals) && loops == lps)
      ensures Did(s, ctx, out, lps, sw)
    {
      hide StmtCode, After, StmtOk, BreakSites, ExprOk, BindLoopVar, CanLoopOver, LoopCode, ForHead, ReserveBound, BlockCode;
      ForFacts(s, ctx, lps != [], sw, out);
      NoSites(lps);
      if err.Some? {
        var outer := BindLoopVar(s.x, ctx);
        var inner, head := ReserveBound(outer), out + ForHead(s, outer);
        LoopKeepsHead(head + ForCheck(s, outer), s.body, inner, ForStep(s, outer), |head|);
        assert out <= head <= head + ForCheck(s, outer);
      }
    }

    static lemma {:induction false} SlotReserved(outer: Ctx)
      ensures var inner := ReserveBound(outer);
              && inner.inFn == outer.inFn && (!outer.inFn ==> inner == outer)
              && (outer.inFn ==> |inner.locals| == |outer.locals| + 1 && inner.locals[..|inner.locals| - 1] == outer.locals)
    {
    }

    static lemma {:induction false} LoopKeepsHead(head: seq<Byte>, body: Stmt, ctx: Ctx, next: seq<Byte>, start: nat)
      ensures head <= LoopCode(head, body, ctx, next, start)
    {
      hide BlockCode, JumpCode;
    }

    // ----- switch -----

    /** The tests of a clause: each value but the last jumps to the body when it is equal, and the last jumps
      * on when it is not; that jump, at `skip`, is still open. */
    method CompileTests(values: Exprs) returns (skip: nat)
      requires Valid() && err.None? && values.Exprs? && ArgsWritable(values)
      modifies this`pos, this`err, this`toks, this`at, this`parked, bc
      ensures Valid() && (err.None? ==> parked == old(parked) && skip == pos - 2 >= 0)
      ensures Emitted(ExprsOk(values, Tables()), old(Out()), TestsCode(values, Tables(), OPEN))
      decreases values, 0
    {
      hide ExprOk, ExprCode, JumpCode, TestsCode, Kept;
      ghost var ctx, out := Tables(), Out();
      ghost var test := [0x11] + ExprCode(values.first, ctx) + [0x40];
      TestsUnfold(values, ctx, OPEN);
      skip := 0;
      CompileEqual(values.first);
      if err.Some? {
        return;
      }
      if values.rest == NoExprs {
        skip := EmitLastTest(out, test);
      } else {
        skip := CompileAnotherTest(values.rest, out, test);
      }
    }

    /** The jump behind the last test. */
    method EmitLastTest(ghost out: seq<Byte>, ghost test: seq<Byte>) returns (skip: nat)
      requires Valid() && err.None? && Out() == out + test
      modifies this`pos, this`err, bc
      ensures Valid() && (err.None? ==> skip == pos - 2 >= 0)
      ensures Emitted(true, out, test + JumpCode(0x51, OPEN))
    {
      hide JumpCode, Kept;
      skip := EmitPlaceholder(0x51);
      if err.Some? {
        KeptBelow(out, test);
      } else {
        assert out + test + JumpCode(0x51, OPEN) == out + (test + JumpCode(0x51, OPEN));
      }
    }

    /** The jump behind another test, and the tests behind it. */
    method CompileAnotherTest(values: Exprs, ghost out: seq<Byte>, ghost test: seq<Byte>) returns (skip: nat)
      requires Valid() && err.None? && values.Exprs? && ArgsWritable(values) && Out() == out + test
      modifies this`pos, this`err, this`toks, this`at, this`parked, bc
      ensures Valid() && (err.None? ==> parked == old(parked) && skip == pos - 2 >= 0)
      ensures var more := TestsCode(values, Tables(), OPEN);
              Emitted(ExprsOk(values, Tables()), out, test + JumpCode(0x52, |more|) + more)
      decreases values, 2
    {
      hide ExprsOk, JumpCode, TestsCode, Kept, ArgsWritable;
      skip := CompileMoreTests(values, out + test);
      if err.Some? {
        KeptBelow(out, test);
      } else {
        ghost var more := TestsCode(values, Tables(), OPEN);
        Regroup(out, test, JumpCode(0x52, |more|), more);
      }
    }

    /** The remaining tests, behind a jump to the body, which waits on the LIFO. */
    method CompileMoreTests(values: Exprs, ghost pre: seq<Byte>) returns (skip: nat)
      requires Valid() && err.None? && values.Exprs? && ArgsWritable(values) && Out() == pre
      modifies this`pos, this`err, this`toks, this`at, this`parked, bc
      ensures Valid() && (err.None? ==> parked == old(parked) && skip == pos - 2 >= 0)
      ensures Emitted(ExprsOk(values, Tables()), pre,
                      JumpCode(0x52, |TestsCode(values, Tables(), OPEN)|) + TestsCode(values, Tables(), OPEN))
      decreases values, 1
    {
      hide ExprsOk, JumpCode, TestsCode, Kept, PatchOne;
      skip := 0;
      var hit := EmitPlaceholder(0x52);
      if err.Some? {
        return;
      }
      Park(hit);
      skip := CompileTests(values);
      if err.Some? {
        KeptBelow(pre, JumpCode(0x52, OPEN));
        return;
      }
      hit := Unpark();
      ghost var more := TestsCode(values, Tables(), OPEN);
      AimHere(hit, pre, 0x52, more);
      assert pre + JumpCode(0x52, |more|) + more == pre + (JumpCode(0x52, |more|) + more);
    }

    /** Compare a copy of the subject with one value. */
    method CompileEqual(e: Expr)
      requires Valid() && err.None? && TextOf(e)
      modifies this`pos, this`err, this`toks, this`at, this`parked, bc
      ensures Valid() && parked == old(parked)
      ensures Emitted(ExprOk(e, Tables()), old(Out()), [0x11] + ExprCode(e, Tables()) + [0x40])
    {
      hide ExprOk, ExprCode, TextOf, Kept;
      ghost var out, c := Out(), ExprCode(e, Tables());
      EmitByte(0x11);
      if err.Some? {
        return;
      }
      CompileExpr(e);
      if err.Some? {
        KeptBelow(out, [0x11]);
        return;
      }
      assert out + [0x11] + c == out + ([0x11] + c);
      EmitByte(0x40);
      if err.Some? {
        KeptBelow(out, [0x11] + c);
      } else {
        assert out + ([0x11] + c) + [0x40] == out + ([0x11] + c + [0x40]);
      }
    }

    /** The statements of a clause. Its locals are popped unless the last byte is a return; they are
      * forgotten either way. */
    method CompileClauseBody(body: Stmt) returns (returned: bool)
      requires Valid() && err.None? && StmtWritable(body) && pos > 0 && Out()[pos - 1] == 0x10
      modifies this`pos, this`err, this`toks, this`at, this`parked, this`globals, this`locals, this`loops, this`inSwitch, this`switchEnds, bc
      ensures Valid() && DidClauseBody(body, old(Tables()), old(Out()), old(loops), old(inSwitch), returned)
      ensures err.None? ==> parked == old(parked) && inSwitch == old(inSwitch)
      decreases body, 10
    {
      hide AtLimit, StmtCode, After, StmtOk, BreakSites, StmtWritable, Kept, Moved, WithSites, LastByteReturns, Pops, ClauseBody, AfterBlock,
           DidClauseBody, Emitted;
      ghost var ctx, out, lps, sw := Tables(), Out(), loops, inSwitch;
      var base := |locals|;
      CompileStmt(body);
      returned := false;
      if err.Some? {
        ClauseFailed(body, ctx, out, lps, sw, returned);
        return;
      }
      assert Out() == out + StmtCode(body, ctx, None) by { EmittedCode(StmtOk(body, ctx, lps != [], sw), out, StmtCode(body, ctx, None)); }
      LastByteBehind(out, StmtCode(body, ctx, None));
      returned := EndsWithReturn();
      EndClauseBody(body, base, returned, ctx, out, lps, sw);
    }

    lemma {:induction false} EmittedCode(ok: bool, out: seq<Byte>, code: seq<Byte>)
      requires Valid() && err.None? && Emitted(ok, out, code)
      ensures Out() == out + code
    {
    }

    lemma {:induction false} ClauseFailed(body: Stmt, ctx: Ctx, out: seq<Byte>, lps: seq<seq<nat>>, sw: bool, returned: bool)
      requires Valid() && err.Some? && Did(body, ctx, out, lps, sw)
      ensures DidClauseBody(body, ctx, out, lps, sw, returned)
    {
      hide StmtCode, After, StmtOk, BreakSites, Kept, Moved, WithSites, LastByteReturns, ClauseBody, AfterBlock;
    }

    lemma {:induction false} ClauseEnded(body: Stmt, ctx: Ctx, ctx1: Ctx, out: seq<Byte>, lps: seq<seq<nat>>, sw: bool, returned: bool)
      requires Valid() && ctx.globals <= ctx1.globals && ctx1 == After(body, ctx) && returned == LastByteReturns(StmtCode(body, ctx, None))
      requires StmtOk(body, ctx, lps != [], sw) && loops == WithSites(lps, Moved(BreakSites(body, ctx), |out|))
      requires |ctx.locals| <= |ctx1.locals| && Tables() == ctx1.(locals := ctx1.locals[..|ctx.locals|])
      requires if returned then err.None? && Out() == out + StmtCode(body, ctx, None)
               else Wrote(None, out, StmtCode(body, ctx, None) + Pops(|ctx1.locals| - |ctx.locals|))
      ensures DidClauseBody(body, ctx, out, lps, sw, returned)
    {
      hide StmtCode, After, StmtOk, BreakSites, Kept, Moved, WithSites, LastByteReturns, Pops;
      BlockParts(body, ctx, |ctx.locals|);
      AllLocals(ctx);
    }

    /** The locals of a clause are popped, or only forgotten when its last byte looks like a return. */
    method EndClauseBody(ghost body: Stmt, base: nat, returned: bool, ghost ctx: Ctx, ghost out: seq<Byte>, ghost lps: seq<seq<nat>>,
                         ghost sw: bool)
      requires Valid() && err.None? && Did(body, ctx, out, lps, sw) && base == |ctx.locals|
      requires returned == LastByteReturns(StmtCode(body, ctx, None))
      modifies this`pos, this`err, this`locals, bc
      ensures Valid() && DidClauseBody(body, ctx, out, lps, sw, returned)
    {
      hide AtLimit, StmtCode, After, StmtOk, BreakSites, Kept, Moved, WithSites, LastByteReturns, Pops, Emitted, ClauseBody, AfterBlock,
           DidClauseBody;
      ghost var ctx1 := Tables();
      BodyDone(body, ctx, out, lps, sw);
      BlockParts(body, ctx, base);
      if returned {
        TruncateLocals(base);
      } else {
        PopLocals(base, out, StmtCode(body, ctx, None));
      }
      ClauseEnded(body, ctx, ctx1, out, lps, sw, returned);
    }

    lemma {:induction false} BodyDone(body: Stmt, ctx: Ctx, out: seq<Byte>, lps: seq<seq<nat>>, sw: bool)
      requires Valid() && err.None? && Did(body, ctx, out, lps, sw)
      ensures ctx.globals <= globals && StmtOk(body, ctx, lps != [], sw) && Out() == out + StmtCode(body, ctx, None)
      ensures Tables() == After(body, ctx) && loops == WithSites(lps, Moved(BreakSites(body, ctx), |out|))
    {
      hide StmtCode, After, StmtOk, BreakSites, Moved, WithSites;
    }

    /** The raw test of the last byte emitted. */
    method EndsWithReturn() returns (r: bool)
      requires Valid()
      ensures r == LastByteReturns(Out())
    {
      r := pos > 0 && (bc[pos - 1] == 0x61 || bc[pos - 1] == 0x62);
    }

    /** The effect of compiling the clauses `cases`. */
    ghost predicate DidCases(cases: Cases, ctx: Ctx, out: seq<Byte>, lps: seq<seq<nat>>)
      reads this, bc
      requires Valid()
    {
      && ctx.globals <= globals
      && Emitted(CasesOk(cases, ctx, lps != []), out, CasesCode(cases, ctx, None))
      && (err.None? ==> Tables() == AfterCases(cases, ctx)
                        && loops == WithSites(lps, Moved(CasesSites(cases, ctx), |out|)))
    }

    /** The clauses of a switch. The jump at the end of a clause is aimed when all clauses are done. */
    method CompileCases(cases: Cases)
      requires Valid() && err.None? && CasesWritable(cases) && inSwitch
      modifies this`pos, this`err, this`toks, this`at, this`parked, this`globals, this`locals, this`loops, this`inSwitch, this`switchEnds, bc
      ensures Valid() && DidCases(cases, old(Tables()), old(Out()), old(loops))
      ensures err.None? ==> parked == old(parked) && inSwitch
      decreases cases, 2
    {
      hide StmtCode, After, StmtOk, BreakSites, StmtWritable, Kept, Moved, WithSites, ClauseBody;
      match cases {
        case NoCase =>
          EmitByte(0x10);
          NoSites(loops);
          NothingMoved(old(pos));
        case Default(body) => CompileDefault(body);
        case Case(_, _, _) => CompileCase(cases);
      }
    }

    static lemma {:induction false} NothingMoved(n: nat)
      ensures Moved([], n) == []
    {
    }

    method CompileDefault(body: Stmt)
      requires Valid() && err.None? && StmtWritable(body) && inSwitch
      modifies this`pos, this`err, this`toks, this`at, this`parked, this`globals, this`locals, this`loops, this`inSwitch, this`switchEnds, bc
      ensures Valid() && DidCases(Default(body), old(Tables()), old(Out()), old(loops))
      ensures err.None? ==> parked == old(parked) && inSwitch
      decreases body, 12
    {
      hide StmtCode, After, StmtOk, BreakSites, StmtWritable, Kept, WithSites, ClauseBody, Moved;
      MovedTwice(BreakSites(body, Tables()), 1, pos);
      var returned := CompileDropped(body);
    }

    /** A clause behind its tests, with its jump to the end of the switch still open. */
    method CompileClause(body: Stmt) returns (returned: bool, end: nat)
      requires Valid() && err.None? && StmtWritable(body) && inSwitch
      modifies this`pos, this`err, this`toks, this`at, this`parked, this`globals, this`locals, this`loops, this`inSwitch, this`switchEnds, bc
      ensures Valid() && old(globals) <= globals
      ensures Emitted(StmtOk(body, old(Tables()), old(loops) != [], true), old(Out()), ClauseCode(body, old(Tables()), OPEN, None))
      ensures err.None? ==>
                && Tables() == AfterBlock(body, old(Tables())) && returned == LastByteReturns(StmtCode(body, old(Tables()), None))
                && loops == WithSites(old(loops), Moved(BreakSites(body, old(Tables())), |old(Out())| + 1))
                && (!returned ==> end == pos - 2) && parked == old(parked) && inSwitch
      decreases body, 12
    {
      hide StmtCode, After, StmtOk, BreakSites, StmtWritable, Kept, WithSites, ClauseBody, Moved, LastByteReturns, JumpCode,
           ClauseCode, AfterBlock;
      ghost var ctx, out := Tables(), Out();
      ClauseParts(body, ctx, OPEN);
      end := 0;
      returned := CompileDropped(body);
      if err.None? && !returned {
        end := EmitClauseEnd(out, [0x10] + ClauseBody(body, ctx, None));
      }
    }

    /** Drop the subject and compile the statements of a clause. */
    method CompileDropped(body: Stmt) returns (returned: bool)
      requires Valid() && err.None? && StmtWritable(body) && inSwitch
      modifies this`pos, this`err, this`toks, this`at, this`parked, this`globals, this`locals, this`loops, this`inSwitch, this`switchEnds, bc
      ensures Valid() && old(globals) <= globals
      ensures Emitted(StmtOk(body, old(Tables()), old(loops) != [], true), old(Out()), [0x10] + ClauseBody(body, old(Tables()), None))
      ensures err.None? ==>
                && Tables() == AfterBlock(body, old(Tables())) && returned == LastByteReturns(StmtCode(body, old(Tables()), None))
                && loops == WithSites(old(loops), Moved(BreakSites(body, old(Tables())), |old(Out())| + 1))
                && parked == old(parked) && inSwitch
      decreases body, 11
    {
      hide StmtCode, After, StmtOk, BreakSites, StmtWritable, Kept, WithSites, ClauseBody, Moved, LastByteReturns, AfterBlock;
      ghost var out, code := Out(), ClauseBody(body, Tables(), None);
      returned := false;
      EmitByte(0x10);
      if err.Some? {
        return;
      }
      returned := CompileClauseBody(body);
      if err.Some? {
        KeptBelow(out, [0x10]);
      } else {
        assert out + [0x10] + code == out + ([0x10] + code);
      }
    }

    /** The jump at the end of a clause. */
    method EmitClauseEnd(ghost out: seq<Byte>, ghost code: seq<Byte>) returns (end: nat)
      requires Valid() && err.None? && Out() == out + code
      modifies this`pos, this`err, this`switchEnds, bc
      ensures Valid() && Wrote(None, out, code + JumpCode(0x50, OPEN)) && (err.None? ==> end == pos - 2)
    {
      hide JumpCode, Kept;
      KeptNow();
      KeptBelow(out, code);
      end := 0;
      if switchEnds >= SWITCH_MAX_CASES {
        Fail(Limit);
        return;
      }
      end := EmitPlaceholder(0x50);
      if err.Some? {
        KeptBelow(out, code);
      } else {
        switchEnds := switchEnds + 1;
        assert out + code + JumpCode(0x50, OPEN) == out + (code + JumpCode(0x50, OPEN));
      }
    }

    /** The clauses behind a clause of `body`, whose jump over them is aimed last. */
    method CompileOthers(others: Cases, returned: bool, end: nat, ghost body: Stmt, ghost ctx: Ctx, ghost pre: seq<Byte>)
      requires Valid() && err.None? && CasesWritable(others) && inSwitch
      requires returned == LastByteReturns(StmtCode(body, ctx, None)) && (!returned ==> end == pos - 2)
      requires Out() == pre + ClauseCode(body, ctx, OPEN, None)
      modifies this`pos, this`err, this`toks, this`at, this`parked, this`globals, this`locals, this`loops, this`inSwitch, this`switchEnds, bc
      ensures Valid() && old(globals) <= globals
      ensures var code := CasesCode(others, old(Tables()), None);
              Emitted(CasesOk(others, old(Tables()), old(loops) != []), pre, ClauseCode(body, ctx, |code|, None) + code)
      ensures err.None? ==>
                && Tables() == AfterCases(others, old(Tables())) && parked == old(parked) && inSwitch
                && loops == WithSites(old(loops), Moved(CasesSites(others, old(Tables())), old(pos)))
      decreases others, 3
    {
      hide StmtCode, After, CasesOk, AfterCases, CasesSites, Kept, WithSites, ClauseBody, Moved, LastByteReturns, JumpCode,
           ClauseCode, CasesCode;
      ghost var block := [0x10] + ClauseBody(body, ctx, None);
      ghost var code := CasesCode(others, Tables(), None);
      ClauseParts(body, ctx, OPEN);
      ClauseParts(body, ctx, |code|);
      CompileCases(others);
      if err.Some? {
        KeptBelow(pre, ClauseCode(body, ctx, OPEN, None));
        return;
      }
      if returned {
        Regroup(pre, block, code, []);
      } else {
        AimClauseEnd(end, pre, block, code);
      }
    }

    /** Aim the jump at the end of a clause behind the clauses `code`. */
    method AimClauseEnd(end: nat, ghost pre: seq<Byte>, ghost block: seq<Byte>, ghost code: seq<Byte>)
      requires Valid() && err.None? && Out() == pre + (block + JumpCode(0x50, OPEN)) + code && end == |pre| + |block| + 1
      modifies bc
      ensures Valid() && Out() == pre + (block + JumpCode(0x50, |code|) + code)
    {
      hide JumpCode;
      Joins(pre, block, JumpCode(0x50, OPEN), code);
      AimHere(end, pre + block, 0x50, code);
      Joins(pre, block, JumpCode(0x50, |code|), code);
    }

    /** A clause must have a value. */
    method CompileCaseValues(values: Exprs) returns (skip: nat)
      requires Valid() && err.None? && (values.Exprs? ==> ArgsWritable(values))
      modifies this`pos, this`err, this`toks, this`at, this`parked, bc
      ensures Valid() && (err.None? ==> parked == old(parked) && skip == pos - 2 >= 0)
      ensures Emitted(values.Exprs? && ExprsOk(values, Tables()), old(Out()), TestsCode(values, Tables(), OPEN))
      decreases values, 1
    {
      hide Kept, TestsCode, ExprsOk;
      skip := 0;
      if values.Exprs? {
        skip := CompileTests(values);
      } else {
        KeptNow();
        Fail(Rejected);
      }
    }

    /** One clause and those behind it. */
    method CompileCase(cases: Cases)
      requires Valid() && err.None? && CasesWritable(cases) && inSwitch && cases.Case?
      modifies this`pos, this`err, this`toks, this`at, this`parked, this`globals, this`locals, this`loops, this`inSwitch, this`switchEnds, bc
      ensures Valid() && DidCases(cases, old(Tables()), old(Out()), old(loops))
      ensures err.None? ==> parked == old(parked) && inSwitch
      decreases cases, 1
    {
      hide StmtCode, After, CasesOk, AfterCases, CasesSites, Kept, WithSites, ClauseCode, Moved, LastByteReturns, StmtOk,
           CasesCode, TestsCode, PatchOne, DidCases, ExprsOk, BreakSites, AfterBlock, CasesWritable;
      ghost var ctx, out, lps := Tables(), Out(), loops;
      CasesParts(cases);
      var skip := CompileCaseValues(cases.values);
      if err.Some? {
        CaseFails(cases, ctx, out, lps);
        return;
      }
      CompileCaseRest(cases, skip, ctx, out, lps);
    }

    /** A clause behind the tests of its values. */
    method CompileCaseRest(cases: Cases, skip: nat, ghost ctx: Ctx, ghost out: seq<Byte>, ghost lps: seq<seq<nat>>)
      requires Valid() && err.None? && CasesWritable(cases) && inSwitch && cases.Case? && cases.values.Exprs?
      requires ExprsOk(cases.values, ctx) && Tables() == ctx && loops == lps
      requires Out() == out + TestsCode(cases.values, ctx, OPEN) && skip == pos - 2 >= 0
      modifies this`pos, this`err, this`toks, this`at, this`parked, this`globals, this`locals, this`loops, this`inSwitch, this`switchEnds, bc
      ensures Valid() && DidCases(cases, ctx, out, lps)
      ensures err.None? ==> parked == old(parked) && inSwitch
      decreases cases, 0
    {
      hide StmtCode, After, CasesOk, AfterCases, CasesSites, Kept, WithSites, ClauseCode, Moved, LastByteReturns, StmtOk,
           CasesCode, TestsCode, PatchOne, DidCases, ExprsOk, BreakSites, AfterBlock, CasesWritable;
      CasesParts(cases);
      var returned, end := CompileClause(cases.body);
      if err.Some? {
        KeptBelow(out, TestsCode(cases.values, ctx, OPEN));
        CaseFails(cases, ctx, out, lps);
        return;
      }
      FinishCase(cases, skip, returned, end, ctx, out, lps);
    }


    /** The tests of a clause jump behind it, and the other clauses follow. */
    method FinishCase(cases: Cases, skip: nat, returned: bool, end: nat, ghost ctx: Ctx, ghost out: seq<Byte>, ghost lps: seq<seq<nat>>)
      requires Valid() && err.None? && CasesWritable(cases) && inSwitch && cases.Case? && cases.values.Exprs?
      requires ExprsOk(cases.values, ctx) && StmtOk(cases.body, ctx, lps != [], true)
      requires Tables() == AfterBlock(cases.body, ctx) && ctx.globals <= globals && |loops| == |lps|
      requires returned == LastByteReturns(StmtCode(cases.body, ctx, None)) && (!returned ==> end == pos - 2)
      requires var tests := TestsCode(cases.values, ctx, OPEN);
               && Out() == out + tests + ClauseCode(cases.body, ctx, OPEN, None) && skip == |out + tests| - 2 >= 0
               && loops == WithSites(lps, Moved(BreakSites(cases.body, ctx), |out + tests| + 1))
      modifies this`pos, this`err, this`toks, this`at, this`parked, this`globals, this`locals, this`loops, this`inSwitch, this`switchEnds, bc
      ensures Valid() && DidCases(cases, ctx, out, lps)
      ensures err.None? ==> parked == old(parked) && inSwitch
      decreases cases.rest, 4
    {
      hide StmtCode, After, CasesOk, AfterCases, CasesSites, Kept, WithSites, ClauseCode, Moved, LastByteReturns, StmtOk,
           CasesCode, TestsCode, PatchOne, DidCases, ExprsOk, BreakSites;
      ghost var open := ClauseCode(cases.body, ctx, OPEN, None);
      PatchTests(out, cases.values, ctx, open);
      PatchHere(skip);
      ghost var ctx1, lps1, pos1 := Tables(), loops, pos;
      CompileOthers(cases.rest, returned, end, cases.body, ctx,
                    out + TestsCode(cases.values, ctx, |open|));
      CaseDone(cases, ctx, out, lps, lps1, ctx1, pos1);
    }


    lemma {:induction false} CaseFails(cases: Cases, ctx: Ctx, out: seq<Byte>, lps: seq<seq<nat>>)
      requires Valid() && cases.Case? && err.Some? && Kept(out) && ctx.globals <= globals
      requires err == Some(Rejected) ==>
                 !(cases.values.Exprs? && ExprsOk(cases.values, ctx) && StmtOk(cases.body, ctx, lps != [], true))
      ensures DidCases(cases, ctx, out, lps)
    {
      hide StmtOk, ExprsOk, Kept, CasesCode, TestsCode, ClauseCode, CasesOk;
      CaseFacts(cases, ctx, lps != [], |out|);
    }

    lemma {:induction false} CaseDone(cases: Cases, ctx: Ctx, out: seq<Byte>, lps: seq<seq<nat>>, lps1: seq<seq<nat>>, ctx1: Ctx, pos1: nat)
      requires Valid() && cases.Case? && cases.values.Exprs? && ctx.globals <= ctx1.globals <= globals
      requires ExprsOk(cases.values, ctx) && StmtOk(cases.body, ctx, lps != [], true) && ctx1 == AfterBlock(cases.body, ctx)
      requires |lps1| == |lps|
      requires var tests, open := TestsCode(cases.values, ctx, OPEN), ClauseCode(cases.body, ctx, OPEN, None);
               var pre, others := out + TestsCode(cases.values, ctx, |open|), CasesCode(cases.rest, ctx1, None);
               && lps1 == WithSites(lps, Moved(BreakSites(cases.body, ctx), |out + tests| + 1))
               && pos1 == |out + tests + open|
               && Emitted(CasesOk(cases.rest, ctx1, lps1 != []), pre, ClauseCode(cases.body, ctx, |others|, None) + others)
               && (err.None? ==> Tables() == AfterCases(cases.rest, ctx1)
                                 && loops == WithSites(lps1, Moved(CasesSites(cases.rest, ctx1), pos1)))
      ensures DidCases(cases, ctx, out, lps)
    {
      hide StmtOk, ExprsOk, Kept, CasesCode, TestsCode, ClauseCode, CasesOk, BreakSites, CasesSites, Moved, WithSites, After,
           AfterCases, Emitted;
      CaseFacts(cases, ctx, lps != [], |out|);
      var others := CasesCode(cases.rest, ctx1, None);
      ClauseLength(cases.body, ctx, OPEN, |others|, None, None);
      var clause := ClauseCode(cases.body, ctx, |others|, None);
      var t, t1 := TestsCode(cases.values, ctx, OPEN), TestsCode(cases.values, ctx, |clause|);
      SitesTwice(lps, Moved(BreakSites(cases.body, ctx), |out| + |t| + 1), Moved(CasesSites(cases.rest, ctx1), |out| + |t| + |clause|));
      GlobalsPrefix(ctx.globals, ctx1.globals);
      CasesEmitted(out, t1, clause, others, CasesOk(cases.rest, ctx1, lps1 != []), CasesOk(cases, ctx, lps != []));
    }

    lemma {:induction false} CasesEmitted(out: seq<Byte>, tests: seq<Byte>, clause: seq<Byte>, others: seq<Byte>, ok1: bool, ok: bool)
      requires Valid() && ok1 == ok && Emitted(ok1, out + tests, clause + others)
      ensures Emitted(ok, out, tests + clause + others)
    {
      assert out + tests + (clause + others) == out + (tests + clause + others);
      if err.Some? {
        KeptBelow(out, tests);
      }
    }

    /** parse_switch; switches do not nest. */
    method CompileSwitch(s: Stmt)
      requires Valid() && err.None? && StmtWritable(s) && s.Switch?
      modifies this`pos, this`err, this`toks, this`at, this`parked, this`globals, this`locals, this`loops, this`inSwitch, this`switchEnds, bc
      ensures Valid()
      ensures Did(s, old(Tables()), old(Out()), old(loops), old(inSwitch))
      ensures err.None? ==> parked == old(parked) && inSwitch == old(inSwitch)
      decreases s, 8
    {
      hide AtLimit, StmtCode, After, StmtOk, BreakSites, ExprOk, ExprCode, TextOf, Kept, Moved, WithSites, CasesCode, CasesOk, AfterCases,
           CasesSites, Did;
      if inSwitch {
        KeptNow();
        Fail(Rejected);
        SwitchFails(s, Tables(), Out(), loops, true);
      } else {
        CompileOneSwitch(s);
      }
    }

    /** A switch that is not inside another one. */
    method CompileOneSwitch(s: Stmt)
      requires Valid() && err.None? && StmtWritable(s) && s.Switch? && !inSwitch
      modifies this`pos, this`err, this`toks, this`at, this`parked, this`globals, this`locals, this`loops, this`inSwitch, this`switchEnds, bc
      ensures Valid() && !inSwitch
      ensures Did(s, old(Tables()), old(Out()), old(loops), false)
      ensures err.None? ==> parked == old(parked)
      decreases s, 7
    {
      hide AtLimit, StmtCode, After, StmtOk, BreakSites, ExprOk, ExprCode, TextOf, Kept, Moved, WithSites, CasesCode, CasesOk, AfterCases,
           CasesSites, Did;
      ghost var ctx, out, lps := Tables(), Out(), loops;
      inSwitch, switchEnds := true, 0;
      CompileExpr(s.e);
      if err.Some? {
        inSwitch := false;
        SwitchFails(s, ctx, out, lps, false);
        return;
      }
      CompileCases(s.cases);
      inSwitch := false;
      SwitchDone(s, ctx, out, lps);
    }

    lemma {:induction false} SwitchDone(s: Stmt, ctx: Ctx, out: seq<Byte>, lps: seq<seq<nat>>)
      requires Valid() && s.Switch? && ExprOk(s.e, ctx) && DidCases(s.cases, ctx, out + ExprCode(s.e, ctx), lps)
      ensures Did(s, ctx, out, lps, false)
    {
      hide StmtOk, ExprOk, Kept, StmtCode, After, BreakSites, CasesOk, CasesCode, AfterCases, CasesSites, ExprCode, Moved, WithSites;
      var c, code := ExprCode(s.e, ctx), CasesCode(s.cases, ctx, None);
      SwitchFacts(s, ctx, lps != [], false, |out|);
      assert out + c + code == out + (c + code);
      if err.Some? {
        KeptBelow(out, c);
      }
    }

    lemma {:induction false} SwitchFails(s: Stmt, ctx: Ctx, out: seq<Byte>, lps: seq<seq<nat>>, sw: bool)
      requires Valid() && s.Switch? && err.Some? && Kept(out) && ctx.globals <= globals
      requires err == Some(Rejected) ==> sw || !ExprOk(s.e, ctx)
      ensures Did(s, ctx, out, lps, sw)
    {
      hide StmtOk, ExprOk, Kept, StmtCode, After, BreakSites, CasesOk;
      SwitchFacts(s, ctx, lps != [], sw, |out|);
    }

    // ----- functions -----

    /** What outlives a compile. */
    ghost function Kernel(): Session
      reads this, bc
      requires Valid()
    {
      Session(globals, funcs, starts, bc[..arenaUsed])
    }

    /** The top-level code of this compile. */
    ghost function Scratch(): seq<Byte>
      reads this, bc
      requires Valid()
    {
      bc[arenaUsed..pos]
    }

    /** Nothing is half done. */
    ghost predicate Idle()
      reads this
    {
      Valid() && !inFn && !fnHasReturn && !inSwitch && loops == [] && |starts| == |funcs|
    }

    /** Between two compiles. What an unfinished one has left open is closed when the next one starts. */
    ghost predicate Resting()
      reads this
    {
      Valid() && |starts| == |funcs|
    }

    /** `z` can be got back by cutting every table to its length. */
    ghost predicate Extends(z: Session)
      reads this, bc
      requires Valid()
    {
      && z.globals <= globals && z.funcs <= funcs && z.starts <= starts
      && |z.arena| <= arenaUsed && bc[..|z.arena|] == z.arena
    }

    /** funcs_declare. */
    method DeclareFunction(name: Name) returns (ok: bool)
      requires Valid() && |starts| == |funcs|
      modifies this`funcs, this`starts
      ensures Valid()
      ensures ok == (NameOk(name) && FindFunc(old(funcs), name).None? && |old(funcs)| < MAX_FUNCS)
      ensures funcs == if ok then old(funcs) + [FuncSig(name, 0, false)] else old(funcs)
      ensures starts == if ok then old(starts) + [0] else old(starts)
    {
      var i := FindFunction(funcs, name);
      ok := 0 < |name| < IDENT_MAX && i < 0 && |funcs| < MAX_FUNCS;
      if ok {
        funcs := funcs + [FuncSig(name, 0, false)];
        starts := starts + [0];
      }
    }

    /** The parameters become the first locals. */
    method DeclareParams(params: seq<Name>)
      requires Valid() && err.None? && inFn && locals == []
      modifies this`err, this`locals
      ensures Valid()
      ensures err.None? == ParamsOk(params) && (err.Some? ==> err == Some(Rejected))
      ensures err.None? ==> locals == ParamSyms(params)
    {
      hide ParamsOk;
      var i := 0;
      NoParams();
      while i < |params|
        invariant Valid() && err.None? && 0 <= i <= |params| && locals == ParamSyms(params[..i]) && ParamsOk(params[..i])
      {
        ParamsStep(params, i);
        var ok := params[i] != "";
        if ok {
          ok := DeclareLocal(params[i], false);
        }
        if !ok {
          Fail(Rejected);
          return;
        }
        i := i + 1;
      }
      assert params[..|params|] == params;
    }

    /** The end of a body: a void return unless the last byte already is a return. */
    method EndBody(start: nat, hasReturn: bool, ghost out: seq<Byte>, ghost code: seq<Byte>)
      requires Valid() && err.None? && Out() == out + code && start == |out|
      modifies this`pos, this`err, bc
      ensures Valid()
      ensures err == Some(Rejected) ==> hasReturn && !LastByteReturns(code)
      ensures if err.None? then (hasReturn ==> LastByteReturns(code))
                                && Out() == out + (if LastByteReturns(code) then code else code + [0x62])
              else Kept(out)
    {
      hide Kept;
      KeptNow();
      KeptBelow(out, code);
      var returned := EndsWithReturn();
      assert start < pos ==> (out + code)[pos - 1] == code[|code| - 1];
      if start == pos || !returned {
        if hasReturn {
          Fail(Rejected);
          return;
        }
        EmitByte(0x62);
        if err.Some? {
          KeptBelow(out, code);
        } else {
          assert out + code + [0x62] == out + (code + [0x62]);
        }
      }
    }

    /** bcbuf_rotate_func_into_arena: the body that starts at `start` moves in front of the top-level code. */
    method RotateIntoArena(start: nat)
      requires Valid() && arenaUsed <= start <= pos
      modifies this`arenaUsed, bc
      ensures Valid() && arenaUsed == old(arenaUsed) + (pos - start)
      ensures bc[..arenaUsed] == old(bc[..arenaUsed] + bc[start..pos])
      ensures bc[arenaUsed..pos] == old(bc[arenaUsed..start])
    {
      ghost var all := bc[..];
      RotatedCode(all, arenaUsed, start, pos);
      RotateDown(bc, arenaUsed, start, pos);
      arenaUsed := arenaUsed + (pos - start);
      assert bc[..arenaUsed] == bc[..][..arenaUsed] && bc[arenaUsed..pos] == bc[..][arenaUsed..pos];
      assert all[..old(arenaUsed)] == old(bc[..arenaUsed]) && all[start..pos] == old(bc[start..pos]);
      assert all[old(arenaUsed)..start] == old(bc[arenaUsed..start]);
    }

    /** parse_func_decl at program level. */
    method CompileFunc(f: FuncDecl)
      requires Idle() && err.None? && StmtWritable(f.body)
      modifies this, bc
      ensures Valid() && Extends(old(Kernel()))
      ensures err == Some(Rejected) ==> !ItemOk(Func(f), old(Kernel()))
      ensures err.None? ==>
                && Idle() && ItemOk(Func(f), old(Kernel())) && Kernel() == AddFunc(old(Kernel()), f)
                && Scratch() == old(Scratch())
    {
      hide AtLimit, StmtCode, After, StmtOk, Kept, StmtWritable, LastByteReturns, FuncCode;
      ghost var z := Kernel();
      var ok := DeclareFunction(f.name);
      if !ok {
        Fail(Rejected);
        return;
      }
      CompileDeclared(f, z);
    }

    /** The parameters and the body of `f`, once its name is declared. */
    method CompileDeclared(f: FuncDecl, ghost z: Session)
      requires Valid() && err.None? && StmtWritable(f.body) && !inFn && !fnHasReturn && !inSwitch && loops == [] && |z.starts| == |z.funcs|
      requires FindFunc(z.funcs, f.name).None? && NameOk(f.name) && |z.funcs| < MAX_FUNCS && locals == [] && globals == z.globals
      requires funcs == z.funcs + [FuncSig(f.name, 0, false)] && starts == z.starts + [0] && z.arena == bc[..arenaUsed]
      modifies this, bc
      ensures Valid() && Extends(z)
      ensures err == Some(Rejected) ==> !ItemOk(Func(f), z)
      ensures err.None? ==> Idle() && ItemOk(Func(f), z) && Kernel() == AddFunc(z, f) && Scratch() == old(Scratch())
    {
      hide AtLimit, StmtCode, After, StmtOk, Kept, StmtWritable, LastByteReturns, FuncCode;
      locals, inFn := [], true;
      DeclareParams(f.params);
      if err.Some? {
        inFn, locals := false, [];
        return;
      }
      var i := |funcs| - 1;
      funcs := funcs[i := FuncSig(f.name, |f.params|, f.hasReturn)];
      assert funcs == z.funcs + [SigOf(f)];
      fnHasReturn := f.hasReturn;
      BodyCtxOf(f, z);
      CompileFuncBody(f, z);
    }

    /** The body of `f`, once its name and parameters are declared: compile it in place behind the top-level
      * code, and rotate it into the arena. */
    method CompileFuncBody(f: FuncDecl, ghost z: Session)
      requires Valid() && err.None? && StmtWritable(f.body) && inFn && !inSwitch && loops == [] && |starts| == |funcs| > 0
      requires Tables() == FuncCtx(f, z) && starts == z.starts + [0] && z.arena == bc[..arenaUsed]
      modifies this, bc
      ensures Valid() && Extends(z)
      ensures err == Some(Rejected) ==> !(StmtOk(f.body, FuncCtx(f, z), false, false)
                                          && (f.hasReturn ==> LastByteReturns(StmtCode(f.body, FuncCtx(f, z), None))))
      ensures err.None? ==>
                && StmtOk(f.body, FuncCtx(f, z), false, false)
                && (f.hasReturn ==> LastByteReturns(StmtCode(f.body, FuncCtx(f, z), None)))
                && Idle() && Kernel() == AddFunc(z, f) && Scratch() == old(Scratch())
    {
      hide StmtCode, After, StmtOk, Kept, StmtWritable, LastByteReturns, BreakSites, Moved, WithSites;
      ghost var ctx, out, scratch, code := Tables(), Out(), Scratch(), StmtCode(f.body, Tables(), None);
      var bodyStart := pos;
      CompileStmt(f.body);
      inFn, fnHasReturn, locals := false, false, [];
      if err.Some? {
        ArenaKept(z, out);
        return;
      }
      FinishFuncBody(f, z, bodyStart, out, scratch);
    }

    /** The end of a body: the return that may be missing, and the move into the arena. */
    method FinishFuncBody(f: FuncDecl, ghost z: Session, bodyStart: nat, ghost out: seq<Byte>, ghost scratch: seq<Byte>)
      requires Idle() && err.None? && |starts| > 0 && starts == z.starts + [0] && locals == []
      requires var ctx := FuncCtx(f, z);
               && Out() == out + StmtCode(f.body, ctx, None) && bodyStart == |out| && out == z.arena + scratch
               && arenaUsed == |z.arena| && funcs == ctx.funcs && z.funcs <= funcs
               && globals == After(f.body, ctx).globals && z.globals <= globals
      modifies this`pos, this`err, this`arenaUsed, this`starts, bc
      ensures Valid() && Extends(z)
      ensures err == Some(Rejected) ==> f.hasReturn && !LastByteReturns(StmtCode(f.body, FuncCtx(f, z), None))
      ensures err.None? ==>
                && (f.hasReturn ==> LastByteReturns(StmtCode(f.body, FuncCtx(f, z), None)))
                && Idle() && Kernel() == AddFunc(z, f) && Scratch() == scratch
    {
      hide StmtCode, After, Kept, LastByteReturns;
      ghost var ctx := FuncCtx(f, z);
      ghost var code := StmtCode(f.body, ctx, None);
      EndBody(bodyStart, f.hasReturn, out, code);
      if err.Some? {
        ArenaKept(z, out);
        return;
      }
      PlaceBody(bodyStart, |starts| - 1, out, FuncCode(f, ctx), z.arena, scratch);
    }


    /** Rotate the finished body and record where it starts. */
    method PlaceBody(start: nat, i: nat, ghost out: seq<Byte>, ghost body: seq<Byte>, ghost arena: seq<Byte>, ghost scratch: seq<Byte>)
      requires Valid() && i < |starts| && start == |out| && Out() == out + body && arenaUsed == |arena| && out == arena + scratch
      modifies this`arenaUsed, this`starts, bc
      ensures Valid() && starts == old(starts)[i := |arena|]
      ensures bc[..arenaUsed] == arena + body && Scratch() == scratch
    {
      ghost var all := Out();
      assert bc[..arenaUsed] == all[..arenaUsed] == arena;
      assert bc[start..pos] == all[start..] == body;
      assert bc[arenaUsed..start] == all[arenaUsed..start] == scratch;
      var arenaStart := arenaUsed;
      RotateIntoArena(start);
      starts := starts[i := arenaStart];
    }

    lemma {:induction false} ArenaKept(z: Session, out: seq<Byte>)
      requires Valid() && Kept(out) && |z.arena| == arenaUsed <= |out| && out[..|z.arena|] == z.arena
      requires z.globals <= globals && z.funcs <= funcs && z.starts <= starts
      ensures Extends(z)
    {
      assert bc[..|z.arena|] == Out()[..|z.arena|] == out[..|z.arena|];
    }

    // ----- programs -----

    constructor (capacity: nat)
      ensures Idle() && Kernel() == FRESH && bc.Length == capacity && fresh(bc)
    {
      bc := new Byte[capacity];
      pos, at, arenaUsed := 0, 0, 0;
      err, toks := None, [];
      globals, locals, funcs, starts := [], [], [], [];
      inFn, fnHasReturn, inSwitch := false, false, false;
      loops, parked, switchEnds := [], [], 0;
    }

    /** A statement at program level. */
    method CompileTop(s: Stmt)
      requires Idle() && err.None? && StmtWritable(s)
      modifies this, bc
      ensures Valid() && Extends(old(Kernel()))
      ensures err == Some(Rejected) ==> !ItemOk(Top(s), old(Kernel()))
      ensures err.None? ==>
                && Idle() && ItemOk(Top(s), old(Kernel())) && Kernel() == AddTop(old(Kernel()), s)
                && Scratch() == old(Scratch()) + StmtCode(s, TopCtx(old(Kernel())), None)
    {
      hide StmtCode, After, StmtOk, Kept, StmtWritable, BreakSites, Moved;
      ghost var z, out, scratch, code := Kernel(), Out(), Scratch(), StmtCode(s, Tables(), None);
      assert Tables() == TopCtx(z);
      assert out == z.arena + scratch;
      CompileStmt(s);
      if err.Some? {
        ArenaKept(z, out);
        return;
      }
      assert locals == After(s, TopCtx(z)).locals == [];
      assert Out() == z.arena + (scratch + code);
      assert bc[..arenaUsed] == Out()[..arenaUsed] && Scratch() == Out()[arenaUsed..];
    }

    /** parse_program. */
    method CompileItems(items: seq<Item>)
      requires Idle() && err.None? && Scratch() == [] && ProgramWritable(items)
      modifies this, bc
      ensures Valid() && Extends(old(Kernel()))
      ensures err == Some(Rejected) ==> !ItemsOk(items, old(Kernel()))
      ensures err.None? ==>
                && Idle() && ItemsOk(items, old(Kernel())) && Kernel() == SessionAfter(items, old(Kernel()))
                && Scratch() == TopCode(items, old(Kernel())) + HALT
    {
      hide AtLimit, AddItem, ItemOk, StmtCode, After, StmtOk, StmtWritable, SessionAfter, ItemsOk, TopCode;
      ghost var z0 := Kernel();
      var i := 0;
      assert items[0..] == items;
      while i < |items|
        invariant Idle() && err.None? && 0 <= i <= |items| && Extends(z0)
        invariant SessionAfter(items[i..], Kernel()) == SessionAfter(items, z0)
        invariant ItemsOk(items[i..], Kernel()) == ItemsOk(items, z0)
        invariant Scratch() + TopCode(items[i..], Kernel()) == TopCode(items, z0)
      {
        ghost var z := Kernel();
        ItemsFrom(items, i, z);
        CompileItem(items[i]);
        ExtendsMore(z0, z);
        if err.Some? {
          return;
        }
        i := i + 1;
      }
      assert items[i..] == [];
      NoItems(Kernel());
      FinishItems(z0);
    }

    /** The items from number `i` on are item `i` and the items behind it. */
    static lemma {:induction false} ItemsFrom(items: seq<Item>, i: nat, z: Session)
      requires i < |items|
      ensures SessionAfter(items[i..], z) == SessionAfter(items[i + 1..], AddItem(z, items[i]))
      ensures ItemsOk(items[i..], z) == (ItemOk(items[i], z) && ItemsOk(items[i + 1..], AddItem(z, items[i])))
      ensures TopCode(items[i..], z) == (match items[i] case Func(_) => [] case Top(s) => StmtCode(s, TopCtx(z), None))
                                        + TopCode(items[i + 1..], AddItem(z, items[i]))
    {
      hide AddItem, ItemOk, StmtCode;
      assert items[i..][0] == items[i] && items[i..][1..] == items[i + 1..];
    }

    static lemma {:induction false} NoItems(z: Session)
      ensures SessionAfter([], z) == z && ItemsOk([], z) && TopCode([], z) == []
    {
    }

    /** One statement or function declaration. */
    method CompileItem(item: Item)
      requires Idle() && err.None? && ItemWritable(item)
      modifies this, bc
      ensures Valid() && Extends(old(Kernel()))
      ensures err == Some(Rejected) ==> !ItemOk(item, old(Kernel()))
      ensures err.None? ==>
                && Idle() && ItemOk(item, old(Kernel())) && Kernel() == AddItem(old(Kernel()), item)
                && Scratch() == old(Scratch()) + (match item case Func(_) => []
                                                             case Top(s) => StmtCode(s, TopCtx(old(Kernel())), None))
    {
      hide StmtCode, After, StmtOk, StmtWritable, AddFunc, AddTop, FuncOk;
      match item {
        case Func(f) => CompileFunc(f);
        case Top(s) => CompileTop(s);
      }
    }

    lemma {:induction false} ExtendsMore(z0: Session, z: Session)
      requires Valid() && Extends(z)
      requires z0.globals <= z.globals && z0.funcs <= z.funcs && z0.starts <= z.starts && z0.arena <= z.arena
      ensures Extends(z0)
    {
      assert bc[..|z0.arena|] == bc[..|z.arena|][..|z0.arena|];
    }

    /** The halt behind the last statement. */
    method FinishItems(ghost z0: Session)
      requires Idle() && err.None? && Extends(z0)
      modifies this`pos, this`err, bc
      ensures Valid() && Extends(z0) && (err.None? || err == Some(Limit))
      ensures err.None? ==> Idle() && Kernel() == old(Kernel()) && Scratch() == old(Scratch()) + HALT
    {
      ghost var out := Out();
      EmitByte(0x54);
      assert out <= Out();
      assert bc[..|z0.arena|] == Out()[..|z0.arena|] == out[..|z0.arena|];
      if err.None? {
        assert bc[..arenaUsed] == Out()[..arenaUsed] == out[..arenaUsed];
        assert Scratch() == Out()[arenaUsed..] == out[arenaUsed..] + HALT;
      }
    }

    /** compile_impl: compile a program behind the arena; after an error, cut every table back. Execution is
      * to start at `start`. */
    method Compile(items: seq<Item>) returns (fault: Option<Fault>, start: nat)
      requires Resting() && ProgramWritable(items)
      modifies this, bc
      ensures Resting() && (fault == Some(Limit) ==> AtLimit())
      ensures fault.None? ==>
                && ItemsOk(items, old(Kernel())) && Kernel() == SessionAfter(items, old(Kernel()))
                && start == |Kernel().arena| && Scratch() == TopCode(items, old(Kernel())) + HALT
      ensures fault == Some(Rejected) ==> !ItemsOk(items, old(Kernel()))
      ensures fault.Some? ==> Kernel() == old(Kernel())
    {
      hide SessionAfter, ItemsOk, TopCode;
      ghost var z := Kernel();
      var globalCount, funcCount, arenaSaved := |globals|, |funcs|, arenaUsed;
      pos, err, parked, loops, locals := arenaUsed, None, [], [], [];
      inFn, fnHasReturn, inSwitch := false, false, false;
      CompileItems(items);
      fault, start := err, arenaUsed;
      if err.Some? {
        RollBack(globalCount, funcCount, arenaSaved, z);
      }
    }

    /** globals_rollback, funcs_rollback and bcbuf_arena_truncate. */
    method RollBack(globalCount: nat, funcCount: nat, arenaSaved: nat, ghost z: Session)
      requires Valid() && Extends(z)
      requires globalCount == |z.globals| && funcCount == |z.funcs| == |z.starts| && arenaSaved == |z.arena|
      modifies this`funcs, this`starts, this`globals, this`arenaUsed
      ensures Resting() && Kernel() == z
    {
      hide AtLimit;
      CutBack(z);
      funcs, starts, globals := funcs[..funcCount], starts[..funcCount], globals[..globalCount];
      arenaUsed := arenaSaved;
    }

    lemma {:induction false} CutBack(z: Session)
      requires Valid() && Extends(z)
      ensures |z.globals| <= |globals| && |z.funcs| <= |funcs| && |z.starts| <= |starts| && |z.arena| <= arenaUsed
      ensures globals[..|z.globals|] == z.globals && funcs[..|z.funcs|] == z.funcs && starts[..|z.starts|] == z.starts
    {
    }

    /** A sequence of compiles, as at the interactive prompt. Those that fail leave no trace. */
    method CompileAll(programs: seq<seq<Item>>) returns (accepted: seq<bool>)
      requires Resting() && forall i :: 0 <= i < |programs| ==> ProgramWritable(programs[i])
      modifies this, bc
      ensures Resting() && |accepted| == |programs|
      ensures Kernel() == SessionAfterAll(programs, accepted, old(Kernel()))
    {
      hide SessionAfter, ItemsOk, TopCode;
      accepted := [];
      ghost var z := Kernel();
      assert programs[..0] == [];
      var i := 0;
      while i < |programs|
        invariant Resting() && 0 <= i == |accepted| <= |programs|
        invariant Kernel() == SessionAfterAll(programs[..i], accepted, z)
      {
        var fault, _ := Compile(programs[i]);
        accepted := accepted + [fault.None?];
        assert programs[..i + 1][..i] == programs[..i] && accepted[..i] == accepted[..|accepted| - 1];
        i := i + 1;
      }
      assert programs[..i] == programs;
    }
  }

  /** What a fresh compiler hands to the machine: the buffer and the function table of the linked image. */
  method CompileProgram(items: seq<Item>, capacity: nat) returns (fault: Option<Fault>, code: seq<Byte>, start: nat, entries: seq<M.FuncEntry>)
    requires ProgramWritable(items)
    ensures fault.None? ==> M.Image(code, entries) == ImageOf(items) && start == EntryOf(items) && ItemsOk(items, FRESH)
    ensures fault == Some(Rejected) ==> !ItemsOk(items, FRESH)
  {
    hide SessionAfter, ItemsOk, TopCode;
    var p := new Parser(capacity);
    fault, start := p.Compile(items);
    code, entries := [], [];
    if fault.None? {
      code := p.bc[..p.pos];
      entries := seq(|p.starts|, i requires 0 <= i < |p.starts| && |p.funcs| == |p.starts| reads p =>
        M.FuncEntry(p.starts[i] % 0x1_0000, p.funcs[i].params % 0x100, p.funcs[i].hasReturn));
      assert code == p.bc[..p.arenaUsed] + p.Scratch();
    }
  }
}