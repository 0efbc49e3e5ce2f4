/** Back-patching: the placeholders a loop body leaves for its breaks, and what filling them in does. */
module Patching {
  import opened Bytes
  import opened Values
  import opened Syntax
  import opened CodeGen

  /** The length of a construct's code does not depend on where its breaks go. */
  lemma {:induction false} SameLength(s: Stmt, ctx: Ctx, b1: Option<int>, b2: Option<int>)
    ensures |StmtCode(s, ctx, b1)| == |StmtCode(s, ctx, b2)|
    decreases s, 1
  {
    hide ExprCode, After, SeqCode, IfCode, IfLetCode, SwitchCode, WhileCode, ForInCode, SimpleCode;
    match s {
      case Seq(_, _) => SameLengthSeq(s, ctx, b1, b2);
      case If(_, _, _) => SameLengthIf(s, ctx, b1, b2);
      case IfLet(_, _, _, _) => SameLengthIfLet(s, ctx, b1, b2);
      case Switch(_, _) => SameLengthSwitch(s, ctx, b1, b2);
      case _ =>
    }
  }

  lemma {:induction false} SameLengthSeq(s: Stmt, ctx: Ctx, b1: Option<int>, b2: Option<int>)
    requires s.Seq?
    ensures |SeqCode(s, ctx, b1)| == |SeqCode(s, ctx, b2)|
    decreases s, 0
  {
    hide StmtCode, After;
    var Seq(s1, s2) := s;
    SameLength(s1, ctx, b1, b2);
    var n := |StmtCode(s1, ctx, b1)|;
    SameLength(s2, After(s1, ctx), Shift(b1, n), Shift(b2, n));
  }

  lemma {:induction false} SameLengthIf(s: Stmt, ctx: Ctx, b1: Option<int>, b2: Option<int>)
    requires s.If?
    ensures |IfCode(s, ctx, b1)| == |IfCode(s, ctx, b2)|
    decreases s, 0
  {
    hide StmtCode, After, ExprCode, ArmsCode;
    var If(c, thn, els) := s;
    var n := |ExprCode(c, ctx)|;
    SameLength(thn, ctx, Shift(b1, n + 3), Shift(b2, n + 3));
    SameLengthArms(0x51, BlockCode(thn, ctx, |ctx.locals|, Shift(b1, n + 3)),
                   BlockCode(thn, ctx, |ctx.locals|, Shift(b2, n + 3)), els, AfterBlock(thn, ctx),
                   Shift(b1, n), Shift(b2, n));
  }

  lemma {:induction false} SameLengthIfLet(s: Stmt, ctx: Ctx, b1: Option<int>, b2: Option<int>)
    requires s.IfLet?
    ensures |IfLetCode(s, ctx, b1)| == |IfLetCode(s, ctx, b2)|
    decreases s, 0
  {
    hide StmtCode, After, ExprCode, ArmsCode, BindIfLet, BindingCode;
    var IfLet(x, e, thn, els) := s;
    var inner := BindIfLet(x, ctx);
    var store := BindingCode(x, ctx);
    var m := |ExprCode(e, ctx)|;
    var n := m + 3 + |store|;
    SameLength(thn, inner, Shift(b1, n), Shift(b2, n));
    SameLengthArms(0x73, store + BlockCode(thn, inner, |ctx.locals|, Shift(b1, n)),
                   store + BlockCode(thn, inner, |ctx.locals|, Shift(b2, n)), els,
                   AfterBlock(thn, inner).(locals := ctx.locals), Shift(b1, m), Shift(b2, m));
  }

  lemma {:induction false} SameLengthSwitch(s: Stmt, ctx: Ctx, b1: Option<int>, b2: Option<int>)
    requires s.Switch?
    ensures |SwitchCode(s, ctx, b1)| == |SwitchCode(s, ctx, b2)|
    decreases s, 0
  {
    hide StmtCode, After, ExprCode, CasesCode;
    var Switch(e, cases) := s;
    var n := |ExprCode(e, ctx)|;
    SameLengthCases(cases, ctx, Shift(b1, n), Shift(b2, n));
  }

  lemma {:induction false} SameLengthArms(test: Byte, thn1: seq<Byte>, thn2: seq<Byte>, els: Option<Stmt>, ctx: Ctx,
                                          b1: Option<int>, b2: Option<int>)
    requires |thn1| == |thn2|
    ensures |ArmsCode(test, thn1, els, ctx, b1)| == |ArmsCode(test, thn2, els, ctx, b2)|
    decreases els, 2
  {
    if els.Some? {
      SameLength(els.value, ctx, Shift(b1, 6 + |thn1|), Shift(b2, 6 + |thn2|));
    }
  }

  lemma {:induction false} SameLengthCases(cases: Cases, ctx: Ctx, b1: Option<int>, b2: Option<int>)
    ensures |CasesCode(cases, ctx, b1)| == |CasesCode(cases, ctx, b2)|
    decreases cases, 0
  {
    hide ExprCode, ExprsCode, After, AfterBlock, StmtCode, TestsCode, ClauseCode;
    match cases {
      case NoCase =>
      case Default(body) => ClauseBodyLength(body, ctx, Shift(b1, 1), Shift(b2, 1));
      case Case(values, body, rest) =>
        var t := |TestsCode(values, ctx, 0)|;
        var n := |ClauseCode(body, ctx, 0, None)|;
        SameLengthCases(rest, AfterBlock(body, ctx), Shift(b1, t + n), Shift(b2, t + n));
        var others1 := CasesCode(rest, AfterBlock(body, ctx), Shift(b1, t + n));
        var others2 := CasesCode(rest, AfterBlock(body, ctx), Shift(b2, t + n));
        ClauseLength(body, ctx, |others1|, |others2|, Shift(b1, t), Shift(b2, t));
    }
  }

  lemma {:induction false} ClauseLength(body: Stmt, ctx: Ctx, n1: nat, n2: nat, b1: Option<int>, b2: Option<int>)
    ensures |ClauseCode(body, ctx, n1, b1)| == |ClauseCode(body, ctx, n2, b2)|
    decreases body, 3
  {
    hide ClauseBody, StmtCode;
    ClauseBodyLength(body, ctx, Shift(b1, 1), Shift(b2, 1));
  }

  lemma {:induction false} ClauseBodyLength(body: Stmt, ctx: Ctx, b1: Option<int>, b2: Option<int>)
    ensures |ClauseBody(body, ctx, b1)| == |ClauseBody(body, ctx, b2)|
    decreases body, 2
  {
    hide StmtCode, After;
    SameLength(body, ctx, b1, b2);
  }

  lemma {:induction false} TestsLength(values: Exprs, ctx: Ctx, skip1: nat, skip2: nat)
    ensures |TestsCode(values, ctx, skip1)| == |TestsCode(values, ctx, skip2)|
  {
    match values {
      case NoExprs =>
      case Exprs(_, NoExprs) =>
      case Exprs(_, rest) => TestsLength(rest, ctx, skip1, skip2);
    }
  }

  // ----- break sites -----

  /** Positions `n` further on. */
  function Moved(sites: seq<nat>, n: nat): (r: seq<nat>)
    ensures |r| == |sites|
  {
    seq(|sites|, i requires 0 <= i < |sites| => sites[i] + n)
  }

  /** Where in the code of `s` the operands of its free breaks are, in source order. */
  function BreakSites(s: Stmt, ctx: Ctx): seq<nat>
    decreases s, 1
  {
    match s
    case Seq(s1, s2) => BreakSites(s1, ctx) + Moved(BreakSites(s2, After(s1, ctx)), |StmtCode(s1, ctx, None)|)
    case If(c, thn, els) =>
      var n := |ExprCode(c, ctx)|;
      Moved(BreakSites(thn, ctx), n + 3)
      + ElseSites(els, AfterBlock(thn, ctx), n + 3 + |BlockCode(thn, ctx, |ctx.locals|, None)| + 3)
    case IfLet(x, e, thn, els) =>
      var inner := BindIfLet(x, ctx);
      var n := |ExprCode(e, ctx)| + 3 + if ctx.inFn then 0 else 2;
      Moved(BreakSites(thn, inner), n)
      + ElseSites(els, AfterBlock(thn, inner).(locals := ctx.locals), n + |BlockCode(thn, inner, |ctx.locals|, None)| + 3)
    case Switch(e, cases) => Moved(CasesSites(cases, ctx), |ExprCode(e, ctx)|)
    case Break => [1]
    case _ => []
  }

  function ElseSites(els: Option<Stmt>, ctx: Ctx, n: nat): seq<nat>
    decreases els, 2
  {
    if els.Some? then Moved(BreakSites(els.value, ctx), n) else []
  }

  function CasesSites(cases: Cases, ctx: Ctx): seq<nat>
    decreases cases, 0
  {
    match cases
    case NoCase => []
    case Default(body) => Moved(BreakSites(body, ctx), 1)
    case Case(values, body, rest) =>
      var t := |TestsCode(values, ctx, 0)|;
      Moved(BreakSites(body, ctx), t + 1)
      + Moved(CasesSites(rest, AfterBlock(body, ctx)), t + |ClauseCode(body, ctx, 0, None)|)
  }

  /** Overwrite the operand at `site` so that the jump lands at `target` (patch_jump_to_here). */
  function PatchOne(code: seq<Byte>, site: nat, target: int): (r: seq<Byte>)
    requires site + 2 <= |code|
    ensures |r| == |code|
  {
    var d := Le16(target - (site + 2));
    code[site := d[0]][site + 1 := d[1]]
  }

  predicate Inside(sites: seq<nat>, n: nat) {
    forall i :: 0 <= i < |sites| ==> sites[i] + 2 <= n
  }

  /** Patch the sites in order (loops_exit). */
  function PatchAll(code: seq<Byte>, sites: seq<nat>, target: int): (r: seq<Byte>)
    requires Inside(sites, |code|)
    ensures |r| == |code|
    decreases |sites|
  {
    if sites == [] then code else PatchAll(PatchOne(code, sites[0], target), sites[1..], target)
  }

  lemma {:induction false} PatchOneLeft(a: seq<Byte>, b: seq<Byte>, site: nat, target: int)
    requires site + 2 <= |a|
    ensures PatchOne(a + b, site, target) == PatchOne(a, site, target) + b
  {
  }

  lemma {:induction false} PatchOneRight(a: seq<Byte>, b: seq<Byte>, site: nat, target: int)
    requires site + 2 <= |b|
    ensures PatchOne(a + b, site + |a|, target) == a + PatchOne(b, site, target - |a|)
  {
  }

  lemma {:induction false} PatchLeft(a: seq<Byte>, b: seq<Byte>, sites: seq<nat>, target: int)
    requires Inside(sites, |a|)
    ensures Inside(sites, |a + b|)
    ensures PatchAll(a + b, sites, target) == PatchAll(a, sites, target) + b
    decreases |sites|
  {
    if sites != [] {
      PatchOneLeft(a, b, sites[0], target);
      PatchLeft(PatchOne(a, sites[0], target), b, sites[1..], target);
    }
  }

  lemma {:induction false} PatchRight(a: seq<Byte>, b: seq<Byte>, sites: seq<nat>, target: int)
    requires Inside(sites, |b|)
    ensures Inside(Moved(sites, |a|), |a + b|)
    ensures PatchAll(a + b, Moved(sites, |a|), target) == a + PatchAll(b, sites, target - |a|)
    decreases |sites|
  {
    if sites != [] {
      var m := Moved(sites, |a|);
      assert m[0] == sites[0] + |a| && m[1..] == Moved(sites[1..], |a|);
      PatchOneRight(a, b, sites[0], target);
      PatchRight(a, PatchOne(b, sites[0], target - |a|), sites[1..], target);
    }
  }

  lemma {:induction false} PatchAppend(code: seq<Byte>, s1: seq<nat>, s2: seq<nat>, target: int)
    requires Inside(s1, |code|) && Inside(s2, |code|)
    ensures Inside(s1 + s2, |code|)
    ensures PatchAll(code, s1 + s2, target) == PatchAll(PatchAll(code, s1, target), s2, target)
    decreases |s1|
  {
    if s1 == [] {
      assert s1 + s2 == s2;
    } else {
      assert (s1 + s2)[0] == s1[0] && (s1 + s2)[1..] == s1[1..] + s2;
      PatchAppend(PatchOne(code, s1[0], target), s1[1..], s2, target);
    }
  }

  /** Patching two adjacent pieces of code patches each of them. */
  lemma {:induction false} PatchConcat(a: seq<Byte>, b: seq<Byte>, sa: seq<nat>, sb: seq<nat>, target: int)
    requires Inside(sa, |a|) && Inside(sb, |b|)
    ensures Inside(sa + Moved(sb, |a|), |a + b|)
    ensures PatchAll(a + b, sa + Moved(sb, |a|), target) == PatchAll(a, sa, target) + PatchAll(b, sb, target - |a|)
  {
    PatchLeft(a, b, sa, target);
    PatchRight(a, b, sb, target);
    PatchAppend(a + b, sa, Moved(sb, |a|), target);
    PatchRight(PatchAll(a, sa, target), b, sb, target);
  }

  lemma {:induction false} PatchMiddle(pre: seq<Byte>, mid: seq<Byte>, post: seq<Byte>, sites: seq<nat>, target: int)
    requires Inside(sites, |mid|)
    ensures Inside(Moved(sites, |pre|), |pre + mid + post|)
    ensures PatchAll(pre + mid + post, Moved(sites, |pre|), target)
         == pre + PatchAll(mid, sites, target - |pre|) + post
  {
    PatchRight(pre, mid, sites, target);
    PatchLeft(pre + mid, post, Moved(sites, |pre|), target);
  }

  // ----- patching a statement -----

  /** Patching the recorded break sites of `s` turns its code with open breaks into its code with
    * all of them aimed `d` bytes after its start. */
  lemma {:induction false} PatchStmt(s: Stmt, ctx: Ctx, d: int)
    ensures Inside(BreakSites(s, ctx), |StmtCode(s, ctx, None)|)
    ensures PatchAll(StmtCode(s, ctx, None), BreakSites(s, ctx), d) == StmtCode(s, ctx, Some(d))
    decreases s, 1
  {
    hide After, ExprCode, SeqCode, IfCode, IfLetCode, SwitchCode, WhileCode, ForInCode, SimpleCode;
    match s {
      case Seq(_, _) => PatchSeq(s, ctx, d);
      case If(_, _, _) => PatchIf(s, ctx, d);
      case IfLet(_, _, _, _) => PatchIfLet(s, ctx, d);
      case Switch(_, _) => PatchSwitch(s, ctx, d);
      case Break => assert PatchAll(BreakCode(None), [1], d) == PatchOne(BreakCode(None), 1, d);
      case _ =>
    }
  }

  lemma {:induction false} PatchSeq(s: Stmt, ctx: Ctx, d: int)
    requires s.Seq?
    ensures Inside(BreakSites(s, ctx), |SeqCode(s, ctx, None)|)
    ensures PatchAll(SeqCode(s, ctx, None), BreakSites(s, ctx), d) == SeqCode(s, ctx, Some(d))
    decreases s, 0
  {
    hide After, StmtCode, PatchAll;
    var Seq(s1, s2) := s;
    var c1 := StmtCode(s1, ctx, None);
    PatchStmt(s1, ctx, d);
    PatchStmt(s2, After(s1, ctx), d - |c1|);
    PatchConcat(c1, StmtCode(s2, After(s1, ctx), None), BreakSites(s1, ctx), BreakSites(s2, After(s1, ctx)), d);
    SameLength(s1, ctx, None, Some(d));
  }

  lemma {:induction false} PatchBlock(s: Stmt, ctx: Ctx, base: nat, d: int)
    requires base <= |ctx.locals|
    ensures |BlockCode(s, ctx, base, None)| == |BlockCode(s, ctx, base, Some(d))|
    ensures Inside(BreakSites(s, ctx), |BlockCode(s, ctx, base, None)|)
    ensures PatchAll(BlockCode(s, ctx, base, None), BreakSites(s, ctx), d) == BlockCode(s, ctx, base, Some(d))
    decreases s, 2
  {
    hide After, StmtCode, PatchAll;
    PatchStmt(s, ctx, d);
    PatchLeft(StmtCode(s, ctx, None), Pops(Excess(s, ctx, base)), BreakSites(s, ctx), d);
  }

  /** `s` in block form obeys PatchBlock. */
  ghost predicate BlockPatches(s: Stmt, ctx: Ctx, base: nat, d: int)
    requires base <= |ctx.locals|
  {
    && |BlockCode(s, ctx, base, None)| == |BlockCode(s, ctx, base, Some(d))|
    && Inside(BreakSites(s, ctx), |BlockCode(s, ctx, base, None)|)
    && PatchAll(BlockCode(s, ctx, base, None), BreakSites(s, ctx), d) == BlockCode(s, ctx, base, Some(d))
  }

  // ----- conditionals -----

  lemma {:induction false} MovedTwice(sites: seq<nat>, a: nat, b: nat)
    ensures Moved(Moved(sites, a), b) == Moved(sites, a + b)
  {
  }

  lemma {:induction false} MovedConcat(s1: seq<nat>, s2: seq<nat>, n: nat)
    ensures Moved(s1 + s2, n) == Moved(s1, n) + Moved(s2, n)
  {
  }

  /** Break sites of the two arms of a conditional whose jump starts at `n`, before `first`. */
  function ArmSites(store: seq<Byte>, thn: Stmt, inner: Ctx, base: nat, els: Option<Stmt>, outer: Ctx, n: nat): seq<nat>
    requires base <= |inner.locals|
  {
    var m := n + 3 + |store|;
    Moved(BreakSites(thn, inner), m) + ElseSites(els, outer, m + |BlockCode(thn, inner, base, None)| + 3)
  }

  lemma {:induction false} ArmSitesMoved(store: seq<Byte>, thn: Stmt, inner: Ctx, base: nat, els: Option<Stmt>, outer: Ctx, n: nat, k: nat)
    requires base <= |inner.locals|
    ensures Moved(ArmSites(store, thn, inner, base, els, outer, n), k) == ArmSites(store, thn, inner, base, els, outer, n + k)
  {
    hide BreakSites, BlockCode;
    var m := n + 3 + |store|;
    var e := m + |BlockCode(thn, inner, base, None)| + 3;
    MovedConcat(Moved(BreakSites(thn, inner), m), ElseSites(els, outer, e), k);
    MovedTwice(BreakSites(thn, inner), m, k);
    if els.Some? {
      MovedTwice(BreakSites(els.value, outer), e, k);
    }
  }

  /** Patching a conditional whose first arm is `store` followed by a block of `thn`. */
  lemma {:induction false} PatchArms(test: Byte, store: seq<Byte>, thn: Stmt, inner: Ctx, base: nat, els: Option<Stmt>, ctx: Ctx, d: int)
    requires base <= |inner.locals|
    requires BlockPatches(thn, inner, base, d - (3 + |store|))
    requires els.Some? ==>
               BlockPatches(els.value, ctx, |ctx.locals|, d - (3 + |store| + |BlockCode(thn, inner, base, None)| + 3))
    ensures var sites := ArmSites(store, thn, inner, base, els, ctx, 0);
            var arms := ArmsCode(test, store + BlockCode(thn, inner, base, None), els, ctx, None);
            && Inside(sites, |arms|)
            && PatchAll(arms, sites, d)
               == ArmsCode(test, store + BlockCode(thn, inner, base, Some(d - (3 + |store|))), els, ctx, Some(d))
  {
    hide After, StmtCode, PatchAll, BlockCode, BreakSites, Moved, JumpCode;
    var n := 3 + |store|;
    var open := BlockCode(thn, inner, base, None);
    var done := BlockCode(thn, inner, base, Some(d - n));
    match els {
      case None =>
        var pre := JumpCode(test, |store + open|) + store;
        PatchMiddle(pre, open, [], BreakSites(thn, inner), d);
        assert ArmsCode(test, store + open, els, ctx, None) == pre + open + [];
        assert ArmsCode(test, store + done, els, ctx, Some(d)) == pre + done + [];
        assert Moved(BreakSites(thn, inner), n) + [] == Moved(BreakSites(thn, inner), n);
      case Some(e) =>
        var m := n + |open| + 3;
        var pre := JumpCode(test, |store + open| + 3) + store;
        var other := BlockCode(e, ctx, |ctx.locals|, None);
        var jump := JumpCode(0x50, |other|);
        PatchMiddle(pre, open, jump, BreakSites(thn, inner), d);
        PatchConcat(pre + open + jump, other, Moved(BreakSites(thn, inner), n), BreakSites(e, ctx), d);
        assert ArmsCode(test, store + open, els, ctx, None) == pre + open + jump + other;
        assert ArmsCode(test, store + done, els, ctx, Some(d))
            == pre + done + jump + BlockCode(e, ctx, |ctx.locals|, Some(d - m));
    }
  }

  lemma {:induction false} IfSites(s: Stmt, ctx: Ctx)
    requires s.If?
    ensures BreakSites(s, ctx)
         == ArmSites([], s.thn, ctx, |ctx.locals|, s.els, AfterBlock(s.thn, ctx), |ExprCode(s.c, ctx)|)
    ensures forall brk :: (IfCode(s, ctx, brk)
         == ExprCode(s.c, ctx)
            + ArmsCode(0x51, BlockCode(s.thn, ctx, |ctx.locals|, Shift(brk, |ExprCode(s.c, ctx)| + 3)), s.els,
                       AfterBlock(s.thn, ctx), Shift(brk, |ExprCode(s.c, ctx)|)))
  {
    hide ExprCode, BlockCode, ArmsCode, AfterBlock, Moved;
  }

  lemma {:induction false} PatchIf(s: Stmt, ctx: Ctx, d: int)
    requires s.If?
    ensures Inside(BreakSites(s, ctx), |IfCode(s, ctx, None)|)
    ensures PatchAll(IfCode(s, ctx, None), BreakSites(s, ctx), d) == IfCode(s, ctx, Some(d))
    decreases s, 0
  {
    hide After, StmtCode, PatchAll, BlockCode, ArmsCode, ExprCode, BreakSites, IfCode, ArmSites, Moved;
    var If(c, thn, els) := s;
    var cond := ExprCode(c, ctx);
    var open := BlockCode(thn, ctx, |ctx.locals|, None);
    var mid := AfterBlock(thn, ctx);
    PatchBlock(thn, ctx, |ctx.locals|, d - |cond| - 3);
    if els.Some? {
      PatchBlock(els.value, mid, |ctx.locals|, d - |cond| - (3 + |open| + 3));
    }
    PatchArms(0x51, [], thn, ctx, |ctx.locals|, els, mid, d - |cond|);
    var done := BlockCode(thn, ctx, |ctx.locals|, Some(d - |cond| - 3));
    assert [] + open == open && [] + done == done;
    PatchRight(cond, ArmsCode(0x51, open, els, mid, None), ArmSites([], thn, ctx, |ctx.locals|, els, mid, 0), d);
    ArmSitesMoved([], thn, ctx, |ctx.locals|, els, mid, 0, |cond|);
    IfSites(s, ctx);
  }

  lemma {:induction false} IfLetSites(s: Stmt, ctx: Ctx)
    requires s.IfLet?
    ensures var inner, store, n := BindIfLet(s.x, ctx), BindingCode(s.x, ctx), |ExprCode(s.e, ctx)|;
            var outer := AfterBlock(s.thn, inner).(locals := ctx.locals);
            && BreakSites(s, ctx) == ArmSites(store, s.thn, inner, |ctx.locals|, s.els, outer, n)
            && forall brk :: (IfLetCode(s, ctx, brk)
               == ExprCode(s.e, ctx)
                  + ArmsCode(0x73, store + BlockCode(s.thn, inner, |ctx.locals|, Shift(brk, n + 3 + |store|)), s.els, outer,
                             Shift(brk, n)))
  {
    hide ExprCode, BlockCode, ArmsCode, AfterBlock, Moved, BindIfLet;
  }

  lemma {:induction false} PatchIfLet(s: Stmt, ctx: Ctx, d: int)
    requires s.IfLet?
    ensures Inside(BreakSites(s, ctx), |IfLetCode(s, ctx, None)|)
    ensures PatchAll(IfLetCode(s, ctx, None), BreakSites(s, ctx), d) == IfLetCode(s, ctx, Some(d))
    decreases s, 0
  {
    hide After, StmtCode, PatchAll, BlockCode, ArmsCode, ExprCode, BindIfLet, BreakSites, IfLetCode, ArmSites, Moved, BindingCode;
    var IfLet(x, e, thn, els) := s;
    var opt := ExprCode(e, ctx);
    var inner := BindIfLet(x, ctx);
    var outer := AfterBlock(thn, inner).(locals := ctx.locals);
    var store := BindingCode(x, ctx);
    var n := 3 + |store|;
    var open := BlockCode(thn, inner, |ctx.locals|, None);
    PatchBlock(thn, inner, |ctx.locals|, d - |opt| - n);
    if els.Some? {
      PatchBlock(els.value, outer, |ctx.locals|, d - |opt| - (n + |open| + 3));
    }
    PatchArms(0x73, store, thn, inner, |ctx.locals|, els, outer, d - |opt|);
    PatchRight(opt, ArmsCode(0x73, store + open, els, outer, None),
               ArmSites(store, thn, inner, |ctx.locals|, els, outer, 0), d);
    ArmSitesMoved(store, thn, inner, |ctx.locals|, els, outer, 0, |opt|);
    IfLetSites(s, ctx);
  }

  lemma {:induction false} PatchSwitch(s: Stmt, ctx: Ctx, d: int)
    requires s.Switch?
    ensures Inside(BreakSites(s, ctx), |SwitchCode(s, ctx, None)|)
    ensures PatchAll(SwitchCode(s, ctx, None), BreakSites(s, ctx), d) == SwitchCode(s, ctx, Some(d))
    decreases s, 0
  {
    hide After, PatchAll, CasesCode, ExprCode;
    var Switch(e, cases) := s;
    var subject := ExprCode(e, ctx);
    PatchCases(cases, ctx, d - |subject|);
    PatchRight(subject, CasesCode(cases, ctx, None), CasesSites(cases, ctx), d);
  }

  lemma {:induction false} PatchCases(cases: Cases, ctx: Ctx, d: int)
    ensures Inside(CasesSites(cases, ctx), |CasesCode(cases, ctx, None)|)
    ensures PatchAll(CasesCode(cases, ctx, None), CasesSites(cases, ctx), d) == CasesCode(cases, ctx, Some(d))
    decreases cases, 1
  {
    hide After, StmtCode, BlockCode, TestsCode, ClauseCode, ExprCode;
    match cases {
      case NoCase =>
      case Default(body) =>
        PatchStmt(body, ctx, d - 1);
        PatchBlock(body, ctx, |ctx.locals|, d - 1);
        PatchRight([0x10], ClauseBody(body, ctx, None), BreakSites(body, ctx), d);
      case Case(values, body, rest) => PatchCase(cases, ctx, d);
    }
  }

  lemma {:induction false} PatchCase(cases: Cases, ctx: Ctx, d: int)
    requires cases.Case?
    ensures Inside(CasesSites(cases, ctx), |CasesCode(cases, ctx, None)|)
    ensures PatchAll(CasesCode(cases, ctx, None), CasesSites(cases, ctx), d) == CasesCode(cases, ctx, Some(d))
    decreases cases, 0
  {
    hide After, StmtCode, BlockCode, TestsCode, ClauseCode, ExprCode, BreakSites, PatchAll;
    var Case(values, body, rest) := cases;
    var t := |TestsCode(values, ctx, 0)|;
    var n := |ClauseCode(body, ctx, 0, None)|;
    var next := AfterBlock(body, ctx);
    var others := CasesCode(rest, next, None);
    PatchCases(rest, next, d - (t + n));
    SameLengthCases(rest, next, None, Some(d - (t + n)));
    PatchClause(body, ctx, |others|, d - t);
    ClauseLength(body, ctx, 0, |others|, None, None);
    TestsLength(values, ctx, n, 0);
    var tests := TestsCode(values, ctx, n);
    var clause := ClauseCode(body, ctx, |others|, None);
    var sites := Moved(BreakSites(body, ctx), 1);
    PatchRight(tests, clause, sites, d);
    MovedTwice(BreakSites(body, ctx), 1, t);
    PatchConcat(tests + clause, others, Moved(sites, t), CasesSites(rest, next), d);
    assert CasesCode(cases, ctx, None) == tests + clause + others;
  }

  lemma {:induction false} PatchClause(body: Stmt, ctx: Ctx, others: nat, d: int)
    ensures var sites := Moved(BreakSites(body, ctx), 1);
            && Inside(sites, |ClauseCode(body, ctx, others, None)|)
            && PatchAll(ClauseCode(body, ctx, others, None), sites, d) == ClauseCode(body, ctx, others, Some(d))
    decreases body, 3
  {
    hide After, StmtCode, BlockCode, PatchAll;
    if LastByteReturns(StmtCode(body, ctx, None)) {
      PatchStmt(body, ctx, d - 1);
      PatchRight([0x10], StmtCode(body, ctx, None), BreakSites(body, ctx), d);
      assert forall b :: ClauseCode(body, ctx, others, b) == [0x10] + StmtCode(body, ctx, Shift(b, 1));
    } else {
      PatchBlock(body, ctx, |ctx.locals|, d - 1);
      var block := BlockCode(body, ctx, |ctx.locals|, None);
      PatchMiddle([0x10], block, JumpCode(0x50, others), BreakSites(body, ctx), d);
      assert ClauseCode(body, ctx, others, None) == [0x10] + block + JumpCode(0x50, others);
      assert ClauseCode(body, ctx, others, Some(d))
          == [0x10] + BlockCode(body, ctx, |ctx.locals|, Some(d - 1)) + JumpCode(0x50, others);
    }
  }
}
