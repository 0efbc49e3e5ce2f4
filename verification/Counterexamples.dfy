/** Programs the compiler accepts and gets wrong, one for each condition that it leaves unchecked. */
module Counterexamples {
  import opened Bytes
  import opened Values
  import opened Syntax
  import opened CodeGen
  import opened Runs
  import opened StmtSimulation
  import opened Programs
  import opened Sessions
  import opened S = Semantics
  import D = Decimal
  import M = Machine

  // ----- a break behind a local -----

  // func f() -> Int { while true { let x = 1; break }; let y = 2; return y }
  const LOOP_BODY := Seq(Declare(true, "x", IntLit(1)), Break)
  const REST := Seq(Declare(true, "y", IntLit(2)), Return(Some(Var("y"))))
  const F_BODY := Seq(While(BoolLit(true), LOOP_BODY), REST)
  const F := FuncDecl("f", [], true, F_BODY)
  const PRINT_F := Print(Exprs(Call("f", NoExprs), NoExprs))
  const BREAKING: seq<Item> := [Func(F), Top(PRINT_F)]

  const F_CODE: seq<Byte> :=
    [0x01, 0x51, 9, 0, 0x03, 1, 0x50, 4, 0, 0x10, 0x53, 13, 0, 0x03, 2, 0x23, 0, 0x61]
  const PRINT_CODE: seq<Byte> := [0x60, 0, 0, 0x63, 0, 1, 0x10]

  const F_CTX := Ctx([], [], [FuncSig("f", 0, true)], true, true)

  lemma {:induction false} BodyCode(brk: Option<int>)
    ensures BlockCode(LOOP_BODY, F_CTX, 0, brk) == [0x03, 1] + BreakCode(Shift(brk, 2)) + [0x10]
    ensures After(LOOP_BODY, F_CTX).locals == [Sym("x", true)]
  {
    var inner := AddLocal(F_CTX, Sym("x", true));
    var first := Declare(true, "x", IntLit(1));
    assert StmtCode(first, F_CTX, brk) == [0x03, 1] && After(first, F_CTX) == inner;
    assert StmtCode(Break, inner, Shift(brk, 2)) == BreakCode(Shift(brk, 2)) && After(Break, inner) == inner;
    assert Pops(1) == [0x10];
  }

  lemma {:induction false} LoopBytes()
    ensures BlockCode(LOOP_BODY, F_CTX, 0, Some(9)) == [0x03, 1, 0x50, 4, 0, 0x10]
    ensures JumpCode(0x51, 9) == [0x51, 9, 0] && JumpCode(0x53, 13) == [0x53, 13, 0]
    ensures |BlockCode(LOOP_BODY, F_CTX, 0, None)| == 6
  {
    hide BlockCode;
    BodyCode(None);
    BodyCode(Some(9));
    assert Le16(9) == [9, 0] && Le16(4) == [4, 0] && Le16(13) == [13, 0];
  }

  lemma {:induction false} LoopCode()
    ensures StmtCode(While(BoolLit(true), LOOP_BODY), F_CTX, None) == F_CODE[..13]
    ensures After(While(BoolLit(true), LOOP_BODY), F_CTX) == F_CTX
  {
    hide BlockCode, JumpCode;
    LoopBytes();
    assert ExprCode(BoolLit(true), F_CTX) == [0x01];
    assert WhileCode(While(BoolLit(true), LOOP_BODY), F_CTX)
        == [0x01] + JumpCode(0x51, 9) + BlockCode(LOOP_BODY, F_CTX, 0, Some(9)) + JumpCode(0x53, 13);
  }

  lemma {:induction false} RestCode()
    ensures StmtCode(REST, F_CTX, None) == F_CODE[13..]
  {
    var inner := AddLocal(F_CTX, Sym("y", true));
    assert Find(inner.locals, "y") == Some(0);
    assert GetCode("y", inner) == [0x23, 0];
  }

  lemma {:induction false} BreakingCode()
    ensures ImageOf(BREAKING) == M.Image(F_CODE + PRINT_CODE + HALT, [M.FuncEntry(0, 0, true)])
    ensures EntryOf(BREAKING) == 18
  {
    hide StmtCode, After, ItemsOk, ItemsCareful;
    LoopCode();
    RestCode();
    BodyOfF();
    var z := AddItem(FRESH, Func(F));
    assert z == Session([], [FuncSig("f", 0, true)], [0], F_CODE);
    PrintCode(z);
    assert SessionAfter(BREAKING, FRESH) == SessionAfter(BREAKING[1..], z) == SessionAfter(BREAKING[1..][1..], z) == z;
    assert TopCode(BREAKING, FRESH) == TopCode(BREAKING[1..], z);
    assert TopCode(BREAKING[1..], z) == StmtCode(PRINT_F, TopCtx(z), None) + TopCode(BREAKING[1..][1..], z) == PRINT_CODE;
  }

  lemma {:induction false} BodyOfF()
    ensures FuncCtx(F, FRESH) == F_CTX && FuncCode(F, F_CTX) == F_CODE && After(F_BODY, F_CTX).globals == []
  {
    LoopCode();
    RestCode();
    assert FuncCtx(F, FRESH).funcs == [FuncSig("f", 0, true)];
  }

  lemma {:induction false} PrintCode(z: Session)
    requires z == Session([], [FuncSig("f", 0, true)], [0], F_CODE)
    ensures StmtCode(PRINT_F, TopCtx(z), None) == PRINT_CODE && After(PRINT_F, TopCtx(z)).globals == []
    ensures AddItem(z, Top(PRINT_F)) == z
  {
    assert FindFunc(z.funcs, "f") == Some(0);
  }

  // ----- runs, one instruction after the other -----

  /** After `n` steps the machine is at `s`; the instruction `c` there takes it to `t`. */
  lemma {:induction false} Then(img: M.Image, s0: M.State, n: nat, s: M.State, c: seq<Byte>, i: M.Instr, t: M.State)
    requires M.Run(img, s0, n) == M.Running(s) && 1 <= |c| <= 3 && CodeAt(img.code, s.pc, c)
    requires M.Decode(c) == M.Decoded(i, |c|) && !i.ITruncated? && M.Exec(img, i, s.(pc := s.pc + |c|)) == M.Running(t)
    ensures M.Run(img, s0, n + 1) == M.Running(t)
  {
    hide M.Exec, M.Decode, M.Step;
    StepAt(img, s, c);
    M.RunAdd(img, s0, n, 1);
    OneStep(img, s);
  }

  /** The halt at the end of the code, if the machine comes to it. */
  lemma {:induction false} ThenHalts(img: M.Image, s0: M.State, n: nat, s: M.State)
    requires M.Run(img, s0, n) == M.Running(s) && CodeAt(img.code, s.pc, HALT)
    ensures M.Run(img, s0, n + 1) == M.Stopped(M.Ok, s.(pc := s.pc + 1))
  {
    hide M.Step;
    assert M.Decode(HALT) == M.Decoded(M.IHalt, 1);
    StepAt(img, s, HALT);
    M.RunAdd(img, s0, n, 1);
    OneStep(img, s);
  }

  lemma {:induction false} NotYet(img: M.Image, s: M.State)
    ensures M.Run(img, s, 0) == M.Running(s)
  {
  }

  lemma {:induction false} OneStep(img: M.Image, s: M.State)
    ensures M.Run(img, s, 1) == M.Step(img, s)
  {
    hide M.Step;
  }

  /** The machine in a call whose frame starts at the bottom of the stack. */
  function InCall(pc: nat, stack: seq<Value>, back: nat, heap: Heap, out: seq<seq<Byte>>): M.State {
    M.State(pc, stack, 0, [M.Frame(back, 0)], NoGlobals(), heap, out)
  }

  function AtTop(pc: nat, stack: seq<Value>, heap: Heap, out: seq<seq<Byte>>): M.State {
    M.State(pc, stack, 0, [], NoGlobals(), heap, out)
  }

  const IMAGE := M.Image(F_CODE + PRINT_CODE + HALT, [M.FuncEntry(0, 0, true)])

  lemma {:induction false} BreakingPlaces()
    ensures CodeAt(IMAGE.code, 18, [0x60, 0, 0]) && CodeAt(IMAGE.code, 0, [0x01]) && CodeAt(IMAGE.code, 1, [0x51, 9, 0])
    ensures CodeAt(IMAGE.code, 4, [0x03, 1]) && CodeAt(IMAGE.code, 6, [0x50, 4, 0]) && CodeAt(IMAGE.code, 13, [0x03, 2])
    ensures CodeAt(IMAGE.code, 15, [0x23, 0]) && CodeAt(IMAGE.code, 17, [0x61]) && CodeAt(IMAGE.code, 21, [0x63, 0, 1])
    ensures CodeAt(IMAGE.code, 24, [0x10]) && CodeAt(IMAGE.code, 25, HALT)
  {
  }

  lemma {:induction false} BreakingInstructions()
    ensures M.Decode([0x60, 0, 0]) == M.Decoded(M.ICall(0, 0), 3) && M.Decode([0x01]) == M.Decoded(M.IPush(Bool(true)), 1)
    ensures M.Decode([0x51, 9, 0]) == M.Decoded(M.IJumpIf(false, 9), 3) && M.Decode([0x03, 1]) == M.Decoded(M.IPush(Int(1)), 2)
    ensures M.Decode([0x50, 4, 0]) == M.Decoded(M.IJump(4), 3) && M.Decode([0x03, 2]) == M.Decoded(M.IPush(Int(2)), 2)
    ensures M.Decode([0x23, 0]) == M.Decoded(M.IGetLocal(0), 2) && M.Decode([0x61]) == M.Decoded(M.IReturn, 1)
    ensures M.Decode([0x63, 0, 1]) == M.Decoded(M.IBuiltin(0, 1), 3) && M.Decode([0x10]) == M.Decoded(M.IPop, 1)
  {
  }

  /** What the instructions do on the way: into the loop, out of it with its local still on the stack, and out of the
    * function with the value of slot 0, which is that local. */
  lemma {:induction false} LoopEffects(heap: Heap)
    ensures var one, yes := Imm(Int(1)), Imm(Bool(true));
            && M.Exec(IMAGE, M.ICall(0, 0), AtTop(21, [], heap, [])) == M.Running(InCall(0, [], 21, heap, []))
            && M.Exec(IMAGE, M.IPush(Bool(true)), InCall(1, [], 21, heap, [])) == M.Running(InCall(1, [yes], 21, heap, []))
            && M.Exec(IMAGE, M.IJumpIf(false, 9), InCall(4, [yes], 21, heap, [])) == M.Running(InCall(4, [], 21, heap, []))
            && M.Exec(IMAGE, M.IPush(Int(1)), InCall(6, [], 21, heap, [])) == M.Running(InCall(6, [one], 21, heap, []))
            && M.Exec(IMAGE, M.IJump(4), InCall(9, [one], 21, heap, [])) == M.Running(InCall(13, [one], 21, heap, []))
  {
    hide NoGlobals, M.DoArith, M.DoBuiltin, M.DoConcat, M.DoInterp, M.DoNewArray, M.DoArrayGet, M.DoArraySet, M.DoArrayAppend, M.DoUnwrap, M.DoEqual, M.DoCompare;
  }

  lemma {:induction false} RestEffects(heap: Heap)
    ensures var one, two := Imm(Int(1)), Imm(Int(2));
            && M.Exec(IMAGE, M.IPush(Int(2)), InCall(15, [one], 21, heap, [])) == M.Running(InCall(15, [one, two], 21, heap, []))
            && M.Exec(IMAGE, M.IGetLocal(0), InCall(17, [one, two], 21, heap, [])) == M.Running(InCall(17, [one, two, one], 21, heap, []))
            && M.Exec(IMAGE, M.IReturn, InCall(18, [one, two, one], 21, heap, [])) == M.Running(AtTop(21, [one], heap, []))
  {
    hide NoGlobals, ReleaseAll, M.DoCall, M.DoJumpIf, M.Branch, M.DoLoop, M.DoNilBranch, M.DoArith, M.DoBuiltin, M.DoConcat, M.DoInterp, M.DoNewArray, M.DoArrayGet, M.DoArraySet, M.DoArrayAppend, M.DoUnwrap, M.DoEqual, M.DoCompare;
    var one, two := Imm(Int(1)), Imm(Int(2));
    ReleaseAllImmediates(heap, [one, two]);
    assert [one, two, one][0..2] == [one, two] && [one, two, one][..0] == [];
  }

  /** Printing a digit, and dropping the nil that print leaves. */
  lemma {:induction false} DigitPrinted(img: M.Image, s: M.State, n: I16)
    requires 0 <= n <= 9 && |s.stack| > 0 && M.Peek(s) == Imm(Int(n)) && |s.stack| <= M.STACK_SLOTS
    ensures var t := s.(stack := M.Dropped(s, 1) + [Imm(Nil)], out := s.out + [[0x30 + n]]);
            && M.Exec(img, M.IBuiltin(0, 1), s) == M.Running(t)
            && M.Exec(img, M.IPop, t) == M.Running(t.(stack := M.Dropped(s, 1)))
  {
    ReleaseAllImmediates(s.heap, [Imm(Int(n))]);
    assert s.stack[|s.stack| - 1..] == [Imm(Int(n))];
    assert LineText(s.heap, [Imm(Int(n))]) == [0x30 + n];
  }

  /** It prints 1. */
  lemma {:induction false} OnePrinted(heap: Heap)
    ensures M.Run(IMAGE, M.Start(18, NoGlobals(), heap), 11) == M.Stopped(M.Ok, AtTop(26, [], heap, [[0x31]]))
  {
    hide M.Run, NoGlobals, CodeAt, M.Exec, M.Decode;
    BreakingPlaces();
    BreakingInstructions();
    LoopEffects(heap);
    RestEffects(heap);
    var s0, yes, one, two := M.Start(18, NoGlobals(), heap), Imm(Bool(true)), Imm(Int(1)), Imm(Int(2));
    NotYet(IMAGE, s0);
    Then(IMAGE, s0, 0, s0, [0x60, 0, 0], M.ICall(0, 0), InCall(0, [], 21, heap, []));
    Then(IMAGE, s0, 1, InCall(0, [], 21, heap, []), [0x01], M.IPush(Bool(true)), InCall(1, [yes], 21, heap, []));
    Then(IMAGE, s0, 2, InCall(1, [yes], 21, heap, []), [0x51, 9, 0], M.IJumpIf(false, 9), InCall(4, [], 21, heap, []));
    Then(IMAGE, s0, 3, InCall(4, [], 21, heap, []), [0x03, 1], M.IPush(Int(1)), InCall(6, [one], 21, heap, []));
    Then(IMAGE, s0, 4, InCall(6, [one], 21, heap, []), [0x50, 4, 0], M.IJump(4), InCall(13, [one], 21, heap, []));
    Then(IMAGE, s0, 5, InCall(13, [one], 21, heap, []), [0x03, 2], M.IPush(Int(2)), InCall(15, [one, two], 21, heap, []));
    Then(IMAGE, s0, 6, InCall(15, [one, two], 21, heap, []), [0x23, 0], M.IGetLocal(0), InCall(17, [one, two, one], 21, heap, []));
    Then(IMAGE, s0, 7, InCall(17, [one, two, one], 21, heap, []), [0x61], M.IReturn, AtTop(21, [one], heap, []));
    DigitPrinted(IMAGE, AtTop(24, [one], heap, []), 1);
    Then(IMAGE, s0, 8, AtTop(21, [one], heap, []), [0x63, 0, 1], M.IBuiltin(0, 1), AtTop(24, [Imm(Nil)], heap, [[0x31]]));
    DigitPrinted(IMAGE, AtTop(25, [one], heap, []), 1);
    Then(IMAGE, s0, 9, AtTop(24, [Imm(Nil)], heap, [[0x31]]), [0x10], M.IPop, AtTop(25, [], heap, [[0x31]]));
    ThenHalts(IMAGE, s0, 10, AtTop(25, [], heap, [[0x31]]));
  }

  lemma {:induction false} LoopMeans(fs: seq<FuncDecl>)
    ensures Exec(fs, true, While(BoolLit(true), LOOP_BODY), map[], NOTHING, 1) == Normal(map[], NOTHING)
  {
    var inner: Locals := map["x" := Int(1)];
    assert Exec(fs, true, LOOP_BODY, map[], NOTHING, 0) == Broke(inner, NOTHING);
    assert Narrow(inner, map[]) == map[];
  }

  lemma {:induction false} RestMeans(fs: seq<FuncDecl>)
    ensures Exec(fs, true, REST, map[], NOTHING, 1) == Returned(Int(2), NOTHING)
  {
  }

  lemma {:induction false} CallMeans(fs: seq<FuncDecl>)
    requires fs == [F]
    ensures Eval(fs, Call("f", NoExprs), map[], NOTHING, 2) == Val(Int(2), NOTHING)
  {
    LoopMeans(fs);
    RestMeans(fs);
    assert Exec(fs, true, F_BODY, map[], NOTHING, 1) == Returned(Int(2), NOTHING);
  }

  lemma {:induction false} BreakingMeans()
    ensures Meaning(BREAKING, 2) == Normal(map[], World(map[], [[0x32]]))
  {
    hide Eval;
    var fs := Functions(BREAKING);
    assert BREAKING[1..] == [Top(PRINT_F)] && BREAKING[1..][1..] == [];
    assert Functions([Top(PRINT_F)]) == [] && Body([Top(PRINT_F)]) == Seq(PRINT_F, Skip);
    assert fs == [F] && Body(BREAKING) == Seq(PRINT_F, Skip);
    CallMeans(fs);
    assert EvalList(fs, PRINT_F.args, map[], NOTHING, 2) == Vals([Int(2)], NOTHING);
    assert Text([Int(2)]) == [0x32];
    assert Exec(fs, false, PRINT_F, map[], NOTHING, 2) == Normal(map[], World(map[], [[0x32]]));
  }

  /** A `break` behind a local: the compiler accepts the program, which should print 2; it prints 1,
    * because the local of the abandoned turn still occupies the slot of the next one. */
  lemma {:induction false} BreakBehindLocal(heap: Heap)
    ensures ItemsOk(BREAKING, FRESH) && !ItemsCareful(BREAKING, FRESH)
    ensures Meaning(BREAKING, 2) == Normal(map[], World(map[], [[0x32]]))
    ensures StopsAs(M.Run(ImageOf(BREAKING), StartOf(BREAKING, heap), 11), M.Ok, NoGlobals(), [[0x31]])
  {
    hide M.Run, ImageOf, Meaning, StmtCode, SessionAfter;
    BreakingCode();
    BreakingMeans();
    BreakingAccepted();
    OnePrinted(heap);
  }

  lemma {:induction false} LoopAccepted()
    ensures StmtOk(While(BoolLit(true), LOOP_BODY), F_CTX, false, false)
    ensures !Careful(While(BoolLit(true), LOOP_BODY), F_CTX, None)
  {
    var inner := AddLocal(F_CTX, Sym("x", true));
    assert StmtOk(LOOP_BODY, F_CTX, true, false);
    assert !Careful(Break, inner, Some(0));
    assert !Careful(LOOP_BODY, F_CTX, Some(0));
  }

  lemma {:induction false} RestAccepted()
    ensures StmtOk(REST, F_CTX, false, false)
  {
    var inner := AddLocal(F_CTX, Sym("y", true));
    assert Find(inner.locals, "y") == Some(0);
  }

  lemma {:induction false} BreakingAccepted()
    ensures ItemsOk(BREAKING, FRESH) && !ItemsCareful(BREAKING, FRESH)
  {
    hide StmtCode, After, Exec;
    LoopAccepted();
    RestAccepted();
    LoopCode();
    BodyOfF();
    assert StmtOk(F_BODY, F_CTX, false, false) && !Careful(F_BODY, F_CTX, None);
    var z := Session([], [FuncSig("f", 0, true)], [0], F_CODE);
    assert AddItem(FRESH, Func(F)) == z;
    PrintAccepted(z);
    assert BREAKING[1..] == [Top(PRINT_F)] && BREAKING[1..][1..] == [];
    assert ItemsOk(BREAKING[1..], z);
    BodyReturns();
  }

  lemma {:induction false} BodyReturns()
    ensures LastByteReturns(StmtCode(F_BODY, F_CTX, None))
  {
    LoopCode();
    RestCode();
    assert StmtCode(F_BODY, F_CTX, None) == F_CODE;
  }

  lemma {:induction false} PrintAccepted(z: Session)
    requires z == Session([], [FuncSig("f", 0, true)], [0], F_CODE)
    ensures ItemOk(Top(PRINT_F), z)
  {
    assert FindFunc(z.funcs, "f") == Some(0);
  }

  // ----- a body whose last byte is mistaken for a return -----

  // if c { return }
  const GUARD := If(Var("c"), Return(None), None)
  const GUARD_CODE: seq<Byte> := [0x23, 0, 0x51, 1, 0, 0x62]
  const PRINT_SEVEN := Print(Exprs(IntLit(7), NoExprs))
  const SEVEN_CODE: seq<Byte> := [0x03, 7, 0x63, 0, 1, 0x10]
  // f(false)
  const CALL_F := Do(Call("f", Exprs(BoolLit(false), NoExprs)))
  const CALL_CODE: seq<Byte> := [0x02, 0x60, 0, 1, 0x10]

  /** The tables in the body of `f`, which has the parameter `c`. */
  const C_CTX := Ctx([Sym("c", false)], [], [FuncSig("f", 1, false)], true, false)
  const NOT_C: Locals := map["c" := Bool(false)]

  lemma {:induction false} GuardFacts(inSwitch: bool)
    ensures StmtCode(GUARD, C_CTX, None) == GUARD_CODE && After(GUARD, C_CTX) == C_CTX && StmtOk(GUARD, C_CTX, false, inSwitch)
    ensures LastByteReturns(GUARD_CODE) && !Leaves(GUARD)
  {
    assert Find(C_CTX.locals, "c") == Some(0);
    assert BlockCode(Return(None), C_CTX, 1, Shift(None, 5)) == [0x62];
    assert Le16(1) == [1, 0];
  }

  lemma {:induction false} GuardMeans(fs: seq<FuncDecl>)
    ensures Exec(fs, true, GUARD, NOT_C, NOTHING, 0) == Normal(NOT_C, NOTHING)
  {
  }

  lemma {:induction false} SevenFacts(ctx: Ctx, inSwitch: bool)
    ensures StmtCode(PRINT_SEVEN, ctx, None) == SEVEN_CODE && After(PRINT_SEVEN, ctx) == ctx && StmtOk(PRINT_SEVEN, ctx, false, inSwitch)
  {
    assert PRINT_SEVEN.args.rest == NoExprs && Count(PRINT_SEVEN.args) == 1;
    assert ExprsCode(PRINT_SEVEN.args, ctx) == [0x03, 7];
  }

  lemma {:induction false} CallFacts(z: Session)
    requires z.globals == [] && |z.funcs| > 0 && z.funcs[0] == FuncSig("f", 1, false)
    ensures StmtCode(CALL_F, TopCtx(z), None) == CALL_CODE && AddItem(z, Top(CALL_F)) == z && ItemOk(Top(CALL_F), z)
  {
    var args := CALL_F.e.args;
    assert FindFunc(z.funcs, "f") == Some(0);
    assert args.rest == NoExprs && Count(args) == 1 && ExprsCode(args, TopCtx(z)) == [0x02];
    assert CallCode("f", 1, TopCtx(z)) == [0x60, 0, 1];
    assert ExprOk(args.first, TopCtx(z)) && ExprsOk(NoExprs, TopCtx(z));
    assert ExprsOk(args, TopCtx(z));
    assert ExprOk(CALL_F.e, TopCtx(z));
  }

  /** A run of `f(false)` whose body `f` does nothing. */
  lemma {:induction false} CallMeansNothing(fs: seq<FuncDecl>, f: FuncDecl)
    requires |fs| > 0 && fs[0] == f && f.name == "f" && f.params == ["c"]
    requires Exec(fs, true, f.body, NOT_C, NOTHING, 0) == Normal(NOT_C, NOTHING)
    ensures Exec(fs, false, CALL_F, map[], NOTHING, 1) == Normal(map[], NOTHING)
  {
    assert EvalList(fs, Exprs(BoolLit(false), NoExprs), map[], NOTHING, 1) == Vals([Bool(false)], NOTHING);
    assert Bind(["c"], [Bool(false)]) == NOT_C;
  }

  // func f(c) { if c { return } }; func g() { print(7) }; f(false)
  const MISREAD_F := FuncDecl("f", ["c"], false, GUARD)
  const MISREAD_G := FuncDecl("g", [], false, PRINT_SEVEN)
  const MISREAD_BODY: seq<Item> := [Func(MISREAD_F), Func(MISREAD_G), Top(CALL_F)]
  const BODY_IMAGE := M.Image(GUARD_CODE + (SEVEN_CODE + [0x62]) + CALL_CODE + HALT, [M.FuncEntry(0, 1, false), M.FuncEntry(6, 0, false)])

  /** The session after `f`, and after `g`. */
  const BODY_F := Session([], [FuncSig("f", 1, false)], [0], GUARD_CODE)
  const BODY_G := Session([], [FuncSig("f", 1, false), FuncSig("g", 0, false)], [0, 6], GUARD_CODE + (SEVEN_CODE + [0x62]))

  lemma {:induction false} MisreadBodyItems()
    ensures AddItem(FRESH, MISREAD_BODY[0]) == BODY_F && ItemOk(MISREAD_BODY[0], FRESH) && !ItemCareful(MISREAD_BODY[0], FRESH)
    ensures AddItem(BODY_F, MISREAD_BODY[1]) == BODY_G && ItemOk(MISREAD_BODY[1], BODY_F)
  {
    hide StmtCode, After, Leaves, StmtOk, Exec;
    assert FuncCtx(MISREAD_F, FRESH) == C_CTX;
    GuardFacts(false);
    SevenFacts(FuncCtx(MISREAD_G, BODY_F), false);
  }

  lemma {:induction false} MisreadBodyCode()
    ensures ImageOf(MISREAD_BODY) == BODY_IMAGE && EntryOf(MISREAD_BODY) == 13
    ensures ItemsOk(MISREAD_BODY, FRESH) && !ItemsCareful(MISREAD_BODY, FRESH)
  {
    hide StmtCode, After, AddItem, ItemOk, ItemCareful;
    var items := MISREAD_BODY;
    MisreadBodyItems();
    CallFacts(BODY_G);
    assert items[1..][0] == items[1] && items[1..][1..] == [items[2]] && [items[2]][1..] == [];
    assert SessionAfter([items[2]], BODY_G) == BODY_G && TopCode([items[2]], BODY_G) == CALL_CODE && ItemsOk([items[2]], BODY_G);
    assert SessionAfter(items[1..], BODY_F) == BODY_G && TopCode(items[1..], BODY_F) == CALL_CODE;
    assert SessionAfter(items, FRESH) == BODY_G && TopCode(items, FRESH) == CALL_CODE;
    assert Entries(BODY_G) == BODY_IMAGE.funcs;
  }

  lemma {:induction false} MisreadBodyMeans()
    ensures Meaning(MISREAD_BODY, 1) == Normal(map[], NOTHING)
  {
    hide Eval;
    var items, fs := MISREAD_BODY, Functions(MISREAD_BODY);
    assert items[1..][0] == items[1] && items[1..][1..] == [items[2]] && [items[2]][1..] == [];
    assert Functions([items[2]]) == [] && Body([items[2]]) == Seq(CALL_F, Skip);
    assert Functions(items[1..]) == [MISREAD_G] && Body(items[1..]) == Seq(CALL_F, Skip);
    assert fs == [MISREAD_F, MISREAD_G] && Body(items) == Seq(CALL_F, Skip);
    GuardMeans(fs);
    CallMeansNothing(fs, MISREAD_F);
  }

  lemma {:induction false} BodyPlaces()
    ensures CodeAt(BODY_IMAGE.code, 13, [0x02]) && CodeAt(BODY_IMAGE.code, 14, [0x60, 0, 1]) && CodeAt(BODY_IMAGE.code, 0, [0x23, 0])
    ensures CodeAt(BODY_IMAGE.code, 2, [0x51, 1, 0]) && CodeAt(BODY_IMAGE.code, 6, [0x03, 7]) && CodeAt(BODY_IMAGE.code, 8, [0x63, 0, 1])
    ensures CodeAt(BODY_IMAGE.code, 11, [0x10]) && CodeAt(BODY_IMAGE.code, 12, [0x62]) && CodeAt(BODY_IMAGE.code, 17, [0x10])
    ensures CodeAt(BODY_IMAGE.code, 18, HALT)
  {
  }

  lemma {:induction false} CallInstructions()
    ensures M.Decode([0x02]) == M.Decoded(M.IPush(Bool(false)), 1) && M.Decode([0x60, 0, 1]) == M.Decoded(M.ICall(0, 1), 3)
    ensures M.Decode([0x23, 0]) == M.Decoded(M.IGetLocal(0), 2) && M.Decode([0x51, 1, 0]) == M.Decoded(M.IJumpIf(false, 1), 3)
    ensures M.Decode([0x03, 7]) == M.Decoded(M.IPush(Int(7)), 2) && M.Decode([0x63, 0, 1]) == M.Decoded(M.IBuiltin(0, 1), 3)
    ensures M.Decode([0x10]) == M.Decoded(M.IPop, 1) && M.Decode([0x62]) == M.Decoded(M.IReturnVoid, 1)
  {
  }

  /** Into `f`, with false as its argument, up to the test of the argument. */
  lemma {:induction false} CallEffects(img: M.Image, at: nat, heap: Heap)
    requires |img.funcs| > 0 && img.funcs[0] == M.FuncEntry(0, 1, false) && |img.code| > 0
    ensures var no := Imm(Bool(false));
            && M.Exec(img, M.IPush(Bool(false)), AtTop(at + 1, [], heap, [])) == M.Running(AtTop(at + 1, [no], heap, []))
            && M.Exec(img, M.ICall(0, 1), AtTop(at + 4, [no], heap, [])) == M.Running(InCall(0, [no], at + 4, heap, []))
  {
    hide NoGlobals, M.DoArith, M.DoBuiltin, M.DoConcat, M.DoInterp, M.DoNewArray, M.DoArrayGet, M.DoArraySet, M.DoArrayAppend;
  }

  /** The test of `c`, which is false: over the return, to `to`. */
  lemma {:induction false} GuardEffects(img: M.Image, at: nat, back: nat, heap: Heap)
    requires at + 6 <= |img.code| <= 0xFFFF
    ensures var no := Imm(Bool(false));
            && M.Exec(img, M.IGetLocal(0), InCall(at + 2, [no], back, heap, [])) == M.Running(InCall(at + 2, [no, no], back, heap, []))
            && M.Exec(img, M.IJumpIf(false, 1), InCall(at + 5, [no, no], back, heap, [])) == M.Running(InCall(at + 6, [no], back, heap, []))
  {
    hide NoGlobals, M.DoArith, M.DoBuiltin, M.DoConcat, M.DoInterp, M.DoNewArray, M.DoArrayGet, M.DoArraySet, M.DoArrayAppend;
  }

  /** The return from `f` and the pop behind the call. */
  lemma {:induction false} BackEffects(img: M.Image, at: nat, back: nat, rest: seq<Value>, heap: Heap, out: seq<seq<Byte>>)
    requires |rest| <= 1 && forall i :: 0 <= i < |rest| ==> rest[i].Imm?
    ensures M.Exec(img, M.IReturnVoid, InCall(at, rest, back, heap, out)) == M.Running(AtTop(back, [Imm(Nil)], heap, out))
    ensures M.Exec(img, M.IPop, AtTop(back + 1, [Imm(Nil)], heap, out)) == M.Running(AtTop(back + 1, [], heap, out))
  {
    hide NoGlobals, ReleaseAll, M.DoArith, M.DoBuiltin, M.DoConcat, M.DoInterp, M.DoNewArray, M.DoArrayGet, M.DoArraySet,
         M.DoArrayAppend;
    ReleaseAllImmediates(heap, rest);
    assert rest[0..|rest|] == rest && rest[..0] == [];
  }

  /** Print 7, from wherever control has come. */
  lemma {:induction false} SevenEffects(img: M.Image, at: nat, back: nat, rest: seq<Value>, heap: Heap)
    requires |rest| <= 1
    ensures var seven, out := [Imm(Int(7))], [[0x37]];
            && M.Exec(img, M.IPush(Int(7)), InCall(at + 2, rest, back, heap, [])) == M.Running(InCall(at + 2, rest + seven, back, heap, []))
            && M.Exec(img, M.IBuiltin(0, 1), InCall(at + 5, rest + seven, back, heap, []))
               == M.Running(InCall(at + 5, rest + [Imm(Nil)], back, heap, out))
            && M.Exec(img, M.IPop, InCall(at + 6, rest + [Imm(Nil)], back, heap, out)) == M.Running(InCall(at + 6, rest, back, heap, out))
  {
    hide NoGlobals, M.DoArith, M.DoBuiltin, M.DoConcat, M.DoInterp, M.DoNewArray, M.DoArrayGet, M.DoArraySet, M.DoArrayAppend, M.DoPop;
    var seven := rest + [Imm(Int(7))];
    assert seven[..|rest|] == rest;
    DigitPrinted(img, InCall(at + 5, seven, back, heap, []), 7);
    DigitPrinted(img, InCall(at + 6, seven, back, heap, []), 7);
  }

  /** `f` falls into `g`: 7 is printed. */
  lemma {:induction false} MisreadBodyRuns(heap: Heap)
    ensures M.Run(BODY_IMAGE, M.Start(13, NoGlobals(), heap), 10) == M.Stopped(M.Ok, AtTop(19, [], heap, [[0x37]]))
  {
    hide M.Run, NoGlobals, CodeAt, M.Exec, M.Decode;
    var img, s0, no, seven, out := BODY_IMAGE, M.Start(13, NoGlobals(), heap), Imm(Bool(false)), Imm(Int(7)), [[0x37]];
    assert |img.code| == 19;
    BodyPlaces();
    CallInstructions();
    CallEffects(img, 13, heap);
    GuardEffects(img, 0, 17, heap);
    SevenEffects(img, 6, 17, [no], heap);
    BackEffects(img, 13, 17, [no], heap, out);
    NotYet(img, s0);
    Then(img, s0, 0, s0, [0x02], M.IPush(Bool(false)), AtTop(14, [no], heap, []));
    Then(img, s0, 1, AtTop(14, [no], heap, []), [0x60, 0, 1], M.ICall(0, 1), InCall(0, [no], 17, heap, []));
    Then(img, s0, 2, InCall(0, [no], 17, heap, []), [0x23, 0], M.IGetLocal(0), InCall(2, [no, no], 17, heap, []));
    Then(img, s0, 3, InCall(2, [no, no], 17, heap, []), [0x51, 1, 0], M.IJumpIf(false, 1), InCall(6, [no], 17, heap, []));
    assert [no] + [seven] == [no, seven] && [no] + [Imm(Nil)] == [no, Imm(Nil)];
    Then(img, s0, 4, InCall(6, [no], 17, heap, []), [0x03, 7], M.IPush(Int(7)), InCall(8, [no, seven], 17, heap, []));
    Then(img, s0, 5, InCall(8, [no, seven], 17, heap, []), [0x63, 0, 1], M.IBuiltin(0, 1), InCall(11, [no, Imm(Nil)], 17, heap, out));
    Then(img, s0, 6, InCall(11, [no, Imm(Nil)], 17, heap, out), [0x10], M.IPop, InCall(12, [no], 17, heap, out));
    Then(img, s0, 7, InCall(12, [no], 17, heap, out), [0x62], M.IReturnVoid, AtTop(17, [Imm(Nil)], heap, out));
    Then(img, s0, 8, AtTop(17, [Imm(Nil)], heap, out), [0x10], M.IPop, AtTop(18, [], heap, out));
    ThenHalts(img, s0, 9, AtTop(18, [], heap, out));
  }

  /** A body that ends in `if c { return }`: the compiler takes the byte of that return for one of the body's end, so
    * the call `f(false)`, which should do nothing, runs on into the next function and prints 7. */
  lemma {:induction false} MisreadBody(heap: Heap)
    ensures ItemsOk(MISREAD_BODY, FRESH) && !ItemsCareful(MISREAD_BODY, FRESH)
    ensures Meaning(MISREAD_BODY, 1) == Normal(map[], NOTHING)
    ensures StopsAs(M.Run(ImageOf(MISREAD_BODY), StartOf(MISREAD_BODY, heap), 10), M.Ok, NoGlobals(), [[0x37]])
  {
    hide M.Run, ImageOf, Meaning, StmtCode, SessionAfter, ItemsOk, ItemsCareful;
    MisreadBodyCode();
    MisreadBodyMeans();
    MisreadBodyRuns(heap);
  }

  // ----- a clause whose last byte is mistaken for a return -----

  // func f(c) { switch 1 { case 1: if c { return } default: print(7) } }; f(false)
  const CLAUSES := Case(Exprs(IntLit(1), NoExprs), GUARD, Default(PRINT_SEVEN))
  const SWITCH := Switch(IntLit(1), CLAUSES)
  const SWITCH_F := FuncDecl("f", ["c"], false, SWITCH)
  const MISREAD_CLAUSE: seq<Item> := [Func(SWITCH_F), Top(CALL_F)]
  const TESTS_CODE: seq<Byte> := [0x11, 0x03, 1, 0x40, 0x51, 7, 0]
  const SWITCH_CODE := [0x03, 1] + (TESTS_CODE + ([0x10] + GUARD_CODE) + ([0x10] + SEVEN_CODE))
  const CLAUSE_IMAGE := M.Image(SWITCH_CODE + [0x62] + CALL_CODE + HALT, [M.FuncEntry(0, 1, false)])

  /** The code of the first clause. */
  lemma {:induction false} ClauseFacts(n: nat)
    ensures ClauseCode(GUARD, C_CTX, n, None) == [0x10] + GUARD_CODE && AfterBlock(GUARD, C_CTX) == C_CTX
  {
    hide StmtCode, After, BlockCode, JumpCode, Exec, StmtOk;
    GuardFacts(true);
    assert C_CTX.locals[..1] == C_CTX.locals;
  }

  lemma {:induction false} DefaultFacts()
    ensures ClauseBody(PRINT_SEVEN, C_CTX, None) == SEVEN_CODE && AfterBlock(PRINT_SEVEN, C_CTX) == C_CTX
  {
    hide StmtCode, After, JumpCode, StmtOk;
    SevenFacts(C_CTX, true);
    assert C_CTX.locals[..1] == C_CTX.locals;
    assert Excess(PRINT_SEVEN, C_CTX, 1) == 0;
  }

  lemma {:induction false} TestsFacts(n: nat)
    ensures CLAUSES.values.rest == NoExprs && ExprsOk(CLAUSES.values, C_CTX)
    ensures |TestsCode(CLAUSES.values, C_CTX, n)| == 7 && TestsCode(CLAUSES.values, C_CTX, 7) == TESTS_CODE
  {
    assert Le16(7) == [7, 0] && ExprCode(IntLit(1), C_CTX) == [0x03, 1];
  }

  lemma {:induction false} ClausesCode()
    ensures CasesCode(CLAUSES, C_CTX, None) == TESTS_CODE + ([0x10] + GUARD_CODE) + ([0x10] + SEVEN_CODE)
  {
    hide StmtCode, After, TestsCode, ClauseCode, ClauseBody, AfterBlock, ExprCode, BlockCode;
    TestsFacts(0);
    ClauseFacts(0);
    ClauseFacts(7);
    DefaultFacts();
    assert CasesCode(Default(PRINT_SEVEN), C_CTX, None) == [0x10] + SEVEN_CODE;
  }

  lemma {:induction false} ClausesAccepted()
    ensures AfterCases(CLAUSES, C_CTX) == C_CTX && CasesOk(CLAUSES, C_CTX, false) && !CarefulCases(CLAUSES, C_CTX, None)
  {
    hide StmtCode, After, Leaves, StmtOk, Careful, TestsCode, ClauseCode, ClauseBody, AfterBlock, ExprsOk, ExprCode, BlockCode, Exec;
    GuardFacts(true);
    SevenFacts(C_CTX, true);
    TestsFacts(0);
    ClauseFacts(0);
    DefaultFacts();
    assert AfterCases(Default(PRINT_SEVEN), C_CTX) == C_CTX && CasesOk(Default(PRINT_SEVEN), C_CTX, false);
  }

  lemma {:induction false} SwitchFacts()
    ensures StmtCode(SWITCH, C_CTX, None) == SWITCH_CODE && After(SWITCH, C_CTX) == C_CTX && StmtOk(SWITCH, C_CTX, false, false)
    ensures !Careful(SWITCH, C_CTX, None)
  {
    hide CasesCode, AfterCases, CasesOk, CarefulCases;
    ClausesCode();
    ClausesAccepted();
  }

  lemma {:induction false} MisreadClauseCode()
    ensures ImageOf(MISREAD_CLAUSE) == CLAUSE_IMAGE && EntryOf(MISREAD_CLAUSE) == 24
    ensures ItemsOk(MISREAD_CLAUSE, FRESH) && !ItemsCareful(MISREAD_CLAUSE, FRESH)
  {
    hide StmtCode, After, StmtOk, Careful, Leaves;
    var items, z := MISREAD_CLAUSE, Session([], [FuncSig("f", 1, false)], [0], SWITCH_CODE + [0x62]);
    assert FuncCtx(SWITCH_F, FRESH) == C_CTX;
    SwitchFacts();
    assert AddItem(FRESH, items[0]) == z && ItemOk(items[0], FRESH);
    CallFacts(z);
    assert items[1..] == [items[1]] && [items[1]][1..] == [];
    assert SessionAfter(items[1..], z) == z && TopCode(items[1..], z) == CALL_CODE && ItemsOk(items[1..], z);
    assert Entries(z) == CLAUSE_IMAGE.funcs;
  }

  lemma {:induction false} MisreadClauseMeans()
    ensures Meaning(MISREAD_CLAUSE, 1) == Normal(map[], NOTHING)
  {
    hide Eval;
    var items, fs := MISREAD_CLAUSE, Functions(MISREAD_CLAUSE);
    assert items[1..] == [items[1]] && Functions([items[1]]) == [] && Body([items[1]]) == Seq(CALL_F, Skip);
    assert fs == [SWITCH_F] && Body(items) == Seq(CALL_F, Skip);
    SwitchMeans(fs);
    CallMeansNothing(fs, SWITCH_F);
  }

  lemma {:induction false} SwitchMeans(fs: seq<FuncDecl>)
    ensures Exec(fs, true, SWITCH, NOT_C, NOTHING, 0) == Normal(NOT_C, NOTHING)
  {
    hide AnyEqual, Eval;
    GuardMeans(fs);
    OneMatches(fs);
    assert Narrow(NOT_C, NOT_C) == NOT_C;
    assert Select(fs, true, Int(1), CLAUSES, NOT_C, NOTHING, 0) == Normal(NOT_C, NOTHING);
  }

  lemma {:induction false} OneMatches(fs: seq<FuncDecl>)
    ensures Eval(fs, IntLit(1), NOT_C, NOTHING, 0) == Val(Int(1), NOTHING)
    ensures AnyEqual(fs, Int(1), CLAUSES.values, NOT_C, NOTHING, 0) == Matched(true, NOTHING)
  {
  }

  lemma {:induction false} ClausePlaces()
    ensures CodeAt(CLAUSE_IMAGE.code, 24, [0x02]) && CodeAt(CLAUSE_IMAGE.code, 25, [0x60, 0, 1]) && CodeAt(CLAUSE_IMAGE.code, 0, [0x03, 1])
    ensures CodeAt(CLAUSE_IMAGE.code, 2, [0x11]) && CodeAt(CLAUSE_IMAGE.code, 3, [0x03, 1]) && CodeAt(CLAUSE_IMAGE.code, 5, [0x40])
    ensures CodeAt(CLAUSE_IMAGE.code, 6, [0x51, 7, 0]) && CodeAt(CLAUSE_IMAGE.code, 9, [0x10]) && CodeAt(CLAUSE_IMAGE.code, 10, [0x23, 0])
    ensures CodeAt(CLAUSE_IMAGE.code, 12, [0x51, 1, 0]) && CodeAt(CLAUSE_IMAGE.code, 16, [0x10]) && CodeAt(CLAUSE_IMAGE.code, 17, [0x03, 7])
    ensures CodeAt(CLAUSE_IMAGE.code, 19, [0x63, 0, 1]) && CodeAt(CLAUSE_IMAGE.code, 22, [0x10]) && CodeAt(CLAUSE_IMAGE.code, 23, [0x62])
    ensures CodeAt(CLAUSE_IMAGE.code, 28, [0x10]) && CodeAt(CLAUSE_IMAGE.code, 29, HALT)
  {
  }

  lemma {:induction false} TestInstructions()
    ensures M.Decode([0x03, 1]) == M.Decoded(M.IPush(Int(1)), 2) && M.Decode([0x11]) == M.Decoded(M.IDup, 1)
    ensures M.Decode([0x40]) == M.Decoded(M.IEqual(true), 1) && M.Decode([0x51, 7, 0]) == M.Decoded(M.IJumpIf(false, 7), 3)
  {
  }

  /** The subject, and the comparison with 1. */
  lemma {:induction false} TestEffects(img: M.Image, back: nat, heap: Heap)
    ensures var no, one, yes := Imm(Bool(false)), Imm(Int(1)), Imm(Bool(true));
            && M.Exec(img, M.IPush(Int(1)), InCall(2, [no], back, heap, [])) == M.Running(InCall(2, [no, one], back, heap, []))
            && M.Exec(img, M.IDup, InCall(3, [no, one], back, heap, [])) == M.Running(InCall(3, [no, one, one], back, heap, []))
            && M.Exec(img, M.IPush(Int(1)), InCall(5, [no, one, one], back, heap, [])) == M.Running(InCall(5, [no, one, one, one], back, heap, []))
            && M.Exec(img, M.IEqual(true), InCall(6, [no, one, one, one], back, heap, [])) == M.Running(InCall(6, [no, one, yes], back, heap, []))
  {
    hide NoGlobals, M.DoArith, M.DoBuiltin, M.DoConcat, M.DoInterp, M.DoNewArray, M.DoArrayGet, M.DoArraySet, M.DoArrayAppend;
  }

  /** The test holds, so the subject is dropped; and later, in the default clause, the slot of `c` is. */
  lemma {:induction false} DropEffects(img: M.Image, back: nat, heap: Heap)
    ensures var no, one, yes := Imm(Bool(false)), Imm(Int(1)), Imm(Bool(true));
            && M.Exec(img, M.IJumpIf(false, 7), InCall(9, [no, one, yes], back, heap, [])) == M.Running(InCall(9, [no, one], back, heap, []))
            && M.Exec(img, M.IPop, InCall(10, [no, one], back, heap, [])) == M.Running(InCall(10, [no], back, heap, []))
            && M.Exec(img, M.IPop, InCall(17, [no], back, heap, [])) == M.Running(InCall(17, [], back, heap, []))
  {
    hide NoGlobals, M.DoArith, M.DoBuiltin, M.DoConcat, M.DoInterp, M.DoNewArray, M.DoArrayGet, M.DoArraySet, M.DoArrayAppend;
  }

  /** The first clause, up to its end. */
  lemma {:induction false} ClauseEntered(heap: Heap)
    ensures M.Run(CLAUSE_IMAGE, M.Start(24, NoGlobals(), heap), 10) == M.Running(InCall(16, [Imm(Bool(false))], 28, heap, []))
  {
    hide M.Run, NoGlobals, CodeAt, M.Exec, M.Decode;
    var img, s0, no, one, yes := CLAUSE_IMAGE, M.Start(24, NoGlobals(), heap), Imm(Bool(false)), Imm(Int(1)), Imm(Bool(true));
    assert |img.code| == 30;
    ClausePlaces();
    CallInstructions();
    TestInstructions();
    CallEffects(img, 24, heap);
    TestEffects(img, 28, heap);
    DropEffects(img, 28, heap);
    GuardEffects(img, 10, 28, heap);
    NotYet(img, s0);
    Then(img, s0, 0, s0, [0x02], M.IPush(Bool(false)), AtTop(25, [no], heap, []));
    Then(img, s0, 1, AtTop(25, [no], heap, []), [0x60, 0, 1], M.ICall(0, 1), InCall(0, [no], 28, heap, []));
    Then(img, s0, 2, InCall(0, [no], 28, heap, []), [0x03, 1], M.IPush(Int(1)), InCall(2, [no, one], 28, heap, []));
    Then(img, s0, 3, InCall(2, [no, one], 28, heap, []), [0x11], M.IDup, InCall(3, [no, one, one], 28, heap, []));
    Then(img, s0, 4, InCall(3, [no, one, one], 28, heap, []), [0x03, 1], M.IPush(Int(1)), InCall(5, [no, one, one, one], 28, heap, []));
    Then(img, s0, 5, InCall(5, [no, one, one, one], 28, heap, []), [0x40], M.IEqual(true), InCall(6, [no, one, yes], 28, heap, []));
    Then(img, s0, 6, InCall(6, [no, one, yes], 28, heap, []), [0x51, 7, 0], M.IJumpIf(false, 7), InCall(9, [no, one], 28, heap, []));
    Then(img, s0, 7, InCall(9, [no, one], 28, heap, []), [0x10], M.IPop, InCall(10, [no], 28, heap, []));
    Then(img, s0, 8, InCall(10, [no], 28, heap, []), [0x23, 0], M.IGetLocal(0), InCall(12, [no, no], 28, heap, []));
    Then(img, s0, 9, InCall(12, [no, no], 28, heap, []), [0x51, 1, 0], M.IJumpIf(false, 1), InCall(16, [no], 28, heap, []));
  }

  /** The clause falls into the default clause: 7 is printed. */
  lemma {:induction false} MisreadClauseRuns(heap: Heap)
    ensures M.Run(CLAUSE_IMAGE, M.Start(24, NoGlobals(), heap), 17) == M.Stopped(M.Ok, AtTop(30, [], heap, [[0x37]]))
  {
    hide M.Run, NoGlobals, CodeAt, M.Exec, M.Decode;
    var img, s0, no, seven, out := CLAUSE_IMAGE, M.Start(24, NoGlobals(), heap), Imm(Bool(false)), Imm(Int(7)), [[0x37]];
    ClauseEntered(heap);
    ClausePlaces();
    CallInstructions();
    DropEffects(img, 28, heap);
    SevenEffects(img, 17, 28, [], heap);
    BackEffects(img, 24, 28, [], heap, out);
    Then(img, s0, 10, InCall(16, [no], 28, heap, []), [0x10], M.IPop, InCall(17, [], 28, heap, []));
    assert [] + [seven] == [seven] && [] + [Imm(Nil)] == [Imm(Nil)];
    Then(img, s0, 11, InCall(17, [], 28, heap, []), [0x03, 7], M.IPush(Int(7)), InCall(19, [seven], 28, heap, []));
    Then(img, s0, 12, InCall(19, [seven], 28, heap, []), [0x63, 0, 1], M.IBuiltin(0, 1), InCall(22, [Imm(Nil)], 28, heap, out));
    Then(img, s0, 13, InCall(22, [Imm(Nil)], 28, heap, out), [0x10], M.IPop, InCall(23, [], 28, heap, out));
    Then(img, s0, 14, InCall(23, [], 28, heap, out), [0x62], M.IReturnVoid, AtTop(28, [Imm(Nil)], heap, out));
    Then(img, s0, 15, AtTop(28, [Imm(Nil)], heap, out), [0x10], M.IPop, AtTop(29, [], heap, out));
    ThenHalts(img, s0, 16, AtTop(29, [], heap, out));
  }

  /** A clause that ends in `if c { return }`: its end neither drops its locals nor jumps over the other clauses, so
    * the call `f(false)`, which should do nothing, runs on into the default clause and prints 7. */
  lemma {:induction false} MisreadClause(heap: Heap)
    ensures ItemsOk(MISREAD_CLAUSE, FRESH) && !ItemsCareful(MISREAD_CLAUSE, FRESH)
    ensures Meaning(MISREAD_CLAUSE, 1) == Normal(map[], NOTHING)
    ensures StopsAs(M.Run(ImageOf(MISREAD_CLAUSE), StartOf(MISREAD_CLAUSE, heap), 17), M.Ok, NoGlobals(), [[0x37]])
  {
    hide M.Run, ImageOf, Meaning, StmtCode, SessionAfter, ItemsOk, ItemsCareful;
    MisreadClauseCode();
    MisreadClauseMeans();
    MisreadClauseRuns(heap);
  }
}
