/** Where runs of the machine lead, up to running out of stack or call frames, and what the
  * instructions the compiler emits do to a state that holds only immediates. */
module Runs {
  import opened Bytes
  import opened Values
  import opened Syntax
  import opened CodeGen
  import opened Machine
  import S = Semantics

  /** Some run from `s` stops because the stack or the call frames are full. */
  ghost predicate Overflows(img: Image, s: State) {
    exists n: nat :: Run(img, s, n).Stopped? && Run(img, s, n).err == StackOver
  }

  ghost predicate Reaches(img: Image, s: State, t: State) {
    (exists n: nat :: Run(img, s, n) == Running(t)) || Overflows(img, s)
  }

  ghost predicate StopsAs(r: Status, err: Err, globals: seq<Option<Value>>, out: seq<seq<Byte>>) {
    r.Stopped? && r.err == err && r.s.globals == globals && r.s.out == out
  }

  /** The machine stops with `err`, leaving these globals and this output. */
  ghost predicate Halts(img: Image, s: State, err: Err, globals: seq<Option<Value>>, out: seq<seq<Byte>>) {
    (exists n: nat :: StopsAs(Run(img, s, n), err, globals, out)) || Overflows(img, s)
  }

  /** The machine is still running after `k` steps. */
  ghost predicate RunsFor(img: Image, s: State, k: nat) {
    Run(img, s, k).Running? || Overflows(img, s)
  }

  lemma {:induction false} ReachSelf(img: Image, s: State)
    ensures Reaches(img, s, s)
  {
    assert Run(img, s, 0) == Running(s);
  }

  lemma {:induction false} RunsForNothing(img: Image, s: State)
    ensures RunsFor(img, s, 0)
  {
  }

  lemma {:induction false} OverflowBefore(img: Image, s: State, n: nat, t: State)
    requires Run(img, s, n) == Running(t) && Overflows(img, t)
    ensures Overflows(img, s)
  {
    hide Step;
    var m: nat :| Run(img, t, m).Stopped? && Run(img, t, m).err == StackOver;
    RunAdd(img, s, n, m);
    assert Run(img, s, n + m).Stopped?;
  }

  lemma {:induction false} ReachThen(img: Image, s: State, t: State, u: State)
    requires Reaches(img, s, t) && Reaches(img, t, u)
    ensures Reaches(img, s, u)
  {
    hide Step;
    if !Overflows(img, s) {
      var n: nat :| Run(img, s, n) == Running(t);
      if Overflows(img, t) {
        OverflowBefore(img, s, n, t);
      } else {
        var m: nat :| Run(img, t, m) == Running(u);
        RunAdd(img, s, n, m);
        assert Run(img, s, n + m) == Running(u);
      }
    }
  }

  lemma {:induction false} ReachThenHalt(img: Image, s: State, t: State, err: Err, globals: seq<Option<Value>>, out: seq<seq<Byte>>)
    requires Reaches(img, s, t) && Halts(img, t, err, globals, out)
    ensures Halts(img, s, err, globals, out)
  {
    hide Step;
    if !Overflows(img, s) {
      var n: nat :| Run(img, s, n) == Running(t);
      if Overflows(img, t) {
        OverflowBefore(img, s, n, t);
      } else {
        var m: nat :| StopsAs(Run(img, t, m), err, globals, out);
        RunAdd(img, s, n, m);
        assert StopsAs(Run(img, s, n + m), err, globals, out);
      }
    }
  }

  lemma {:induction false} ReachThenRun(img: Image, s: State, t: State, k: nat)
    requires Reaches(img, s, t) && RunsFor(img, t, k)
    ensures RunsFor(img, s, k)
  {
    hide Step;
    if !Overflows(img, s) {
      var n: nat :| Run(img, s, n) == Running(t);
      if Overflows(img, t) {
        OverflowBefore(img, s, n, t);
      } else {
        RunAdd(img, s, n, k);
        if Run(img, s, k).Stopped? {
          RunStays(img, s, k, n + k);
        }
      }
    }
  }

  lemma {:induction false} StepThenRun(img: Image, s: State, t: State, k: nat)
    requires Step(img, s) == Running(t) && RunsFor(img, t, k)
    ensures RunsFor(img, s, k + 1)
  {
    hide Step;
    assert Run(img, s, 1) == Run(img, t, 0) == Running(t);
    if Overflows(img, t) {
      OverflowBefore(img, s, 1, t);
    } else {
      RunAdd(img, s, 1, k);
    }
  }

  lemma {:induction false} StepReaches(img: Image, s: State, t: State)
    requires Step(img, s) == Running(t)
    ensures Reaches(img, s, t)
  {
    hide Step;
    assert Run(img, s, 1) == Run(img, t, 0) == Running(t);
  }

  lemma {:induction false} StepHalts(img: Image, s: State, err: Err)
    requires StopsAs(Step(img, s), err, s.globals, s.out)
    ensures Halts(img, s, err, s.globals, s.out)
  {
    hide Step;
    assert Run(img, s, 1) == Step(img, s);
    assert StopsAs(Run(img, s, 1), err, s.globals, s.out);
  }

  lemma {:induction false} PushReaches(img: Image, s: State, t: State, v: Value)
    requires Step(img, s) == Push(t, v)
    ensures Reaches(img, s, t.(stack := t.stack + [v]))
  {
    hide Step;
    if |t.stack| < STACK_SLOTS {
      StepReaches(img, s, t.(stack := t.stack + [v]));
    } else {
      assert Run(img, s, 1) == Step(img, s);
      assert Overflows(img, s);
    }
  }

  // ----- code in place -----

  /** The bytes `c` are at `pc`. */
  predicate CodeAt(code: seq<Byte>, pc: int, c: seq<Byte>) {
    0 <= pc && pc + |c| <= |code| && code[pc..pc + |c|] == c
  }

  lemma {:induction false} CodeSplit(code: seq<Byte>, pc: int, a: seq<Byte>, b: seq<Byte>)
    requires CodeAt(code, pc, a + b)
    ensures CodeAt(code, pc, a) && CodeAt(code, pc + |a|, b)
  {
    var c := code[pc..pc + |a + b|];
    assert code[pc..pc + |a|] == c[..|a|] == a;
    assert code[pc + |a|..pc + |a| + |b|] == c[|a|..] == b;
  }

  lemma {:induction false} CodeSplit3(code: seq<Byte>, pc: int, a: seq<Byte>, b: seq<Byte>, c: seq<Byte>)
    requires CodeAt(code, pc, a + b + c)
    ensures CodeAt(code, pc, a) && CodeAt(code, pc + |a|, b) && CodeAt(code, pc + |a| + |b|, c)
  {
    CodeSplit(code, pc, a + b, c);
    CodeSplit(code, pc, a, b);
  }

  /** Bytes after a complete instruction do not change how it decodes. */
  lemma {:induction false} DecodePrefix(c: seq<Byte>, b: seq<Byte>)
    requires 1 <= |c| <= |b| <= 3 && c <= b && !Decode(c).instr.ITruncated?
    ensures Decode(b) == Decode(c)
  {
  }

  lemma {:induction false} StepAt(img: Image, s: State, c: seq<Byte>)
    requires 1 <= |c| <= 3 && CodeAt(img.code, s.pc, c) && !Decode(c).instr.ITruncated?
    ensures Step(img, s) == Exec(img, Decode(c).instr, s.(pc := s.pc + Decode(c).size))
  {
    hide Exec, Decode;
    var b := Fetch(img.code, s.pc);
    assert c <= b by {
      assert forall i :: 0 <= i < |c| ==> b[i] == img.code[s.pc..s.pc + |c|][i];
    }
    DecodePrefix(c, b);
  }

  // ----- single instructions -----

  lemma {:induction false} StepPush(img: Image, s: State, c: seq<Byte>, v: Immediate)
    requires 1 <= |c| <= 3 && CodeAt(img.code, s.pc, c) && Decode(c) == Decoded(IPush(v), |c|)
    ensures Reaches(img, s, s.(pc := s.pc + |c|, stack := s.stack + [Imm(v)]))
  {
    hide Decode;
    StepAt(img, s, c);
    PushReaches(img, s, s.(pc := s.pc + |c|), Imm(v));
  }

  lemma {:induction false} StepNeg(img: Image, s: State, v: Immediate)
    requires CodeAt(img.code, s.pc, [0x35]) && |s.stack| > 0 && Peek(s) == Imm(v)
    ensures if v.Int? then Reaches(img, s, s.(pc := s.pc + 1, stack := Dropped(s, 1) + [Imm(Int(Wrap16(0 - v.n)))]))
            else Halts(img, s, TypeMismatch, s.globals, s.out)
  {
    StepAt(img, s, [0x35]);
    if v.Int? {
      StepReaches(img, s, s.(pc := s.pc + 1, stack := Dropped(s, 1) + [Imm(Int(Wrap16(0 - v.n)))]));
    } else {
      StepHalts(img, s, TypeMismatch);
    }
  }

  lemma {:induction false} StepInc(img: Image, s: State, v: Immediate)
    requires CodeAt(img.code, s.pc, [0x36]) && |s.stack| > 0 && Peek(s) == Imm(v)
    ensures if v.Int? then Reaches(img, s, s.(pc := s.pc + 1, stack := Dropped(s, 1) + [Imm(Int(Wrap16(v.n + 1)))]))
            else Halts(img, s, TypeMismatch, s.globals, s.out)
  {
    StepAt(img, s, [0x36]);
    if v.Int? {
      StepReaches(img, s, s.(pc := s.pc + 1, stack := Dropped(s, 1) + [Imm(Int(Wrap16(v.n + 1)))]));
    } else {
      StepHalts(img, s, TypeMismatch);
    }
  }

  lemma {:induction false} StepNot(img: Image, s: State, v: Immediate)
    requires CodeAt(img.code, s.pc, [0x46]) && |s.stack| > 0 && Peek(s) == Imm(v)
    ensures if v.Bool? then Reaches(img, s, s.(pc := s.pc + 1, stack := Dropped(s, 1) + [Imm(Bool(!v.b))]))
            else Halts(img, s, TypeMismatch, s.globals, s.out)
  {
    StepAt(img, s, [0x46]);
    if v.Bool? {
      StepReaches(img, s, s.(pc := s.pc + 1, stack := Dropped(s, 1) + [Imm(Bool(!v.b))]));
    } else {
      StepHalts(img, s, TypeMismatch);
    }
  }

  lemma {:induction false} StepUnwrap(img: Image, s: State, v: Immediate)
    requires CodeAt(img.code, s.pc, [0x70]) && |s.stack| > 0 && Peek(s) == Imm(v)
    ensures if S.Missing(v) then Halts(img, s, RuntimeErr, s.globals, s.out)
            else Reaches(img, s, s.(pc := s.pc + 1))
  {
    StepAt(img, s, [0x70]);
    if S.Missing(v) {
      StepHalts(img, s, RuntimeErr);
    } else {
      StepReaches(img, s, s.(pc := s.pc + 1));
    }
  }

  lemma {:induction false} StepBin(img: Image, s: State, op: BinOp, a: Immediate, b: Immediate, w: S.World)
    requires CodeAt(img.code, s.pc, [OpByte(op)])
    requires |s.stack| >= 2 && Peek(s) == Imm(b) && s.stack[|s.stack| - 2] == Imm(a)
    ensures match S.Apply(op, a, b, w)
            case Val(v, w') => w' == w && Reaches(img, s, s.(pc := s.pc + 1, stack := Dropped(s, 2) + [Imm(v)]))
            case Bad(err, w') => w' == w && Halts(img, s, err, s.globals, s.out)
            case Timeout => false
  {
    hide Step;
    BinEffect(img, s, op, a, b, w);
    match S.Apply(op, a, b, w) {
      case Val(v, _) => StepReaches(img, s, s.(pc := s.pc + 1, stack := Dropped(s, 2) + [Imm(v)]));
      case Bad(err, _) => StepHalts(img, s, err);
    }
  }

  lemma {:induction false} BinEffect(img: Image, s: State, op: BinOp, a: Immediate, b: Immediate, w: S.World)
    requires CodeAt(img.code, s.pc, [OpByte(op)])
    requires |s.stack| >= 2 && Peek(s) == Imm(b) && s.stack[|s.stack| - 2] == Imm(a)
    ensures match S.Apply(op, a, b, w)
            case Val(v, w') => w' == w && Step(img, s) == Running(s.(pc := s.pc + 1, stack := Dropped(s, 2) + [Imm(v)]))
            case Bad(err, w') => w' == w && StopsAs(Step(img, s), err, s.globals, s.out)
            case Timeout => false
  {
    hide Step, CodeAt;
    StepAt(img, s, [OpByte(op)]);
  }

  lemma {:induction false} StepPop(img: Image, s: State, v: Immediate)
    requires CodeAt(img.code, s.pc, [0x10]) && |s.stack| > 0 && Peek(s) == Imm(v)
    ensures Reaches(img, s, s.(pc := s.pc + 1, stack := Dropped(s, 1)))
  {
    StepAt(img, s, [0x10]);
    StepReaches(img, s, s.(pc := s.pc + 1, stack := Dropped(s, 1)));
  }

  lemma {:induction false} StepDup(img: Image, s: State, v: Immediate)
    requires CodeAt(img.code, s.pc, [0x11]) && |s.stack| > 0 && Peek(s) == Imm(v)
    ensures Reaches(img, s, s.(pc := s.pc + 1, stack := s.stack + [Imm(v)]))
  {
    StepAt(img, s, [0x11]);
    PushReaches(img, s, s.(pc := s.pc + 1), Imm(v));
  }

  lemma {:induction false} StepOver(img: Image, s: State, v: Immediate)
    requires CodeAt(img.code, s.pc, [0x13]) && |s.stack| >= 2 && s.stack[|s.stack| - 2] == Imm(v)
    ensures Reaches(img, s, s.(pc := s.pc + 1, stack := s.stack + [Imm(v)]))
  {
    StepAt(img, s, [0x13]);
    PushReaches(img, s, s.(pc := s.pc + 1), Imm(v));
  }

  lemma {:induction false} StepSwap(img: Image, s: State)
    requires CodeAt(img.code, s.pc, [0x12]) && |s.stack| >= 2
    ensures Reaches(img, s, s.(pc := s.pc + 1, stack := Dropped(s, 2) + [Peek(s), s.stack[|s.stack| - 2]]))
  {
    StepAt(img, s, [0x12]);
    StepReaches(img, s, s.(pc := s.pc + 1, stack := Dropped(s, 2) + [Peek(s), s.stack[|s.stack| - 2]]));
  }

  lemma {:induction false} StepGetLocal(img: Image, s: State, i: Byte, v: Immediate)
    requires CodeAt(img.code, s.pc, [0x23, i]) && s.fp + i < |s.stack| && s.stack[s.fp + i] == Imm(v)
    ensures Reaches(img, s, s.(pc := s.pc + 2, stack := s.stack + [Imm(v)]))
  {
    StepAt(img, s, [0x23, i]);
    PushReaches(img, s, s.(pc := s.pc + 2), Imm(v));
  }

  lemma {:induction false} StepSetLocal(img: Image, s: State, i: Byte, v: Immediate)
    requires CodeAt(img.code, s.pc, [0x24, i]) && s.fp + i < |s.stack| && s.stack[s.fp + i] == Imm(v)
    ensures Reaches(img, s, s.(pc := s.pc + 2, stack := s.stack[s.fp + i := Peek(s)][..|s.stack| - 1]))
  {
    StepAt(img, s, [0x24, i]);
    StepReaches(img, s, s.(pc := s.pc + 2, stack := s.stack[s.fp + i := Peek(s)][..|s.stack| - 1]));
  }

  /** The global in slot `i` holds an immediate, or is not defined yet. */
  predicate PlainGlobal(s: State, i: nat) {
    i < |s.globals| && (s.globals[i].Some? ==> s.globals[i].value.Imm?)
  }

  lemma {:induction false} StepGetGlobal(img: Image, s: State, i: Byte)
    requires CodeAt(img.code, s.pc, [0x20, i]) && PlainGlobal(s, i)
    ensures match s.globals[i]
            case Some(v) => Reaches(img, s, s.(pc := s.pc + 2, stack := s.stack + [v]))
            case None => Halts(img, s, BadOpcode, s.globals, s.out)
  {
    StepAt(img, s, [0x20, i]);
    match s.globals[i] {
      case Some(v) => PushReaches(img, s, s.(pc := s.pc + 2), v);
      case None => StepHalts(img, s, BadOpcode);
    }
  }

  lemma {:induction false} StepSetGlobal(img: Image, s: State, i: Byte)
    requires CodeAt(img.code, s.pc, [0x21, i]) && PlainGlobal(s, i) && |s.stack| > 0
    ensures match s.globals[i]
            case Some(_) =>
              Reaches(img, s, s.(pc := s.pc + 2, stack := Dropped(s, 1), globals := s.globals[i as int := Some(Peek(s))]))
            case None => Halts(img, s, BadOpcode, s.globals, s.out)
  {
    StepAt(img, s, [0x21, i]);
    match s.globals[i] {
      case Some(_) =>
        StepReaches(img, s, s.(pc := s.pc + 2, stack := Dropped(s, 1), globals := s.globals[i as int := Some(Peek(s))]));
      case None => StepHalts(img, s, BadOpcode);
    }
  }

  lemma {:induction false} StepDefineGlobal(img: Image, s: State, i: Byte)
    requires CodeAt(img.code, s.pc, [0x22, i]) && PlainGlobal(s, i) && |s.stack| > 0
    ensures Reaches(img, s, s.(pc := s.pc + 2, stack := Dropped(s, 1), globals := s.globals[i as int := Some(Peek(s))]))
  {
    StepAt(img, s, [0x22, i]);
    StepReaches(img, s, s.(pc := s.pc + 2, stack := Dropped(s, 1), globals := s.globals[i as int := Some(Peek(s))]));
  }

  // ----- jumps -----

  lemma {:induction false} DecodeJump(op: Byte, d: int)
    requires op == 0x50 || op == 0x51 || op == 0x52 || op == 0x53 || op == 0x72 || op == 0x73
    ensures var k := d % 0x1_0000;
            Decode(JumpCode(op, d))
            == Decoded(if op == 0x50 then IJump(k) else if op == 0x51 then IJumpIf(false, k)
                       else if op == 0x52 then IJumpIf(true, k) else if op == 0x53 then ILoop(k)
                       else if op == 0x72 then ICoalesce(k) else IIfLet(k), 3)
  {
    WordOfLe16(d);
    var c := JumpCode(op, d);
    assert c[0] == op && c[1] == Le16(d)[0] && c[2] == Le16(d)[1];
  }

  /** A jump of `d` bytes from `pc` stays inside the code, whatever its sign and size. */
  predicate Lands(img: Image, pc: int, d: int) {
    0 <= pc && 0 <= pc + d <= |img.code| <= 0xFFFF
  }

  lemma {:induction false} BranchLands(img: Image, s: State, d: int)
    requires Lands(img, s.pc, d)
    ensures Branch(img, s, d % 0x1_0000) == Running(s.(pc := s.pc + d))
  {
  }

  lemma {:induction false} StepJump(img: Image, s: State, d: int)
    requires CodeAt(img.code, s.pc, JumpCode(0x50, d)) && Lands(img, s.pc + 3, d)
    ensures Step(img, s) == Running(s.(pc := s.pc + 3 + d))
    ensures Reaches(img, s, s.(pc := s.pc + 3 + d))
  {
    hide Decode;
    DecodeJump(0x50, d);
    StepAt(img, s, JumpCode(0x50, d));
    BranchLands(img, s.(pc := s.pc + 3), d);
    StepReaches(img, s, s.(pc := s.pc + 3 + d));
  }

  /** Where a conditional jump goes on a boolean. */
  function AfterTest(s: State, d: int, v: Immediate, sense: bool): State
    requires |s.stack| > 0 && v.Bool? && s.pc + 3 + d >= 0
  {
    s.(pc := if v.b == sense then s.pc + 3 + d else s.pc + 3, stack := Dropped(s, 1))
  }

  lemma {:induction false} StepJumpIf(img: Image, s: State, sense: bool, d: int, v: Immediate)
    requires CodeAt(img.code, s.pc, JumpCode(if sense then 0x52 else 0x51, d)) && Lands(img, s.pc + 3, d)
    requires |s.stack| > 0 && Peek(s) == Imm(v)
    ensures if v.Bool? then Step(img, s) == Running(AfterTest(s, d, v, sense)) && Reaches(img, s, AfterTest(s, d, v, sense))
            else Halts(img, s, TypeMismatch, s.globals, s.out)
  {
    hide Decode;
    var op: Byte := if sense then 0x52 else 0x51;
    DecodeJump(op, d);
    StepAt(img, s, JumpCode(op, d));
    if v.Bool? {
      BranchLands(img, s.(pc := s.pc + 3, stack := Dropped(s, 1)), d);
      StepReaches(img, s, AfterTest(s, d, v, sense));
    } else {
      StepHalts(img, s, TypeMismatch);
    }
  }

  /** Where OP_IF_LET (`whenNil`) and OP_NIL_COALESCE go. */
  function AfterNilTest(s: State, d: int, v: Immediate, whenNil: bool): State
    requires |s.stack| > 0 && s.pc + 3 + d >= 0
  {
    s.(pc := if S.Missing(v) == whenNil then s.pc + 3 + d else s.pc + 3,
       stack := if S.Missing(v) then Dropped(s, 1) else s.stack)
  }

  lemma {:induction false} StepNilBranch(img: Image, s: State, whenNil: bool, d: int, v: Immediate)
    requires CodeAt(img.code, s.pc, JumpCode(if whenNil then 0x73 else 0x72, d)) && Lands(img, s.pc + 3, d)
    requires |s.stack| > 0 && Peek(s) == Imm(v)
    ensures Reaches(img, s, AfterNilTest(s, d, v, whenNil))
  {
    hide Decode;
    var op: Byte := if whenNil then 0x73 else 0x72;
    DecodeJump(op, d);
    StepAt(img, s, JumpCode(op, d));
    BranchLands(img, s.(pc := s.pc + 3), d);
    BranchLands(img, s.(pc := s.pc + 3, stack := Dropped(s, 1)), d);
    StepReaches(img, s, AfterNilTest(s, d, v, whenNil));
  }

  lemma {:induction false} StepLoop(img: Image, s: State, back: nat)
    requires CodeAt(img.code, s.pc, JumpCode(0x53, back)) && back <= s.pc + 3 && |img.code| <= 0xFFFF
    ensures Reaches(img, s, s.(pc := s.pc + 3 - back))
  {
    hide Decode;
    DecodeJump(0x53, back);
    StepAt(img, s, JumpCode(0x53, back));
    StepReaches(img, s, s.(pc := s.pc + 3 - back));
  }

  /** The state in which a called function starts. */
  function CallEntry(img: Image, s: State, f: Byte, argc: Byte): State
    requires f < |img.funcs| && argc <= |s.stack|
  {
    s.(frames := s.frames + [Frame(s.pc + 3, s.fp)], fp := |s.stack| - argc, pc := img.funcs[f].start)
  }

  lemma {:induction false} StepCall(img: Image, s: State, f: Byte, argc: Byte)
    requires CodeAt(img.code, s.pc, [0x60, f, argc]) && argc <= |s.stack|
    requires f < |img.funcs| && img.funcs[f].start < |img.code| && img.funcs[f].params == argc
    ensures Step(img, s) == Running(CallEntry(img, s, f, argc)) || Overflows(img, s)
  {
    StepAt(img, s, [0x60, f, argc]);
    if |s.frames| >= CALL_FRAMES {
      assert Run(img, s, 1) == Step(img, s);
      assert Overflows(img, s);
    }
  }

  /** The state of the caller after a return of `v`. */
  function Returned(s: State, v: Immediate): State
    requires |s.frames| > 0 && s.fp <= |s.stack|
  {
    var caller := s.frames[|s.frames| - 1];
    s.(stack := s.stack[..s.fp] + [Imm(v)], frames := s.frames[..|s.frames| - 1], pc := caller.pc, fp := caller.fp)
  }

  lemma {:induction false} StepReturn(img: Image, s: State, v: Immediate)
    requires CodeAt(img.code, s.pc, [0x61]) && |s.frames| > 0 && s.fp < |s.stack| && Peek(s) == Imm(v)
    requires forall i :: 0 <= i < |s.stack| ==> s.stack[i].Imm?
    ensures Reaches(img, s, Returned(s, v))
  {
    StepAt(img, s, [0x61]);
    ReleaseAllImmediates(s.heap, s.stack[s.fp..|s.stack| - 1]);
    var caller := s.frames[|s.frames| - 1];
    PushReaches(img, s, s.(stack := s.stack[..s.fp], frames := s.frames[..|s.frames| - 1], pc := caller.pc, fp := caller.fp),
                Imm(v));
  }

  lemma {:induction false} StepReturnVoid(img: Image, s: State)
    requires CodeAt(img.code, s.pc, [0x62]) && |s.frames| > 0 && s.fp <= |s.stack|
    requires forall i :: 0 <= i < |s.stack| ==> s.stack[i].Imm?
    ensures Reaches(img, s, Returned(s, Nil))
  {
    StepAt(img, s, [0x62]);
    ReleaseAllImmediates(s.heap, s.stack[s.fp..]);
    assert s.stack[s.fp..] == s.stack[s.fp..|s.stack|];
    var caller := s.frames[|s.frames| - 1];
    PushReaches(img, s, s.(stack := s.stack[..s.fp], frames := s.frames[..|s.frames| - 1], pc := caller.pc, fp := caller.fp),
                Imm(Nil));
  }

  lemma {:induction false} StepPrint(img: Image, s: State, argc: Byte)
    requires CodeAt(img.code, s.pc, [0x63, BUILTIN_PRINT, argc]) && argc <= |s.stack|
    requires forall i :: 0 <= i < |s.stack| ==> s.stack[i].Imm?
    ensures Reaches(img, s, s.(pc := s.pc + 3, stack := Dropped(s, argc) + [Imm(Nil)],
                               out := s.out + [LineText(s.heap, s.stack[|s.stack| - argc..])]))
  {
    StepAt(img, s, [0x63, BUILTIN_PRINT, argc]);
    var args := s.stack[|s.stack| - argc..];
    ReleaseAllImmediates(s.heap, args);
    PushReaches(img, s, s.(pc := s.pc + 3, stack := Dropped(s, argc), out := s.out + [LineText(s.heap, args)]), Imm(Nil));
  }
}
