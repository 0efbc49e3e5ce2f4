/** What the instructions for constants, variables, jumps and calls do, each stated of its byte in the code. */
module ControlLaws {
  import opened Bytes
  import opened Values
  import opened MachineLaws
  import M = Machine

  /** The instruction at the pc is `op` with `n` bytes behind it. */
  predicate With(img: M.Image, s: M.State, op: Byte, n: nat) {
    At(img, s, op) && s.pc + 1 + n <= |img.code|
  }

  /** The first and the second byte behind the instruction, and the word they make: low byte first. */
  function Arg(img: M.Image, s: M.State): Byte
    requires s.pc + 1 < |img.code|
  {
    img.code[s.pc + 1]
  }

  function Second(img: M.Image, s: M.State): Byte
    requires s.pc + 2 < |img.code|
  {
    img.code[s.pc + 2]
  }

  function Wide(img: M.Image, s: M.State): nat
    requires s.pc + 2 < |img.code|
  {
    Arg(img, s) + 256 * Second(img, s)
  }

  /** The step goes on at `pc` with the stack `stack`. */
  predicate Goes(img: M.Image, s: M.State, pc: int, stack: seq<Value>) {
    var r := M.Step(img, s);
    r.Running? && r.s.pc == pc && r.s.stack == stack
  }

  function Top(s: M.State): Value
    requires |s.stack| > 0
  {
    s.stack[|s.stack| - 1]
  }

  // ----- decoding -----

  lemma {:induction false} Fetched(img: M.Image, s: M.State, n: nat)
    requires s.pc + 1 + n <= |img.code| && n <= 2
    ensures var b := M.Fetch(img.code, s.pc);
            |b| >= n + 1 && b[0] == img.code[s.pc] && (n >= 1 ==> b[1] == Arg(img, s)) && (n >= 2 ==> b[2] == Second(img, s))
  {
  }

  lemma {:induction false} StackStep(img: M.Image, s: M.State, op: Byte, n: nat) returns (i: M.Instr)
    requires With(img, s, op, n) && op < 0x20 && n == (if op == 0x03 then 1 else if op == 0x04 then 2 else 0)
    requires op in {0x00, 0x01, 0x02, 0x03, 0x04, 0x10, 0x11, 0x12, 0x13}
    ensures i == (match op
                  case 0x00 => M.IPush(Nil)
                  case 0x01 => M.IPush(Bool(true))
                  case 0x02 => M.IPush(Bool(false))
                  case 0x03 => M.IPush(Int(Arg(img, s)))
                  case 0x04 => M.IPush(Int(Wrap16(Word(Arg(img, s), Second(img, s)))))
                  case 0x10 => M.IPop
                  case 0x11 => M.IDup
                  case 0x12 => M.ISwap
                  case _ => M.IOver)
    ensures M.Step(img, s) == M.Exec(img, i, s.(pc := s.pc + 1 + n))
  {
    hide M.Exec, Wrap16, Word;
    Fetched(img, s, n);
    i := M.DecodeStack(M.Fetch(img.code, s.pc)).instr;
  }

  /** The constants; a full stack is the only obstacle. */
  lemma {:induction false} Constants(img: M.Image, s: M.State, op: Byte, n: nat) returns (v: Immediate)
    requires op <= 0x04 && n == (if op == 0x03 then 1 else if op == 0x04 then 2 else 0) && With(img, s, op, n)
    ensures if |s.stack| < 32 then Goes(img, s, s.pc + 1 + n, s.stack + [Imm(v)]) else Stops(img, s, M.StackOver)
    ensures match op
            case 0x00 => v == Nil
            case 0x01 => v == Bool(true)
            case 0x02 => v == Bool(false)
            case 0x03 => v.Int? && v.n == Arg(img, s)
            case _ => v.Int? && Congruent(v.n, Wide(img, s))
  {
    hide M.Step, Word, Wrap16;
    var i := StackStep(img, s, op, n);
    v := i.v;
    if op == 0x04 {
      WordValue(Arg(img, s), Second(img, s));
    }
  }

  /** OP_POP, OP_DUP, OP_SWAP and OP_OVER. */
  lemma {:induction false} Shuffles(img: M.Image, s: M.State, op: Byte, below: seq<Value>, a: Value, b: Value)
    requires At(img, s, op) && 0x10 <= op <= 0x13 && s.stack == below + [a, b] && |s.stack| < 32
    ensures Goes(img, s, s.pc + 1, match op
                                   case 0x10 => below + [a]
                                   case 0x11 => below + [a, b, b]
                                   case 0x12 => below + [b, a]
                                   case _ => below + [a, b, a])
  {
    hide M.Step, ReleaseAt, RetainAt;
    var i := StackStep(img, s, op, 0);
    assert s.stack[|s.stack| - 1] == b && s.stack[|s.stack| - 2] == a;
    assert s.stack[..|s.stack| - 1] == below + [a] && s.stack[..|s.stack| - 2] == below;
  }

  // ----- variables -----

  lemma {:induction false} VariableStep(img: M.Image, s: M.State, op: Byte) returns (i: M.Instr)
    requires With(img, s, op, 1) && 0x20 <= op <= 0x24
    ensures i == (match op
                  case 0x20 => M.IGetGlobal(Arg(img, s))
                  case 0x21 => M.ISetGlobal(Arg(img, s))
                  case 0x22 => M.IDefineGlobal(Arg(img, s))
                  case 0x23 => M.IGetLocal(Arg(img, s))
                  case _ => M.ISetLocal(Arg(img, s)))
    ensures M.Step(img, s) == M.Exec(img, i, s.(pc := s.pc + 2))
  {
    hide M.Exec;
    Fetched(img, s, 1);
    i := M.DecodeVariable(M.Fetch(img.code, s.pc)).instr;
  }

  /** Global variables are the slots of one table, local ones the slots of the stack from the frame on. Reading pushes
    * what the slot holds, and writing moves the top of the stack into it; a global must be defined before. */
  lemma {:induction false} Variables(img: M.Image, s: M.State, op: Byte)
    requires With(img, s, op, 1) && 0x20 <= op <= 0x24 && 0 < |s.stack| < 32
    ensures var r, k, rest := M.Step(img, s), Arg(img, s), s.stack[..|s.stack| - 1];
            var defined := k < |s.globals| && s.globals[k].Some?;
            var at := s.fp + k;
            && (op == 0x20 ==> if defined then Goes(img, s, s.pc + 2, s.stack + [s.globals[k].value]) && r.s.globals == s.globals
                               else Stops(img, s, M.BadOpcode))
            && (op == 0x21 ==> if defined then Goes(img, s, s.pc + 2, rest) && r.s.globals == s.globals[k as int := Some(Top(s))]
                               else Stops(img, s, M.BadOpcode))
            && (op == 0x22 ==> if k < |s.globals| then Goes(img, s, s.pc + 2, rest) && r.s.globals == s.globals[k as int := Some(Top(s))]
                               else Stops(img, s, M.BadOpcode))
            && (op == 0x23 ==> if at < |s.stack| then Goes(img, s, s.pc + 2, s.stack + [s.stack[at]]) else Stops(img, s, M.StackUnder))
            && (op == 0x24 ==> if at < |s.stack| then Goes(img, s, s.pc + 2, s.stack[at := Top(s)][..|s.stack| - 1])
                               else Stops(img, s, M.StackUnder))
  {
    hide M.Step, ReleaseAt, RetainAt;
    var i := VariableStep(img, s, op);
  }

  // ----- jumps -----

  lemma {:induction false} ControlStep(img: M.Image, s: M.State, op: Byte, n: nat) returns (i: M.Instr)
    requires With(img, s, op, n) && op in {0x50, 0x51, 0x52, 0x53, 0x54, 0x60, 0x61, 0x62, 0x70, 0x72, 0x73}
    requires n == if op in {0x54, 0x61, 0x62, 0x70} then 0 else 2
    ensures i == (match op
                  case 0x54 => M.IHalt
                  case 0x61 => M.IReturn
                  case 0x62 => M.IReturnVoid
                  case 0x70 => M.IUnwrap
                  case 0x50 => M.IJump(Word(Arg(img, s), Second(img, s)))
                  case 0x51 => M.IJumpIf(false, Word(Arg(img, s), Second(img, s)))
                  case 0x52 => M.IJumpIf(true, Word(Arg(img, s), Second(img, s)))
                  case 0x53 => M.ILoop(Word(Arg(img, s), Second(img, s)))
                  case 0x60 => M.ICall(Arg(img, s), Second(img, s))
                  case 0x72 => M.ICoalesce(Word(Arg(img, s), Second(img, s)))
                  case _ => M.IIfLet(Word(Arg(img, s), Second(img, s))))
    ensures M.Step(img, s) == M.Exec(img, i, s.(pc := s.pc + 1 + n))
  {
    hide M.Exec, Word;
    Fetched(img, s, n);
    i := M.DecodeControl(M.Fetch(img.code, s.pc)).instr;
  }

  /** Where a jump from behind the instruction leads; it must not lead out of the code. */
  predicate Jumps(img: M.Image, s: M.State, stack: seq<Value>)
    requires s.pc + 2 < |img.code|
  {
    var target := (s.pc + 3 + Wide(img, s)) % 0x1_0000;
    if target <= |img.code| then Goes(img, s, target, stack) else Stops(img, s, M.BadOpcode)
  }

  /** Jumps forward: always, on false, on true, on a value that is no nil, and on nil; and OP_LOOP back. A test of a
    * truth value takes it off the stack, and a test for nil takes the nil off. */
  lemma {:induction false} JumpsTo(img: M.Image, s: M.State, op: Byte)
    requires With(img, s, op, 2) && op in {0x50, 0x51, 0x52, 0x53, 0x72, 0x73} && |s.stack| > 0
    ensures var v, rest, next := Top(s), s.stack[..|s.stack| - 1], s.pc + 3;
            && (op == 0x50 ==> Jumps(img, s, s.stack))
            && (op == 0x51 || op == 0x52 ==>
                  if !(v.Imm? && v.v.Bool?) then Stops(img, s, M.TypeMismatch)
                  else if v.v.b == (op == 0x52) then Jumps(img, s, rest) else Goes(img, s, next, rest))
            && (op == 0x53 ==> if Wide(img, s) <= next then Goes(img, s, next - Wide(img, s), s.stack) else Stops(img, s, M.BadOpcode))
            && (op == 0x72 ==> if Nothing(v) then Goes(img, s, next, rest) else Jumps(img, s, s.stack))
            && (op == 0x73 ==> if Nothing(v) then Jumps(img, s, rest) else Goes(img, s, next, s.stack))
  {
    hide M.Step, Word;
    WordValue(Arg(img, s), Second(img, s));
    var i := ControlStep(img, s, op, 2);
  }

  /** OP_UNWRAP stops at a nil and only there; OP_HALT ends the run. */
  lemma {:induction false} UnwrapAndHalt(img: M.Image, s: M.State, op: Byte)
    requires At(img, s, op) && (op == 0x70 || op == 0x54) && |s.stack| > 0
    ensures op == 0x70 ==> if Nothing(Top(s)) then Stops(img, s, M.RuntimeErr) else Goes(img, s, s.pc + 1, s.stack)
    ensures op == 0x54 ==> Stops(img, s, M.Ok)
  {
    hide M.Step;
    var i := ControlStep(img, s, op, 0);
  }

  // ----- calls -----

  /** A call runs exactly if its arguments are on the stack, the function exists and takes that many, and at most three
    * calls are open. */
  lemma {:induction false} CallRuns(img: M.Image, s: M.State)
    requires With(img, s, 0x60, 2)
    ensures var f, n := Arg(img, s), Second(img, s);
            M.Step(img, s).Running? <==>
              && n <= |s.stack| && f < |img.funcs| && img.funcs[f].start < |img.code| && img.funcs[f].params == n
              && |s.frames| < 4
  {
    hide M.Step;
    var i := ControlStep(img, s, 0x60, 2);
  }

  /** A call, whatever the callee does to the stack above its frame, and a return: the caller goes on behind the call
    * with its own stack, the arguments replaced by the result. */
  lemma {:induction false} CallThenReturn(img: M.Image, s: M.State, args: nat, t: M.State)
    requires With(img, s, 0x60, 2) && M.Step(img, s).Running? && args == Second(img, s) <= |s.stack|
    requires var c := M.Step(img, s).s;
             t.frames == c.frames && t.fp == c.fp && t.fp < |t.stack| && t.stack[..t.fp] == c.stack[..c.fp] && t.fp < 32
    requires At(img, t, 0x61)
    ensures Goes(img, t, s.pc + 3, s.stack[..|s.stack| - args] + [Top(t)])
    ensures M.Step(img, t).s.fp == s.fp && M.Step(img, t).s.frames == s.frames
    ensures M.Step(img, s).s.pc == img.funcs[Arg(img, s)].start && img.funcs[Arg(img, s)].params == args
  {
    hide M.Step, ReleaseAll, ReleaseAt;
    var i := ControlStep(img, s, 0x60, 2);
    var j := ControlStep(img, t, 0x61, 0);
    var c := M.Step(img, s).s;
    assert c.frames[..|s.frames|] == s.frames;
  }
}
