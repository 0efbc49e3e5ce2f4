/** The stack machine of vm.c: instruction decoding, one dispatch step, and runs of steps. */
module Machine {
  import opened Bytes
  import opened Values

  const STACK_SLOTS := 32
  const CALL_FRAMES := 4

  datatype Err =
    | Ok | StackUnder | StackOver | BadOpcode | TypeMismatch | DivZero | OutOfMemory | RuntimeErr
    | OutOfModel  // an instruction whose effect this model does not cover

  datatype ArithOp = Add | Sub | Mul | Div | Mod
  datatype CmpOp = Lt | Le | Gt | Ge

  datatype Instr =
    | IHalt
    | IPush(v: Immediate)
    | IStr(at: U16)
    | IPop | IDup | ISwap | IOver
    | IDefineGlobal(i: Byte) | IGetGlobal(i: Byte) | ISetGlobal(i: Byte)
    | IGetLocal(i: Byte) | ISetLocal(i: Byte)
    | IArith(op: ArithOp) | INeg | IInc
    | IEqual(same: bool) | ICompare(cmp: CmpOp) | INot
    | IJump(off: U16) | IJumpIf(sense: bool, off: U16) | ILoop(back: U16)
    | ICoalesce(off: U16) | IIfLet(off: U16) | IUnwrap
    | ICall(f: Byte, argc: Byte) | IReturn | IReturnVoid
    | IBuiltin(id: Byte, argc: Byte)
    | IConcat | IInterp
    | INewArray(n: Byte) | IArrayGet | IArraySet | IArrayLen | IArrayAppend
    | ITruncated(wantsValue: bool)  // the operand runs past the end of the code
    | IUnknown

  datatype Decoded = Decoded(instr: Instr, size: nat)

  /** An instruction without operand. */
  function Plain(i: Instr): Decoded { Decoded(i, 1) }

  /** Decode the instruction at the front of `b`, which holds at most the three bytes read. */
  function Decode(b: seq<Byte>): (d: Decoded)
    requires 1 <= |b| <= 3
    ensures 1 <= d.size <= |b|
  {
    if b[0] < 0x20 then DecodeStack(b)
    else if b[0] < 0x30 then DecodeVariable(b)
    else if b[0] < 0x50 then DecodeOperator(b)
    else if b[0] < 0x80 then DecodeControl(b)
    else DecodeObject(b)
  }

  function DecodeStack(b: seq<Byte>): (d: Decoded)
    requires 1 <= |b| <= 3
    ensures 1 <= d.size <= |b|
  {
    match b[0]
    case 0x00 => Plain(IPush(Nil))
    case 0x01 => Plain(IPush(Bool(true)))
    case 0x02 => Plain(IPush(Bool(false)))
    case 0x03 => if |b| < 2 then Plain(ITruncated(false)) else Decoded(IPush(Int(b[1])), 2)
    case 0x04 => if |b| < 3 then Plain(ITruncated(false)) else Decoded(IPush(Int(Wrap16(Word(b[1], b[2])))), 3)
    case 0x06 => if |b| < 3 then Plain(ITruncated(false)) else Decoded(IStr(Word(b[1], b[2])), 3)
    case 0x10 => Plain(IPop)
    case 0x11 => Plain(IDup)
    case 0x12 => Plain(ISwap)
    case 0x13 => Plain(IOver)
    case _ => Plain(IUnknown)
  }

  function DecodeVariable(b: seq<Byte>): (d: Decoded)
    requires 1 <= |b| <= 3
    ensures 1 <= d.size <= |b|
  {
    if b[0] < 0x20 || b[0] > 0x24 then Plain(IUnknown)
    else if |b| < 2 then Plain(ITruncated(false))
    else
      Decoded(match b[0]
              case 0x20 => IGetGlobal(b[1])
              case 0x21 => ISetGlobal(b[1])
              case 0x22 => IDefineGlobal(b[1])
              case 0x23 => IGetLocal(b[1])
              case _ => ISetLocal(b[1]), 2)
  }

  function DecodeOperator(b: seq<Byte>): (d: Decoded)
    requires 1 <= |b| <= 3
    ensures 1 <= d.size <= |b|
  {
    Plain(match b[0]
          case 0x30 => IArith(Add)
          case 0x31 => IArith(Sub)
          case 0x32 => IArith(Mul)
          case 0x33 => IArith(Div)
          case 0x34 => IArith(Mod)
          case 0x35 => INeg
          case 0x36 => IInc
          case 0x40 => IEqual(true)
          case 0x41 => IEqual(false)
          case 0x42 => ICompare(Lt)
          case 0x43 => ICompare(Le)
          case 0x44 => ICompare(Gt)
          case 0x45 => ICompare(Ge)
          case 0x46 => INot
          case _ => IUnknown)
  }

  function DecodeControl(b: seq<Byte>): (d: Decoded)
    requires 1 <= |b| <= 3
    ensures 1 <= d.size <= |b|
  {
    match b[0]
    case 0x54 => Plain(IHalt)
    case 0x61 => Plain(IReturn)
    case 0x62 => Plain(IReturnVoid)
    case 0x70 => Plain(IUnwrap)
    case 0x50 => if |b| < 3 then Plain(ITruncated(false)) else Decoded(IJump(Word(b[1], b[2])), 3)
    case 0x51 => if |b| < 3 then Plain(ITruncated(true)) else Decoded(IJumpIf(false, Word(b[1], b[2])), 3)
    case 0x52 => if |b| < 3 then Plain(ITruncated(true)) else Decoded(IJumpIf(true, Word(b[1], b[2])), 3)
    case 0x53 => if |b| < 3 then Plain(ITruncated(false)) else Decoded(ILoop(Word(b[1], b[2])), 3)
    case 0x60 => if |b| < 3 then Plain(ITruncated(false)) else Decoded(ICall(b[1], b[2]), 3)
    case 0x63 => if |b| < 3 then Plain(ITruncated(false)) else Decoded(IBuiltin(b[1], b[2]), 3)
    case 0x72 => if |b| < 3 then Plain(ITruncated(true)) else Decoded(ICoalesce(Word(b[1], b[2])), 3)
    case 0x73 => if |b| < 3 then Plain(ITruncated(true)) else Decoded(IIfLet(Word(b[1], b[2])), 3)
    case _ => Plain(IUnknown)
  }

  function DecodeObject(b: seq<Byte>): (d: Decoded)
    requires 1 <= |b| <= 3
    ensures 1 <= d.size <= |b|
  {
    match b[0]
    case 0x80 => Plain(IConcat)
    case 0x82 => Plain(IInterp)
    case 0x85 => if |b| < 2 then Plain(ITruncated(false)) else Decoded(INewArray(b[1]), 2)
    case 0x86 => Plain(IArrayGet)
    case 0x87 => Plain(IArraySet)
    case 0x88 => Plain(IArrayLen)
    case 0x89 => Plain(IArrayAppend)
    case _ => Plain(IUnknown)
  }

  // ----- machine state -----

  datatype Frame = Frame(pc: nat, fp: nat)
  datatype FuncEntry = FuncEntry(start: U16, params: Byte, hasReturn: bool)

  /** What a run needs besides its state: the bytecode and the function table. */
  datatype Image = Image(code: seq<Byte>, funcs: seq<FuncEntry>)

  datatype State = State(
    pc: nat, stack: seq<Value>, fp: nat, frames: seq<Frame>,
    globals: seq<Option<Value>>, heap: Heap, out: seq<seq<Byte>>)

  datatype Status = Running(s: State) | Stopped(err: Err, s: State)

  function Peek(s: State): Value
    requires |s.stack| > 0
  {
    s.stack[|s.stack| - 1]
  }

  /** The stack without its top `n` values. */
  function Dropped(s: State, n: nat): seq<Value>
    requires n <= |s.stack|
  {
    s.stack[..|s.stack| - n]
  }

  function Push(s: State, v: Value): Status {
    if |s.stack| >= STACK_SLOTS then Stopped(StackOver, s) else Running(s.(stack := s.stack + [v]))
  }

  /** Continue at `pc + off`, computed in 16 bits. */
  function Branch(img: Image, s: State, off: U16): Status {
    var target := (s.pc + off) % 0x1_0000;
    if target > |img.code| then Stopped(BadOpcode, s) else Running(s.(pc := target))
  }

  // ----- arithmetic (arith.c and the inline cases) -----

  /** C division truncates toward zero; the quotient is cast back to 16 bits. */
  function TruncDiv(a: int, b: int): int
    requires b != 0
  {
    if a >= 0 then a / b else -((-a) / b)
  }

  function TruncMod(a: int, b: int): int
    requires b != 0
  {
    a - b * TruncDiv(a, b)
  }

  datatype IntResult = Value16(n: I16) | IntErr(err: Err)

  function Arith(op: ArithOp, a: I16, b: I16): IntResult {
    match op
    case Add => Value16(Wrap16(a + b))
    case Sub => Value16(Wrap16(a - b))
    case Mul => Value16(Wrap16(a * b))
    case Div => if b == 0 then IntErr(DivZero) else Value16(Wrap16(TruncDiv(a, b)))
    case Mod => if b == 0 then IntErr(DivZero) else Value16(Wrap16(TruncMod(a, b)))
  }

  predicate Compare(op: CmpOp, a: I16, b: I16) {
    match op
    case Lt => a < b
    case Le => a <= b
    case Gt => a > b
    case Ge => a >= b
  }

  // ----- instruction effects -----

  function DoArith(s: State, op: ArithOp): Status {
    if |s.stack| < 2 then Stopped(StackUnder, s)
    else
      var a, b := s.stack[|s.stack| - 2], Peek(s);
      if op == Add && a.Str? && b.Str? then DoConcat(s)
      else if !(a.Imm? && a.v.Int? && b.Imm? && b.v.Int?) then Stopped(TypeMismatch, s)
      else match Arith(op, a.v.n, b.v.n)
           case IntErr(e) => Stopped(e, s)
           case Value16(n) => Running(s.(stack := Dropped(s, 2) + [Imm(Int(n))]))
  }

  function DoNeg(s: State): Status {
    if |s.stack| == 0 then Stopped(StackUnder, s)
    else if !(Peek(s).Imm? && Peek(s).v.Int?) then Stopped(TypeMismatch, s)
    else
      var n: int := Peek(s).v.n;
      Running(s.(stack := Dropped(s, 1) + [Imm(Int(Wrap16(-n)))]))
  }

  function DoInc(s: State): Status {
    if |s.stack| == 0 then Stopped(StackUnder, s)
    else if !(Peek(s).Imm? && Peek(s).v.Int?) then Stopped(TypeMismatch, s)
    else Running(s.(stack := Dropped(s, 1) + [Imm(Int(Wrap16(Peek(s).v.n + 1)))]))
  }

  /** OP_EQ and OP_NEQ pop both operands without releasing them. */
  function DoEqual(s: State, same: bool): Status {
    if |s.stack| < 2 then Stopped(StackUnder, s)
    else Running(s.(stack := Dropped(s, 2) + [Imm(Bool(SameValue(s.stack[|s.stack| - 2], Peek(s)) == same))]))
  }

  function DoCompare(s: State, op: CmpOp): Status {
    if |s.stack| < 2 then Stopped(StackUnder, s)
    else
      var a, b := s.stack[|s.stack| - 2], Peek(s);
      if !(a.Imm? && a.v.Int? && b.Imm? && b.v.Int?) then Stopped(TypeMismatch, s)
      else Running(s.(stack := Dropped(s, 2) + [Imm(Bool(Compare(op, a.v.n, b.v.n)))]))
  }

  function DoNot(s: State): Status {
    if |s.stack| == 0 then Stopped(StackUnder, s)
    else if !(Peek(s).Imm? && Peek(s).v.Bool?) then Stopped(TypeMismatch, s)
    else Running(s.(stack := Dropped(s, 1) + [Imm(Bool(!Peek(s).v.b))]))
  }

  function DoPop(s: State): Status {
    if |s.stack| == 0 then Stopped(StackUnder, s)
    else Running(s.(stack := Dropped(s, 1), heap := Release(s.heap, Peek(s))))
  }

  /** Push another reference to the value `depth` places below the top. */
  function DoCopy(s: State, depth: nat): Status {
    if |s.stack| <= depth then Stopped(StackUnder, s)
    else if |s.stack| >= STACK_SLOTS then Stopped(StackOver, s)
    else
      var v := s.stack[|s.stack| - 1 - depth];
      Push(s.(heap := Retain(s.heap, v)), v)
  }

  function DoSwap(s: State): Status {
    if |s.stack| < 2 then Stopped(StackUnder, s)
    else Running(s.(stack := Dropped(s, 2) + [Peek(s), s.stack[|s.stack| - 2]]))
  }

  function DoStr(s: State, at: U16): Status {
    if |s.stack| >= STACK_SLOTS then Stopped(StackOver, s)
    else Push(s.(heap := Retain(s.heap, Str(at))), Str(at))
  }

  function DoDefineGlobal(s: State, i: Byte): Status {
    if i >= |s.globals| then Stopped(BadOpcode, s)
    else if |s.stack| == 0 then Stopped(StackUnder, s)
    else Running(s.(heap := if s.globals[i].Some? then Release(s.heap, s.globals[i].value) else s.heap,
                    globals := s.globals[i as int := Some(Peek(s))],
                    stack := Dropped(s, 1)))
  }

  function DoGetGlobal(s: State, i: Byte): Status {
    if i >= |s.globals| || s.globals[i].None? then Stopped(BadOpcode, s)
    else if |s.stack| >= STACK_SLOTS then Stopped(StackOver, s)
    else Push(s.(heap := Retain(s.heap, s.globals[i].value)), s.globals[i].value)
  }

  function DoSetGlobal(s: State, i: Byte): Status {
    if i >= |s.globals| || s.globals[i].None? then Stopped(BadOpcode, s)
    else if |s.stack| == 0 then Stopped(StackUnder, s)
    else Running(s.(heap := Release(s.heap, s.globals[i].value),
                    globals := s.globals[i as int := Some(Peek(s))],
                    stack := Dropped(s, 1)))
  }

  function DoGetLocal(s: State, i: Byte): Status {
    if s.fp + i >= |s.stack| then Stopped(StackUnder, s)
    else if |s.stack| >= STACK_SLOTS then Stopped(StackOver, s)
    else Push(s.(heap := Retain(s.heap, s.stack[s.fp + i])), s.stack[s.fp + i])
  }

  function DoSetLocal(s: State, i: Byte): Status {
    if s.fp + i >= |s.stack| then Stopped(StackUnder, s)
    else Running(s.(heap := Release(s.heap, s.stack[s.fp + i]),
                    stack := s.stack[s.fp + i := Peek(s)][..|s.stack| - 1]))
  }

  function DoJumpIf(img: Image, s: State, sense: bool, off: U16): Status {
    if |s.stack| == 0 then Stopped(StackUnder, s)
    else if !(Peek(s).Imm? && Peek(s).v.Bool?) then Stopped(TypeMismatch, s)
    else
      var s' := s.(stack := Dropped(s, 1));
      if Peek(s).v.b == sense then Branch(img, s', off) else Running(s')
  }

  function DoLoop(s: State, back: U16): Status {
    if back > s.pc then Stopped(BadOpcode, s) else Running(s.(pc := s.pc - back))
  }

  /** OP_NIL_COALESCE and OP_IF_LET: a nil is popped, anything else stays. */
  function DoNilBranch(img: Image, s: State, whenNil: bool, off: U16): Status {
    if |s.stack| == 0 then Stopped(StackUnder, s)
    else if IsNil(Peek(s)) then
      var s' := s.(stack := Dropped(s, 1));
      if whenNil then Branch(img, s', off) else Running(s')
    else if whenNil then Running(s) else Branch(img, s, off)
  }

  function DoUnwrap(s: State): Status {
    if |s.stack| == 0 then Stopped(StackUnder, s)
    else if IsNil(Peek(s)) then Stopped(RuntimeErr, s)
    else Running(s)
  }

  function DoCall(img: Image, s: State, f: Byte, argc: Byte): Status {
    if |s.stack| < argc then Stopped(StackUnder, s)
    else if f >= |img.funcs| || img.funcs[f].start >= |img.code| then Stopped(BadOpcode, s)
    else if |s.frames| >= CALL_FRAMES then Stopped(StackOver, s)
    else if img.funcs[f].params != argc then Stopped(BadOpcode, s)
    else Running(s.(frames := s.frames + [Frame(s.pc, s.fp)],
                    fp := |s.stack| - argc,
                    pc := img.funcs[f].start))
  }

  /** Leave the current frame, releasing `stack[fp..upTo]`, and push `v` for the caller. */
  function LeaveFrame(s: State, upTo: nat, v: Value): Status
    requires |s.frames| > 0 && upTo <= |s.stack|
  {
    if s.fp > upTo then Stopped(OutOfModel, s)
    else
      var caller := s.frames[|s.frames| - 1];
      Push(s.(heap := ReleaseAll(s.heap, s.stack[s.fp..upTo]),
              stack := s.stack[..s.fp],
              frames := s.frames[..|s.frames| - 1],
              pc := caller.pc, fp := caller.fp), v)
  }

  function DoReturn(s: State): Status {
    if |s.frames| == 0 then Stopped(BadOpcode, s)
    else if |s.stack| == 0 then Stopped(StackUnder, s)
    else LeaveFrame(s, |s.stack| - 1, Peek(s))
  }

  function DoReturnVoid(s: State): Status {
    if |s.frames| == 0 then Stopped(BadOpcode, s) else LeaveFrame(s, |s.stack|, Imm(Nil))
  }

  const BUILTIN_PRINT: Byte := 0x00
  const BUILTIN_MIN: Byte := 0x03
  const BUILTIN_MAX: Byte := 0x04

  function DoBuiltin(s: State, id: Byte, argc: Byte): Status {
    if |s.stack| < argc then Stopped(StackUnder, s)
    else if id == BUILTIN_PRINT then
      var args := s.stack[|s.stack| - argc..];
      Push(s.(out := s.out + [LineText(s.heap, args)],
              heap := ReleaseAll(s.heap, args),
              stack := Dropped(s, argc)), Imm(Nil))
    else if id == BUILTIN_MIN || id == BUILTIN_MAX then
      if argc != 2 then Stopped(BadOpcode, s)
      else
        var a, b := s.stack[|s.stack| - 2], Peek(s);
        if !(a.Imm? && a.v.Int? && b.Imm? && b.v.Int?) then Stopped(TypeMismatch, s)
        else Running(s.(stack := Dropped(s, 2) + [if (a.v.n < b.v.n) == (id == BUILTIN_MIN) then a else b]))
    else Stopped(OutOfModel, s)
  }

  function DoConcat(s: State): Status {
    if |s.stack| < 2 then Stopped(StackUnder, s)
    else
      var a, b := s.stack[|s.stack| - 2], Peek(s);
      if !(a.Str? && b.Str?) then Stopped(TypeMismatch, s)
      else
        var text := StrBytes(s.heap, a.at) + StrBytes(s.heap, b.at);
        if |text| > 256 then Stopped(OutOfMemory, s)
        else PushString(s.(heap := Release(Release(s.heap, b), a), stack := Dropped(s, 2)), text)
  }

  /** make_heap_str followed by a push of the new string. */
  function PushString(s: State, text: seq<Byte>): Status {
    match Alloc(s.heap, StrBlock(1, text))
    case None => Stopped(OutOfMemory, s)
    case Some(h) => Push(s.(heap := h), Str(HeapPtr(s.heap)))
  }

  function DoInterp(s: State): Status {
    if |s.stack| == 0 then Stopped(StackUnder, s)
    else match Peek(s)
         case Imm(v) => PushString(s.(stack := Dropped(s, 1)), ImmediateText(v))
         case Str(_) => Running(s)
         case Arr(_) => Stopped(TypeMismatch, s)
  }

  function Immediates(vs: seq<Value>): (r: Option<seq<Immediate>>)
    ensures r.Some? <==> forall i :: 0 <= i < |vs| ==> vs[i].Imm?
    ensures r.Some? ==> |r.value| == |vs|
  {
    if forall i :: 0 <= i < |vs| ==> vs[i].Imm?
    then Some(seq(|vs|, i requires 0 <= i < |vs| && vs[i].Imm? => vs[i].v))
    else None
  }

  function DoNewArray(s: State, n: Byte): Status {
    if |s.stack| < n then Stopped(StackUnder, s)
    else match Immediates(s.stack[|s.stack| - n..])
         case None => Stopped(OutOfModel, s)
         case Some(slots) =>
           match Alloc(s.heap, ArrBlock(1, if n == 0 then ARRAY_INIT_CAPACITY else n, slots))
           case None => Stopped(OutOfMemory, s)
           case Some(h) => Push(s.(heap := h, stack := Dropped(s, n)), Arr(HeapPtr(s.heap)))
  }

  function DoArrayGet(s: State): Status {
    if |s.stack| < 2 then Stopped(StackUnder, s)
    else
      var a, i := s.stack[|s.stack| - 2], Peek(s);
      if !(a.Arr? && i.Imm? && i.v.Int?) then Stopped(TypeMismatch, s)
      else match ArrayAt(s.heap, a.at)
           case None => Stopped(RuntimeErr, s)
           case Some(k) =>
             if !(0 <= i.v.n < |s.heap[k].slots|) then Stopped(RuntimeErr, s)
             else Running(s.(heap := Release(s.heap, a),
                             stack := Dropped(s, 2) + [Imm(s.heap[k].slots[i.v.n])]))
  }

  function DoArraySet(s: State): Status {
    if |s.stack| < 3 then Stopped(StackUnder, s)
    else
      var a, i, v := s.stack[|s.stack| - 3], s.stack[|s.stack| - 2], Peek(s);
      if !(a.Arr? && i.Imm? && i.v.Int?) then Stopped(TypeMismatch, s)
      else match ArrayAt(s.heap, a.at)
           case None => Stopped(RuntimeErr, s)
           case Some(k) =>
             if !(0 <= i.v.n < |s.heap[k].slots|) then Stopped(RuntimeErr, s)
             else if !v.Imm? then Stopped(OutOfModel, s)
             else
               var b := s.heap[k].(slots := s.heap[k].slots[i.v.n as int := v.v]);
               Running(s.(heap := Release(s.heap[k := b], a), stack := Dropped(s, 3)))
  }

  function DoArrayLen(s: State): Status {
    if |s.stack| == 0 then Stopped(StackUnder, s)
    else match Peek(s)
         case Imm(_) => Stopped(TypeMismatch, s)
         case Str(at) => LengthTo(s, |StrBytes(s.heap, at)|)
         case Arr(at) => LengthTo(s, match ArrayAt(s.heap, at) case Some(k) => |s.heap[k].slots| case None => 0)
  }

  function LengthTo(s: State, n: nat): Status
    requires |s.stack| > 0
  {
    Running(s.(heap := Release(s.heap, Peek(s)), stack := Dropped(s, 1) + [Imm(Int(Wrap16(n)))]))
  }

  /** array_append: grow by doubling when full, then add the value. */
  function DoArrayAppend(s: State): Status {
    if |s.stack| < 2 then Stopped(StackUnder, s)
    else
      var a, v := s.stack[|s.stack| - 2], Peek(s);
      if !a.Arr? then Stopped(TypeMismatch, s)
      else match ArrayAt(s.heap, a.at)
           case None => Stopped(RuntimeErr, s)
           case Some(k) =>
             if !v.Imm? then Stopped(OutOfModel, s)
             else if |s.heap[k].slots| < s.heap[k].cap then
               var b := s.heap[k].(slots := s.heap[k].slots + [v.v]);
               Running(s.(heap := s.heap[k := b], stack := Dropped(s, 2) + [a]))
             else
               var cap := if s.heap[k].cap * 2 < ARRAY_INIT_CAPACITY then ARRAY_INIT_CAPACITY else s.heap[k].cap * 2;
               match Alloc(s.heap, ArrBlock(1, cap, s.heap[k].slots + [v.v]))
               case None => Stopped(OutOfMemory, s)
               case Some(h) =>
                 Running(s.(heap := ReleaseAt(h, a.at), stack := Dropped(s, 2) + [Arr(HeapPtr(s.heap))]))
  }

  // ----- one step -----

  /** The effect of `i` on `s`, whose pc is already past the instruction. */
  function Exec(img: Image, i: Instr, s: State): Status {
    match i
    case IHalt => Stopped(Ok, s)
    case IPush(v) => Push(s, Imm(v))
    case IStr(at) => DoStr(s, at)
    case IPop => DoPop(s)
    case IDup => DoCopy(s, 0)
    case ISwap => DoSwap(s)
    case IOver => DoCopy(s, 1)
    case IDefineGlobal(i) => DoDefineGlobal(s, i)
    case IGetGlobal(i) => DoGetGlobal(s, i)
    case ISetGlobal(i) => DoSetGlobal(s, i)
    case IGetLocal(i) => DoGetLocal(s, i)
    case ISetLocal(i) => DoSetLocal(s, i)
    case IArith(op) => DoArith(s, op)
    case INeg => DoNeg(s)
    case IInc => DoInc(s)
    case IEqual(same) => DoEqual(s, same)
    case ICompare(op) => DoCompare(s, op)
    case INot => DoNot(s)
    case IJump(off) => Branch(img, s, off)
    case IJumpIf(sense, off) => DoJumpIf(img, s, sense, off)
    case ILoop(back) => DoLoop(s, back)
    case ICoalesce(off) => DoNilBranch(img, s, false, off)
    case IIfLet(off) => DoNilBranch(img, s, true, off)
    case IUnwrap => DoUnwrap(s)
    case ICall(f, argc) => DoCall(img, s, f, argc)
    case IReturn => DoReturn(s)
    case IReturnVoid => DoReturnVoid(s)
    case IBuiltin(id, argc) => DoBuiltin(s, id, argc)
    case IConcat => DoConcat(s)
    case IInterp => DoInterp(s)
    case INewArray(n) => DoNewArray(s, n)
    case IArrayGet => DoArrayGet(s)
    case IArraySet => DoArraySet(s)
    case IArrayLen => DoArrayLen(s)
    case IArrayAppend => DoArrayAppend(s)
    case ITruncated(wantsValue) => Stopped(if wantsValue && |s.stack| == 0 then StackUnder else BadOpcode, s)
    case IUnknown => Stopped(BadOpcode, s)
  }

  /** The at most three bytes of code that the instruction at `pc` can occupy. */
  function Fetch(code: seq<Byte>, pc: nat): (b: seq<Byte>)
    requires pc < |code|
    ensures 1 <= |b| <= 3
  {
    code[pc..Min(pc + 3, |code|)]
  }

  /** One turn of the dispatch loop; falling off the end of the code is an error. */
  function Step(img: Image, s: State): Status {
    if s.pc >= |img.code| then Stopped(BadOpcode, s)
    else
      var d := Decode(Fetch(img.code, s.pc));
      Exec(img, d.instr, s.(pc := s.pc + d.size))
  }

  /** The status after at most `n` steps from `s`. */
  function Run(img: Image, s: State, n: nat): Status
    decreases n
  {
    if n == 0 then Running(s)
    else match Step(img, s)
         case Running(s') => Run(img, s', n - 1)
         case Stopped(e, s') => Stopped(e, s')
  }

  /** vm_run's initial state: empty stack, no frames, execution at `start`. */
  function Start(start: nat, globals: seq<Option<Value>>, heap: Heap): State {
    State(start, [], 0, [], globals, heap, [])
  }

  // ----- runs compose -----

  lemma {:induction false} RunAdd(img: Image, s: State, n: nat, m: nat)
    requires Run(img, s, n).Running?
    ensures Run(img, s, n + m) == Run(img, Run(img, s, n).s, m)
    decreases n
  {
    hide Exec;
    if n > 0 {
      RunAdd(img, Step(img, s).s, n - 1, m);
    }
  }

  lemma {:induction false} RunStays(img: Image, s: State, n: nat, m: nat)
    requires Run(img, s, n).Stopped? && n <= m
    ensures Run(img, s, m) == Run(img, s, n)
    decreases n
  {
    hide Exec;
    if n > 0 && Step(img, s).Running? {
      RunStays(img, Step(img, s).s, n - 1, m - 1);
    }
  }
}
