/** The interpreter loop of vm.c with its value stack, call frames and globals in fixed arrays, reading the
  * bytecode through the sliding window of bcwin.c. */
module VirtualMachine {
  import opened Bytes
  import opened Values
  import opened M = Machine

  /** How one instruction ends: with the next one, or with an error code (Ok at OP_HALT). */
  datatype Outcome = Next | Halt(err: Err)

  const NOWHERE := 0xFFFF

  lemma {:induction false} LineTextStep(h: Heap, line: seq<Byte>, vs: seq<Value>, i: nat)
    requires i < |vs|
    ensures line + LineText(h, vs[i..]) == (line + ValueText(h, vs[i])) + LineText(h, vs[i + 1..])
  {
    assert vs[i..][1..] == vs[i + 1..];
  }

  lemma {:induction false} LineTextDone(h: Heap, line: seq<Byte>, vs: seq<Value>)
    ensures line + LineText(h, vs[|vs|..]) == line
  {
  }

  class Vm {
    const image: Image              // the bytecode staged in auxiliary memory, and the function table
    const window: array<Byte>       // bcwin_buf
    var winBase: nat
    var winLen: nat
    var pc: nat
    const stack: array<Value>
    var sp: nat
    var fp: nat
    const frames: array<Frame>
    var frameCount: nat
    const globals: array<Option<Value>>
    var heap: Heap
    var out: seq<seq<Byte>>

    ghost const arrays: set<object> := {window, stack, frames, globals}

    /** The arrays have their sizes, and the window holds what the image has at its place. */
    ghost predicate Valid()
      reads this, arrays
    {
      && window as object != stack && window as object != frames && window as object != globals
      && stack as object != frames && stack as object != globals && frames as object != globals
      && stack.Length == STACK_SLOTS && frames.Length == CALL_FRAMES
      && sp <= STACK_SLOTS && frameCount <= CALL_FRAMES
      && 3 <= window.Length && |image.code| <= 0xFFFF && winLen <= window.Length
      && (winBase == NOWHERE || (winBase + winLen <= |image.code|
                                 && window[..winLen] == image.code[winBase..winBase + winLen]))
    }

    /** The machine state that the fields stand for. The window has no part in it. */
    ghost function State(): (s: M.State)
      reads this, arrays
      requires Valid()
      ensures |s.stack| == sp && s.pc == pc && s.fp == fp && s.heap == heap && s.out == out
    {
      M.State(pc, stack[..sp], fp, frames[..frameCount], globals[..], heap, out)
    }

    /** The fields say what `status` says. After an error only the globals, the heap and the output matter. */
    ghost predicate Shows(r: Outcome, status: Status)
      reads this, arrays
      requires Valid()
    {
      match status
      case Running(s) => r == Next && State() == s
      case Stopped(e, s) => r == Halt(e) && globals[..] == s.globals && heap == s.heap && out == s.out
    }

    constructor (img: Image, size: nat, count: nat)
      requires 3 <= size && |img.code| <= 0xFFFF
      ensures Valid() && fresh(arrays) && image == img && window.Length == size
      ensures globals[..] == seq(count, i => None) && heap == [] && out == []
    {
      image := img;
      window := new Byte[size];
      winBase, winLen := NOWHERE, 0;
      stack := new Value[STACK_SLOTS];
      frames := new Frame[CALL_FRAMES];
      globals := new Option<Value>[count](i => None);
      pc, sp, fp, frameCount := 0, 0, 0, 0;
      heap, out := [], [];
    }

    // ----- the bytecode window -----

    /** The instruction at `at` lies in the window, as far as the code goes. */
    ghost predicate Mapped(at: nat)
      reads this
    {
      winBase <= at < winBase + winLen <= |image.code|
      && (at + 3 <= winBase + winLen || winBase + winLen == |image.code|)
    }

    /** bcwin_ensure. */
    method Ensure()
      requires Valid() && pc < |image.code|
      modifies this`winBase, this`winLen, window
      ensures Valid() && Mapped(pc) && State() == old(State())
    {
      var end := winBase + winLen;
      if winBase <= pc && (pc + 3 <= end || |image.code| <= end) {
        return;
      }
      var avail := |image.code| - pc;
      Refill(if avail < window.Length then avail else window.Length);
    }

    /** Read the next `n` bytes of the code into the window. */
    method Refill(n: nat)
      requires Valid() && n <= window.Length && pc + n <= |image.code|
      modifies this`winBase, this`winLen, window
      ensures Valid() && winBase == pc && winLen == n && State() == old(State())
    {
      winBase, winLen := pc, 0;
      while winLen < n
        invariant Valid() && winBase == pc && winLen <= n
        invariant State() == old(State())
      {
        window[winLen] := image.code[pc + winLen];
        winLen := winLen + 1;
      }
    }

    /** bc_next: the byte at the program counter, read from the window. */
    method Fetch() returns (b: Byte)
      requires Valid() && winBase <= pc < winBase + winLen && winBase + winLen <= |image.code|
      modifies this`pc
      ensures Valid() && pc == old(pc) + 1 && b == image.code[old(pc)]
      ensures State() == old(State()).(pc := pc)
    {
      b := window[pc - winBase];
      assert b == window[..winLen][pc - winBase];
      pc := pc + 1;
    }

    // ----- the value stack -----

    method Push(v: Value) returns (r: Outcome)
      requires Valid()
      modifies this`sp, stack
      ensures Valid() && Shows(r, M.Push(old(State()), v))
    {
      if sp >= STACK_SLOTS {
        return Halt(StackOver);
      }
      stack[sp] := v;
      sp := sp + 1;
      assert stack[..sp] == old(stack[..sp]) + [v];
      return Next;
    }

    method Pop() returns (r: Outcome)
      requires Valid()
      modifies this`sp, this`heap
      ensures Valid() && Shows(r, DoPop(old(State())))
    {
      if sp == 0 {
        return Halt(StackUnder);
      }
      sp := sp - 1;
      heap := Release(heap, stack[sp]);
      return Next;
    }

    /** OP_DUP and OP_OVER. */
    method Copy(depth: nat) returns (r: Outcome)
      requires Valid()
      modifies this`sp, this`heap, stack
      ensures Valid() && Shows(r, DoCopy(old(State()), depth))
    {
      if sp <= depth {
        return Halt(StackUnder);
      }
      if sp >= STACK_SLOTS {
        return Halt(StackOver);
      }
      var v := stack[sp - 1 - depth];
      heap := Retain(heap, v);
      r := Push(v);
    }

    method Swap() returns (r: Outcome)
      requires Valid()
      modifies stack
      ensures Valid() && Shows(r, DoSwap(old(State())))
    {
      if sp < 2 {
        return Halt(StackUnder);
      }
      ghost var before := stack[..sp];
      stack[sp - 1], stack[sp - 2] := stack[sp - 2], stack[sp - 1];
      assert stack[..sp] == before[..sp - 2] + [before[sp - 1], before[sp - 2]];
      return Next;
    }

    /** Put `v` in the place of the top `n` values. */
    method Replace(n: nat, v: Value)
      requires Valid() && 1 <= n <= sp
      modifies this`sp, stack
      ensures Valid() && State() == old(State()).(stack := Dropped(old(State()), n) + [v])
    {
      ghost var before := stack[..sp];
      sp := sp - n;
      stack[sp] := v;
      sp := sp + 1;
      assert stack[..sp] == before[..|before| - n] + [v];
    }

    method PushConstant(at: U16) returns (r: Outcome)
      requires Valid()
      modifies this`sp, this`heap, stack
      ensures Valid() && Shows(r, DoStr(old(State()), at))
    {
      if sp >= STACK_SLOTS {
        return Halt(StackOver);
      }
      heap := Retain(heap, Str(at));
      r := Push(Str(at));
    }

    // ----- variables -----

    method DefineGlobal(i: Byte) returns (r: Outcome)
      requires Valid()
      modifies this`sp, this`heap, globals
      ensures Valid() && Shows(r, DoDefineGlobal(old(State()), i))
    {
      if i >= globals.Length {
        return Halt(BadOpcode);
      }
      if sp == 0 {
        return Halt(StackUnder);
      }
      if globals[i].Some? {
        heap := Release(heap, globals[i].value);
      }
      sp := sp - 1;
      globals[i] := Some(stack[sp]);
      return Next;
    }

    method GetGlobal(i: Byte) returns (r: Outcome)
      requires Valid()
      modifies this`sp, this`heap, stack
      ensures Valid() && Shows(r, DoGetGlobal(old(State()), i))
    {
      if i >= globals.Length || globals[i].None? {
        return Halt(BadOpcode);
      }
      if sp >= STACK_SLOTS {
        return Halt(StackOver);
      }
      heap := Retain(heap, globals[i].value);
      r := Push(globals[i].value);
    }

    method SetGlobal(i: Byte) returns (r: Outcome)
      requires Valid()
      modifies this`sp, this`heap, globals
      ensures Valid() && Shows(r, DoSetGlobal(old(State()), i))
    {
      if i >= globals.Length || globals[i].None? {
        return Halt(BadOpcode);
      }
      if sp == 0 {
        return Halt(StackUnder);
      }
      heap := Release(heap, globals[i].value);
      sp := sp - 1;
      globals[i] := Some(stack[sp]);
      return Next;
    }

    method GetLocal(i: Byte) returns (r: Outcome)
      requires Valid()
      modifies this`sp, this`heap, stack
      ensures Valid() && Shows(r, DoGetLocal(old(State()), i))
    {
      if fp + i >= sp {
        return Halt(StackUnder);
      }
      if sp >= STACK_SLOTS {
        return Halt(StackOver);
      }
      heap := Retain(heap, stack[fp + i]);
      r := Push(stack[fp + i]);
    }

    method SetLocal(i: Byte) returns (r: Outcome)
      requires Valid()
      modifies this`sp, this`heap, stack
      ensures Valid() && Shows(r, DoSetLocal(old(State()), i))
    {
      if fp + i >= sp {
        return Halt(StackUnder);
      }
      ghost var before := stack[..sp];
      heap := Release(heap, stack[fp + i]);
      sp := sp - 1;
      stack[fp + i] := stack[sp];
      assert stack[..sp] == before[fp + i := before[sp]][..sp];
      return Next;
    }

    // ----- operators -----

    method Arithmetic(op: ArithOp) returns (r: Outcome)
      requires Valid()
      modifies this`sp, this`heap, stack
      ensures Valid() && Shows(r, DoArith(old(State()), op))
    {
      if sp < 2 {
        return Halt(StackUnder);
      }
      var a, b := stack[sp - 2], stack[sp - 1];
      if op == Add && a.Str? && b.Str? {
        r := Concat();
        return;
      }
      if !(a.Imm? && a.v.Int? && b.Imm? && b.v.Int?) {
        return Halt(TypeMismatch);
      }
      match M.Arith(op, a.v.n, b.v.n) {
        case IntErr(e) => return Halt(e);
        case Value16(n) =>
          Replace(2, Imm(Int(n)));
          return Next;
      }
    }

    method Negate() returns (r: Outcome)
      requires Valid()
      modifies this`sp, stack
      ensures Valid() && Shows(r, DoNeg(old(State())))
    {
      if sp == 0 {
        return Halt(StackUnder);
      }
      var v := stack[sp - 1];
      if !(v.Imm? && v.v.Int?) {
        return Halt(TypeMismatch);
      }
      Replace(1, Imm(Int(Wrap16(-(v.v.n as int)))));
      return Next;
    }

    method Increment() returns (r: Outcome)
      requires Valid()
      modifies this`sp, stack
      ensures Valid() && Shows(r, DoInc(old(State())))
    {
      if sp == 0 {
        return Halt(StackUnder);
      }
      var v := stack[sp - 1];
      if !(v.Imm? && v.v.Int?) {
        return Halt(TypeMismatch);
      }
      Replace(1, Imm(Int(Wrap16(v.v.n + 1))));
      return Next;
    }

    method Equal(same: bool) returns (r: Outcome)
      requires Valid()
      modifies this`sp, stack
      ensures Valid() && Shows(r, DoEqual(old(State()), same))
    {
      if sp < 2 {
        return Halt(StackUnder);
      }
      Replace(2, Imm(Bool(SameValue(stack[sp - 2], stack[sp - 1]) == same)));
      return Next;
    }

    method Compare(op: CmpOp) returns (r: Outcome)
      requires Valid()
      modifies this`sp, stack
      ensures Valid() && Shows(r, DoCompare(old(State()), op))
    {
      if sp < 2 {
        return Halt(StackUnder);
      }
      var a, b := stack[sp - 2], stack[sp - 1];
      if !(a.Imm? && a.v.Int? && b.Imm? && b.v.Int?) {
        return Halt(TypeMismatch);
      }
      Replace(2, Imm(Bool(M.Compare(op, a.v.n, b.v.n))));
      return Next;
    }

    method Not() returns (r: Outcome)
      requires Valid()
      modifies this`sp, stack
      ensures Valid() && Shows(r, DoNot(old(State())))
    {
      if sp == 0 {
        return Halt(StackUnder);
      }
      var v := stack[sp - 1];
      if !(v.Imm? && v.v.Bool?) {
        return Halt(TypeMismatch);
      }
      Replace(1, Imm(Bool(!v.v.b)));
      return Next;
    }

    // ----- jumps -----

    /** Add the operand to the program counter, in 16 bits. */
    method Jump(off: U16) returns (r: Outcome)
      requires Valid()
      modifies this`pc
      ensures Valid() && Shows(r, Branch(image, old(State()), off))
    {
      var target := (pc + off) % 0x1_0000;
      if target > |image.code| {
        return Halt(BadOpcode);
      }
      pc := target;
      return Next;
    }

    method JumpIf(sense: bool, off: U16) returns (r: Outcome)
      requires Valid()
      modifies this`pc, this`sp
      ensures Valid() && Shows(r, DoJumpIf(image, old(State()), sense, off))
    {
      if sp == 0 {
        return Halt(StackUnder);
      }
      var v := stack[sp - 1];
      if !(v.Imm? && v.v.Bool?) {
        return Halt(TypeMismatch);
      }
      sp := sp - 1;
      assert State() == old(State()).(stack := Dropped(old(State()), 1));
      if v.v.b == sense {
        r := Jump(off);
      } else {
        return Next;
      }
    }

    method Loop(back: U16) returns (r: Outcome)
      requires Valid()
      modifies this`pc
      ensures Valid() && Shows(r, DoLoop(old(State()), back))
    {
      if back > pc {
        return Halt(BadOpcode);
      }
      pc := pc - back;
      return Next;
    }

    /** OP_NIL_COALESCE and OP_IF_LET. */
    method NilBranch(whenNil: bool, off: U16) returns (r: Outcome)
      requires Valid()
      modifies this`pc, this`sp
      ensures Valid() && Shows(r, DoNilBranch(image, old(State()), whenNil, off))
    {
      if sp == 0 {
        return Halt(StackUnder);
      }
      var isNil := IsNil(stack[sp - 1]);
      if isNil {
        sp := sp - 1;
        assert State() == old(State()).(stack := Dropped(old(State()), 1));
      }
      if isNil == whenNil {
        r := Jump(off);
      } else {
        return Next;
      }
    }

    method Unwrap() returns (r: Outcome)
      requires Valid()
      ensures Valid() && Shows(r, DoUnwrap(State()))
    {
      if sp == 0 {
        return Halt(StackUnder);
      }
      if IsNil(stack[sp - 1]) {
        return Halt(RuntimeErr);
      }
      return Next;
    }

    // ----- calls -----

    method Call(f: Byte, argc: Byte) returns (r: Outcome)
      requires Valid()
      modifies this`pc, this`fp, this`frameCount, frames
      ensures Valid() && Shows(r, DoCall(image, old(State()), f, argc))
    {
      if sp < argc {
        return Halt(StackUnder);
      }
      if f >= |image.funcs| || image.funcs[f].start >= |image.code| {
        return Halt(BadOpcode);
      }
      if frameCount >= CALL_FRAMES {
        return Halt(StackOver);
      }
      if image.funcs[f].params != argc {
        return Halt(BadOpcode);
      }
      ghost var before := frames[..frameCount];
      frames[frameCount] := Frame(pc, fp);
      frameCount := frameCount + 1;
      assert frames[..frameCount] == before + [Frame(pc, fp)];
      fp := sp - argc;
      pc := image.funcs[f].start;
      return Next;
    }

    /** Release the values from `from` up to `upTo`, lowest first. */
    method ReleaseSlots(from: nat, upTo: nat)
      requires Valid() && from <= upTo <= stack.Length
      modifies this`heap
      ensures Valid() && heap == ReleaseAll(old(heap), stack[from..upTo])
    {
      var i := from;
      while i < upTo
        invariant Valid() && from <= i <= upTo
        invariant ReleaseAll(heap, stack[i..upTo]) == ReleaseAll(old(heap), stack[from..upTo])
      {
        assert stack[i..upTo][1..] == stack[i + 1..upTo];
        heap := Release(heap, stack[i]);
        i := i + 1;
      }
    }

    /** The common end of OP_RETURN and OP_RETURN_V. */
    method Leave(upTo: nat, v: Value) returns (r: Outcome)
      requires Valid() && frameCount > 0 && upTo <= sp
      modifies this`pc, this`sp, this`fp, this`frameCount, this`heap, stack
      ensures Valid() && Shows(r, LeaveFrame(old(State()), upTo, v))
    {
      hide ReleaseAll;
      if fp > upTo {
        return Halt(OutOfModel);
      }
      ReleaseSlots(fp, upTo);
      assert stack[fp..upTo] == State().stack[fp..upTo];
      sp := fp;
      frameCount := frameCount - 1;
      pc, fp := frames[frameCount].pc, frames[frameCount].fp;
      assert stack[..sp] == old(State()).stack[..sp];
      assert frames[..frameCount] == old(State()).frames[..frameCount];
      r := Push(v);
    }

    method Return() returns (r: Outcome)
      requires Valid()
      modifies this`pc, this`sp, this`fp, this`frameCount, this`heap, stack
      ensures Valid() && Shows(r, DoReturn(old(State())))
    {
      if frameCount == 0 {
        return Halt(BadOpcode);
      }
      if sp == 0 {
        return Halt(StackUnder);
      }
      r := Leave(sp - 1, stack[sp - 1]);
    }

    method ReturnVoid() returns (r: Outcome)
      requires Valid()
      modifies this`pc, this`sp, this`fp, this`frameCount, this`heap, stack
      ensures Valid() && Shows(r, DoReturnVoid(old(State())))
    {
      if frameCount == 0 {
        return Halt(BadOpcode);
      }
      r := Leave(sp, Imm(Nil));
    }

    // ----- builtins, strings and arrays -----

    /** The text of the top `argc` values, lowest first. */
    method LineOf(argc: Byte) returns (line: seq<Byte>)
      requires Valid() && argc <= sp
      ensures line == LineText(heap, stack[sp - argc..sp])
    {
      hide LineText, ValueText;
      ghost var args := stack[sp - argc..sp];
      assert args[0..] == args;
      line := [];
      assert line + LineText(heap, args) == LineText(heap, args);
      var i: nat := 0;
      while i < argc
        invariant 0 <= i <= argc
        invariant line + LineText(heap, args[i..]) == LineText(heap, args)
      {
        LineTextStep(heap, line, args, i);
        line := line + ValueText(heap, stack[sp - argc + i]);
        i := i + 1;
      }
      LineTextDone(heap, line, args);
    }

    method Print(argc: Byte) returns (r: Outcome)
      requires Valid() && argc <= sp
      modifies this`sp, this`heap, this`out, stack
      ensures Valid() && Shows(r, DoBuiltin(old(State()), BUILTIN_PRINT, argc))
    {
      hide LineText, ReleaseAll;
      assert stack[sp - argc..sp] == State().stack[sp - argc..];
      var line := LineOf(argc);
      out := out + [line];
      ReleaseSlots(sp - argc, sp);
      sp := sp - argc;
      assert stack[..sp] == Dropped(old(State()), argc);
      r := Push(Imm(Nil));
    }

    /** BUILTIN_MIN and BUILTIN_MAX. */
    method Extreme(id: Byte, argc: Byte) returns (r: Outcome)
      requires Valid() && argc <= sp && (id == BUILTIN_MIN || id == BUILTIN_MAX)
      modifies this`sp, stack
      ensures Valid() && Shows(r, DoBuiltin(old(State()), id, argc))
    {
      hide LineText, ReleaseAll;
      if argc != 2 {
        return Halt(BadOpcode);
      }
      var a, b := stack[sp - 2], stack[sp - 1];
      if !(a.Imm? && a.v.Int? && b.Imm? && b.v.Int?) {
        return Halt(TypeMismatch);
      }
      Replace(2, if (a.v.n < b.v.n) == (id == BUILTIN_MIN) then a else b);
      return Next;
    }

    method Builtin(id: Byte, argc: Byte) returns (r: Outcome)
      requires Valid()
      modifies this`sp, this`heap, this`out, stack
      ensures Valid() && Shows(r, DoBuiltin(old(State()), id, argc))
    {
      if sp < argc {
        return Halt(StackUnder);
      }
      if id == BUILTIN_PRINT {
        r := Print(argc);
      } else if id == BUILTIN_MIN || id == BUILTIN_MAX {
        r := Extreme(id, argc);
      } else {
        return Halt(OutOfModel);
      }
    }

    /** make_heap_str, then a push. */
    method PushText(text: seq<Byte>) returns (r: Outcome)
      requires Valid()
      modifies this`sp, this`heap, stack
      ensures Valid() && Shows(r, PushString(old(State()), text))
    {
      match Alloc(heap, StrBlock(1, text)) {
        case None => return Halt(OutOfMemory);
        case Some(h) =>
          var at := HeapPtr(heap);
          heap := h;
          r := Push(Str(at));
      }
    }

    method Concat() returns (r: Outcome)
      requires Valid()
      modifies this`sp, this`heap, stack
      ensures Valid() && Shows(r, DoConcat(old(State())))
    {
      hide StrBytes, Release, PushString, AddrOf;
      if sp < 2 {
        return Halt(StackUnder);
      }
      var a, b := stack[sp - 2], stack[sp - 1];
      if !(a.Str? && b.Str?) {
        return Halt(TypeMismatch);
      }
      var text := StrBytes(heap, a.at) + StrBytes(heap, b.at);
      if |text| > 256 {
        return Halt(OutOfMemory);
      }
      heap := Release(Release(heap, b), a);
      sp := sp - 2;
      assert stack[..sp] == Dropped(old(State()), 2);
      r := PushText(text);
    }

    method Interpolate() returns (r: Outcome)
      requires Valid()
      modifies this`sp, this`heap, stack
      ensures Valid() && Shows(r, DoInterp(old(State())))
    {
      if sp == 0 {
        return Halt(StackUnder);
      }
      match stack[sp - 1] {
        case Imm(v) =>
          sp := sp - 1;
          assert stack[..sp] == Dropped(old(State()), 1);
          r := PushText(ImmediateText(v));
        case Str(_) => return Next;
        case Arr(_) => return Halt(TypeMismatch);
      }
    }

    /** The top `n` values as array slots, or None when one of them lives on the heap. */
    method Slots(n: Byte) returns (slots: Option<seq<Immediate>>)
      requires Valid() && n <= sp
      ensures slots == Immediates(stack[sp - n..sp])
    {
      var vs: seq<Immediate> := [];
      var i := sp - n;
      while i < sp
        invariant sp - n <= i <= sp && |vs| == i - (sp - n)
        invariant forall k :: 0 <= k < |vs| ==> stack[sp - n + k] == Imm(vs[k])
      {
        if !stack[i].Imm? {
          assert !stack[sp - n..sp][i - (sp - n)].Imm?;
          return None;
        }
        vs := vs + [stack[i].v];
        i := i + 1;
      }
      ghost var top := stack[sp - n..sp];
      assert forall k :: 0 <= k < |top| ==> top[k] == Imm(vs[k]);
      assert Immediates(top).value == vs;
      return Some(vs);
    }

    method NewArray(n: Byte) returns (r: Outcome)
      requires Valid()
      modifies this`sp, this`heap, stack
      ensures Valid() && Shows(r, DoNewArray(old(State()), n))
    {
      hide Immediates, M.Push;
      if sp < n {
        return Halt(StackUnder);
      }
      var slots := Slots(n);
      assert stack[sp - n..sp] == State().stack[sp - n..];
      if slots.None? {
        return Halt(OutOfModel);
      }
      match Alloc(heap, ArrBlock(1, if n == 0 then ARRAY_INIT_CAPACITY else n, slots.value)) {
        case None => return Halt(OutOfMemory);
        case Some(h) =>
          var at := HeapPtr(heap);
          heap := h;
          sp := sp - n;
          assert stack[..sp] == Dropped(old(State()), n);
          r := Push(Arr(at));
      }
    }

    method ArrayGet() returns (r: Outcome)
      requires Valid()
      modifies this`sp, this`heap, stack
      ensures Valid() && Shows(r, DoArrayGet(old(State())))
    {
      if sp < 2 {
        return Halt(StackUnder);
      }
      var a, i := stack[sp - 2], stack[sp - 1];
      if !(a.Arr? && i.Imm? && i.v.Int?) {
        return Halt(TypeMismatch);
      }
      match ArrayAt(heap, a.at) {
        case None => return Halt(RuntimeErr);
        case Some(k) =>
          if !(0 <= i.v.n < |heap[k].slots|) {
            return Halt(RuntimeErr);
          }
          var v := heap[k].slots[i.v.n];
          heap := Release(heap, a);
          Replace(2, Imm(v));
          return Next;
      }
    }

    method ArraySet() returns (r: Outcome)
      requires Valid()
      modifies this`sp, this`heap
      ensures Valid() && Shows(r, DoArraySet(old(State())))
    {
      if sp < 3 {
        return Halt(StackUnder);
      }
      var a, i, v := stack[sp - 3], stack[sp - 2], stack[sp - 1];
      if !(a.Arr? && i.Imm? && i.v.Int?) {
        return Halt(TypeMismatch);
      }
      match ArrayAt(heap, a.at) {
        case None => return Halt(RuntimeErr);
        case Some(k) =>
          if !(0 <= i.v.n < |heap[k].slots|) {
            return Halt(RuntimeErr);
          }
          if !v.Imm? {
            return Halt(OutOfModel);
          }
          r := Put(a, k, i.v.n, v.v);
      }
    }

    /** array_set once the array, the index and the value have been checked. */
    method Put(a: Value, k: nat, n: I16, v: Immediate) returns (r: Outcome)
      requires Valid() && 3 <= sp && stack[sp - 3] == a && stack[sp - 2] == Imm(Int(n)) && stack[sp - 1] == Imm(v)
      requires a.Arr? && ArrayAt(heap, a.at) == Some(k) && 0 <= n < |heap[k].slots|
      modifies this`sp, this`heap
      ensures Valid() && Shows(r, DoArraySet(old(State())))
    {
      hide ArrayAt, Release;
      heap := Release(heap[k := heap[k].(slots := heap[k].slots[n as int := v])], a);
      sp := sp - 3;
      assert stack[..sp] == Dropped(old(State()), 3);
      return Next;
    }

    /** OP_ARR_LEN on an array or a string. */
    method Length() returns (r: Outcome)
      requires Valid()
      modifies this`sp, this`heap, stack
      ensures Valid() && Shows(r, DoArrayLen(old(State())))
    {
      if sp == 0 {
        return Halt(StackUnder);
      }
      var v := stack[sp - 1];
      var n: nat;
      match v {
        case Imm(_) => return Halt(TypeMismatch);
        case Str(at) => n := |StrBytes(heap, at)|;
        case Arr(at) =>
          var k := ArrayAt(heap, at);
          n := if k.Some? then |heap[k.value].slots| else 0;
      }
      heap := Release(heap, v);
      Replace(1, Imm(Int(Wrap16(n))));
      return Next;
    }

    method ArrayAppend() returns (r: Outcome)
      requires Valid()
      modifies this`sp, this`heap, stack
      ensures Valid() && Shows(r, DoArrayAppend(old(State())))
    {
      if sp < 2 {
        return Halt(StackUnder);
      }
      var a, v := stack[sp - 2], stack[sp - 1];
      if !a.Arr? {
        return Halt(TypeMismatch);
      }
      match ArrayAt(heap, a.at) {
        case None => return Halt(RuntimeErr);
        case Some(k) =>
          if !v.Imm? {
            return Halt(OutOfModel);
          }
          if |heap[k].slots| < heap[k].cap {
            heap := heap[k := heap[k].(slots := heap[k].slots + [v.v])];
            Replace(2, a);
            return Next;
          }
          r := Grow(a, k, v.v);
      }
    }

    /** array_append on a full array: a block of twice the capacity takes its place. */
    method Grow(a: Value, k: nat, v: Immediate) returns (r: Outcome)
      requires Valid() && 2 <= sp && stack[sp - 2] == a && stack[sp - 1] == Imm(v)
      requires a.Arr? && ArrayAt(heap, a.at) == Some(k) && |heap[k].slots| >= heap[k].cap
      modifies this`sp, this`heap, stack
      ensures Valid() && Shows(r, DoArrayAppend(old(State())))
    {
      hide ReleaseAt, ArrayAt;
      var cap := if heap[k].cap * 2 < ARRAY_INIT_CAPACITY then ARRAY_INIT_CAPACITY else heap[k].cap * 2;
      match Alloc(heap, ArrBlock(1, cap, heap[k].slots + [v])) {
        case None => return Halt(OutOfMemory);
        case Some(h) =>
          var at := HeapPtr(heap);
          heap := ReleaseAt(h, a.at);
          Replace(2, Arr(at));
          return Next;
      }
    }

    // ----- dispatch -----

    /** The opcode at the front of `b`, the bytes at `pc - 1`, has been read; its operands are in the window. */
    ghost predicate Opened(b: seq<Byte>)
      reads this
    {
      pc > 0 && Mapped(pc - 1) && b == M.Fetch(image.code, pc - 1)
    }

    /** What the instruction in `b` does once the program counter has passed its opcode. */
    ghost function Effect(b: seq<Byte>, s: M.State): Status
      requires 1 <= |b| <= 3 && s.pc > 0
    {
      Exec(image, Decode(b).instr, s.(pc := s.pc - 1 + Decode(b).size))
    }

    method Operand(ghost b: seq<Byte>) returns (i: Byte)
      requires Valid() && Opened(b) && pc + 1 <= |image.code|
      modifies this`pc
      ensures Valid() && 2 <= |b| && i == b[1] && pc == old(pc) + 1 && State() == old(State()).(pc := pc)
    {
      i := Fetch();
    }

    method Operands(ghost b: seq<Byte>) returns (i: Byte, j: Byte)
      requires Valid() && Opened(b) && pc + 2 <= |image.code|
      modifies this`pc
      ensures Valid() && 3 <= |b| && i == b[1] && j == b[2] && pc == old(pc) + 2 && State() == old(State()).(pc := pc)
    {
      i := Fetch();
      j := Fetch();
    }

    /** Opcodes below 0x10 push a constant. */
    method Constant(op: Byte, ghost b: seq<Byte>) returns (r: Outcome)
      requires Valid() && Opened(b) && op == b[0] && op < 0x10
      modifies this`pc, this`sp, this`heap, stack
      ensures Valid() && Shows(r, Effect(b, old(State())))
    {
      hide M.Push, DoStr, DecodeVariable, DecodeOperator, DecodeControl, DecodeObject;
      match op {
        case 0x00 => r := Push(Imm(Nil));
        case 0x01 => r := Push(Imm(Bool(true)));
        case 0x02 => r := Push(Imm(Bool(false)));
        case _ => r := WideConstant(op, b);
      }
    }

    /** The constants with operand bytes. */
    method WideConstant(op: Byte, ghost b: seq<Byte>) returns (r: Outcome)
      requires Valid() && Opened(b) && op == b[0] && 0x02 < op < 0x10
      modifies this`pc, this`sp, this`heap, stack
      ensures Valid() && Shows(r, Effect(b, old(State())))
    {
      hide Wrap16, Word, M.Push, DoStr, Effect;
      WideMeans(b, State());
      match op {
        case 0x03 =>
          if pc + 1 > |image.code| {
            return Halt(BadOpcode);
          }
          var n := Operand(b);
          r := Push(Imm(Int(n)));
        case 0x04 =>
          if pc + 2 > |image.code| {
            return Halt(BadOpcode);
          }
          var lo, hi := Operands(b);
          r := Push(Imm(Int(Wrap16(Word(lo, hi)))));
        case 0x06 =>
          if pc + 2 > |image.code| {
            return Halt(BadOpcode);
          }
          var lo, hi := Operands(b);
          r := PushConstant(Word(lo, hi));
        case _ => return Halt(BadOpcode);
      }
    }

    lemma {:induction false} WideMeans(b: seq<Byte>, s: M.State)
      requires 1 <= |b| <= 3 && s.pc > 0 && 0x02 < b[0] < 0x10
      ensures Effect(b, s)
           == if b[0] == 0x03 && |b| >= 2 then M.Push(s.(pc := s.pc + 1), Imm(Int(b[1])))
              else if b[0] == 0x04 && |b| == 3 then M.Push(s.(pc := s.pc + 2), Imm(Int(Wrap16(Word(b[1], b[2])))))
              else if b[0] == 0x06 && |b| == 3 then DoStr(s.(pc := s.pc + 2), Word(b[1], b[2]))
              else Stopped(BadOpcode, s)
    {
      hide Wrap16, Word, M.Push, DoStr, DecodeVariable, DecodeOperator, DecodeControl, DecodeObject;
    }

    /** Opcodes from 0x10 to 0x1F move values on the stack. */
    method Shuffle(op: Byte, ghost b: seq<Byte>) returns (r: Outcome)
      requires Valid() && Opened(b) && op == b[0] && 0x10 <= op < 0x20
      modifies this`sp, this`heap, stack
      ensures Valid() && Shows(r, Effect(b, old(State())))
    {
      hide DoPop, DoCopy, DoSwap, DecodeVariable, DecodeOperator, DecodeControl, DecodeObject;
      match op {
        case 0x10 => r := Pop();
        case 0x11 => r := Copy(0);
        case 0x12 => r := Swap();
        case 0x13 => r := Copy(1);
        case _ => return Halt(BadOpcode);
      }
    }

    /** Opcodes from 0x20 to 0x2F: globals and locals. */
    method Variable(op: Byte, ghost b: seq<Byte>) returns (r: Outcome)
      requires Valid() && Opened(b) && op == b[0] && 0x20 <= op < 0x30
      modifies this`pc, this`sp, this`heap, stack, globals
      ensures Valid() && Shows(r, Effect(b, old(State())))
    {
      hide DoGetGlobal, DoSetGlobal, DoDefineGlobal, DoGetLocal, DoSetLocal, Decode;
      VariableDecoded(b);
      if op > 0x24 || pc + 1 > |image.code| {
        return Halt(BadOpcode);
      }
      if op <= 0x22 {
        r := GlobalAt(op, b);
      } else {
        r := LocalAt(op, b);
      }
    }

    /** The globals, with the index in the operand byte. */
    method GlobalAt(op: Byte, ghost b: seq<Byte>) returns (r: Outcome)
      requires Valid() && Opened(b) && op == b[0] && 0x20 <= op <= 0x22 && pc + 1 <= |image.code|
      modifies this`pc, this`sp, this`heap, stack, globals
      ensures Valid() && Shows(r, Effect(b, old(State())))
    {
      hide DoGetGlobal, DoSetGlobal, DoDefineGlobal, Decode;
      VariableDecoded(b);
      var i := Operand(b);
      match op {
        case 0x20 => r := GetGlobal(i);
        case 0x21 => r := SetGlobal(i);
        case _ => r := DefineGlobal(i);
      }
    }

    /** The locals, with the slot in the operand byte. */
    method LocalAt(op: Byte, ghost b: seq<Byte>) returns (r: Outcome)
      requires Valid() && Opened(b) && op == b[0] && 0x23 <= op <= 0x24 && pc + 1 <= |image.code|
      modifies this`pc, this`sp, this`heap, stack
      ensures Valid() && Shows(r, Effect(b, old(State())))
    {
      hide DoGetLocal, DoSetLocal, Decode;
      VariableDecoded(b);
      var i := Operand(b);
      match op {
        case 0x23 => r := GetLocal(i);
        case _ => r := SetLocal(i);
      }
    }

    static lemma {:induction false} OperatorDecoded(b: seq<Byte>)
      requires 1 <= |b| <= 3 && 0x30 <= b[0] < 0x50
      ensures Decode(b) == DecodeOperator(b)
    {
    }

    static lemma {:induction false} VariableDecoded(b: seq<Byte>)
      requires 1 <= |b| <= 3 && 0x20 <= b[0] < 0x30
      ensures Decode(b) == DecodeVariable(b)
    {
    }

    /** Opcodes from 0x30 to 0x3F: arithmetic. */
    method Calculation(op: Byte, ghost b: seq<Byte>) returns (r: Outcome)
      requires Valid() && Opened(b) && op == b[0] && 0x30 <= op < 0x40
      modifies this`sp, this`heap, stack
      ensures Valid() && Shows(r, Effect(b, old(State())))
    {
      hide DoArith, DoNeg, DoInc, Decode;
      OperatorDecoded(b);
      match op {
        case 0x30 => r := Arithmetic(Add);
        case 0x31 => r := Arithmetic(Sub);
        case 0x32 => r := Arithmetic(Mul);
        case 0x33 => r := Arithmetic(Div);
        case 0x34 => r := Arithmetic(Mod);
        case _ => r := SignOrStep(op, b);
      }
    }

    /** OP_NEG and OP_INC. */
    method SignOrStep(op: Byte, ghost b: seq<Byte>) returns (r: Outcome)
      requires Valid() && Opened(b) && op == b[0] && 0x34 < op < 0x40
      modifies this`sp, this`heap, stack
      ensures Valid() && Shows(r, Effect(b, old(State())))
    {
      hide DoNeg, DoInc, Decode;
      OperatorDecoded(b);
      match op {
        case 0x35 => r := Negate();
        case 0x36 => r := Increment();
        case _ => return Halt(BadOpcode);
      }
    }

    /** Opcodes from 0x40 to 0x4F: comparison and logical not. */
    method Comparison(op: Byte, ghost b: seq<Byte>) returns (r: Outcome)
      requires Valid() && Opened(b) && op == b[0] && 0x40 <= op < 0x50
      modifies this`sp, stack
      ensures Valid() && Shows(r, Effect(b, old(State())))
    {
      hide DoEqual, DoCompare, DoNot, Decode;
      OperatorDecoded(b);
      match op {
        case 0x40 => r := Equal(true);
        case 0x41 => r := Equal(false);
        case 0x46 => r := Not();
        case _ => r := Ordering(op, b);
      }
    }

    /** The four orderings. */
    method Ordering(op: Byte, ghost b: seq<Byte>) returns (r: Outcome)
      requires Valid() && Opened(b) && op == b[0] && 0x41 < op < 0x50 && op != 0x46
      modifies this`sp, stack
      ensures Valid() && Shows(r, Effect(b, old(State())))
    {
      hide DoCompare, Effect;
      OrderingMeans(b, State());
      match op {
        case 0x42 => r := Compare(Lt);
        case 0x43 => r := Compare(Le);
        case 0x44 => r := Compare(Gt);
        case 0x45 => r := Compare(Ge);
        case _ => return Halt(BadOpcode);
      }
    }

    lemma {:induction false} OrderingMeans(b: seq<Byte>, s: M.State)
      requires 1 <= |b| <= 3 && s.pc > 0 && 0x41 < b[0] < 0x50 && b[0] != 0x46
      ensures Effect(b, s) == match b[0]
                              case 0x42 => DoCompare(s, Lt)
                              case 0x43 => DoCompare(s, Le)
                              case 0x44 => DoCompare(s, Gt)
                              case 0x45 => DoCompare(s, Ge)
                              case _ => Stopped(BadOpcode, s)
    {
      hide DoCompare, Decode;
      OperatorDecoded(b);
    }

    /** OP_JUMP and OP_LOOP. */
    method Jumping(op: Byte, ghost b: seq<Byte>) returns (r: Outcome)
      requires Valid() && Opened(b) && op == b[0] && (op == 0x50 || op == 0x53)
      modifies this`pc
      ensures Valid() && Shows(r, Effect(b, old(State())))
    {
      hide Branch, DoLoop, DecodeStack, DecodeVariable, DecodeOperator, DecodeObject;
      if pc + 2 > |image.code| {
        return Halt(BadOpcode);
      }
      var lo, hi := Operands(b);
      if op == 0x50 {
        r := Jump(Word(lo, hi));
      } else {
        r := Loop(Word(lo, hi));
      }
    }

    /** The conditional jumps look at the stack before they look at their operand. */
    method Testing(op: Byte, ghost b: seq<Byte>) returns (r: Outcome)
      requires Valid() && Opened(b) && op == b[0] && op in {0x51, 0x52, 0x72, 0x73}
      modifies this`pc, this`sp
      ensures Valid() && Shows(r, Effect(b, old(State())))
    {
      hide Branch, DecodeStack, DecodeVariable, DecodeOperator, DecodeObject;
      if sp == 0 {
        return Halt(StackUnder);
      }
      if pc + 2 > |image.code| {
        return Halt(BadOpcode);
      }
      r := TestAndJump(op, b);
    }

    /** The conditional jumps, once there is something to test. */
    method TestAndJump(op: Byte, ghost b: seq<Byte>) returns (r: Outcome)
      requires Valid() && Opened(b) && op == b[0] && op in {0x51, 0x52, 0x72, 0x73} && pc + 2 <= |image.code|
      modifies this`pc, this`sp
      ensures Valid() && Shows(r, Effect(b, old(State())))
    {
      hide DoJumpIf, DoNilBranch, Effect, Word;
      var lo, hi := Operands(b);
      TestMeans(b, old(State()));
      match op {
        case 0x51 => r := JumpIf(false, Word(lo, hi));
        case 0x52 => r := JumpIf(true, Word(lo, hi));
        case 0x72 => r := NilBranch(false, Word(lo, hi));
        case _ => r := NilBranch(true, Word(lo, hi));
      }
    }

    lemma {:induction false} TestMeans(b: seq<Byte>, s: M.State)
      requires |b| == 3 && s.pc > 0 && b[0] in {0x51, 0x52, 0x72, 0x73}
      ensures var t, off := s.(pc := s.pc + 2), Word(b[1], b[2]);
              Effect(b, s) == match b[0]
                              case 0x51 => DoJumpIf(image, t, false, off)
                              case 0x52 => DoJumpIf(image, t, true, off)
                              case 0x72 => DoNilBranch(image, t, false, off)
                              case _ => DoNilBranch(image, t, true, off)
    {
      hide DoJumpIf, DoNilBranch, DecodeStack, DecodeVariable, DecodeOperator, DecodeObject, Word;
    }

    /** OP_CALL and OP_CALL_BUILTIN. */
    method Calling(op: Byte, ghost b: seq<Byte>) returns (r: Outcome)
      requires Valid() && Opened(b) && op == b[0] && (op == 0x60 || op == 0x63)
      modifies this`pc, this`fp, this`frameCount, this`out, this`sp, this`heap, stack, frames
      ensures Valid() && Shows(r, Effect(b, old(State())))
    {
      hide DoCall, DoBuiltin, Effect;
      CallingMeans(b, State());
      if pc + 2 > |image.code| {
        return Halt(BadOpcode);
      }
      var i, argc := Operands(b);
      if op == 0x60 {
        r := Call(i, argc);
      } else {
        r := Builtin(i, argc);
      }
    }

    lemma {:induction false} CallingMeans(b: seq<Byte>, s: M.State)
      requires 1 <= |b| <= 3 && s.pc > 0 && (b[0] == 0x60 || b[0] == 0x63)
      ensures Effect(b, s) == if |b| < 3 then Stopped(BadOpcode, s)
                              else if b[0] == 0x60 then DoCall(image, s.(pc := s.pc + 2), b[1], b[2])
                              else DoBuiltin(s.(pc := s.pc + 2), b[1], b[2])
    {
      hide DoCall, DoBuiltin, DecodeStack, DecodeVariable, DecodeOperator, DecodeObject;
    }

    /** Opcodes from 0x50 to 0x7F: jumps, calls and optionals. */
    method Control(op: Byte, ghost b: seq<Byte>) returns (r: Outcome)
      requires Valid() && Opened(b) && op == b[0] && 0x50 <= op < 0x80
      modifies this`pc, this`fp, this`frameCount, this`out, this`sp, this`heap, stack, frames
      ensures Valid() && Shows(r, Effect(b, old(State())))
    {
      hide DoUnwrap, DoReturn, DoReturnVoid, Effect;
      ControlMeans(b, State());
      if op == 0x50 || op == 0x53 {
        r := Jumping(op, b);
      } else if op in {0x51, 0x52, 0x72, 0x73} {
        r := Testing(op, b);
      } else if op == 0x60 || op == 0x63 {
        r := Calling(op, b);
      } else if op == 0x61 {
        r := Return();
      } else if op == 0x62 {
        r := ReturnVoid();
      } else if op == 0x70 {
        r := Unwrap();
      } else {
        return Halt(if op == 0x54 then Ok else BadOpcode);
      }
    }

    /** The control instructions without operands. */
    lemma {:induction false} ControlMeans(b: seq<Byte>, s: M.State)
      requires 1 <= |b| <= 3 && s.pc > 0 && 0x50 <= b[0] < 0x80
      ensures b[0] == 0x61 ==> Effect(b, s) == DoReturn(s)
      ensures b[0] == 0x62 ==> Effect(b, s) == DoReturnVoid(s)
      ensures b[0] == 0x70 ==> Effect(b, s) == DoUnwrap(s)
      ensures b[0] !in {0x50, 0x51, 0x52, 0x53, 0x60, 0x61, 0x62, 0x63, 0x70, 0x72, 0x73} ==>
                Effect(b, s) == Stopped(if b[0] == 0x54 then Ok else BadOpcode, s)
    {
      hide DoUnwrap, DoReturn, DoReturnVoid, DecodeStack, DecodeVariable, DecodeOperator, DecodeObject;
    }

    /** OP_STR_CONCAT and OP_STR_INTERP_I. */
    method Text(op: Byte, ghost b: seq<Byte>) returns (r: Outcome)
      requires Valid() && Opened(b) && op == b[0] && 0x80 <= op < 0x85
      modifies this`sp, this`heap, stack
      ensures Valid() && Shows(r, Effect(b, old(State())))
    {
      hide DoConcat, DoInterp, DecodeStack, DecodeVariable, DecodeOperator, DecodeControl;
      match op {
        case 0x80 => r := Concat();
        case 0x82 => r := Interpolate();
        case _ => return Halt(BadOpcode);
      }
    }

    /** The array instructions, from 0x85 on. */
    method Array(op: Byte, ghost b: seq<Byte>) returns (r: Outcome)
      requires Valid() && Opened(b) && op == b[0] && 0x85 <= op
      modifies this`pc, this`sp, this`heap, stack
      ensures Valid() && Shows(r, Effect(b, old(State())))
    {
      hide DoNewArray, DoArrayGet, DoArraySet, DoArrayLen, DoArrayAppend, DecodeStack, DecodeVariable, DecodeOperator, DecodeControl;
      if op == 0x85 {
        if pc + 1 > |image.code| {
          return Halt(BadOpcode);
        }
        var n := Operand(b);
        r := NewArray(n);
      } else {
        r := Element(op, b);
      }
    }

    /** The array instructions without operand. */
    method Element(op: Byte, ghost b: seq<Byte>) returns (r: Outcome)
      requires Valid() && Opened(b) && op == b[0] && 0x85 < op
      modifies this`sp, this`heap, stack
      ensures Valid() && Shows(r, Effect(b, old(State())))
    {
      hide DoArrayGet, DoArraySet, DoArrayLen, DoArrayAppend, Min, DecodeStack, DecodeVariable, DecodeOperator, DecodeControl;
      match op {
        case 0x86 => r := ArrayGet();
        case 0x87 => r := ArraySet();
        case _ => r := WholeArray(op, b);
      }
    }

    /** Count and append. */
    method WholeArray(op: Byte, ghost b: seq<Byte>) returns (r: Outcome)
      requires Valid() && Opened(b) && op == b[0] && 0x87 < op
      modifies this`sp, this`heap, stack
      ensures Valid() && Shows(r, Effect(b, old(State())))
    {
      hide DoArrayLen, DoArrayAppend, Min, DecodeStack, DecodeVariable, DecodeOperator, DecodeControl;
      match op {
        case 0x88 => r := Length();
        case 0x89 => r := ArrayAppend();
        case _ => return Halt(BadOpcode);
      }
    }

    /** One turn of the dispatch loop, whatever part of the code the window shows. */
    method Turn() returns (r: Outcome)
      requires Valid() && pc < |image.code|
      modifies this, window, stack, frames, globals
      ensures Valid() && Shows(r, Step(image, old(State())))
    {
      hide Decode, Exec;
      Ensure();
      ghost var b := M.Fetch(image.code, pc);
      var op := Fetch();
      if op < 0x10 {
        r := Constant(op, b);
      } else if op < 0x20 {
        r := Shuffle(op, b);
      } else if op < 0x30 {
        r := Variable(op, b);
      } else if op < 0x40 {
        r := Calculation(op, b);
      } else if op < 0x50 {
        r := Comparison(op, b);
      } else if op < 0x80 {
        r := Control(op, b);
      } else if op < 0x85 {
        r := Text(op, b);
      } else {
        r := Array(op, b);
      }
    }

    /** At most `turns` turns of vm_run's loop; None when there are more to come. The result is that of the
      * machine that reads the whole code at once: the window does not show. */
    method Continue(turns: nat) returns (err: Option<Err>)
      requires Valid()
      modifies this, window, stack, frames, globals
      ensures Valid()
      ensures match err
              case None => Run(image, old(State()), turns) == Running(State())
              case Some(e) => var r := Run(image, old(State()), turns);
                              r.Stopped? && r.err == e && globals[..] == r.s.globals && heap == r.s.heap && out == r.s.out
    {
      hide Step;
      ghost var start := State();
      var left: nat := turns;
      while left > 0
        invariant Valid() && left <= turns
        invariant Run(image, start, turns) == Run(image, State(), left)
      {
        if pc >= |image.code| {
          OffTheEnd(left);
          return Some(BadOpcode);
        }
        var r := Turn();
        if r.Halt? {
          return Some(r.err);
        }
        left := left - 1;
      }
      return None;
    }

    lemma {:induction false} OffTheEnd(n: nat)
      requires Valid() && pc >= |image.code| && n > 0
      ensures Run(image, State(), n) == Stopped(BadOpcode, State())
    {
    }

    /** vm_run: from the entry point with an empty stack. Globals, heap and output carry over. */
    method Execute(start: nat, turns: nat) returns (err: Option<Err>)
      requires Valid()
      modifies this, window, stack, frames, globals
      ensures Valid()
      ensures var s := M.State(start, [], 0, [], old(globals[..]), old(heap), old(out));
              match err
              case None => Run(image, s, turns) == Running(State())
              case Some(e) => var r := Run(image, s, turns);
                              r.Stopped? && r.err == e && globals[..] == r.s.globals && heap == r.s.heap && out == r.s.out
    {
      winBase, winLen := NOWHERE, 0;
      pc, sp, fp, frameCount := start, 0, 0, 0;
      assert stack[..sp] == [] && frames[..frameCount] == [];
      err := Continue(turns);
    }
  }
}
