/** Laws of the instructions on strings and arrays, and of the built-in functions: what one instruction leaves, as
  * another one sees it. */
module ObjectLaws {
  import opened Bytes
  import opened Values
  import opened MachineLaws
  import M = Machine
  import RefCounts

  // ----- finding blocks -----

  /** A search depends on the sizes of the blocks searched only. */
  lemma {:induction false} FoundAlike(h: Heap, g: Heap, n: nat, off: nat)
    requires n <= |h| && n <= |g| && forall i :: 0 <= i < n ==> BlockSize(h[i]) == BlockSize(g[i])
    ensures BlockBelow(h, n, off) == BlockBelow(g, n, off)
    decreases n
  {
    if n > 0 {
      FoundAlike(h, g, n - 1, off);
      RefCounts.AddrKept(h, g, n - 1);
    }
  }

  /** Releasing a reference to `at` changes no block that stays but for the count of the one at `at`. */
  lemma {:induction false} ReleaseKeeps(h: Heap, at: nat)
    ensures var g := ReleaseAt(h, at);
            && |g| <= |h|
            && (forall i :: 0 <= i < |g| ==> BlockSize(g[i]) == BlockSize(h[i]) && g[i] == h[i].(count := g[i].count))
            && (forall i :: |g| <= i < |h| ==> AddrOf(h, i) == at)
  {
  }

  // ----- arrays, as they are read -----

  /** What OP_ARRAY_GET leaves for the index `j` of the array at `at`, or nothing when it stops. */
  function Element(h: Heap, at: U16, j: I16): Option<Immediate> {
    match M.Step(M.Image([0x86], []), M.State(0, [Arr(at), Imm(Int(j))], 0, [], [], h, []))
    case Running(t) => if |t.stack| == 1 && t.stack[0].Imm? then Some(t.stack[0].v) else None
    case Stopped(_, _) => None
  }

  function Slot(h: Heap, at: U16, j: I16): Option<Immediate> {
    match ArrayAt(h, at)
    case Some(k) => if 0 <= j < |h[k].slots| then Some(h[k].slots[j]) else None
    case None => None
  }

  lemma {:induction false} ObjectStep(img: M.Image, s: M.State, op: Byte) returns (i: M.Instr)
    requires At(img, s, op) && op in {0x80, 0x82, 0x86, 0x87, 0x88, 0x89}
    ensures i == (match op
                  case 0x80 => M.IConcat
                  case 0x82 => M.IInterp
                  case 0x86 => M.IArrayGet
                  case 0x87 => M.IArraySet
                  case 0x88 => M.IArrayLen
                  case _ => M.IArrayAppend)
    ensures M.Step(img, s) == M.Exec(img, i, s.(pc := s.pc + 1))
  {
    hide M.Exec;
    i := M.DecodeObject([op]).instr;
    assert M.Fetch(img.code, s.pc)[0] == op;
  }

  lemma {:induction false} ElementIs(h: Heap, at: U16, j: I16)
    ensures Element(h, at, j) == Slot(h, at, j)
  {
    hide M.Step, ArrayAt, ReleaseAt;
    var i := ObjectStep(M.Image([0x86], []), M.State(0, [Arr(at), Imm(Int(j))], 0, [], [], h, []), 0x86);
  }

  /** OP_ARRAY_GET leaves the element, and stops when there is none. */
  lemma {:induction false} GetLeaves(img: M.Image, s: M.State, at: U16, j: I16)
    requires On(img, s, 0x86, Arr(at), Imm(Int(j)))
    ensures match Element(s.heap, at, j)
            case Some(v) => M.Step(img, s).Running? && M.Step(img, s).s.stack == s.stack[..|s.stack| - 2] + [Imm(v)]
            case None => Stops(img, s, M.RuntimeErr)
  {
    hide M.Step, ArrayAt, ReleaseAt, Element;
    var i := ObjectStep(img, s, 0x86);
    ElementIs(s.heap, at, j);
  }

  lemma {:induction false} SlotKept(h: Heap, g: Heap, at: U16, j: I16)
    requires |g| <= |h| && forall i :: 0 <= i < |g| ==> BlockSize(g[i]) == BlockSize(h[i])
    requires forall i :: 0 <= i < |g| && AddrOf(h, i) == at ==> g[i] == h[i].(count := g[i].count)
    requires forall i :: |g| <= i < |h| ==> AddrOf(h, i) != at
    ensures Slot(g, at, j) == Slot(h, at, j)
  {
    hide AddrOf, BlockSize;
    SameBlock(h, g, at);
  }

  lemma {:induction false} SameBlock(h: Heap, g: Heap, at: nat)
    requires |g| <= |h| && forall i :: 0 <= i < |g| ==> BlockSize(g[i]) == BlockSize(h[i])
    requires forall i :: |g| <= i < |h| ==> AddrOf(h, i) != at
    ensures BlockAt(g, at) == BlockAt(h, at)
  {
    hide AddrOf, BlockSize;
    FoundAlike(h, g, |g|, at);
    Shorter(h, |g|, at);
  }

  lemma {:induction false} Shorter(h: Heap, n: nat, at: nat)
    requires n <= |h| && forall i :: n <= i < |h| ==> AddrOf(h, i) != at
    ensures BlockBelow(h, |h|, at) == BlockBelow(h, n, at)
    decreases |h| - n
  {
    hide AddrOf;
    if n < |h| {
      Shorter(h, n + 1, at);
    }
  }

  /** After OP_ARRAY_SET the element set is the value stored, and no other element of any array has changed. It stops
    * unless there is such an element. */
  lemma {:induction false} WriteThenRead(img: M.Image, s: M.State, at: U16, i: I16, v: Immediate)
    requires At(img, s, 0x87) && |s.stack| >= 3 && s.stack[|s.stack| - 3..] == [Arr(at), Imm(Int(i)), Imm(v)]
    ensures Stops(img, s, M.RuntimeErr) <==> Element(s.heap, at, i).None?
    ensures var r := M.Step(img, s);
            r.Running? <==> Element(s.heap, at, i).Some?
    ensures var r := M.Step(img, s);
            r.Running? ==>
              && r.s.stack == s.stack[..|s.stack| - 3]
              && (ArrayAt(r.s.heap, at).Some? ==>
                    forall j: I16 :: Element(r.s.heap, at, j) == if j == i then Some(v) else Element(s.heap, at, j))
              && (forall at': U16, j: I16 :: at' != at ==> Element(r.s.heap, at', j) == Element(s.heap, at', j))
  {
    hide M.Step, ArrayAt, ReleaseAt, Element, AddrOf, BlockSize, BlockAt;
    var instr := ObjectStep(img, s, 0x87);
    assert s.stack[|s.stack| - 3] == Arr(at) && s.stack[|s.stack| - 2] == Imm(Int(i)) && s.stack[|s.stack| - 1] == Imm(v);
    ElementIs(s.heap, at, i);
    if Slot(s.heap, at, i).Some? {
      var k := ArrayAt(s.heap, at).value;
      var b := s.heap[k].(slots := s.heap[k].slots[i as int := v]);
      var h := s.heap[k := b];
      var g := ReleaseAt(h, at);
      forall at': U16, j: I16
        ensures at' != at ==> Element(g, at', j) == Element(s.heap, at', j)
        ensures ArrayAt(g, at).Some? ==> Element(g, at, j) == if j == i then Some(v) else Element(s.heap, at, j)
      {
        ElementIs(s.heap, at', j);
        ElementIs(g, at', j);
        ElementIs(s.heap, at, j);
        ElementIs(g, at, j);
        SlotsAfterSet(s.heap, at, i, v, at', j);
      }
    }
  }

  lemma {:induction false} SlotsAfterSet(h: Heap, at: U16, i: I16, v: Immediate, at': U16, j: I16)
    requires Slot(h, at, i).Some?
    ensures var k := ArrayAt(h, at).value;
            var g := ReleaseAt(h[k := h[k].(slots := h[k].slots[i as int := v])], at);
            && (at' != at ==> Slot(g, at', j) == Slot(h, at', j))
            && (ArrayAt(g, at).Some? ==> Slot(g, at, j) == if j == i then Some(v) else Slot(h, at, j))
  {
    hide AddrOf, BlockAt, ReleaseAt;
    var k := ArrayAt(h, at).value;
    var m := h[k := h[k].(slots := h[k].slots[i as int := v])];
    var g := ReleaseAt(m, at);
    ReleaseKeeps(m, at);
    AddrsAlike(h, m);
    if at' != at {
      SlotKept(h, m, at', j);
      SlotKept(m, g, at', j);
    }
    SameBlock(h, m, at);
    if ArrayAt(g, at).Some? {
      FoundAlike(m, g, |g|, at);
      RefCounts.AddrKept(m, g, ArrayAt(g, at).value);
      RefCounts.AddrUnique(m, ArrayAt(g, at).value, k);
    }
  }

  lemma {:induction false} AddrsAlike(h: Heap, g: Heap)
    requires |h| == |g| && forall i :: 0 <= i < |h| ==> BlockSize(h[i]) == BlockSize(g[i])
    ensures forall i :: 0 <= i <= |h| ==> AddrOf(h, i) == AddrOf(g, i)
  {
    forall i | 0 <= i <= |h|
      ensures AddrOf(h, i) == AddrOf(g, i)
    {
      RefCounts.AddrKept(h, g, i);
    }
  }

  /** The array that OP_ARRAY_APPEND leaves, in place or elsewhere, has the elements of the old one and then the new
    * one; no other array has changed. */
  lemma {:induction false} AppendThenRead(img: M.Image, s: M.State, at: U16, v: Immediate) returns (at': U16, n: nat)
    requires On(img, s, 0x89, Arr(at), Imm(v)) && M.Step(img, s).Running?
    ensures var t := M.Step(img, s).s;
            && t.stack == s.stack[..|s.stack| - 2] + [Arr(at')]
            && (forall j: I16 :: Element(s.heap, at, j).Some? <==> 0 <= j < n)
            && (forall j: I16 :: Element(t.heap, at', j) == if j == n then Some(v) else Element(s.heap, at, j))
            && (forall x: U16, j: I16 :: x != at && x != at' ==> Element(t.heap, x, j) == Element(s.heap, x, j))
  {
    hide M.Step, ArrayAt, ReleaseAt, Element, AddrOf, BlockSize, BlockAt;
    var instr := ObjectStep(img, s, 0x89);
    var t := M.Step(img, s).s;
    var k := ArrayAt(s.heap, at).value;
    at', n := t.stack[|t.stack| - 1].at, |s.heap[k].slots|;
    forall x: U16, j: I16
      ensures Element(s.heap, at, j).Some? <==> 0 <= j < n
      ensures Element(t.heap, at', j) == if j == n then Some(v) else Element(s.heap, at, j)
      ensures x != at && x != at' ==> Element(t.heap, x, j) == Element(s.heap, x, j)
    {
      ElementIs(s.heap, at, j);
      ElementIs(t.heap, at', j);
      ElementIs(s.heap, x, j);
      ElementIs(t.heap, x, j);
      if n < s.heap[k].cap {
        SlotsAfterPut(s.heap, k, at, v, x, j);
      } else {
        SlotsAfterMove(s.heap, k, at, t.heap, v, x, j);
      }
    }
  }

  lemma {:induction false} SlotsAfterPut(h: Heap, k: nat, at: U16, v: Immediate, x: U16, j: I16)
    requires ArrayAt(h, at) == Some(k)
    ensures var g := h[k := h[k].(slots := h[k].slots + [v])];
            && Slot(g, at, j) == (if j == |h[k].slots| then Some(v) else Slot(h, at, j))
            && (x != at ==> Slot(g, x, j) == Slot(h, x, j))
  {
    hide AddrOf, BlockAt;
    var g := h[k := h[k].(slots := h[k].slots + [v])];
    AddrsAlike(h, g);
    SameBlock(h, g, at);
    if x != at {
      SlotKept(h, g, x, j);
    }
  }

  lemma {:induction false} SlotsAfterMove(h: Heap, k: nat, at: U16, g: Heap, v: Immediate, x: U16, j: I16)
    requires ArrayAt(h, at) == Some(k)
    requires exists cap: nat :: g == ReleaseAt(h + [ArrBlock(1, cap, h[k].slots + [v])], at) && HeapPtr(h) < 0x1_0000
    ensures Slot(g, HeapPtr(h), j) == (if j == |h[k].slots| then Some(v) else Slot(h, at, j))
    ensures x != at && x != HeapPtr(h) ==> Slot(g, x, j) == Slot(h, x, j)
  {
    hide AddrOf, BlockAt, ReleaseAt;
    var cap: nat :| g == ReleaseAt(h + [ArrBlock(1, cap, h[k].slots + [v])], at);
    var m := h + [ArrBlock(1, cap, h[k].slots + [v])];
    RefCounts.AddrKept(h, m, |h|);
    RefCounts.AddrKept(h, m, k);
    NotLast(m, k, at);
    AddrsAlike(m, g);
    RefCounts.BlockFound(g, |h|);
    if x != at && x != HeapPtr(h) {
      SlotKept(m, g, x, j);
      Grown(h, m, x);
    }
  }

  /** A block with others above it stays when a reference to it is released. */
  lemma {:induction false} NotLast(h: Heap, k: nat, at: U16)
    requires k + 1 < |h| && h[k].ArrBlock? && AddrOf(h, k) == at
    ensures var g := ReleaseAt(h, at);
            && |g| == |h|
            && (forall i :: 0 <= i < |h| && i != k ==> g[i] == h[i])
            && (forall i :: 0 <= i < |h| ==> BlockSize(g[i]) == BlockSize(h[i]))
            && g[k] == h[k].(count := g[k].count)
  {
    hide AddrOf;
    RefCounts.BlockFound(h, k);
  }

  lemma {:induction false} Grown(h: Heap, m: Heap, x: nat)
    requires |m| == |h| + 1 && m[..|h|] == h && x != HeapPtr(h)
    ensures BlockAt(m, x) == BlockAt(h, x)
  {
    forall i | 0 <= i < |h|
      ensures BlockSize(m[i]) == BlockSize(h[i])
    {
      assert m[i] == m[..|h|][i];
    }
    RefCounts.AddrKept(h, m, |h|);
    SameBlock(m, h, x);
  }

  lemma {:induction false} NewArrayStep(img: M.Image, s: M.State, n: Byte)
    requires At(img, s, 0x85) && s.pc + 2 <= |img.code| && img.code[s.pc + 1] == n
    ensures M.Step(img, s) == M.DoNewArray(s.(pc := s.pc + 2), n)
  {
    hide M.DoNewArray;
    var b := M.Fetch(img.code, s.pc);
    assert |b| >= 2 && b[0] == 0x85 && b[1] == n;
    assert M.DecodeObject(b) == M.Decoded(M.INewArray(n), 2);
  }

  /** OP_NEW_ARRAY leaves an array of the topmost values, in the order in which they were pushed. */
  lemma {:induction false} NewArrayReads(img: M.Image, s: M.State, vs: seq<Immediate>)
    requires At(img, s, 0x85) && s.pc + 2 <= |img.code| && img.code[s.pc + 1] == |vs| <= |s.stack|
    requires forall i :: 0 <= i < |vs| ==> s.stack[|s.stack| - |vs| + i] == Imm(vs[i])
    requires M.Step(img, s).Running?
    ensures var t := M.Step(img, s).s;
            && |t.stack| == |s.stack| - |vs| + 1 && t.stack[..|s.stack| - |vs|] == s.stack[..|s.stack| - |vs|]
            && t.stack[|s.stack| - |vs|].Arr?
            && forall j: I16 :: Element(t.heap, t.stack[|s.stack| - |vs|].at, j) == if 0 <= j < |vs| then Some(vs[j]) else None
  {
    hide M.Step, Element, AddrOf, BlockSize, BlockAt, ArrayAt;
    NewArrayStep(img, s, |vs|);
    var t := M.Step(img, s).s;
    var at := t.stack[|s.stack| - |vs|].at;
    AllImmediate(s.stack[|s.stack| - |vs|..], vs);
    var cap: nat := if |vs| == 0 then ARRAY_INIT_CAPACITY else |vs|;
    LastBlock(s.heap, ArrBlock(1, cap, vs));
    forall j: I16
      ensures Element(t.heap, at, j) == if 0 <= j < |vs| then Some(vs[j]) else None
    {
      ElementIs(t.heap, at, j);
    }
  }

  lemma {:induction false} AllImmediate(args: seq<Value>, vs: seq<Immediate>)
    requires |args| == |vs| && forall i :: 0 <= i < |vs| ==> args[i] == Imm(vs[i])
    ensures M.Immediates(args) == Some(vs)
  {
    var r := M.Immediates(args);
    assert r.Some? && forall i :: 0 <= i < |vs| ==> r.value[i] == vs[i];
    assert r.value == vs;
  }

  lemma {:induction false} LastBlock(h: Heap, b: Block)
    requires b.ArrBlock? && HeapPtr(h) < 0x1_0000
    ensures ArrayAt(h + [b], HeapPtr(h)) == Some(|h|)
  {
    hide AddrOf, BlockSize, BlockAt;
    var g := h + [b];
    RefCounts.AddrKept(h, g, |h|);
    RefCounts.BlockFound(g, |h|);
  }

  /** OP_ARRAY_LEN leaves the number of elements of an array, or of bytes of a string, modulo 65536. */
  lemma {:induction false} LengthLeaves(img: M.Image, s: M.State) returns (n: nat, r: I16)
    requires At(img, s, 0x88) && |s.stack| > 0 && !s.stack[|s.stack| - 1].Imm?
    ensures var v := s.stack[|s.stack| - 1];
            && M.Step(img, s).Running? && M.Step(img, s).s.stack == s.stack[..|s.stack| - 1] + [Imm(Int(r))] && Congruent(r, n)
            && (v.Str? ==> n == |StrBytes(s.heap, v.at)|)
            && (v.Arr? ==> forall j: I16 :: Element(s.heap, v.at, j).Some? <==> 0 <= j < n)
  {
    hide M.Step, Element, AddrOf, BlockSize, BlockAt, ArrayAt, ReleaseAt, StrBytes;
    var i := ObjectStep(img, s, 0x88);
    var v := s.stack[|s.stack| - 1];
    n := if v.Str? then |StrBytes(s.heap, v.at)| else match ArrayAt(s.heap, v.at) case Some(k) => |s.heap[k].slots| case None => 0;
    r := Wrap16(n);
    if v.Arr? {
      forall j: I16
        ensures Element(s.heap, v.at, j).Some? <==> 0 <= j < n
      {
        ElementIs(s.heap, v.at, j);
      }
    }
  }

  // ----- strings -----

  lemma {:induction false} ConcatStep(img: M.Image, s: M.State, op: Byte, a: U16, b: U16)
    requires On(img, s, op, Str(a), Str(b)) && (op == 0x80 || op == 0x30)
    ensures M.Step(img, s) == M.DoConcat(s.(pc := s.pc + 1))
  {
    hide M.Step, M.DoConcat;
    if op == 0x80 {
      var i := ObjectStep(img, s, op);
    } else {
      var i := OperatorStep(img, s);
    }
  }

  /** OP_STR_CONCAT, and OP_ADD on strings, leave a new string: the bytes of the left one, then those of the right one.
    * More than 256 bytes are refused. */
  lemma {:induction false} LeftThenRight(img: M.Image, s: M.State, op: Byte, a: U16, b: U16)
    requires On(img, s, op, Str(a), Str(b)) && (op == 0x80 || op == 0x30)
    ensures var r, text := M.Step(img, s), StrBytes(s.heap, a) + StrBytes(s.heap, b);
            && (r.Running? ==>
                  && |r.s.stack| == |s.stack| - 1 && r.s.stack[..|s.stack| - 2] == s.stack[..|s.stack| - 2]
                  && r.s.stack[|s.stack| - 2].Str? && StrBytes(r.s.heap, r.s.stack[|s.stack| - 2].at) == text)
            && (|text| > 256 ==> Stops(img, s, M.OutOfMemory))
  {
    hide M.Step, StrBytes, M.PushString, ReleaseAt;
    ConcatStep(img, s, op, a, b);
    var text := StrBytes(s.heap, a) + StrBytes(s.heap, b);
    if |text| <= 256 {
      var below := s.(pc := s.pc + 1, heap := Release(Release(s.heap, Str(b)), Str(a)), stack := s.stack[..|s.stack| - 2]);
      NewString(below, text);
    }
  }

  lemma {:induction false} NewString(s: M.State, text: seq<Byte>)
    ensures var r := M.PushString(s, text);
            r.Running? ==>
              && |r.s.stack| == |s.stack| + 1 && r.s.stack[..|s.stack|] == s.stack
              && r.s.stack[|s.stack|].Str? && StrBytes(r.s.heap, r.s.stack[|s.stack|].at) == text
  {
    hide AddrOf, BlockAt;
    var r := M.PushString(s, text);
    if r.Running? {
      var h := s.heap + [StrBlock(1, text)];
      RefCounts.AddrKept(s.heap, h, |s.heap|);
      RefCounts.BlockFound(h, |s.heap|);
      assert HeapPtr(s.heap) >= POOL_SLOTS;
    }
  }

  // ----- built-in functions -----

  predicate AtBuiltin(img: M.Image, s: M.State, id: Byte, argc: Byte) {
    At(img, s, 0x63) && s.pc + 3 <= |img.code| && img.code[s.pc + 1] == id && img.code[s.pc + 2] == argc
  }

  lemma {:induction false} BuiltinStep(img: M.Image, s: M.State, id: Byte, argc: Byte)
    requires AtBuiltin(img, s, id, argc)
    ensures M.Step(img, s) == M.DoBuiltin(s.(pc := s.pc + 3), id, argc)
  {
    hide M.DoBuiltin;
    var b := M.Fetch(img.code, s.pc);
    assert b == [0x63, id, argc];
    assert M.DecodeControl(b) == M.Decoded(M.IBuiltin(id, argc), 3);
  }

  /** `min` and `max` leave one of their arguments, and no argument is below the one or above the other. */
  lemma {:induction false} LeastAndGreatest(img: M.Image, s: M.State, id: Byte, a: I16, b: I16) returns (r: I16)
    requires AtBuiltin(img, s, id, 2) && (id == 0x03 || id == 0x04)
    requires |s.stack| >= 2 && s.stack[|s.stack| - 2] == Imm(Int(a)) && s.stack[|s.stack| - 1] == Imm(Int(b))
    ensures M.Step(img, s) == M.Running(s.(pc := s.pc + 3, stack := s.stack[..|s.stack| - 2] + [Imm(Int(r))]))
    ensures r == a || r == b
    ensures if id == 0x03 then r <= a && r <= b else r >= a && r >= b
  {
    hide M.Step;
    BuiltinStep(img, s, id, 2);
    r := if (a < b) == (id == 0x03) then a else b;
  }
}
