/** Tagged values and the reference-counted bump heap (types.h, value.c, heap.c, array.c). */
module Values {
  import opened Bytes
  import Decimal

  datatype Option<+T> = None | Some(value: T)

  /** Values without a heap payload: T_NIL, T_OPT_NIL, T_BOOL and T_INT. */
  datatype Immediate = Nil | OptNil | Bool(b: bool) | Int(n: I16)

  /** A tagged value. `Str` and `Arr` carry a pool index or a heap offset. */
  datatype Value = Imm(v: Immediate) | Str(at: U16) | Arr(at: U16)

  predicate IsNil(v: Value) {
    v == Imm(Nil) || v == Imm(OptNil)
  }

  /** What OP_EQ decides: the two nils are equal, other values agree in tag and payload. */
  predicate SameValue(a: Value, b: Value) {
    (IsNil(a) && IsNil(b)) || a == b
  }

  const POOL_SLOTS := 16
  const HEADER_SIZE := 4
  const HEAP_SIZE := 2048
  const ARRAY_INIT_CAPACITY := 4

  /** A heap block: its reference count and its payload. Arrays hold immediates. */
  datatype Block =
    | StrBlock(count: U16, bytes: seq<Byte>)
    | ArrBlock(count: U16, cap: nat, slots: seq<Immediate>)

  /** The heap from its base up to the bump pointer, lowest block first. */
  type Heap = seq<Block>

  function BlockSize(b: Block): (n: nat)
    ensures n >= HEADER_SIZE
  {
    HEADER_SIZE + match b
                  case StrBlock(_, bytes) => |bytes|
                  case ArrBlock(_, cap, _) => 4 + 3 * cap
  }

  /** Offset of the header of block `i`; `AddrOf(h, |h|)` is the bump pointer. */
  function AddrOf(h: Heap, i: nat): (a: nat)
    requires i <= |h|
    ensures a >= POOL_SLOTS + HEADER_SIZE * i
  {
    if i == 0 then POOL_SLOTS else AddrOf(h, i - 1) + BlockSize(h[i - 1])
  }

  function HeapPtr(h: Heap): nat {
    AddrOf(h, |h|)
  }

  /** The block whose header is at `off`, among blocks `0..n`. */
  function BlockBelow(h: Heap, n: nat, off: nat): (r: Option<nat>)
    requires n <= |h|
    ensures r.Some? ==> r.value < n && AddrOf(h, r.value) == off
    ensures r.None? ==> forall i :: 0 <= i < n ==> AddrOf(h, i) != off
  {
    if n == 0 then None
    else if AddrOf(h, n - 1) == off then Some(n - 1)
    else BlockBelow(h, n - 1, off)
  }

  function BlockAt(h: Heap, off: nat): (r: Option<nat>)
    ensures r.Some? ==> r.value < |h| && AddrOf(h, r.value) == off
    ensures r.None? ==> forall i :: 0 <= i < |h| ==> AddrOf(h, i) != off
  {
    BlockBelow(h, |h|, off)
  }

  /** heap_alloc: a block with count 1 at the bump pointer, or None when it does not fit. */
  function Alloc(h: Heap, b: Block): Option<Heap> {
    if HeapPtr(h) + BlockSize(b) > HEAP_SIZE then None else Some(h + [b.(count := 1)])
  }

  /** heap_retain: one more reference, saturating. */
  function RetainAt(h: Heap, off: nat): Heap {
    match BlockAt(h, off)
    case None => h
    case Some(i) => if h[i].count == 0xFFFF then h else h[i := h[i].(count := h[i].count + 1)]
  }

  /** heap_release: one reference less; a topmost block whose count reaches zero is reclaimed. */
  function ReleaseAt(h: Heap, off: nat): Heap {
    match BlockAt(h, off)
    case None => h
    case Some(i) =>
      if h[i].count == 0 then h
      else if h[i].count == 1 && i == |h| - 1 then h[..i]
      else h[i := h[i].(count := h[i].count - 1)]
  }

  predicate OnHeap(v: Value) {
    (v.Str? && v.at >= POOL_SLOTS) || v.Arr?
  }

  /** value_retain. */
  function Retain(h: Heap, v: Value): Heap {
    if OnHeap(v) then RetainAt(h, v.at) else h
  }

  /** value_release; the elements of a dying array are immediates, so nothing more is released. */
  function Release(h: Heap, v: Value): Heap {
    if OnHeap(v) then ReleaseAt(h, v.at) else h
  }

  /** Release the values of `vs` in order. */
  function ReleaseAll(h: Heap, vs: seq<Value>): Heap
    decreases |vs|
  {
    if vs == [] then h else ReleaseAll(Release(h, vs[0]), vs[1..])
  }

  lemma {:induction false} ReleaseAllImmediates(h: Heap, vs: seq<Value>)
    requires forall i :: 0 <= i < |vs| ==> vs[i].Imm?
    ensures ReleaseAll(h, vs) == h
    decreases |vs|
  {
    if vs != [] {
      ReleaseAllImmediates(h, vs[1..]);
    }
  }

  /** The one string constant that lives in the static pool. */
  function PoolBytes(slot: nat): seq<Byte> {
    if slot == 0 then Ascii("hello, world") else []
  }

  function Ascii(s: string): (r: seq<Byte>)
    ensures |r| == |s|
  {
    seq(|s|, i requires 0 <= i < |s| => s[i] as int % 0x100)
  }

  /** str_bytes: the bytes of a string value. */
  function StrBytes(h: Heap, at: U16): seq<Byte> {
    if at < POOL_SLOTS then PoolBytes(at)
    else match BlockAt(h, at)
         case Some(i) => (match h[i] case StrBlock(_, bytes) => bytes case ArrBlock(_, _, _) => [])
         case None => []
  }

  function ArrayAt(h: Heap, at: U16): (r: Option<nat>)
    ensures r.Some? ==> r.value < |h| && h[r.value].ArrBlock? && AddrOf(h, r.value) == at
  {
    match BlockAt(h, at)
    case Some(i) => if h[i].ArrBlock? then Some(i) else None
    case None => None
  }

  function ImmediateText(v: Immediate): seq<Byte> {
    match v
    case Nil => Ascii("nil")
    case OptNil => Ascii("nil")
    case Bool(b) => if b then Ascii("true") else Ascii("false")
    case Int(n) => Decimal.Format(n)
  }

  function ElementsText(vs: seq<Immediate>): seq<Byte>
    decreases |vs|
  {
    if vs == [] then []
    else if |vs| == 1 then ImmediateText(vs[0])
    else ImmediateText(vs[0]) + Ascii(", ") + ElementsText(vs[1..])
  }

  /** builtins_print_value. */
  function ValueText(h: Heap, v: Value): seq<Byte> {
    match v
    case Imm(i) => ImmediateText(i)
    case Str(at) => StrBytes(h, at)
    case Arr(at) =>
      Ascii("[")
      + (match ArrayAt(h, at) case Some(i) => ElementsText(h[i].slots) case None => [])
      + Ascii("]")
  }

  /** The texts of `vs` one after the other, as `print` writes them. */
  function LineText(h: Heap, vs: seq<Value>): seq<Byte>
    decreases |vs|
  {
    if vs == [] then [] else ValueText(h, vs[0]) + LineText(h, vs[1..])
  }
}
