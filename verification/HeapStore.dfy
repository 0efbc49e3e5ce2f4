/** The heap as heap.c and array.c keep it: one byte array with a bump pointer, a four-byte header before each
  * block, arrays as counted slots of three bytes. It refines the block heap of the machine. */
module HeapStore {
  import opened Bytes
  import opened Values
  import RefCounts

  // ----- layout -----

  const TAG_NIL: Byte := 0x00
  const TAG_BOOL: Byte := 0x01
  const TAG_INT: Byte := 0x02
  const TAG_OPT_NIL: Byte := 0x20

  /** The three bytes of an array slot. */
  function SlotBytes(v: Immediate): (r: seq<Byte>)
    ensures |r| == 3
  {
    match v
    case Nil => [TAG_NIL, 0, 0]
    case OptNil => [TAG_OPT_NIL, 0, 0]
    case Bool(b) => [TAG_BOOL, if b then 1 else 0, 0]
    case Int(n) => [TAG_INT] + Le16(n)
  }

  /** The value that three bytes stand for. */
  function SlotValue(tag: Byte, lo: Byte, hi: Byte): Immediate {
    if tag == TAG_INT then Int(Wrap16(Word(lo, hi)))
    else if tag == TAG_BOOL then Bool(lo != 0)
    else if tag == TAG_OPT_NIL then OptNil
    else Nil
  }

  lemma {:induction false} SlotRoundTrip(v: Immediate)
    ensures var b := SlotBytes(v); SlotValue(b[0], b[1], b[2]) == v
  {
    if v.Int? {
      hide Word, Le16, Wrap16;
      WordOfLe16(v.n);
      Signed(v.n);
    }
  }

  lemma {:induction false} Signed(n: I16)
    ensures Wrap16(n % 0x1_0000) == n
  {
    assert n % 0x1_0000 == if n < 0 then n + 0x1_0000 else n;
  }

  /** The bytes `s` hold the block `b` at `at`. Behind the elements of an array anything may stand. */
  ghost predicate Laid(s: seq<Byte>, at: nat, b: Block) {
    && at + BlockSize(b) <= |s| && BlockSize(b) <= 0xFFFF
    && s[at..at + HEADER_SIZE] == Le16(b.count) + Le16(BlockSize(b) - HEADER_SIZE)
    && match b
       case StrBlock(_, bytes) => s[at + HEADER_SIZE..at + BlockSize(b)] == bytes
       case ArrBlock(_, cap, slots) =>
         && |slots| <= cap && s[at + 4..at + 8] == Le16(|slots|) + Le16(cap)
         && forall i :: 0 <= i < |slots| ==> s[at + 8 + 3 * i..at + 11 + 3 * i] == SlotBytes(slots[i])
  }

  ghost predicate AllLaid(s: seq<Byte>, h: Heap) {
    forall i :: 0 <= i < |h| ==> Laid(s, AddrOf(h, i), h[i])
  }

  lemma {:induction false} SliceOfSlice(s: seq<Byte>, from: nat, to: nat, i: nat, j: nat)
    requires from <= to <= |s| && i <= j <= to - from
    ensures s[from..to][i..j] == s[from + i..from + j]
  {
    assert |s[from..to][i..j]| == |s[from + i..from + j]|;
    assert forall k :: 0 <= k < j - i ==> s[from..to][i..j][k] == s[from + i..from + j][k];
  }

  lemma {:induction false} SamePart(s: seq<Byte>, t: seq<Byte>, from: nat, to: nat, i: nat, j: nat)
    requires from <= i <= j <= to <= |s| && to <= |t| && s[from..to] == t[from..to]
    ensures s[i..j] == t[i..j]
  {
    SliceOfSlice(s, from, to, i - from, j - from);
    SliceOfSlice(t, from, to, i - from, j - from);
  }

  lemma {:induction false} LaidElsewhere(s: seq<Byte>, t: seq<Byte>, at: nat, b: Block)
    requires Laid(s, at, b) && at + BlockSize(b) <= |t|
    requires s[at..at + BlockSize(b)] == t[at..at + BlockSize(b)]
    ensures Laid(t, at, b)
  {
    var n := BlockSize(b);
    SamePart(s, t, at, at + n, at, at + HEADER_SIZE);
    match b {
      case StrBlock(_, bytes) => SamePart(s, t, at, at + n, at + HEADER_SIZE, at + n);
      case ArrBlock(_, cap, slots) =>
        SamePart(s, t, at, at + n, at + 4, at + 8);
        forall i | 0 <= i < |slots|
          ensures t[at + 8 + 3 * i..at + 11 + 3 * i] == SlotBytes(slots[i])
        {
          SamePart(s, t, at, at + n, at + 8 + 3 * i, at + 11 + 3 * i);
        }
    }
  }

  /** Changing one block in place leaves the others as they are. */
  lemma {:induction false} Rewritten(s: seq<Byte>, t: seq<Byte>, h: Heap, i: nat, b: Block)
    requires AllLaid(s, h) && i < |h| && BlockSize(b) == BlockSize(h[i]) && |t| == |s|
    requires Laid(t, AddrOf(h, i), b)
    requires s[..AddrOf(h, i)] == t[..AddrOf(h, i)]
    requires AddrOf(h, i) + BlockSize(b) <= |s| && s[AddrOf(h, i) + BlockSize(b)..] == t[AddrOf(h, i) + BlockSize(b)..]
    ensures AllLaid(t, h[i := b]) && HeapPtr(h[i := b]) == HeapPtr(h)
  {
    hide Laid, AddrOf, BlockSize;
    var g := h[i := b];
    RefCounts.AddrKept(h, g, |h|);
    forall j | 0 <= j < |g|
      ensures Laid(t, AddrOf(g, j), g[j])
    {
      RefCounts.AddrKept(h, g, j);
      if j < i {
        RefCounts.AddrIncreases(h, j, i);
        LaidBefore(s, t, AddrOf(h, j), h[j], AddrOf(h, i));
      } else if j > i {
        RefCounts.AddrIncreases(h, i, j);
        LaidBehind(s, t, AddrOf(h, j), h[j], AddrOf(h, i) + BlockSize(b));
      }
    }
  }

  lemma {:induction false} LaidBefore(s: seq<Byte>, t: seq<Byte>, at: nat, b: Block, end: nat)
    requires Laid(s, at, b) && at + BlockSize(b) <= end <= |s| && end <= |t| && s[..end] == t[..end]
    ensures Laid(t, at, b)
  {
    hide BlockSize;
    assert s[0..end] == t[0..end];
    SamePart(s, t, 0, end, at, at + BlockSize(b));
    LaidElsewhere(s, t, at, b);
  }

  lemma {:induction false} LaidBehind(s: seq<Byte>, t: seq<Byte>, at: nat, b: Block, from: nat)
    requires Laid(s, at, b) && from <= at && |t| == |s| && from <= |s| && s[from..] == t[from..]
    ensures Laid(t, at, b)
  {
    hide BlockSize;
    assert s[from..|s|] == t[from..|s|];
    SamePart(s, t, from, |s|, at, at + BlockSize(b));
    LaidElsewhere(s, t, at, b);
  }

  /** A block put behind the others. */
  lemma {:induction false} Extended(s: seq<Byte>, t: seq<Byte>, h: Heap, b: Block)
    requires AllLaid(s, h) && HeapPtr(h) <= |s| && HeapPtr(h) <= |t| && s[..HeapPtr(h)] == t[..HeapPtr(h)]
    requires Laid(t, HeapPtr(h), b)
    ensures AllLaid(t, h + [b]) && HeapPtr(h + [b]) == HeapPtr(h) + BlockSize(b)
  {
    hide Laid, AddrOf, BlockSize;
    var g := h + [b];
    RefCounts.AddrKept(h, g, |h|);
    NextAddr(g, |h|);
    forall j | 0 <= j < |g|
      ensures Laid(t, AddrOf(g, j), g[j])
    {
      if j < |h| {
        RefCounts.AddrKept(h, g, j);
        RefCounts.AddrIncreases(h, j, |h|);
        LaidBefore(s, t, AddrOf(h, j), h[j], HeapPtr(h));
      }
    }
  }

  lemma {:induction false} NextAddr(h: Heap, i: nat)
    requires i < |h|
    ensures AddrOf(h, i + 1) == AddrOf(h, i) + BlockSize(h[i])
  {
  }

  lemma {:induction false} Shortened(s: seq<Byte>, h: Heap, n: nat)
    requires AllLaid(s, h) && n <= |h|
    ensures AllLaid(s, h[..n]) && HeapPtr(h[..n]) == AddrOf(h, n) <= HeapPtr(h)
  {
    hide Laid, AddrOf, BlockSize;
    RefCounts.AddrKept(h, h[..n], n);
    if n < |h| {
      RefCounts.AddrIncreases(h, n, |h|);
    }
    forall j | 0 <= j < n
      ensures Laid(s, AddrOf(h[..n], j), h[..n][j])
    {
      RefCounts.AddrKept(h, h[..n], j);
    }
  }

  lemma {:induction false} WordsRead(s: seq<Byte>, at: nat, x: U16, y: U16)
    requires at + 4 <= |s| && s[at..at + 4] == Le16(x) + Le16(y)
    ensures Word(s[at], s[at + 1]) == x && Word(s[at + 2], s[at + 3]) == y
  {
    hide Word, Le16;
    var words := s[at..at + 4];
    assert s[at] == words[0] && s[at + 1] == words[1] && s[at + 2] == words[2] && s[at + 3] == words[3];
    WordOfLe16(x);
    WordOfLe16(y);
  }

  /** What the header of a block says. */
  lemma {:induction false} HeaderRead(s: seq<Byte>, h: Heap, i: nat)
    requires AllLaid(s, h) && i < |h|
    ensures var at := AddrOf(h, i);
            && at + BlockSize(h[i]) <= |s| && BlockSize(h[i]) <= 0xFFFF
            && Word(s[at], s[at + 1]) == h[i].count
            && Word(s[at + 2], s[at + 3]) == BlockSize(h[i]) - HEADER_SIZE
  {
    hide AddrOf, BlockSize, Word, Le16;
    var at, size := AddrOf(h, i), BlockSize(h[i]);
    assert Laid(s, at, h[i]);
    WordsRead(s, at, h[i].count, size - HEADER_SIZE);
  }

  /** `s` with `part` in the place of what stood at `at`. */
  function Spliced(s: seq<Byte>, at: nat, part: seq<Byte>): (r: seq<Byte>)
    requires at + |part| <= |s|
    ensures |r| == |s|
  {
    s[..at] + part + s[at + |part|..]
  }

  /** `s` with the word `v` at `at`. */
  function Written(s: seq<Byte>, at: nat, v: U16): (r: seq<Byte>)
    requires at + 2 <= |s|
    ensures |r| == |s|
  {
    Spliced(s, at, Le16(v))
  }

  lemma {:induction false} CountWritten(s: seq<Byte>, h: Heap, i: nat, count: U16)
    requires AllLaid(s, h) && i < |h| && AddrOf(h, i) + 2 <= |s|
    ensures var b := h[i].(count := count);
            AllLaid(Written(s, AddrOf(h, i), count), h[i := b]) && HeapPtr(h[i := b]) == HeapPtr(h)
  {
    var at, b := AddrOf(h, i), h[i].(count := count);
    var t := Written(s, at, count);
    assert Laid(s, at, h[i]);
    assert t[at + 2..|s|] == s[at + 2..|s|] && t[at..at + 2] == Le16(count);
    hide AddrOf;
    LaidRecounted(s, t, at, h[i], count);
    assert s[..at] == t[..at];
    SamePart(s, t, at + 2, |s|, at + BlockSize(b), |s|);
    assert s[at + BlockSize(b)..] == t[at + BlockSize(b)..];
    Rewritten(s, t, h, i, b);
  }

  lemma {:induction false} LaidRecounted(s: seq<Byte>, t: seq<Byte>, at: nat, b: Block, count: U16)
    requires Laid(s, at, b) && |t| == |s| && at + 2 <= |s|
    requires t[at..at + 2] == Le16(count) && t[at + 2..|s|] == s[at + 2..|s|]
    ensures Laid(t, at, b.(count := count))
  {
    var n := BlockSize(b);
    SamePart(s, t, at + 2, |s|, at + 2, at + 4);
    assert s[at + 2..at + 4] == s[at..at + 4][2..4] == Le16(n - HEADER_SIZE);
    assert t[at..at + 4] == t[at..at + 2] + t[at + 2..at + 4];
    match b {
      case StrBlock(_, bytes) => SamePart(s, t, at + 2, |s|, at + HEADER_SIZE, at + n);
      case ArrBlock(_, cap, slots) =>
        SamePart(s, t, at + 2, |s|, at + 4, at + 8);
        forall i | 0 <= i < |slots|
          ensures t[at + 8 + 3 * i..at + 11 + 3 * i] == SlotBytes(slots[i])
        {
          SamePart(s, t, at + 2, |s|, at + 8 + 3 * i, at + 11 + 3 * i);
        }
    }
  }

  /** The top block is the one that ends at the bump pointer. */
  lemma {:induction false} EndsAtTop(h: Heap, i: nat)
    requires i < |h|
    ensures AddrOf(h, i) + BlockSize(h[i]) <= HeapPtr(h)
    ensures AddrOf(h, i) + BlockSize(h[i]) == HeapPtr(h) <==> i == |h| - 1
  {
    RefCounts.AddrIncreases(h, i, |h|);
    if i < |h| - 1 {
      RefCounts.AddrIncreases(h, i + 1, |h|);
    }
  }

  /** A block just taken from the free space: its payload is whatever stood there. */
  lemma {:induction false} FreshLaid(s: seq<Byte>, at: nat, len: U16)
    requires at + HEADER_SIZE + len <= |s| && HEADER_SIZE + len <= 0xFFFF
    ensures var t := Written(Written(s, at, 1), at + 2, len);
            && t[..at] == s[..at] && Laid(t, at, StrBlock(1, t[at + HEADER_SIZE..at + HEADER_SIZE + len]))
  {
    var t := Written(Written(s, at, 1), at + 2, len);
    assert t[at..at + 4] == Le16(1) + Le16(len);
  }

  lemma {:induction false} PayloadWritten(s: seq<Byte>, h: Heap, i: nat, k: nat, v: Byte)
    requires AllLaid(s, h) && i < |h| && h[i].StrBlock? && k < |h[i].bytes| && AddrOf(h, i) + HEADER_SIZE + k < |s|
    ensures var b := h[i].(bytes := h[i].bytes[k := v]);
            AllLaid(s[AddrOf(h, i) + HEADER_SIZE + k := v], h[i := b]) && HeapPtr(h[i := b]) == HeapPtr(h)
  {
    hide AddrOf, Laid;
    var at, b := AddrOf(h, i), h[i].(bytes := h[i].bytes[k := v]);
    var t := s[at + HEADER_SIZE + k := v];
    ByteWritten(s, at, h[i], k, v);
    Rewritten(s, t, h, i, b);
  }

  lemma {:induction false} ByteWritten(s: seq<Byte>, at: nat, b: Block, k: nat, v: Byte)
    requires Laid(s, at, b) && b.StrBlock? && k < |b.bytes| && at + HEADER_SIZE + k < |s|
    ensures var t, c, n := s[at + HEADER_SIZE + k := v], b.(bytes := b.bytes[k := v]), BlockSize(b);
            Laid(t, at, c) && BlockSize(c) == n && at + n <= |s| && s[..at] == t[..at] && s[at + n..] == t[at + n..]
  {
    var t, n := s[at + HEADER_SIZE + k := v], BlockSize(b);
    assert t[at..at + HEADER_SIZE] == s[at..at + HEADER_SIZE];
    assert t[at + HEADER_SIZE..at + n] == s[at + HEADER_SIZE..at + n][k := v];
  }

  /** A block is an array when its payload says so. */
  lemma {:induction false} BecomesArray(s: seq<Byte>, t: seq<Byte>, h: Heap, i: nat, b: Block)
    requires AllLaid(s, h) && i < |h| && b.ArrBlock? && BlockSize(b) == BlockSize(h[i]) && b.count == h[i].count
    requires |b.slots| <= b.cap && |t| == |s| && AddrOf(h, i) + BlockSize(b) <= |s|
    requires s[..AddrOf(h, i) + 4] == t[..AddrOf(h, i) + 4]
    requires s[AddrOf(h, i) + BlockSize(b)..] == t[AddrOf(h, i) + BlockSize(b)..]
    requires t[AddrOf(h, i) + 4..AddrOf(h, i) + 8] == Le16(|b.slots|) + Le16(b.cap)
    requires SlotsLaid(t, AddrOf(h, i), b.slots)
    ensures AllLaid(t, h[i := b]) && HeapPtr(h[i := b]) == HeapPtr(h)
  {
    hide AddrOf, Laid, SlotsLaid;
    var at := AddrOf(h, i);
    assert s[0..at + 4] == t[0..at + 4];
    SamePart(s, t, 0, at + 4, at, at + 4);
    SamePart(s, t, 0, at + 4, 0, at);
    assert s[..at] == s[0..at] == t[0..at] == t[..at];
    LaidAsArray(s, t, at, h[i], b);
    Rewritten(s, t, h, i, b);
  }

  lemma {:induction false} LaidAsArray(s: seq<Byte>, t: seq<Byte>, at: nat, a: Block, b: Block)
    requires Laid(s, at, a) && b.ArrBlock? && BlockSize(b) == BlockSize(a) && b.count == a.count && |b.slots| <= b.cap
    requires |t| == |s| && s[at..at + 4] == t[at..at + 4]
    requires t[at + 4..at + 8] == Le16(|b.slots|) + Le16(b.cap) && SlotsLaid(t, at, b.slots)
    ensures Laid(t, at, b)
  {
  }

  ghost predicate SlotsLaid(s: seq<Byte>, at: nat, slots: seq<Immediate>) {
    at + 8 + 3 * |slots| <= |s|
    && forall i :: 0 <= i < |slots| ==> s[at + 8 + 3 * i..at + 11 + 3 * i] == SlotBytes(slots[i])
  }

  lemma {:induction false} SplicedPart(s: seq<Byte>, at: nat, part: seq<Byte>, i: nat, j: nat)
    requires at + |part| <= |s| && i <= j <= |s|
    ensures j <= at || at + |part| <= i ==> Spliced(s, at, part)[i..j] == s[i..j]
    ensures i == at && j == at + |part| ==> Spliced(s, at, part)[i..j] == part
  {
  }

  /** The bytes differ in slot `i` of the array at `at`, which may be the first free one. */
  lemma {:induction false} SlotPut(s: seq<Byte>, at: nat, slots: seq<Immediate>, cap: nat, i: nat, v: Immediate)
    requires i <= |slots| <= cap && i < cap && at + 8 + 3 * cap <= |s| && SlotsLaid(s, at, slots)
    ensures var t, size := Spliced(s, at + 8 + 3 * i, SlotBytes(v)), 8 + 3 * cap;
            && s[0..at + 8] == t[0..at + 8] && s[at + size..|s|] == t[at + size..|s|]
            && SlotsLaid(t, at, if i < |slots| then slots[i := v] else slots + [v])
  {
    hide SlotBytes, Spliced;
    var p := at + 8 + 3 * i;
    var t, more := Spliced(s, p, SlotBytes(v)), if i < |slots| then slots[i := v] else slots + [v];
    SplicedPart(s, p, SlotBytes(v), 0, at + 8);
    SplicedPart(s, p, SlotBytes(v), at + 8 + 3 * cap, |s|);
    forall j | 0 <= j < |more|
      ensures t[at + 8 + 3 * j..at + 11 + 3 * j] == SlotBytes(more[j])
    {
      SplicedPart(s, p, SlotBytes(v), at + 8 + 3 * j, at + 11 + 3 * j);
    }
  }

  /** The count of the array at `at` changes. */
  lemma {:induction false} CountPut(s: seq<Byte>, at: nat, slots: seq<Immediate>, cap: nat, count: U16)
    requires |slots| <= cap && at + 8 + 3 * cap <= |s| && SlotsLaid(s, at, slots)
    ensures var t, size := Spliced(s, at + 4, Le16(count)), 8 + 3 * cap;
            && s[0..at + 4] == t[0..at + 4] && s[at + size..|s|] == t[at + size..|s|]
            && t[at + 4..at + 6] == Le16(count) && t[at + 6..at + 8] == s[at + 6..at + 8] && SlotsLaid(t, at, slots)
  {
    hide SlotBytes, Spliced, Le16;
    var t := Spliced(s, at + 4, Le16(count));
    SplicedPart(s, at + 4, Le16(count), 0, at + 4);
    SplicedPart(s, at + 4, Le16(count), at + 4, at + 6);
    SplicedPart(s, at + 4, Le16(count), at + 6, at + 8);
    SplicedPart(s, at + 4, Le16(count), at + 8 + 3 * cap, |s|);
    forall j | 0 <= j < |slots|
      ensures t[at + 8 + 3 * j..at + 11 + 3 * j] == SlotBytes(slots[j])
    {
      SplicedPart(s, at + 4, Le16(count), at + 8 + 3 * j, at + 11 + 3 * j);
    }
  }

  /** An array block after its slot `i` has been written, and its count if need be. */
  lemma {:induction false} ArrayPut(s: seq<Byte>, h: Heap, k: nat, i: nat, v: Immediate)
    requires AllLaid(s, h) && k < |h| && h[k].ArrBlock? && i <= |h[k].slots| && i < h[k].cap
    requires AddrOf(h, k) + BlockSize(h[k]) <= |s|
    ensures var at, b := AddrOf(h, k), h[k];
            var c := b.(slots := if i < |b.slots| then b.slots[i := v] else b.slots + [v]);
            var u := Spliced(s, at + 8 + 3 * i, SlotBytes(v));
            var t := if i == |b.slots| then Spliced(u, at + 4, Le16((|b.slots| + 1) % 0x1_0000)) else u;
            AllLaid(t, h[k := c]) && HeapPtr(h[k := c]) == HeapPtr(h)
  {
    hide AddrOf, SlotBytes, Spliced, SlotsLaid, AllLaid;
    var at, b := AddrOf(h, k), h[k];
    BlockLaid(s, h, k);
    var c := b.(slots := if i < |b.slots| then b.slots[i := v] else b.slots + [v]);
    var u := Spliced(s, at + 8 + 3 * i, SlotBytes(v));
    SlotPut(s, at, b.slots, b.cap, i, v);
    SamePart(s, u, 0, at + 8, 0, at + 4);
    SamePart(s, u, 0, at + 8, at + 4, at + 8);
    assert s[..at + 4] == s[0..at + 4] && u[..at + 4] == u[0..at + 4];
    if i == |b.slots| {
      ArrayGrown(s, u, h, k, c);
    } else {
      BecomesArray(s, u, h, k, c);
    }
  }

  lemma {:induction false} ArrayGrown(s: seq<Byte>, u: seq<Byte>, h: Heap, k: nat, c: Block)
    requires AllLaid(s, h) && k < |h| && h[k].ArrBlock? && c.ArrBlock? && |c.slots| <= c.cap == h[k].cap && c.count == h[k].count
    requires |u| == |s| && AddrOf(h, k) + BlockSize(h[k]) <= |s| && s[..AddrOf(h, k) + 4] == u[..AddrOf(h, k) + 4]
    requires u[AddrOf(h, k) + 4..AddrOf(h, k) + 8] == s[AddrOf(h, k) + 4..AddrOf(h, k) + 8]
    requires s[AddrOf(h, k) + BlockSize(h[k])..|s|] == u[AddrOf(h, k) + BlockSize(h[k])..|s|]
    requires SlotsLaid(u, AddrOf(h, k), c.slots)
    ensures AllLaid(Spliced(u, AddrOf(h, k) + 4, Le16(|c.slots| % 0x1_0000)), h[k := c]) && HeapPtr(h[k := c]) == HeapPtr(h)
  {
    hide AddrOf, SlotBytes, Spliced, SlotsLaid, AllLaid;
    var at, b := AddrOf(h, k), h[k];
    BlockLaid(s, h, k);
    Le16Mod(|c.slots|);
    CountPut(u, at, c.slots, c.cap, |c.slots| % 0x1_0000);
    var t := Spliced(u, at + 4, Le16(|c.slots| % 0x1_0000));
    assert s[at + 6..at + 8] == s[at + 4..at + 8][2..4] == Le16(b.cap);
    assert u[at + 6..at + 8] == u[at + 4..at + 8][2..4];
    assert t[at + 4..at + 8] == t[at + 4..at + 6] + t[at + 6..at + 8];
    assert t[..at + 4] == t[0..at + 4] && u[..at + 4] == u[0..at + 4];
    var end := at + BlockSize(c);
    assert s[end..] == s[end..|s|] == u[end..|s|] == t[end..|s|] == t[end..];
    BecomesArray(s, t, h, k, c);
  }

  lemma {:induction false} BlockLaid(s: seq<Byte>, h: Heap, k: nat)
    requires AllLaid(s, h) && k < |h| && h[k].ArrBlock?
    ensures var at, b := AddrOf(h, k), h[k];
            && at + BlockSize(b) <= |s| && BlockSize(b) <= 0xFFFF && |b.slots| <= b.cap <= 0x5555
            && s[at + 4..at + 8] == Le16(|b.slots|) + Le16(b.cap) && SlotsLaid(s, at, b.slots)
  {
    hide AddrOf;
    assert Laid(s, AddrOf(h, k), h[k]);
  }

  /** The capacity of the array that takes the place of a full one. */
  function Doubled(cap: nat): nat {
    if cap * 2 < ARRAY_INIT_CAPACITY then ARRAY_INIT_CAPACITY else cap * 2
  }

  lemma {:induction false} TopArray(h: Heap, g: Heap)
    requires |g| == |h| + 1 && g[..|h|] == h && g[|h|].ArrBlock? && HeapPtr(h) < 0x1_0000
    ensures ArrayAt(g, HeapPtr(h)) == Some(|h|)
  {
    RefCounts.AddrKept(h, g, |h|);
    RefCounts.BlockFound(g, |h|);
  }

  /** An array below the new one at the top. */
  lemma {:induction false} TwoArrays(s: seq<Byte>, h: Heap, off: U16, k: nat, b: Block)
    requires b.ArrBlock? && ArrayAt(h, off) == Some(k) && AllLaid(s, h + [b])
    ensures var at, slots := HeapPtr(h), h[k].slots;
            && off + 8 + 3 * |slots| <= off + 8 + 3 * h[k].cap <= at && at + 8 + 3 * b.cap <= |s| && |slots| <= 0x5555
            && s[at + 4..at + 8] == Le16(|b.slots|) + Le16(b.cap) && SlotsLaid(s, off, slots)
  {
    hide AddrOf, AllLaid, SlotsLaid, ArrayAt;
    var g := h + [b];
    EndsAtTop(h, k);
    RefCounts.AddrKept(h, g, |h|);
    RefCounts.AddrKept(h, g, k);
    BlockLaid(s, g, k);
    BlockLaid(s, g, |h|);
  }

  /** The new array once its count is written and the elements of the old one are copied. */
  lemma {:induction false} ArrayCopied(s: seq<Byte>, h: Heap, off: U16, k: nat, c: Block)
    requires c.ArrBlock? && c.count == 1 && ArrayAt(h, off) == Some(k) && AllLaid(s, h + [ArrBlock(1, c.cap, [])])
    requires c.slots == h[k].slots && |c.slots| <= c.cap && |c.slots| <= 0x5555
    requires HeapPtr(h) + 8 + 3 * c.cap <= |s| && off + 8 + 3 * |c.slots| <= HeapPtr(h)
    ensures var at, src := HeapPtr(h), s[off + 8..off + 8 + 3 * |c.slots|];
            var t := Spliced(Spliced(s, at + 4, Le16(|c.slots|)), at + 8, src);
            AllLaid(t, h + [c]) && HeapPtr(h + [c]) == HeapPtr(h + [ArrBlock(1, c.cap, [])])
  {
    hide AddrOf, AllLaid, SlotsLaid, ArrayAt, Spliced, Le16, SlotBytes, HeapPtr;
    var b, at, n := ArrBlock(1, c.cap, []), HeapPtr(h), |c.slots|;
    var g, src := h + [b], s[off + 8..off + 8 + 3 * n];
    TwoArrays(s, h, off, k, b);
    var t := Spliced(Spliced(s, at + 4, Le16(n)), at + 8, src);
    CopiedParts(s, at, n, c.cap, src);
    SlotsShifted(s, t, off, at, c.slots);
    var end := at + BlockSize(c);
    TopAddr(h, b);
    BecomesArray(s, t, g, |h|, c);
    assert g[|h| := c] == h + [c];
  }

  /** A new array block at `at` whose count is set to `n` and whose elements are the bytes `src`. */
  lemma {:induction false} CopiedParts(s: seq<Byte>, at: nat, n: nat, cap: nat, src: seq<Byte>)
    requires n <= cap && |src| == 3 * n && at + 8 + 3 * cap <= |s| && s[at + 4..at + 8] == Le16(0) + Le16(cap)
    ensures var t := Spliced(Spliced(s, at + 4, Le16(n)), at + 8, src);
            && |t| == |s| && t[..at + 4] == s[..at + 4] && t[at + 4..at + 8] == Le16(n) + Le16(cap)
            && t[at + 8..at + 8 + 3 * n] == src && t[at + 8 + 3 * cap..] == s[at + 8 + 3 * cap..]
  {
    hide Spliced, Le16;
    var u := Spliced(s, at + 4, Le16(n));
    var t := Spliced(u, at + 8, src);
    SplicedPart(s, at + 4, Le16(n), 0, at + 4);
    SplicedPart(u, at + 8, src, 0, at + 4);
    SplicedPart(s, at + 4, Le16(n), at + 8 + 3 * cap, |s|);
    SplicedPart(u, at + 8, src, at + 8 + 3 * cap, |s|);
    SplicedPart(s, at + 4, Le16(n), at + 4, at + 6);
    SplicedPart(s, at + 4, Le16(n), at + 6, at + 8);
    SplicedPart(u, at + 8, src, at + 4, at + 8);
    SplicedPart(u, at + 8, src, at + 8, at + 8 + 3 * n);
    assert s[at + 6..at + 8] == s[at + 4..at + 8][2..4] == Le16(cap);
    assert u[at + 4..at + 8] == u[at + 4..at + 6] + u[at + 6..at + 8];
    assert s[..at + 4] == s[0..at + 4] && t[..at + 4] == t[0..at + 4];
    var end := at + 8 + 3 * cap;
    assert s[end..] == s[end..|s|] && t[end..] == t[end..|t|];
  }

  lemma {:induction false} SameEnds(was: seq<Byte>, mid: seq<Byte>, now: seq<Byte>, at: nat, cap: nat)
    requires |was| == |mid| == |now| && at + 8 + 3 * cap <= |was|
    requires mid[..at + 4] == was[..at + 4] && mid[at + 8..] == was[at + 8..]
    requires now[..at + 8] == mid[..at + 8] && now[at + 8 + 3 * cap..] == mid[at + 8 + 3 * cap..]
    ensures now[..at + 4] == was[..at + 4] && now[at + 4..at + 8] == mid[at + 4..at + 8]
    ensures now[at + 8 + 3 * cap..] == was[at + 8 + 3 * cap..]
  {
    assert now[..at + 4] == now[..at + 8][..at + 4] && mid[..at + 4] == mid[..at + 8][..at + 4];
    assert now[at + 4..at + 8] == now[..at + 8][at + 4..at + 8] && mid[at + 4..at + 8] == mid[..at + 8][at + 4..at + 8];
    assert mid[at + 8 + 3 * cap..] == mid[at + 8..][3 * cap..] && was[at + 8 + 3 * cap..] == was[at + 8..][3 * cap..];
  }

  lemma {:induction false} TopAddr(h: Heap, b: Block)
    ensures AddrOf(h + [b], |h|) == HeapPtr(h)
  {
    hide AddrOf, BlockSize;
    RefCounts.AddrKept(h, h + [b], |h|);
  }

  lemma {:induction false} SlotsShifted(s: seq<Byte>, t: seq<Byte>, off: nat, at: nat, slots: seq<Immediate>)
    requires SlotsLaid(s, off, slots) && at + 8 + 3 * |slots| <= |t|
    requires t[at + 8..at + 8 + 3 * |slots|] == s[off + 8..off + 8 + 3 * |slots|]
    ensures SlotsLaid(t, at, slots)
  {
    hide SlotBytes;
    var n := 3 * |slots|;
    forall j | 0 <= j < |slots|
      ensures t[at + 8 + 3 * j..at + 11 + 3 * j] == SlotBytes(slots[j])
    {
      SliceOfSlice(t, at + 8, at + 8 + n, 3 * j, 3 * j + 3);
      SliceOfSlice(s, off + 8, off + 8 + n, 3 * j, 3 * j + 3);
    }
  }

  lemma {:induction false} SplicedBy(s: seq<Byte>, t: seq<Byte>, from: nat, to: nat, count: nat)
    requires |t| == |s| && from + count <= to && to + count <= |s|
    requires forall x :: 0 <= x < |s| ==> t[x] == s[if to <= x < to + count then from + (x - to) else x]
    ensures t == Spliced(s, to, s[from..from + count])
  {
  }

  /** Releasing the old array and filling the new one do not get into each other's way. */
  lemma {:induction false} ReleasedBelow(h: Heap, b: Block, c: Block, off: U16, k: nat)
    requires ArrayAt(h, off) == Some(k) && BlockSize(b) == BlockSize(c) && b.StrBlock? == c.StrBlock?
    ensures BlockAt(h + [b], off) == Some(k) && |ReleaseAt(h + [b], off)| == |h| + 1
    ensures ReleaseAt(h + [b], off)[|h|] == b && HeapPtr(ReleaseAt(h + [b], off)[..|h|]) == HeapPtr(h)
    ensures ReleaseAt(h + [b], off)[k].ArrBlock?
    ensures ReleaseAt(h + [b], off)[|h| := c] == ReleaseAt(h + [c], off)
  {
    hide AddrOf, BlockAt;
    FoundBelow(h, b, off, k);
    FoundBelow(h, c, off, k);
    var r := ReleaseAt(h + [b], off);
    RefCounts.AddrKept(r[..|h|], h, |h|);
    assert r[|h| := c] == ReleaseAt(h + [c], off);
  }

  lemma {:induction false} FoundBelow(h: Heap, b: Block, off: U16, k: nat)
    requires ArrayAt(h, off) == Some(k)
    ensures BlockAt(h + [b], off) == Some(k)
  {
    hide AddrOf;
    RefCounts.AddrKept(h, h + [b], k);
    RefCounts.BlockFound(h + [b], k);
  }

  /** `image` is the used part of a heap with the blocks `h`. */
  ghost predicate Pictures(image: seq<Byte>, h: Heap) {
    HeapPtr(h) == POOL_SLOTS + |image| && AllLaid(seq(POOL_SLOTS, _ => 0) + image, h)
  }

  /** The bytes below the heap and above the bump pointer do not matter. */
  lemma {:induction false} SameBlocks(s: seq<Byte>, t: seq<Byte>, h: Heap)
    requires AllLaid(s, h) && POOL_SLOTS <= HeapPtr(h) <= |s| && HeapPtr(h) <= |t|
    requires s[POOL_SLOTS..HeapPtr(h)] == t[POOL_SLOTS..HeapPtr(h)]
    ensures AllLaid(t, h)
  {
    hide AddrOf, BlockSize, Laid;
    forall i | 0 <= i < |h|
      ensures Laid(t, AddrOf(h, i), h[i])
    {
      RefCounts.AddrIncreases(h, i, |h|);
      SamePart(s, t, POOL_SLOTS, HeapPtr(h), AddrOf(h, i), AddrOf(h, i) + BlockSize(h[i]));
      LaidElsewhere(s, t, AddrOf(h, i), h[i]);
    }
  }

  lemma {:induction false} Loaded(image: seq<Byte>, t: seq<Byte>, h: Heap)
    requires Pictures(image, h) && POOL_SLOTS + |image| <= |t| && t[POOL_SLOTS..POOL_SLOTS + |image|] == image
    ensures AllLaid(t, h) && HeapPtr(h) == POOL_SLOTS + |image|
  {
    hide AddrOf, AllLaid;
    var s := seq(POOL_SLOTS, _ => 0) + image;
    assert s[POOL_SLOTS..] == image == s[POOL_SLOTS..POOL_SLOTS + |image|];
    SameBlocks(s, t, h);
  }

  /** What a valid heap hands out as its image. */
  lemma {:induction false} ImageTaken(t: seq<Byte>, h: Heap)
    requires AllLaid(t, h) && POOL_SLOTS <= HeapPtr(h) <= |t|
    ensures Pictures(t[POOL_SLOTS..HeapPtr(h)], h)
  {
    hide AddrOf, AllLaid;
    var s := seq(POOL_SLOTS, _ => 0) + t[POOL_SLOTS..HeapPtr(h)];
    assert s[POOL_SLOTS..HeapPtr(h)] == t[POOL_SLOTS..HeapPtr(h)];
    SameBlocks(t, s, h);
  }

  /** Going back to a savepoint of `h` drops exactly the blocks `more` allocated since. */
  lemma {:induction false} RolledBack(h: Heap, more: Heap)
    ensures match BlockAt(h + more, HeapPtr(h))
            case Some(i) => (h + more)[..i] == h
            case None => h + more == h
  {
    hide BlockAt, BlockSize;
    var g := h + more;
    RefCounts.AddrKept(h, g, |h|);
    if more == [] {
      assert g == h;
      if BlockAt(g, HeapPtr(h)).Some? {
        RefCounts.AddrIncreases(h, BlockAt(g, HeapPtr(h)).value, |h|);
      }
    } else {
      RefCounts.BlockFound(g, |h|);
    }
  }

  class Store {
    const bytes: array<Byte>   // s_heap
    var top: nat               // s_heap_ptr
    ghost var blocks: Heap     // what the bytes stand for

    ghost predicate Sized()
      reads this
    {
      bytes.Length == HEAP_SIZE && POOL_SLOTS <= top <= HEAP_SIZE
    }

    ghost predicate Valid()
      reads this, bytes
    {
      Sized() && top == HeapPtr(blocks) && AllLaid(bytes[..], blocks)
    }

    constructor ()
      ensures Valid() && fresh(bytes) && blocks == []
    {
      bytes := new Byte[HEAP_SIZE](_ => 0);
      top := POOL_SLOTS;
      blocks := [];
    }

    /** heap_reset. */
    method Reset()
      requires Sized()
      modifies this, bytes
      ensures Valid() && blocks == [] && bytes[..] == seq(HEAP_SIZE, _ => 0)
    {
      var i := 0;
      while i < HEAP_SIZE
        invariant 0 <= i <= HEAP_SIZE
        invariant forall k :: 0 <= k < i ==> bytes[k] == 0
      {
        bytes[i] := 0;
        i := i + 1;
      }
      top := POOL_SLOTS;
      blocks := [];
    }

    method ReadWord(off: nat) returns (w: U16)
      requires off + 2 <= bytes.Length
      ensures w == Word(bytes[off], bytes[off + 1])
    {
      w := Word(bytes[off], bytes[off + 1]);
    }

    method WriteWord(off: nat, v: U16)
      requires off + 2 <= bytes.Length
      modifies bytes
      ensures bytes[..] == Written(old(bytes[..]), off, v)
    {
      bytes[off], bytes[off + 1] := v % 0x100, v / 0x100;
      assert bytes[..] == Written(old(bytes[..]), off, v);
    }

    /** valid_off: inside the heap. Whether a block starts there, it does not say. */
    predicate ValidOff(off: nat)
      reads this
    {
      POOL_SLOTS <= off < top && off + HEADER_SIZE <= HEAP_SIZE
    }

    /** `off` is the offset of a block or lies outside the heap. NothingDangles in RefCounts gives this for
      * every reference that the machine holds. */
    ghost predicate OnBoundary(off: nat)
      reads this
    {
      off < POOL_SLOTS || off >= top || BlockAt(blocks, off).Some?
    }

    lemma {:induction false} Located(off: nat)
      requires Valid() && OnBoundary(off)
      ensures ValidOff(off) <==> BlockAt(blocks, off).Some?
    {
      hide AddrOf, BlockSize;
      if BlockAt(blocks, off).Some? {
        EndsAtTop(blocks, BlockAt(blocks, off).value);
      }
    }

    /** heap_retain. */
    method Retain(off: nat)
      requires Valid() && OnBoundary(off)
      modifies this`blocks, bytes
      ensures Valid() && blocks == RetainAt(old(blocks), off)
    {
      hide AddrOf, BlockSize, Laid, BlockAt, Written, AllLaid;
      Located(off);
      if !ValidOff(off) {
        return;
      }
      ghost var i := BlockAt(blocks, off).value;
      HeaderRead(bytes[..], blocks, i);
      var rc := ReadWord(off);
      if rc == 0xFFFF {
        return;
      }
      CountWritten(bytes[..], blocks, i, rc + 1);
      WriteWord(off, rc + 1);
      blocks := blocks[i := blocks[i].(count := rc + 1)];
    }

    /** heap_release: when the count reaches zero and the block is the topmost, the bump pointer goes back. */
    method Release(off: nat)
      requires Valid() && OnBoundary(off)
      modifies this`blocks, this`top, bytes
      ensures Valid() && blocks == ReleaseAt(old(blocks), off)
    {
      hide AddrOf, BlockSize, Laid, BlockAt, Written, AllLaid;
      Located(off);
      if !ValidOff(off) {
        return;
      }
      ghost var i := BlockAt(blocks, off).value;
      HeaderRead(bytes[..], blocks, i);
      var rc := ReadWord(off);
      if rc == 0 {
        return;
      }
      rc := rc - 1;
      CountWritten(bytes[..], blocks, i, rc);
      WriteWord(off, rc);
      ghost var was := blocks;
      blocks := blocks[i := blocks[i].(count := rc)];
      RefCounts.AddrKept(was, blocks, i) by {
        SizesKept(was, blocks, i);
      }
      if rc != 0 {
        return;
      }
      HeaderRead(bytes[..], blocks, i);
      EndsAtTop(blocks, i);
      var size := ReadWord(off + 2);
      if off + size + HEADER_SIZE == top {
        top := off;
        Shortened(bytes[..], blocks, i);
        blocks := blocks[..i];
        assert blocks == was[..i];
      }
    }

    lemma {:induction false} SizesKept(h: Heap, g: Heap, i: nat)
      requires i < |h| == |g| && g == h[i := h[i].(count := g[i].count)]
      ensures forall j :: 0 <= j < i ==> BlockSize(h[j]) == BlockSize(g[j])
    {
    }

    /** heap_alloc. The new block holds whatever its bytes held before. */
    method Alloc(len: U16) returns (off: Option<nat>)
      requires Valid()
      modifies this`top, this`blocks, bytes
      ensures Valid() && (off.None? <==> old(top) + HEADER_SIZE + len > HEAP_SIZE)
      ensures off.None? ==> blocks == old(blocks)
      ensures off.Some? ==> off.value == old(top) && |blocks| == |old(blocks)| + 1 && blocks[..|old(blocks)|] == old(blocks)
      ensures off.Some? ==> blocks[|old(blocks)|].StrBlock? && blocks[|old(blocks)|].count == 1
      ensures off.Some? ==> |blocks[|old(blocks)|].bytes| == len
    {
      hide AddrOf, Laid, Written;
      if top + HEADER_SIZE + len > HEAP_SIZE {
        return None;
      }
      FreshLaid(bytes[..], top, len);
      WriteWord(top, 1);
      WriteWord(top + 2, len);
      ghost var b := StrBlock(1, bytes[top + HEADER_SIZE..top + HEADER_SIZE + len]);
      assert bytes[..][top + HEADER_SIZE..top + HEADER_SIZE + len] == b.bytes;
      Extended(old(bytes[..]), bytes[..], blocks, b);
      off := Some(top);
      top := top + HEADER_SIZE + len;
      blocks := blocks + [b];
    }

    /** Byte `i` of the string block `k`. */
    method PutByte(off: nat, i: nat, v: Byte, ghost k: nat)
      requires Valid() && k < |blocks| && AddrOf(blocks, k) == off && blocks[k].StrBlock? && i < |blocks[k].bytes|
      requires off + HEADER_SIZE + i < bytes.Length
      modifies this`blocks, bytes
      ensures Valid() && blocks == old(blocks)[k := old(blocks)[k].(bytes := old(blocks)[k].bytes[i := v])]
      ensures AddrOf(blocks, k) == off
    {
      hide AddrOf, Laid, AllLaid, BlockAt;
      PayloadWritten(bytes[..], blocks, k, i, v);
      bytes[off + HEADER_SIZE + i] := v;
      ghost var b := blocks[k].(bytes := blocks[k].bytes[i := v]);
      RefCounts.AddrKept(blocks, blocks[k := b], k);
      blocks := blocks[k := b];
    }

    /** make_heap_str: a string block for `src`. */
    method MakeString(src: seq<Byte>) returns (off: Option<nat>)
      requires Valid() && |src| <= 0xFFFF
      modifies this`top, this`blocks, bytes
      ensures Valid()
      ensures match Values.Alloc(old(blocks), StrBlock(1, src))
              case None => off.None? && blocks == old(blocks)
              case Some(h) => off == Some(HeapPtr(old(blocks))) && blocks == h
    {
      hide AddrOf, Laid, AllLaid, BlockAt;
      off := Alloc(|src|);
      if off.None? {
        return;
      }
      ghost var n := |old(blocks)|;
      RefCounts.AddrKept(old(blocks), blocks, n);
      ghost var stale := blocks[n].bytes;
      EndsAtTop(blocks, n);
      assert src[..0] + stale[0..] == stale;
      var i := 0;
      while i < |src|
        invariant Valid() && 0 <= i <= |src| && top == off.value + HEADER_SIZE + |src|
        invariant |blocks| == n + 1 && blocks[..n] == old(blocks) && AddrOf(blocks, n) == off.value
        invariant blocks[n] == StrBlock(1, src[..i] + stale[i..])
      {
        PutByte(off.value, i, src[i], n);
        assert (src[..i] + stale[i..])[i := src[i]] == src[..i + 1] + stale[i + 1..];
        i := i + 1;
      }
      assert src[..|src|] + stale[|src|..] == src;
      assert blocks == old(blocks) + [StrBlock(1, src)];
    }

    method ZeroFill(from: nat, count: nat)
      requires from + count <= bytes.Length
      modifies bytes
      ensures bytes[..from] == old(bytes[..from]) && bytes[from + count..] == old(bytes[from + count..])
    {
      var i := 0;
      while i < count
        invariant 0 <= i <= count
        invariant bytes[..from] == old(bytes[..from]) && bytes[from + count..] == old(bytes[from + count..])
      {
        bytes[from + i] := 0;
        i := i + 1;
      }
    }

    /** array_new. */
    method ArrayNew(capacity: nat) returns (off: Option<nat>)
      requires Valid() && 4 + 3 * capacity <= 0xFFFF
      modifies this`top, this`blocks, bytes
      ensures Valid()
      ensures match Values.Alloc(old(blocks), ArrBlock(1, if capacity == 0 then ARRAY_INIT_CAPACITY else capacity, []))
              case None => off.None? && blocks == old(blocks)
              case Some(h) => off == Some(HeapPtr(old(blocks))) && blocks == h
    {
      hide AddrOf, Laid, AllLaid, Le16;
      var cap := if capacity == 0 then ARRAY_INIT_CAPACITY else capacity;
      var size := 4 + 3 * cap;
      off := Alloc(size);
      if off.None? {
        return;
      }
      RefCounts.AddrKept(old(blocks), blocks, |old(blocks)|);
      Format(off.value, cap, |old(blocks)|);
      assert blocks == old(blocks) + [ArrBlock(1, cap, [])];
    }

    /** The new block `k` becomes an empty array. */
    method Format(at: nat, cap: nat, ghost k: nat)
      requires Valid() && k == |blocks| - 1 && AddrOf(blocks, k) == at && blocks[k].StrBlock? && blocks[k].count == 1
      requires |blocks[k].bytes| == 4 + 3 * cap && cap <= 0xFFFF
      modifies this`blocks, bytes
      ensures Valid() && blocks == old(blocks)[k := ArrBlock(1, cap, [])]
    {
      hide AddrOf, Laid, AllLaid, Le16;
      ghost var was := bytes[..];
      EndsAtTop(blocks, k);
      FormatBytes(at, cap);
      BecomesArray(was, bytes[..], blocks, k, ArrBlock(1, cap, []));
      blocks := blocks[k := ArrBlock(1, cap, [])];
    }

    /** The count, the capacity and the zeroed slots. */
    method FormatBytes(at: nat, cap: nat)
      requires at + 8 + 3 * cap <= bytes.Length && cap <= 0xFFFF
      modifies bytes
      ensures bytes[..][..at + 4] == old(bytes[..])[..at + 4] && bytes[..][at + 4..at + 8] == Le16(0) + Le16(cap)
      ensures bytes[..][at + 8 + 3 * cap..] == old(bytes[..])[at + 8 + 3 * cap..]
    {
      hide Le16;
      ghost var was := bytes[..];
      WriteWord(at + 4, 0);
      WriteWord(at + 6, cap);
      ghost var mid := bytes[..];
      assert mid[at + 4..at + 8] == Le16(0) + Le16(cap) && mid[..at + 4] == was[..at + 4] && mid[at + 8..] == was[at + 8..];
      ZeroFill(at + 8, 3 * cap);
      SameEnds(was, mid, bytes[..], at, cap);
    }

    /** heap_const_image: the used part of the heap, as it is. */
    method ConstImage() returns (image: seq<Byte>)
      requires Sized()
      ensures image == bytes[POOL_SLOTS..top]
    {
      return bytes[POOL_SLOTS..top];
    }

    /** heap_load_const. Which blocks the bytes stand for is known when they are the image of some heap `h`. */
    method LoadConst(src: seq<Byte>, ghost h: Heap)
      requires Sized()
      modifies this, bytes
      ensures Sized()
      ensures POOL_SLOTS + |src| <= HEAP_SIZE ==> top == POOL_SLOTS + |src| && bytes[POOL_SLOTS..top] == src
      ensures POOL_SLOTS + |src| <= HEAP_SIZE && Pictures(src, h) ==> Valid() && blocks == h
      ensures POOL_SLOTS + |src| > HEAP_SIZE ==> top == old(top) && bytes[..] == old(bytes[..])
    {
      hide Pictures, AllLaid, AddrOf;
      if POOL_SLOTS + |src| > HEAP_SIZE {
        return;
      }
      var i := 0;
      while i < |src|
        invariant 0 <= i <= |src| && bytes[POOL_SLOTS..POOL_SLOTS + i] == src[..i]
      {
        bytes[POOL_SLOTS + i] := src[i];
        i := i + 1;
      }
      top := POOL_SLOTS + |src|;
      if Pictures(src, h) {
        Loaded(src, bytes[..], h);
        blocks := h;
      }
    }

    /** heap_savepoint. */
    method Savepoint() returns (saved: nat)
      requires Valid()
      ensures saved == HeapPtr(blocks)
    {
      return top;
    }

    /** heap_rollback: everything allocated since the savepoint goes. */
    method Rollback(saved: nat)
      requires Valid()
      requires saved < POOL_SLOTS || saved >= top || BlockAt(blocks, saved).Some?
      modifies this`top, this`blocks
      ensures Valid()
      ensures blocks == match BlockAt(old(blocks), saved) case Some(i) => old(blocks)[..i] case None => old(blocks)
    {
      hide AddrOf, BlockSize, Laid, BlockAt;
      ghost var r := BlockAt(blocks, saved);
      if r.Some? {
        EndsAtTop(blocks, r.value);
      }
      if saved < POOL_SLOTS || saved > top {
        return;
      }
      if saved < top {
        Shortened(bytes[..], blocks, r.value);
        blocks := blocks[..r.value];
      }
      top := saved;
    }

    // ----- array elements -----

    /** What the first words of an array say. */
    lemma {:induction false} ArrayRead(off: U16)
      requires Valid() && ArrayAt(blocks, off).Some?
      ensures var b := blocks[ArrayAt(blocks, off).value];
              && off + 8 + 3 * b.cap <= top <= bytes.Length && |b.slots| <= b.cap <= 0x5555
              && Word(bytes[off + 4], bytes[off + 5]) == |b.slots| && Word(bytes[off + 6], bytes[off + 7]) == b.cap
              && SlotsLaid(bytes[..], off, b.slots)
    {
      hide AddrOf, ArrayAt, SlotsLaid, AllLaid, Laid, Word, Le16;
      var k := ArrayAt(blocks, off).value;
      var b := blocks[k];
      EndsAtTop(blocks, k);
      BlockLaid(bytes[..], blocks, k);
      WordsRead(bytes[..], off + 4, |b.slots|, b.cap);
    }

    method ReadSlot(off: nat, i: nat) returns (v: Immediate)
      requires off + 11 + 3 * i <= bytes.Length
      ensures forall w :: bytes[off + 8 + 3 * i..off + 11 + 3 * i] == SlotBytes(w) ==> v == w
    {
      var at := off + 8 + 3 * i;
      v := SlotValue(bytes[at], bytes[at + 1], bytes[at + 2]);
      ghost var part := bytes[at..at + 3];
      assert part[0] == bytes[at] && part[1] == bytes[at + 1] && part[2] == bytes[at + 2];
      forall w | part == SlotBytes(w)
        ensures v == w
      {
        SlotRoundTrip(w);
      }
    }

    method WriteSlot(off: nat, i: nat, v: Immediate)
      requires off + 11 + 3 * i <= bytes.Length
      modifies bytes
      ensures bytes[..] == Spliced(old(bytes[..]), off + 8 + 3 * i, SlotBytes(v))
    {
      var at, b := off + 8 + 3 * i, SlotBytes(v);
      bytes[at], bytes[at + 1], bytes[at + 2] := b[0], b[1], b[2];
      assert bytes[..] == Spliced(old(bytes[..]), at, b);
    }

    /** array_get. */
    method ArrayGet(off: U16, i: nat) returns (v: Option<Immediate>)
      requires Valid() && ArrayAt(blocks, off).Some?
      ensures var slots := blocks[ArrayAt(blocks, off).value].slots;
              v == if i < |slots| then Some(slots[i]) else None
    {
      hide AddrOf, ArrayAt, AllLaid, SlotBytes;
      ArrayRead(off);
      var count := ReadWord(off + 4);
      if i >= count {
        return None;
      }
      ghost var slots := blocks[ArrayAt(blocks, off).value].slots;
      assert bytes[..][off + 8 + 3 * i..off + 11 + 3 * i] == bytes[off + 8 + 3 * i..off + 11 + 3 * i] == SlotBytes(slots[i]);
      var w := ReadSlot(off, i);
      return Some(w);
    }

    /** Write slot `i`, which may be the first free one, and the count that goes with it. */
    method PutSlot(off: U16, i: nat, v: Immediate, ghost k: nat)
      requires Valid() && ArrayAt(blocks, off) == Some(k) && i <= |blocks[k].slots| && i < blocks[k].cap
      modifies this`blocks, bytes
      ensures Valid()
      ensures var slots := old(blocks)[k].slots;
              blocks == old(blocks)[k := old(blocks)[k].(slots := if i < |slots| then slots[i := v] else slots + [v])]
    {
      hide AddrOf, BlockAt, ArrayAt, AllLaid, SlotBytes, SlotsLaid, Spliced, BlockSize, Word, Le16;
      ArrayRead(off);
      ghost var b := blocks[k];
      BlockLaid(bytes[..], blocks, k);
      ArrayPut(bytes[..], blocks, k, i, v);
      var count := ReadWord(off + 4);
      WriteSlot(off, i, v);
      if i == count {
        WriteWord(off + 4, count + 1);
      }
      blocks := blocks[k := b.(slots := if i < |b.slots| then b.slots[i := v] else b.slots + [v])];
    }

    /** array_set; the old element is an immediate and has nothing to release. */
    method ArraySet(off: U16, i: nat, v: Immediate) returns (ok: bool)
      requires Valid() && ArrayAt(blocks, off).Some?
      modifies this`blocks, bytes
      ensures Valid()
      ensures var k := ArrayAt(old(blocks), off).value;
              var b := old(blocks)[k];
              ok == (i < |b.slots|) && blocks == if ok then old(blocks)[k := b.(slots := b.slots[i := v])] else old(blocks)
    {
      hide AddrOf, ArrayAt, AllLaid, SlotBytes, SlotsLaid, BlockSize;
      ArrayRead(off);
      var count := ReadWord(off + 4);
      if i >= count {
        return false;
      }
      PutSlot(off, i, v, ArrayAt(blocks, off).value);
      return true;
    }

    /** array_init_from_stack after array_new: an array of the given elements. */
    method ArrayOf(vs: seq<Immediate>) returns (off: Option<nat>)
      requires Valid() && |vs| <= 0xFF
      modifies this`top, this`blocks, bytes
      ensures Valid()
      ensures match Values.Alloc(old(blocks), ArrBlock(1, if |vs| == 0 then ARRAY_INIT_CAPACITY else |vs|, vs))
              case None => off.None? && blocks == old(blocks)
              case Some(h) => off == Some(HeapPtr(old(blocks))) && blocks == h
    {
      hide AddrOf, AllLaid, ArrayAt;
      off := ArrayNew(|vs|);
      if off.None? {
        return;
      }
      ghost var n := |old(blocks)|;
      var i := 0;
      while i < |vs|
        invariant Valid() && 0 <= i <= |vs| && |blocks| == n + 1 && blocks[..n] == old(blocks)
        invariant blocks[n] == ArrBlock(1, if |vs| == 0 then ARRAY_INIT_CAPACITY else |vs|, vs[..i])
      {
        TopArray(old(blocks), blocks);
        PutSlot(off.value, i, vs[i], n);
        assert vs[..i] + [vs[i]] == vs[..i + 1];
        i := i + 1;
      }
      assert vs[..|vs|] == vs;
      assert blocks == old(blocks) + [blocks[n]];
    }

    /** The elements of the array at `off` are copied, byte by byte, to the new one at `at`. */
    method CopyElements(off: U16, at: U16, count: nat, ghost k: nat, ghost h: Heap)
      requires Valid() && ArrayAt(h, off) == Some(k) && count == |h[k].slots| && at == HeapPtr(h)
      requires blocks == h + [ArrBlock(1, Doubled(h[k].cap), [])]
      modifies this`blocks, bytes
      ensures Valid() && blocks == h + [ArrBlock(1, Doubled(h[k].cap), h[k].slots)] && count <= h[k].cap
    {
      hide AddrOf, ArrayAt, AllLaid, SlotsLaid, Laid, Spliced, BlockSize, HeapPtr;
      ghost var s, c := bytes[..], ArrBlock(1, Doubled(h[k].cap), h[k].slots);
      TwoArrays(s, h, off, k, blocks[|h|]);
      WriteWord(at + 4, count);
      ghost var t, src := bytes[..], s[off + 8..off + 8 + 3 * count];
      SplicedPart(s, at + 4, Le16(count), 0, at + 4);
      SamePart(s, t, 0, at + 4, off + 8, off + 8 + 3 * count);
      assert src == t[off + 8..off + 8 + 3 * count];
      CopyBytes(off + 8, at + 8, 3 * count);
      ArrayCopied(s, h, off, k, c);
      blocks := h + [c];
    }

    method CopyBytes(from: nat, to: nat, count: nat)
      requires from + count <= to && to + count <= bytes.Length
      modifies bytes
      ensures bytes[..] == Spliced(old(bytes[..]), to, old(bytes[from..from + count]))
    {
      hide Spliced;
      var j := 0;
      while j < count
        invariant 0 <= j <= count
        invariant forall x :: 0 <= x < bytes.Length ==> bytes[x] == old(bytes[if to <= x < to + j then from + (x - to) else x])
      {
        bytes[to + j] := bytes[from + j];
        j := j + 1;
      }
      SplicedBy(old(bytes[..]), bytes[..], from, to, count);
      assert old(bytes[from..from + count]) == old(bytes[..])[from..from + count];
    }

    /** The rest of array_append on a full array: the new block takes over the elements, the old one is
      * released, and the value is added. */
    method MoveTo(off: U16, at: U16, count: nat, v: Immediate, ghost k: nat, ghost h: Heap)
      requires Valid() && ArrayAt(h, off) == Some(k) && count == |h[k].slots| >= h[k].cap && at == HeapPtr(h)
      requires blocks == h + [ArrBlock(1, Doubled(h[k].cap), [])]
      modifies this`top, this`blocks, bytes
      ensures Valid() && blocks == ReleaseAt(h + [ArrBlock(1, Doubled(h[k].cap), h[k].slots + [v])], off)
    {
      hide AddrOf, ArrayAt, AllLaid, Laid, HeapPtr, ReleaseAt, BlockAt;
      CopyElements(off, at, count, k, h);
      ghost var cap := Doubled(h[k].cap);
      ReleasedBelow(h, ArrBlock(1, cap, h[k].slots), ArrBlock(1, cap, h[k].slots + [v]), off, k);
      Release(off);
      TopArray(blocks[..|h|], blocks);
      BlockLaid(bytes[..], blocks, k);
      PutSlot(at, count, v, |h|);
    }

    /** array_append. Some is the offset of the array that now holds the element; in a full array that is a
      * new block of twice the capacity, and the old one is released. */
    method ArrayAppend(off: U16, v: Immediate) returns (r: Option<nat>)
      requires Valid() && ArrayAt(blocks, off).Some?
      modifies this`top, this`blocks, bytes
      ensures Valid()
      ensures var k := ArrayAt(old(blocks), off).value;
              var b := old(blocks)[k];
              if |b.slots| < b.cap then
                r == Some(off as int) && blocks == old(blocks)[k := b.(slots := b.slots + [v])]
              else
                match Values.Alloc(old(blocks), ArrBlock(1, Doubled(b.cap), b.slots + [v]))
                case None => r.None? && blocks == old(blocks)
                case Some(h) => r == Some(HeapPtr(old(blocks))) && blocks == ReleaseAt(h, off)
    {
      hide AddrOf, ArrayAt, AllLaid, SlotBytes, SlotsLaid, Word;
      ArrayRead(off);
      ghost var k := ArrayAt(blocks, off).value;
      var count := ReadWord(off + 4);
      var cap := ReadWord(off + 6);
      if count < cap {
        PutSlot(off, count, v, k);
        return Some(off);
      }
      r := ArrayNew(Doubled(cap));
      if r.None? {
        return;
      }
      MoveTo(off, r.value, count, v, k, old(blocks));
    }
  }
}
