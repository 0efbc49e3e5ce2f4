/** The `.swb` file that carries a compiled program from the Compiler to the Runner (swb.c, swb_read.c). */
module SwbImage {
  import opened Bytes
  import opened Values
  import opened HeapStore
  import CodeGen
  import PagedBuffer
  import M = Machine

  const SWB_VERSION: Byte := 1
  const HEADER_BYTES := 12
  const RECORD_BYTES := 4
  const MAGIC: seq<Byte> := [0x53, 0x57, 0x42]
  const CHUNK := 128

  datatype SwbErr = OutFull | Io | BadMagic | Truncated | BcCap | HeapCap | FuncsCap | OutOfBounds
  datatype Result<+T> = Good(value: T) | Bad(err: SwbErr)

  /** A function as the table and the file keep it; `ret` is the raw flag byte. */
  datatype Entry = Entry(start: U16, params: Byte, ret: Byte)

  // ----- the format -----

  function RecordBytes(f: Entry): (r: seq<Byte>)
    ensures |r| == RECORD_BYTES
  {
    Le16(f.start) + [f.params, f.ret]
  }

  function Records(funcs: seq<Entry>): (r: seq<Byte>)
    ensures |r| == RECORD_BYTES * |funcs|
    decreases |funcs|
  {
    if funcs == [] then [] else Records(funcs[..|funcs| - 1]) + RecordBytes(funcs[|funcs| - 1])
  }

  function HeaderBytes(start: U16, codeLen: U16, heapLen: U16, count: Byte, reserved: Byte): (r: seq<Byte>)
    ensures |r| == HEADER_BYTES
  {
    MAGIC + [SWB_VERSION] + Le16(start) + Le16(codeLen) + Le16(heapLen) + [count, reserved]
  }

  /** What travels in a file: bytecode, entry point, constant heap and function table. */
  datatype Program = Program(code: seq<Byte>, start: nat, heap: seq<Byte>, funcs: seq<Entry>)

  /** The sizes fit their fields. */
  predicate Sized(p: Program) {
    |p.code| <= 0xFFFF && p.start <= 0xFFFF && |p.heap| <= 0xFFFF && |p.funcs| <= 0xFF
  }

  /** What the Runner insists on. */
  predicate Loadable(p: Program) {
    && Sized(p) && p.start <= |p.code|
    && POOL_SLOTS + |p.heap| <= HEAP_SIZE && |p.funcs| <= CodeGen.MAX_FUNCS
    && forall i :: 0 <= i < |p.funcs| ==> p.funcs[i].start < |p.code|
  }

  function FileOf(p: Program, reserved: Byte): (r: seq<Byte>)
    requires Sized(p)
    ensures |r| == HEADER_BYTES + |p.code| + |p.heap| + RECORD_BYTES * |p.funcs|
  {
    HeaderBytes(p.start, |p.code|, |p.heap|, |p.funcs|, reserved) + p.code + p.heap + Records(p.funcs)
  }

  // ----- reading (swb_read.c) -----

  datatype Header = Header(start: U16, codeLen: U16, heapLen: U16, count: Byte)

  function WordAt(s: seq<Byte>, at: nat): U16
    requires at + 2 <= |s|
  {
    Word(s[at], s[at + 1])
  }

  /** swb_header_info on the twelve bytes of a header. */
  function HeaderInfo(s: seq<Byte>): Result<Header>
    requires |s| >= HEADER_BYTES
  {
    if s[..3] != MAGIC || s[3] != SWB_VERSION then Bad(BadMagic)
    else if WordAt(s, 4) > WordAt(s, 6) then Bad(OutOfBounds)
    else Good(Header(WordAt(s, 4), WordAt(s, 6), WordAt(s, 8), s[10]))
  }

  /** parse_header: also every section must be there. */
  function ParseHeader(s: seq<Byte>): Result<Header> {
    if |s| < HEADER_BYTES then Bad(Truncated)
    else if s[..3] != MAGIC || s[3] != SWB_VERSION then Bad(BadMagic)
    else
      var h := Header(WordAt(s, 4), WordAt(s, 6), WordAt(s, 8), s[10]);
      if HEADER_BYTES + h.codeLen + h.heapLen + RECORD_BYTES * h.count > |s| then Bad(Truncated)
      else if h.start > h.codeLen then Bad(OutOfBounds)
      else Good(h)
  }

  function EntryAt(s: seq<Byte>, at: nat): Entry
    requires at + RECORD_BYTES <= |s|
  {
    Entry(WordAt(s, at), s[at + 2], s[at + 3])
  }

  /** The first `n` function records from `at` on. */
  function EntriesAt(s: seq<Byte>, at: nat, n: nat): (r: seq<Entry>)
    requires at + RECORD_BYTES * n <= |s|
    ensures |r| == n
    ensures forall i :: 0 <= i < n ==> r[i] == EntryAt(s, at + RECORD_BYTES * i)
  {
    seq(n, i requires 0 <= i < n => EntryAt(s, at + RECORD_BYTES * i))
  }

  /** The checks that load_state and swb_load_tail share. */
  function CheckState(heapLen: U16, funcs: seq<Entry>, codeLen: U16): Result<()> {
    if POOL_SLOTS + heapLen > HEAP_SIZE then Bad(HeapCap)
    else if |funcs| > CodeGen.MAX_FUNCS then Bad(FuncsCap)
    else if exists i :: 0 <= i < |funcs| && funcs[i].start >= codeLen then Bad(OutOfBounds)
    else Good(())
  }

  /** Where the sections of an accepted file lie. */
  function ProgramIn(s: seq<Byte>, h: Header): Program
    requires HEADER_BYTES + h.codeLen + h.heapLen + RECORD_BYTES * h.count <= |s|
  {
    var heapAt := HEADER_BYTES + h.codeLen;
    var funcsAt := heapAt + h.heapLen;
    Program(s[HEADER_BYTES..heapAt], h.start, s[heapAt..funcsAt], EntriesAt(s, funcsAt, h.count))
  }

  /** swb_open_image. */
  function Open(s: seq<Byte>): Result<Program> {
    match ParseHeader(s)
    case Bad(e) => Bad(e)
    case Good(h) =>
      var p := ProgramIn(s, h);
      match CheckState(h.heapLen, p.funcs, h.codeLen)
      case Bad(e) => Bad(e)
      case Good(_) => Good(p)
  }

  // ----- the heap and the function table of the Runner -----

  class Runtime {
    const heap: Store
    var funcs: seq<Entry>

    ghost predicate Valid()
      reads this, heap
    {
      heap.Sized()
    }

    /** The state is that of the program `p`. */
    ghost predicate Holds(p: Program)
      reads this, heap, heap.bytes
      requires Valid()
    {
      heap.top == POOL_SLOTS + |p.heap| && heap.bytes[POOL_SLOTS..heap.top] == p.heap && funcs == p.funcs
    }

    constructor ()
      ensures Valid() && fresh(heap) && fresh(heap.bytes) && funcs == [] && heap.Valid() && heap.blocks == []
    {
      heap := new Store();
      funcs := [];
    }

    /** funcs_add_runtime. */
    method AddRuntime(f: Entry) returns (ok: bool)
      modifies this`funcs
      ensures ok == (|old(funcs)| < CodeGen.MAX_FUNCS) && funcs == if ok then old(funcs) + [f] else old(funcs)
    {
      ok := |funcs| < CodeGen.MAX_FUNCS;
      if ok {
        funcs := funcs + [f];
      }
    }

    /** The start offsets are checked before anything changes. */
    method StartsInside(s: seq<Byte>, at: nat, n: nat, codeLen: U16) returns (ok: bool)
      requires at + RECORD_BYTES * n <= |s|
      ensures ok <==> forall i :: 0 <= i < n ==> EntriesAt(s, at, n)[i].start < codeLen
    {
      var i, pos := 0, at;
      while i < n
        invariant 0 <= i <= n && pos == at + RECORD_BYTES * i
        invariant forall j :: 0 <= j < i ==> EntriesAt(s, at, n)[j].start < codeLen
      {
        if WordAt(s, pos) >= codeLen {
          assert EntriesAt(s, at, n)[i] == EntryAt(s, pos);
          return false;
        }
        i, pos := i + 1, pos + RECORD_BYTES;
      }
      return true;
    }

    /** The common part of load_state and swb_load_tail: heap image at `heapAt`, function records at
      * `funcsAt`. `h` is what the heap image pictures, if it is that of a heap. */
    method Restore(s: seq<Byte>, heapAt: nat, heapLen: U16, funcsAt: nat, n: nat, codeLen: U16, ghost h: Heap)
      returns (err: Option<SwbErr>)
      requires Valid() && heapAt + heapLen <= |s| && funcsAt + RECORD_BYTES * n <= |s|
      modifies this`funcs, heap, heap.bytes
      ensures Valid()
      ensures CheckState(heapLen, EntriesAt(s, funcsAt, n), codeLen).Good? ==>
                && err.None? && funcs == EntriesAt(s, funcsAt, n)
                && heap.top == POOL_SLOTS + heapLen && heap.bytes[POOL_SLOTS..heap.top] == s[heapAt..heapAt + heapLen]
                && (Pictures(s[heapAt..heapAt + heapLen], h) ==> heap.Valid() && heap.blocks == h)
      ensures CheckState(heapLen, EntriesAt(s, funcsAt, n), codeLen).Bad? ==>
                && err == Some(CheckState(heapLen, EntriesAt(s, funcsAt, n), codeLen).err)
                && unchanged(this) && unchanged(heap) && unchanged(heap.bytes)
    {
      hide Pictures, AllLaid;
      if POOL_SLOTS + heapLen > HEAP_SIZE {
        return Some(HeapCap);
      }
      if n > CodeGen.MAX_FUNCS {
        return Some(FuncsCap);
      }
      var ok := StartsInside(s, funcsAt, n, codeLen);
      if !ok {
        return Some(OutOfBounds);
      }
      heap.Reset();
      heap.LoadConst(s[heapAt..heapAt + heapLen], h);
      AddAll(s, funcsAt, n);
      return None;
    }

    /** funcs_reset, then one funcs_add_runtime for each record. */
    method AddAll(s: seq<Byte>, at: nat, n: nat)
      requires at + RECORD_BYTES * n <= |s| && n <= CodeGen.MAX_FUNCS
      modifies this`funcs
      ensures funcs == EntriesAt(s, at, n)
    {
      funcs := [];
      var i, pos := 0, at;
      while i < n
        invariant 0 <= i <= n && pos == at + RECORD_BYTES * i
        invariant funcs == EntriesAt(s, at, n)[..i]
      {
        assert EntriesAt(s, at, n)[..i] + [EntryAt(s, pos)] == EntriesAt(s, at, n)[..i + 1];
        var _ := AddRuntime(EntryAt(s, pos));
        i, pos := i + 1, pos + RECORD_BYTES;
      }
    }

    /** swb_open_image: the bytecode stays in the file. A file that is rejected leaves the state as it was. */
    method OpenImage(s: seq<Byte>, ghost h: Heap) returns (r: Result<Program>)
      requires Valid()
      modifies this`funcs, heap, heap.bytes
      ensures Valid() && r == Open(s)
      ensures r.Good? ==> Holds(r.value) && (Pictures(r.value.heap, h) ==> heap.Valid() && heap.blocks == h)
      ensures r.Bad? ==> unchanged(this) && unchanged(heap) && unchanged(heap.bytes)
    {
      hide Pictures, AllLaid, EntriesAt, CheckState, WordAt;
      match ParseHeader(s) {
        case Bad(e) => return Bad(e);
        case Good(d) =>
          var heapAt := HEADER_BYTES + d.codeLen;
          var err := Restore(s, heapAt, d.heapLen, heapAt + d.heapLen, d.count, d.codeLen, h);
          if err.Some? {
            return Bad(err.value);
          }
          return Good(ProgramIn(s, d));
      }
    }

    /** swb_read: the bytecode is copied to the caller's buffer, whose size is checked first. */
    method Read(s: seq<Byte>, out: array<Byte>, ghost h: Heap) returns (r: Result<Program>)
      requires Valid() && out != heap.bytes
      modifies this`funcs, heap, heap.bytes, out
      ensures Valid()
      ensures r == (if ParseHeader(s).Good? && ParseHeader(s).value.codeLen > out.Length then Bad(BcCap) else Open(s))
      ensures r.Good? ==> Holds(r.value) && |r.value.code| <= out.Length && out[..|r.value.code|] == r.value.code
      ensures r.Good? ==> Pictures(r.value.heap, h) ==> heap.Valid() && heap.blocks == h
      ensures r.Bad? ==> unchanged(this) && unchanged(heap) && unchanged(heap.bytes) && unchanged(out)
    {
      hide Pictures, AllLaid;
      var header := ParseHeader(s);
      if header.Good? && header.value.codeLen > out.Length {
        return Bad(BcCap);
      }
      r := OpenImage(s, h);
      if r.Good? {
        var _ := CopyOut(out, 0, r.value.code);
      }
    }

    /** swb_load_tail: heap image and records from the part of the file behind the bytecode. */
    method LoadTail(tail: seq<Byte>, heapLen: U16, n: Byte, codeLen: U16, ghost h: Heap) returns (err: Option<SwbErr>)
      requires Valid() && heapLen + RECORD_BYTES * n <= |tail|
      modifies this`funcs, heap, heap.bytes
      ensures Valid()
      ensures var fs := EntriesAt(tail, heapLen, n);
              match CheckState(heapLen, fs, codeLen)
              case Good(_) =>
                && err.None? && heap.top == POOL_SLOTS + heapLen
                && heap.bytes[POOL_SLOTS..heap.top] == tail[..heapLen] && funcs == fs
                && (Pictures(tail[..heapLen], h) ==> heap.Valid() && heap.blocks == h)
              case Bad(e) => err == Some(e) && unchanged(this) && unchanged(heap) && unchanged(heap.bytes)
    {
      hide Pictures, AllLaid;
      assert tail[0..heapLen] == tail[..heapLen];
      err := Restore(tail, 0, heapLen, heapLen, n, codeLen, h);
    }
  }

  /** Copy `src` into `out` from `pos` on. */
  method CopyOut(out: array<Byte>, pos: nat, src: seq<Byte>) returns (end: nat)
    requires pos + |src| <= out.Length
    modifies out
    ensures end == pos + |src| && out[..end] == old(out[..pos]) + src && out[end..] == old(out[end..])
  {
    var i := 0;
    while i < |src|
      invariant 0 <= i <= |src| && out[..pos + i] == old(out[..pos]) + src[..i]
      invariant out[pos + |src|..] == old(out[pos + |src|..])
    {
      out[pos + i] := src[i];
      assert out[..pos + i + 1] == out[..pos + i] + [src[i]];
      assert src[..i + 1] == src[..i] + [src[i]];
      i := i + 1;
    }
    assert src[..|src|] == src;
    end := pos + |src|;
  }

  // ----- writing (swb.c) -----

  /** Where swb_write_stream sends its chunks: a file that takes `room` more of them. */
  class Sink {
    var written: seq<Byte>
    var room: nat

    constructor (capacity: nat)
      ensures written == [] && room == capacity
    {
      written, room := [], capacity;
    }

    method Put(chunk: seq<Byte>) returns (ok: bool)
      modifies this
      ensures ok == (old(room) > 0) && written == if ok then old(written) + chunk else old(written)
    {
      ok := room > 0;
      if ok {
        written, room := written + chunk, room - 1;
      }
    }
  }

  /** The program in the compile buffer `bc`, with the heap and function table of `state`. */
  ghost function ProgramOf(bc: PagedBuffer.Paged, start: nat, state: Runtime): (p: Program)
    reads bc, bc.window, state, state.heap, state.heap.bytes
    requires bc.Valid() && state.Valid()
    ensures |p.heap| == state.heap.top - POOL_SLOTS
  {
    Program(bc.Contents().code, start, state.heap.bytes[POOL_SLOTS..state.heap.top], state.funcs)
  }

  /** swb_write. The flushed part of the bytecode comes from the store, the rest from the window. */
  method Write(bc: PagedBuffer.Paged, start: U16, state: Runtime, out: array<Byte>) returns (err: Option<SwbErr>, len: nat)
    requires bc.Valid() && state.Valid() && Sized(ProgramOf(bc, start, state))
    requires out != bc.window && out != state.heap.bytes
    modifies out
    ensures var p := old(ProgramOf(bc, start, state));
            var total := HEADER_BYTES + |p.code| + |p.heap| + RECORD_BYTES * |p.funcs|;
            if total > out.Length then err == Some(OutFull) && unchanged(out)
            else err.None? && len == total && out[..len] == FileOf(p, 0)
  {
    ghost var p := ProgramOf(bc, start, state);
    var heapImage := state.heap.ConstImage();
    var count := |state.funcs|;
    len := 0;
    if HEADER_BYTES + bc.pos + |heapImage| + RECORD_BYTES * count > out.Length {
      return Some(OutFull), 0;
    }
    len := CopyOut(out, 0, HeaderBytes(start, bc.pos, |heapImage|, count, 0));
    len := CopyOut(out, len, bc.store);
    len := CopyOut(out, len, bc.window[..bc.pos - |bc.store|]);
    len := CopyOut(out, len, heapImage);
    assert out[..len] == HeaderBytes(start, |p.code|, |p.heap|, count, 0) + p.code + p.heap;
    len := CopyRecords(state.funcs, out, len);
    err := None;
  }

  method CopyRecords(funcs: seq<Entry>, out: array<Byte>, pos: nat) returns (end: nat)
    requires pos + RECORD_BYTES * |funcs| <= out.Length
    modifies out
    ensures end == pos + RECORD_BYTES * |funcs| && out[..end] == old(out[..pos]) + Records(funcs)
  {
    end := pos;
    var i := 0;
    assert funcs[..0] == [];
    while i < |funcs|
      invariant 0 <= i <= |funcs| && end == pos + RECORD_BYTES * i
      invariant out[..end] == old(out[..pos]) + Records(funcs[..i])
    {
      assert funcs[..i + 1][..i] == funcs[..i];
      end := CopyOut(out, end, RecordBytes(funcs[i]));
      i := i + 1;
    }
    assert funcs[..|funcs|] == funcs;
  }

  /** Send the part of `file` behind `done`; an empty part is not sent. */
  method Send(sink: Sink, part: seq<Byte>, ghost before: seq<Byte>, ghost done: seq<Byte>, ghost file: seq<Byte>) returns (ok: bool)
    requires sink.written == before + done && done + part <= file
    modifies sink
    ensures before <= sink.written <= before + file
    ensures ok ==> sink.written == before + (done + part)
  {
    Onward(before, done, part, file);
    ok := true;
    if |part| > 0 {
      ok := sink.Put(part);
    }
  }

  lemma {:induction false} Onward(before: seq<Byte>, done: seq<Byte>, part: seq<Byte>, file: seq<Byte>)
    requires done + part <= file
    ensures before <= before + done <= before + file && before <= before + (done + part) <= before + file
    ensures before + done + part == before + (done + part)
  {
    assert done <= file;
  }

  /** The flushed bytecode goes through a small buffer. */
  method SendInChunks(sink: Sink, part: seq<Byte>, ghost before: seq<Byte>, ghost done: seq<Byte>, ghost file: seq<Byte>)
    returns (ok: bool)
    requires sink.written == before + done && done + part <= file
    modifies sink
    ensures before <= sink.written <= before + file
    ensures ok ==> sink.written == before + (done + part)
  {
    var off := 0;
    ok := true;
    assert done + part[..0] == done;
    Onward(before, done, part[..0], file);
    while off < |part| && ok
      invariant 0 <= off <= |part| && before <= sink.written <= before + file
      invariant ok ==> sink.written == before + (done + part[..off])
    {
      var n := if |part| - off > CHUNK then CHUNK else |part| - off;
      assert done + part[..off] + part[off..off + n] == done + part[..off + n];
      assert part == part[..off + n] + part[off + n..] && done + part == done + part[..off + n] + part[off + n..];
      ok := Send(sink, part[off..off + n], before, done + part[..off], file);
      off := off + n;
    }
    if ok {
      assert part[..off] == part;
    }
  }

  method SendRecords(sink: Sink, funcs: seq<Entry>, ghost before: seq<Byte>, ghost done: seq<Byte>, ghost file: seq<Byte>)
    returns (ok: bool)
    requires sink.written == before + done && done + Records(funcs) <= file
    modifies sink
    ensures before <= sink.written <= before + file
    ensures ok ==> sink.written == before + (done + Records(funcs))
  {
    hide RecordBytes;
    var i := 0;
    ok := true;
    assert funcs[..0] == [] && done + Records(funcs[..0]) == done;
    Onward(before, done, [], file);
    while i < |funcs| && ok
      invariant 0 <= i <= |funcs| && before <= sink.written <= before + file
      invariant ok ==> sink.written == before + (done + Records(funcs[..i]))
    {
      assert funcs[..i + 1][..i] == funcs[..i];
      RecordsPrefix(funcs, i + 1);
      assert done + Records(funcs[..i]) + RecordBytes(funcs[i]) == done + Records(funcs[..i + 1]);
      ok := Send(sink, RecordBytes(funcs[i]), before, done + Records(funcs[..i]), file);
      i := i + 1;
    }
    if ok {
      assert funcs[..i] == funcs;
    }
  }

  /** swb_write_stream: the same bytes, without ever holding the whole file. */
  method WriteStream(bc: PagedBuffer.Paged, start: U16, state: Runtime, sink: Sink) returns (err: Option<SwbErr>)
    requires bc.Valid() && state.Valid() && Sized(ProgramOf(bc, start, state))
    modifies sink
    ensures var file := FileOf(ProgramOf(bc, start, state), 0);
            match err
            case None => sink.written == old(sink.written) + file
            case Some(e) => e == Io && old(sink.written) <= sink.written <= old(sink.written) + file
  {
    ghost var p, before := ProgramOf(bc, start, state), sink.written;
    var heapImage := state.heap.ConstImage();
    var resident := bc.window[..bc.pos - |bc.store|];
    var header := HeaderBytes(start, bc.pos, |heapImage|, |state.funcs|, 0);
    ghost var file, records := FileOf(p, 0), Records(state.funcs);
    assert file == header + bc.store + resident + heapImage + records;
    hide HeaderBytes, Records, FileOf;
    Parts(header, bc.store, resident, heapImage, records, file);
    assert before + [] == before;
    var ok := Send(sink, header, before, [], file);
    if ok {
      ok := SendInChunks(sink, bc.store, before, header, file);
    }
    if ok {
      ok := Send(sink, resident, before, header + bc.store, file);
    }
    if ok {
      ok := Send(sink, heapImage, before, header + bc.store + resident, file);
    }
    if ok {
      ok := SendRecords(sink, state.funcs, before, header + bc.store + resident + heapImage, file);
    }
    err := if ok then None else Some(Io);
  }

  lemma {:induction false} Parts(a: seq<Byte>, b: seq<Byte>, c: seq<Byte>, d: seq<Byte>, e: seq<Byte>, file: seq<Byte>)
    requires file == a + b + c + d + e
    ensures [] + a == a && a <= file && a + b <= file && a + b + c <= file && a + b + c + d <= file
  {
  }

  lemma {:induction false} RecordsPrefix(funcs: seq<Entry>, i: nat)
    requires i <= |funcs|
    ensures Records(funcs[..i]) <= Records(funcs)
    decreases |funcs|
  {
    if i == |funcs| {
      assert funcs[..i] == funcs;
    } else {
      RecordsPrefix(funcs[..|funcs| - 1], i);
      assert funcs[..|funcs| - 1][..i] == funcs[..i];
    }
  }

  // ----- the two sides agree -----

  lemma {:induction false} WordRead(s: seq<Byte>, at: nat, w: U16)
    requires at + 2 <= |s|
    ensures s[at..at + 2] == Le16(w) <==> WordAt(s, at) == w
  {
    WordOfLe16(w);
    var two := s[at..at + 2];
    assert two == [s[at], s[at + 1]];
    WordValue(s[at], s[at + 1]);
    assert Le16(Word(s[at], s[at + 1])) == two;
  }

  /** The bytes of the records, and the records in the bytes. */
  lemma {:induction false} RecordsRead(s: seq<Byte>, at: nat, funcs: seq<Entry>)
    requires at + RECORD_BYTES * |funcs| <= |s|
    ensures s[at..at + RECORD_BYTES * |funcs|] == Records(funcs) <==> EntriesAt(s, at, |funcs|) == funcs
    decreases |funcs|
  {
    if funcs == [] {
      assert s[at..at] == [];
    } else {
      var n := |funcs| - 1;
      var low, f, last := funcs[..n], funcs[n], at + RECORD_BYTES * n;
      RecordsRead(s, at, low);
      RecordRead(s, last, f);
      assert s[at..last + RECORD_BYTES] == s[at..last] + s[last..last + RECORD_BYTES];
      var es := EntriesAt(s, at, n + 1);
      assert es[..n] == EntriesAt(s, at, n);
      assert funcs == low + [f] && es == es[..n] + [es[n]];
      assert Records(funcs) == Records(low) + RecordBytes(f);
      SplitEqual(s[at..last], s[last..last + RECORD_BYTES], Records(low), RecordBytes(f));
    }
  }

  lemma {:induction false} SplitEqual(a: seq<Byte>, b: seq<Byte>, c: seq<Byte>, d: seq<Byte>)
    requires |a| == |c|
    ensures a + b == c + d <==> a == c && b == d
  {
    if a + b == c + d {
      assert a == (a + b)[..|a|] == (c + d)[..|c|] == c;
      assert b == (a + b)[|a|..] == (c + d)[|c|..] == d;
    }
  }

  lemma {:induction false} RecordRead(s: seq<Byte>, at: nat, f: Entry)
    requires at + RECORD_BYTES <= |s|
    ensures s[at..at + RECORD_BYTES] == RecordBytes(f) <==> EntryAt(s, at) == f
  {
    hide Le16, Word;
    WordRead(s, at, f.start);
    assert s[at..at + RECORD_BYTES] == s[at..at + 2] + [s[at + 2], s[at + 3]];
    SplitEqual(s[at..at + 2], [s[at + 2], s[at + 3]], Le16(f.start), [f.params, f.ret]);
  }

  lemma {:induction false} HeaderRead(s: seq<Byte>, start: U16, codeLen: U16, heapLen: U16, count: Byte, reserved: Byte)
    requires |s| >= HEADER_BYTES
    ensures s[..HEADER_BYTES] == HeaderBytes(start, codeLen, heapLen, count, reserved) <==>
              (s[..3] == MAGIC && s[3] == SWB_VERSION && WordAt(s, 4) == start && WordAt(s, 6) == codeLen
               && WordAt(s, 8) == heapLen && s[10] == count && s[11] == reserved)
  {
    hide Le16, Word;
    WordRead(s, 4, start);
    WordRead(s, 6, codeLen);
    WordRead(s, 8, heapLen);
    var h := HeaderBytes(start, codeLen, heapLen, count, reserved);
    assert h[..3] == MAGIC && h[4..6] == Le16(start) && h[6..8] == Le16(codeLen) && h[8..10] == Le16(heapLen);
    var t := s[..HEADER_BYTES];
    assert t == s[..3] + [s[3]] + s[4..6] + s[6..8] + s[8..10] + [s[10], s[11]];
    assert t[..3] == s[..3] && t[4..6] == s[4..6] && t[6..8] == s[6..8] && t[8..10] == s[8..10] && t[10] == s[10] && t[11] == s[11];
  }

  /** `s` is the file of `p` with something behind it. */
  ghost predicate Carries(s: seq<Byte>, p: Program) {
    Sized(p) && exists reserved: Byte :: FileOf(p, reserved) <= s
  }

  /** A file is that of `p` exactly when its sections are those of `p`. */
  lemma {:induction false} SectionsRead(s: seq<Byte>, p: Program, reserved: Byte)
    requires Sized(p)
    requires HEADER_BYTES + |p.code| + |p.heap| + RECORD_BYTES * |p.funcs| <= |s|
    ensures var heapAt := HEADER_BYTES + |p.code|;
            var funcsAt := heapAt + |p.heap|;
            FileOf(p, reserved) <= s <==>
              (s[..HEADER_BYTES] == HeaderBytes(p.start, |p.code|, |p.heap|, |p.funcs|, reserved)
               && s[HEADER_BYTES..heapAt] == p.code && s[heapAt..funcsAt] == p.heap
               && EntriesAt(s, funcsAt, |p.funcs|) == p.funcs)
  {
    hide HeaderBytes, Records, EntriesAt;
    var heapAt := HEADER_BYTES + |p.code|;
    var funcsAt := heapAt + |p.heap|;
    var end := funcsAt + RECORD_BYTES * |p.funcs|;
    RecordsRead(s, funcsAt, p.funcs);
    var header := HeaderBytes(p.start, |p.code|, |p.heap|, |p.funcs|, reserved);
    FourParts(s[..end], s[..HEADER_BYTES], s[HEADER_BYTES..heapAt], s[heapAt..funcsAt], s[funcsAt..end],
              header, p.code, p.heap, Records(p.funcs));
    assert FileOf(p, reserved) <= s <==> s[..end] == FileOf(p, reserved);
  }

  lemma {:induction false} FourParts(s: seq<Byte>, a: seq<Byte>, b: seq<Byte>, c: seq<Byte>, d: seq<Byte>,
                                     a': seq<Byte>, b': seq<Byte>, c': seq<Byte>, d': seq<Byte>)
    requires s == a + b + c + d && |a| == |a'| && |b| == |b'| && |c| == |c'|
    ensures s == a' + b' + c' + d' <==> a == a' && b == b' && c == c' && d == d'
  {
    SplitEqual(a + b + c, d, a' + b' + c', d');
    SplitEqual(a + b, c, a' + b', c');
    SplitEqual(a, b, a', b');
  }

  /** Opening succeeds exactly on the files of loadable programs, whatever stands in the reserved byte and
    * behind the last record, and yields the program that was written. */
  lemma {:induction false} OpensExactly(s: seq<Byte>, p: Program)
    ensures Open(s) == Good(p) <==> Loadable(p) && Carries(s, p)
  {
    hide EntriesAt, HeaderBytes, FileOf;
    if Open(s) == Good(p) {
      OpenedIsWritten(s, p);
    }
    if Loadable(p) && Carries(s, p) {
      var reserved: Byte :| FileOf(p, reserved) <= s;
      WrittenOpens(s, p, reserved);
    }
  }

  lemma {:induction false} OpenedIsWritten(s: seq<Byte>, p: Program)
    requires Open(s) == Good(p)
    ensures Loadable(p) && Carries(s, p)
  {
    hide HeaderBytes, FileOf;
    var h := ParseHeader(s).value;
    assert p == ProgramIn(s, h) && CheckState(h.heapLen, p.funcs, h.codeLen).Good?;
    HeaderRead(s, h.start, h.codeLen, h.heapLen, h.count, s[11]);
    SectionsRead(s, p, s[11]);
  }

  lemma {:induction false} WrittenOpens(s: seq<Byte>, p: Program, reserved: Byte)
    requires Loadable(p) && FileOf(p, reserved) <= s
    ensures Open(s) == Good(p)
  {
    hide HeaderBytes, EntriesAt;
    SectionsRead(s, p, reserved);
    HeaderRead(s, p.start, |p.code|, |p.heap|, |p.funcs|, reserved);
    var h := Header(p.start, |p.code|, |p.heap|, |p.funcs|);
    assert ParseHeader(s) == Good(h);
    assert ProgramIn(s, h) == p;
  }

  /** The Runner that pages its bytecode reads the header first and the tail later. On a complete file it
    * accepts what the other one accepts, and loads the same state. */
  lemma {:induction false} PagedLoadAgrees(s: seq<Byte>)
    requires |s| >= HEADER_BYTES
    ensures match HeaderInfo(s[..HEADER_BYTES])
            case Bad(_) => Open(s).Bad?
            case Good(h) =>
              HEADER_BYTES + h.codeLen + h.heapLen + RECORD_BYTES * h.count <= |s| ==>
                var heapAt := HEADER_BYTES + h.codeLen;
                var tail := s[heapAt..heapAt + h.heapLen + RECORD_BYTES * h.count];
                var fs := EntriesAt(tail, h.heapLen, h.count);
                Open(s) == match CheckState(h.heapLen, fs, h.codeLen)
                           case Bad(e) => Bad(e)
                           case Good(_) => Good(Program(s[HEADER_BYTES..heapAt], h.start, tail[..h.heapLen], fs))
  {
    hide Word;
    var head := s[..HEADER_BYTES];
    assert head[..3] == s[..3] && WordAt(head, 4) == WordAt(s, 4) && WordAt(head, 6) == WordAt(s, 6) && WordAt(head, 8) == WordAt(s, 8);
    if HeaderInfo(head).Good? {
      var h := HeaderInfo(head).value;
      var heapAt, funcsAt := HEADER_BYTES + h.codeLen, HEADER_BYTES + h.codeLen + h.heapLen;
      if funcsAt + RECORD_BYTES * h.count <= |s| {
        var tail := s[heapAt..funcsAt + RECORD_BYTES * h.count];
        assert tail[..h.heapLen] == s[heapAt..funcsAt];
        assert EntriesAt(tail, h.heapLen, h.count) == EntriesAt(s, funcsAt, h.count);
      }
    }
  }

  /** A file cut short in any section is refused. */
  lemma {:induction false} TruncatedRefused(p: Program, reserved: Byte, n: nat)
    requires Sized(p) && n < |FileOf(p, reserved)|
    ensures Open(FileOf(p, reserved)[..n]) == Bad(Truncated)
  {
    hide HeaderBytes, Records;
    var file := FileOf(p, reserved);
    var s := file[..n];
    if n >= HEADER_BYTES {
      assert s[..HEADER_BYTES] == file[..HEADER_BYTES] == HeaderBytes(p.start, |p.code|, |p.heap|, |p.funcs|, reserved);
      HeaderRead(s, p.start, |p.code|, |p.heap|, |p.funcs|, reserved);
    }
  }

  /** What the Compiler writes the Runner reads: the program, and the heap it had. */
  method WriteThenRead(bc: PagedBuffer.Paged, start: U16, state: Runtime, file: array<Byte>, runner: Runtime, code: array<Byte>)
    returns (r: Result<Program>)
    requires bc.Valid() && state.Valid() && state.heap.Valid() && runner.Valid() && Sized(ProgramOf(bc, start, state))
    requires file != bc.window && file != state.heap.bytes && runner != state && runner.heap != state.heap
    requires runner.heap.bytes != state.heap.bytes && runner.heap.bytes != bc.window && code != file
    requires code != runner.heap.bytes && code != state.heap.bytes && code != bc.window && file != runner.heap.bytes
    modifies file, runner`funcs, runner.heap, runner.heap.bytes, code
    ensures runner.Valid()
    ensures var p := old(ProgramOf(bc, start, state));
            Loadable(p) ==> r == if |FileOf(p, 0)| > file.Length then Bad(OutFull)
                                 else if |p.code| > code.Length then Bad(BcCap)
                                 else Good(p)
    ensures r.Good? ==> r.value == old(ProgramOf(bc, start, state)) && Loadable(r.value)
    ensures r.Good? ==> runner.Holds(r.value) && code[..|r.value.code|] == r.value.code
    ensures r.Good? ==> runner.heap.Valid() && runner.heap.blocks == old(state.heap.blocks)
  {
    hide HeaderBytes, EntriesAt, Open, Pictures, AllLaid, Records;
    ghost var p := ProgramOf(bc, start, state);
    ImageTaken(state.heap.bytes[..], state.heap.blocks);
    assert state.heap.bytes[..][POOL_SLOTS..state.heap.top] == p.heap;
    var err, len := Write(bc, start, state, file);
    if err.Some? {
      return Bad(err.value);
    }
    var s := file[..len];
    r := runner.Read(s, code, state.heap.blocks);
    FileBack(p, s, r, code.Length);
  }

  lemma {:induction false} FileBack(p: Program, s: seq<Byte>, r: Result<Program>, cap: nat)
    requires Sized(p) && s == FileOf(p, 0)
    requires r == (if ParseHeader(s).Good? && ParseHeader(s).value.codeLen > cap then Bad(BcCap) else Open(s))
    ensures r.Good? ==> r.value == p && Loadable(p)
    ensures Loadable(p) ==> r == if |p.code| > cap then Bad(BcCap) else Good(p)
  {
    hide HeaderBytes, EntriesAt, Records;
    var h := Header(p.start, |p.code|, |p.heap|, |p.funcs|);
    SectionsRead(s, p, 0);
    HeaderRead(s, p.start, |p.code|, |p.heap|, |p.funcs|, 0);
    assert ParseHeader(s).Good? ==> ParseHeader(s).value == h && ProgramIn(s, h) == p;
    if r.Good? {
      OpenedIsWritten(s, p);
    }
    if Loadable(p) {
      WrittenOpens(s, p, 0);
    }
  }
}
