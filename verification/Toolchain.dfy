/** The whole chain: compile, write the `.swb` file, load it, and interpret it through the bytecode window. */
module Toolchain {
  import opened Bytes
  import opened Values
  import opened Syntax
  import opened Sessions
  import opened Programs
  import Compiler
  import HeapStore
  import Runs
  import CodeGen
  import Swb = SwbImage
  import opened PagedBuffer
  import opened Rotation
  import VirtualMachine
  import M = Machine

  function FileEntry(f: M.FuncEntry): Swb.Entry {
    Swb.Entry(f.start, f.params, if f.hasReturn then 1 else 0)
  }

  function TableEntry(f: Swb.Entry): M.FuncEntry {
    M.FuncEntry(f.start, f.params, f.ret != 0)
  }

  /** What the file of a compiled program holds. The statements modelled here leave no constants on the heap. */
  function ProgramFor(img: M.Image, start: nat): Swb.Program {
    Swb.Program(img.code, start, [], seq(|img.funcs|, i requires 0 <= i < |img.funcs| => FileEntry(img.funcs[i])))
  }

  lemma {:induction false} CompiledLoads(items: seq<Item>)
    requires Compiled(items)
    ensures Swb.Loadable(ProgramFor(ImageOf(items), EntryOf(items)))
  {
    hide SessionAfter, ItemsOk, ItemsCareful, TopCode, FuncCtxs, Functions;
    ProgramReady(items);
    var k := LinkedOf(items);
    forall i | 0 <= i < |k.img.funcs|
      ensures k.img.funcs[i].start < |k.img.code|
    {
      assert FuncReady(k, i);
    }
  }

  lemma {:induction false} FinishedInPlace(all: seq<Byte>, arena: nat)
    requires arena <= |all|
    ensures Rotated(all, arena, arena, |all|) == all
  {
  }

  /** Bring `code` into a paged buffer with a window of `page` bytes. The code before each of `marks` is finished, so
    * it is flushed when the window needs the room. */
  method IntoBuffer(code: seq<Byte>, marks: seq<nat>, page: nat) returns (bc: Paged, full: bool)
    requires page > 0
    ensures fresh(bc) && fresh(bc.window) && bc.Valid() && (!full ==> bc.Contents().code == code)
    ensures |code| <= page && |code| <= 0xFFFF ==> !full
  {
    hide Rotated;
    bc := new Paged(page, 0xFFFF);
    full := false;
    var i := 0;
    while i < |code| && !full
      invariant bc.Valid() && fresh(bc) && fresh(bc.window) && i <= |code|
      invariant !full ==> bc.Contents().code == code[..i] && bc.pos == i
      invariant bc.window.Length == page && bc.cap == 0xFFFF && (|code| <= page && |code| <= 0xFFFF ==> !full)
    {
      if i in marks {
        FinishedInPlace(code[..i], bc.arena);
        var place := bc.Rotate(bc.arena, bc.pos - bc.arena);
      }
      var ok := bc.Append(code[i]);
      assert code[..i + 1] == code[..i] + [code[i]];
      full := !ok;
      i := i + 1;
    }
    assert code[..|code|] == code;
  }

  /** Fill the function table of a runtime. */
  method IntoTable(entries: seq<Swb.Entry>) returns (state: Swb.Runtime, ok: bool)
    ensures fresh(state) && fresh(state.heap) && fresh(state.heap.bytes) && state.Valid() && state.heap.top == POOL_SLOTS
    ensures ok <==> |entries| <= CodeGen.MAX_FUNCS
    ensures ok ==> state.funcs == entries
  {
    hide HeapStore.AllLaid;
    state := new Swb.Runtime();
    ok := true;
    var i := 0;
    while i < |entries|
      invariant ok && i <= |entries| && i <= CodeGen.MAX_FUNCS && state.Valid() && state.funcs == entries[..i]
      invariant fresh(state) && fresh(state.heap) && fresh(state.heap.bytes) && state.heap.top == POOL_SLOTS
    {
      ok := state.AddRuntime(entries[i]);
      if !ok {
        return;
      }
      assert entries[..i + 1] == entries[..i] + [entries[i]];
      i := i + 1;
    }
    assert entries[..|entries|] == entries;
  }

  /** Load a file as the paging Runner does: the header first, then the part behind the bytecode, which itself stays
    * in the file. */
  method LoadPaged(s: seq<Byte>) returns (r: Swb.Result<Swb.Program>)
    ensures if Swb.Open(s).Good? then r == Swb.Open(s) else r.Bad?
  {
    hide Swb.Open, Swb.HeaderInfo, Swb.EntriesAt, Swb.CheckState;
    if |s| < Swb.HEADER_BYTES {
      TooShort(s);
      return Swb.Bad(Swb.Truncated);
    }
    Swb.PagedLoadAgrees(s);
    var head := Swb.HeaderInfo(s[..Swb.HEADER_BYTES]);
    if head.Bad? {
      return Swb.Bad(head.err);
    }
    var h := head.value;
    var heapAt := Swb.HEADER_BYTES + h.codeLen;
    var end := heapAt + h.heapLen + Swb.RECORD_BYTES * h.count;
    if end > |s| {
      CutShort(s, h);
      return Swb.Bad(Swb.Truncated);
    }
    r := LoadBehind(s[Swb.HEADER_BYTES..heapAt], s[heapAt..end], h);
  }

  /** The second part: `tail` is what the file has behind the bytecode. */
  method LoadBehind(code: seq<Byte>, tail: seq<Byte>, h: Swb.Header) returns (r: Swb.Result<Swb.Program>)
    requires h.heapLen + Swb.RECORD_BYTES * h.count == |tail|
    ensures var fs := Swb.EntriesAt(tail, h.heapLen, h.count);
            r == match Swb.CheckState(h.heapLen, fs, h.codeLen)
                 case Bad(e) => Swb.Bad(e)
                 case Good(_) => Swb.Good(Swb.Program(code, h.start, tail[..h.heapLen], fs))
  {
    hide Swb.EntriesAt, Swb.CheckState, HeapStore.Pictures, HeapStore.AllLaid;
    var runner := new Swb.Runtime();
    var err := runner.LoadTail(tail, h.heapLen, h.count, h.codeLen, []);
    if err.Some? {
      return Swb.Bad(err.value);
    }
    r := Swb.Good(Swb.Program(code, h.start, runner.heap.bytes[POOL_SLOTS..runner.heap.top], runner.funcs));
  }

  lemma {:induction false} TooShort(s: seq<Byte>)
    requires |s| < Swb.HEADER_BYTES
    ensures Swb.Open(s).Bad?
  {
  }

  lemma {:induction false} CutShort(s: seq<Byte>, h: Swb.Header)
    requires |s| >= Swb.HEADER_BYTES && Swb.HeaderInfo(s[..Swb.HEADER_BYTES]) == Swb.Good(h)
    requires Swb.HEADER_BYTES + h.codeLen + h.heapLen + Swb.RECORD_BYTES * h.count > |s|
    ensures Swb.Open(s).Bad?
  {
    var head := s[..Swb.HEADER_BYTES];
    assert Swb.WordAt(head, 4) == Swb.WordAt(s, 4) && Swb.WordAt(head, 6) == Swb.WordAt(s, 6) && Swb.WordAt(head, 8) == Swb.WordAt(s, 8);
  }

  /** Put the program into a paged buffer and a function table, and write the file of at most `room` bytes. */
  method WriteFile(img: M.Image, start: nat, page: nat, room: nat) returns (s: seq<Byte>, ok: bool)
    requires page > 0 && Swb.Loadable(ProgramFor(img, start))
    ensures ok ==> s == Swb.FileOf(ProgramFor(img, start), 0) && |s| <= room
    ensures |img.code| <= page ==> (ok <==> |Swb.FileOf(ProgramFor(img, start), 0)| <= room)
  {
    hide Swb.FileOf;
    var program := ProgramFor(img, start);
    var bc, full := IntoBuffer(img.code, seq(|img.funcs|, i requires 0 <= i < |img.funcs| => img.funcs[i].start as nat) + [start], page);
    var state, fits := IntoTable(program.funcs);
    s, ok := [], !full && fits;
    if ok {
      var file := new Byte[room];
      assert Swb.ProgramOf(bc, start, state) == program;
      var err, len := Swb.Write(bc, start, state, file);
      ok := err.None?;
      if ok {
        s := file[..len];
      }
    }
  }

  /** Compile `items`; carry the program over in a file of at most `room` bytes, through a paged buffer with a window
    * of `page` bytes; load the file as the paging Runner does; and run it for at most `turns` instructions with a
    * bytecode window of `size` bytes. Unless the stack or the call frames fill up, a run that ends has ended as the
    * program means to. */
  method CompileAndRun(items: seq<Item>, capacity: nat, page: nat, room: nat, size: nat, turns: nat)
    returns (fault: Option<Compiler.Fault>, err: Option<M.Err>, globals: seq<Option<Value>>, out: seq<seq<Byte>>)
    requires Compiler.ProgramWritable(items) && 0 < page && 3 <= size && Compiled(items)
    ensures fault.None? ==> match err
            case None => M.Run(ImageOf(items), StartOf(items, []), turns).Running?
            case Some(e) => Runs.StopsAs(M.Run(ImageOf(items), StartOf(items, []), turns), e, globals, out)
    ensures fault.None? && err.Some? && !Runs.Overflows(ImageOf(items), StartOf(items, [])) ==>
              Means(items, err.value, globals, out, turns)
    ensures fault != Some(Compiler.Rejected)
  {
    hide ItemsOk, ItemsCareful, SessionAfter;
    assert ItemsOk(items, FRESH);
    hide Means, Compiled, ImageOf, EntryOf, M.Run, Swb.FileOf, Swb.Open, Swb.Loadable;
    err, globals, out := None, [], [];
    var code, start, entries;
    fault, code, start, entries := Compiler.CompileProgram(items, capacity);
    if fault.Some? {
      return;
    }
    CompiledLoads(items);
    var file, ok := WriteFile(M.Image(code, entries), start, page, room);
    if !ok {
      fault := Some(Compiler.Limit);
      return;
    }
    Swb.WrittenOpens(file, ProgramFor(M.Image(code, entries), start), 0);
    var loaded := LoadPaged(file);
    err, globals, out := RunLoaded(loaded.value, items, size, turns);
  }

  /** Run a program that has been loaded. */
  method RunLoaded(p: Swb.Program, ghost items: seq<Item>, size: nat, turns: nat)
    returns (err: Option<M.Err>, globals: seq<Option<Value>>, out: seq<seq<Byte>>)
    requires 3 <= size && Compiled(items) && p == ProgramFor(ImageOf(items), EntryOf(items)) && |p.code| <= 0xFFFF
    ensures match err
            case None => M.Run(ImageOf(items), StartOf(items, []), turns).Running?
            case Some(e) => Runs.StopsAs(M.Run(ImageOf(items), StartOf(items, []), turns), e, globals, out)
    ensures err.Some? && !Runs.Overflows(ImageOf(items), StartOf(items, [])) ==> Means(items, err.value, globals, out, turns)
  {
    hide Means, Compiled, ImageOf, EntryOf, M.Run, Runs.Overflows;
    var img := M.Image(p.code, seq(|p.funcs|, i requires 0 <= i < |p.funcs| => TableEntry(p.funcs[i])));
    assert img.funcs == ImageOf(items).funcs;
    var vm := new VirtualMachine.Vm(img, size, CodeGen.MAX_GLOBALS);
    assert vm.globals[..] == NoGlobals();
    err := vm.Execute(p.start, turns);
    globals, out := vm.globals[..], vm.out;
    if err.Some? && !Runs.Overflows(ImageOf(items), StartOf(items, [])) {
      StoppedAsMeant(items, [], err.value, globals, out, turns);
    }
  }

  lemma {:induction false} StoppedAsMeant(items: seq<Item>, heap: Heap, err: M.Err, globals: seq<Option<Value>>, out: seq<seq<Byte>>, n: nat)
    requires Compiled(items) && !Runs.Overflows(ImageOf(items), StartOf(items, heap))
    requires Runs.StopsAs(M.Run(ImageOf(items), StartOf(items, heap), n), err, globals, out)
    ensures Means(items, err, globals, out, n)
  {
    hide M.Run, ImageOf, StartOf, Meaning, Runs.Overflows, Compiled;
    var img, st := ImageOf(items), StartOf(items, heap);
    CompilationPreservesMeaning(items, heap, n);
    var (e, g, o) := EndOf(items, n);
    var m: nat :| Runs.StopsAs(M.Run(img, st, m), e, g, o);
    if n <= m { M.RunStays(img, st, n, m); } else { M.RunStays(img, st, m, n); }
  }
}
