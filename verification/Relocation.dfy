/** Where functions end up does not matter: rotating bodies under code that is already there, or giving each
  * function a place of its own, changes nothing about a run. */
module Relocation {
  import opened Bytes
  import opened Values
  import opened Syntax
  import opened CodeGen
  import opened Runs
  import opened ExprSimulation
  import opened StmtSimulation
  import opened Semantics
  import opened Sessions
  import opened Programs
  import opened Flow
  import opened CodeFlow
  import opened Visits
  import opened PartsInMotion
  import M = Machine

  /** The program `items` laid out in `img` in any way: each function body somewhere, the top-level code with
    * its halt at `entry`, anything in between. */
  ghost predicate Lays(items: seq<Item>, img: M.Image, entry: nat) {
    var fs, ctxs := Functions(items), FuncCtxs(items, FRESH);
    && |img.code| <= 0xFFFF && |ctxs| == |fs| == |img.funcs|
    && CodeAt(img.code, entry, TopCode(items, FRESH) + HALT)
    && forall i :: 0 <= i < |fs| ==> FuncAt(img, fs[i], ctxs[i], i)
  }

  ghost predicate FuncAt(img: M.Image, f: FuncDecl, ctx: Ctx, i: nat) {
    i < |img.funcs| && img.funcs[i].params == |f.params| && CodeAt(img.code, img.funcs[i].start, FuncCode(f, ctx))
  }

  function StartAt(entry: nat, heap: Heap): M.State {
    M.Start(entry, NoGlobals(), heap)
  }

  /** The compiler's own layout is one of them. */
  lemma {:induction false} CompilerLays(items: seq<Item>)
    requires ItemsOk(items, FRESH) && |ImageOf(items).code| <= 0xFFFF
    ensures Lays(items, ImageOf(items), EntryOf(items))
  {
    hide SessionAfter, ItemsOk, TopCode, Functions, FuncCtxs, FuncCode, CodeAt, StmtCode, FuncInPlace;
    var z, img, fs, ctxs := SessionAfter(items, FRESH), ImageOf(items), Functions(items), FuncCtxs(items, FRESH);
    TopPlaced(items);
    FunctionsInPlace(items, FRESH, 0);
    forall i | 0 <= i < |fs|
      ensures FuncAt(img, fs[i], ctxs[i], i)
    {
      FunctionsInPlace(items, FRESH, i);
      EntryPlaced(img, z, TopCode(items, FRESH), fs[i], ctxs[i], i);
    }
  }

  lemma {:induction false} TopPlaced(items: seq<Item>)
    ensures CodeAt(ImageOf(items).code, EntryOf(items), TopCode(items, FRESH) + HALT)
  {
    hide SessionAfter, TopCode;
    var z, top := SessionAfter(items, FRESH), TopCode(items, FRESH);
    assert ImageOf(items).code[|z.arena|..|z.arena| + |top + HALT|] == top + HALT;
  }

  /** The functions of a layout are as ready to be called as those of the compiler's. */
  lemma {:induction false} LaidReady(items: seq<Item>, img: M.Image, entry: nat)
    requires Compiled(items) && Lays(items, img, entry)
    ensures var k := LinkedOf(items).(img := img);
            && Placed(k) && (forall i :: 0 <= i < |k.fs| ==> FuncReady(k, i))
            && (forall i :: 0 <= i < |k.fs| ==> Lookup(k.fs, k.fs[i].name) == Some(i))
  {
    hide SessionAfter, ItemsOk, ItemsCareful, TopCode, Functions, FuncCtxs, FuncCode, StmtCode, Compiled;
    ProgramReady(items);
    var k0 := LinkedOf(items);
    var k := k0.(img := img);
    forall i | 0 <= i < |k.fs|
      ensures img.funcs[i].start < |img.code| && img.funcs[i].params == |k.fs[i].params|
    {
      assert FuncAt(img, k.fs[i], k.ctxs[i], i);
      NonEmpty(k.fs[i], k.ctxs[i]);
    }
    assert Placed(k);
    forall i | 0 <= i < |k.fs|
      ensures FuncReady(k, i) && Lookup(k.fs, k.fs[i].name) == Some(i)
    {
      assert FuncReady(k0, i) && FuncAt(img, k.fs[i], k.ctxs[i], i);
      NamesUnique(items, k0, i);
    }
  }

  /** Started with the top-level code anywhere, a layout is where the simulation of programs begins. */
  lemma {:induction false} LaidPoised(items: seq<Item>, img: M.Image, entry: nat, heap: Heap, fuel: nat)
    requires Compiled(items) && Lays(items, img, entry)
    ensures var k, top := LinkedOf(items).(img := img), TopCode(items, FRESH);
            TopPoised(k, items, FRESH, NOTHING, fuel, StartAt(entry, heap)) && CodeAt(img.code, entry + |top|, HALT)
  {
    hide SessionAfter, FuncReady, Placed, ItemsOk, ItemsCareful, TopCode, Functions, FuncCtxs, CallsSimulated, ImageOf;
    var k, top := LinkedOf(items).(img := img), TopCode(items, FRESH);
    LaidReady(items, img, entry);
    ProgramReady(items);
    SimCalls(k, fuel);
    CodeSplit(img.code, entry, top, HALT);
    assert NoGlobals() == Slots(k, NOTHING);
  }

  /** A program means the same in every layout. */
  lemma {:induction false} RunsAnywhere(items: seq<Item>, img: M.Image, entry: nat, heap: Heap, fuel: nat)
    requires Compiled(items) && Lays(items, img, entry)
    ensures var st := StartAt(entry, heap);
            match Meaning(items, fuel)
            case Normal(_, w) => Halts(img, st, M.Ok, GlobalsOf(items, w), w.out)
            case Failed(err, w) => Halts(img, st, err, GlobalsOf(items, w), w.out)
            case OutOfFuel => RunsFor(img, st, fuel)
            case Broke(_, _) => false
            case Returned(_, _) => false
  {
    hide M.Run, M.Step, Reaches, Halts, RunsFor, CodeAt, Slots, TopPoised, ImageOf, Body, Functions, Compiled, Lays;
    var k, st := LinkedOf(items).(img := img), StartAt(entry, heap);
    LaidPoised(items, img, entry, heap, fuel);
    SimTops(k, items, FRESH, NOTHING, fuel, st);
    var end := entry + |TopCode(items, FRESH)|;
    var o := Meaning(items, fuel);
    if o.Normal? {
      NormalEnd(k, st, end, o, fuel);
      StepHalt(img, Became(k, st, end, [], o.w));
      ReachThenHalt(img, st, Became(k, st, end, [], o.w), M.Ok, Slots(k, o.w), o.w.out);
      SameSlots(k, LinkedOf(items), o.w);
    } else if o.Failed? {
      SameSlots(k, LinkedOf(items), o.w);
    }
  }

  lemma {:induction false} SameSlots(k: Linked, k': Linked, w: World)
    requires k.table == k'.table
    ensures Slots(k, w) == Slots(k', w)
  {
  }

  /** The parts of the program `items`: its main code with the halt, and the code of each function. */
  function PartsOf(items: seq<Item>): Parts {
    var fs, ctxs := Functions(items), FuncCtxs(items, FRESH);
    Parts(TopCode(items, FRESH) + HALT,
          seq(|fs|, i requires 0 <= i < |fs| => if i < |ctxs| then FuncCode(fs[i], ctxs[i]) else []),
          seq(|fs|, i requires 0 <= i < |fs| => |fs[i].params| % 0x100))
  }

  /** Each body whose last byte is taken for a return does end in one: every path through it leaves. */
  predicate Returning(items: seq<Item>) {
    var fs, ctxs := Functions(items), FuncCtxs(items, FRESH);
    forall i :: 0 <= i < |fs| && i < |ctxs| ==>
      LastByteReturns(StmtCode(fs[i].body, ctxs[i], None)) ==> Leaves(fs[i].body)
  }

  /** The machine in parts at the start of the program. */
  function Begin(heap: Heap): Loose {
    Loose(Pos(MainCode, 0), [], 0, [], NoGlobals(), heap, [])
  }

  // ----- the parts of a program are sound -----

  lemma {:induction false} BodyOk(items: seq<Item>, z: Session, i: nat)
    requires ItemsOk(items, z)
    ensures |Functions(items)| == |FuncCtxs(items, z)|
    ensures i < |Functions(items)| ==> FuncOk(Functions(items)[i], FuncCtxs(items, z)[i])
    decreases |items|
  {
    hide FuncOk, AddItem, FuncCtx;
    if items != [] {
      match items[0] {
        case Top(_) => BodyOk(items[1..], AddItem(z, items[0]), i);
        case Func(_) => BodyOk(items[1..], AddItem(z, items[0]), if i > 0 then i - 1 else 0);
      }
    }
  }

  /** Top-level code is left at its end. */
  lemma {:induction false} TopPasses(items: seq<Item>, z: Session)
    requires ItemsOk(items, z) && |TopCode(items, z)| <= 0xFFFF
    ensures Passes(TopCode(items, z))
    decreases |items|
  {
    hide Flows, StmtCode, AddItem, ItemOk, Leaves;
    if items == [] {
      Nothing();
    } else {
      var rest := TopCode(items[1..], AddItem(z, items[0]));
      TopPasses(items[1..], AddItem(z, items[0]));
      match items[0] {
        case Func(_) => assert TopCode(items, z) == rest;
        case Top(s) => StatementPasses(s, z, rest);
      }
    }
  }

  lemma {:induction false} StatementPasses(s: Stmt, z: Session, rest: seq<Byte>)
    requires ItemOk(Top(s), z) && Passes(rest) && |StmtCode(s, TopCtx(z), None)| <= 0xFFFF
    ensures Passes(StmtCode(s, TopCtx(z), None) + rest)
  {
    hide Flows, StmtCode, Leaves;
    var c := StmtCode(s, TopCtx(z), None);
    StmtFlows(s, TopCtx(z), false, false, None);
    Weaken(c, {0}, Outs(Leaves(s), |c|, None), {|c|});
    PassBoth(c, rest);
  }

  /** The halt seals the main code, the void return a body. */
  lemma {:induction false} LastSeals(c: seq<Byte>, last: Byte)
    requires Passes(c) && (last == 0x54 || last == 0x62)
    ensures Sealed(c + [last])
  {
    hide Flows;
    Final(last);
    Then(c, [last], {}, {});
    FlowSeals(c + [last]);
  }

  lemma {:induction false} FlowSeals(c: seq<Byte>)
    requires Flows(c, {0}, {})
    ensures Sealed(c)
  {
    var r :| Closed(c, r, {}) && {0} <= r + {};
    assert 0 in r + {};
  }

  lemma {:induction false} FlowEncloses(c: seq<Byte>)
    requires Flows(c, {0}, {|c|}) && c != []
    ensures Enclosed(c)
  {
    var r :| Closed(c, r, {|c|}) && {0} <= r + {|c|};
    assert 0 in r + {|c|};
  }

  lemma {:induction false} BodyFlows(f: FuncDecl, ctx: Ctx)
    requires FuncOk(f, ctx) && |FuncCode(f, ctx)| <= 0xFFFF
    ensures Enclosed(FuncCode(f, ctx))
    ensures (LastByteReturns(StmtCode(f.body, ctx, None)) ==> Leaves(f.body)) ==> Sealed(FuncCode(f, ctx))
  {
    hide Flows, StmtCode, Leaves, Sealed, Enclosed, Passes;
    var c := StmtCode(f.body, ctx, None);
    StmtFlows(f.body, ctx, false, false, None);
    assert Passes(c) by { EndOnly(c, Leaves(f.body)); }
    if LastByteReturns(c) {
      assert FuncCode(f, ctx) == c;
      assert Flows(c, {0}, {|c|}) by { EndOnly(c, Leaves(f.body)); }
      FlowEncloses(c);
      if Leaves(f.body) {
        assert Outs(true, |c|, None) == {};
        FlowSeals(c);
      }
    } else {
      LastSeals(c, 0x62);
      SealedEncloses(c + [0x62]);
    }
  }

  lemma {:induction false} EndOnly(c: seq<Byte>, leaves: bool)
    requires Flows(c, {0}, Outs(leaves, |c|, None))
    ensures Flows(c, {0}, {|c|}) && Passes(c)
  {
    hide Flows;
    Weaken(c, {0}, Outs(leaves, |c|, None), {|c|});
  }

  lemma {:induction false} LaidParts(items: seq<Item>, img: M.Image, entry: nat)
    requires ItemsOk(items, FRESH) && Lays(items, img, entry)
    ensures Holds(PartsOf(items), img, entry) && Small(PartsOf(items))
  {
    hide StmtCode, TopCode, FuncCtxs, Functions, ItemsOk, LastByteReturns;
    var fs, ctxs, ps := Functions(items), FuncCtxs(items, FRESH), PartsOf(items);
    forall i | 0 <= i < |fs|
      ensures 0 < |ps.bodies[i]| <= 0xFFFF && CodeAt(img.code, img.funcs[i].start, ps.bodies[i]) && img.funcs[i].params == ps.arity[i]
    {
      assert FuncAt(img, fs[i], ctxs[i], i);
      NonEmpty(fs[i], ctxs[i]);
    }
  }

  lemma {:induction false} PartsEnclosed(items: seq<Item>)
    requires ItemsOk(items, FRESH) && Small(PartsOf(items))
    ensures Sound(PartsOf(items)) && (Returning(items) ==> Watertight(PartsOf(items)))
  {
    hide StmtCode, TopCode, FuncCtxs, Functions, ItemsOk, Sealed, Enclosed, Leaves, LastByteReturns, FuncCode, FuncOk, Passes;
    var fs, ctxs, ps := Functions(items), FuncCtxs(items, FRESH), PartsOf(items);
    TopPasses(items, FRESH);
    LastSeals(TopCode(items, FRESH), 0x54);
    SealedEncloses(ps.main);
    BodyOk(items, FRESH, 0);
    forall i | 0 <= i < |fs|
      ensures Enclosed(ps.bodies[i]) && (Returning(items) ==> Sealed(ps.bodies[i]))
    {
      BodyOk(items, FRESH, i);
      assert ps.bodies[i] == FuncCode(fs[i], ctxs[i]) && |ps.bodies[i]| <= 0xFFFF;
      BodyFlows(fs[i], ctxs[i]);
    }
  }

  lemma {:induction false} BeginsDry(items: seq<Item>, heap: Heap)
    requires Sound(PartsOf(items))
    ensures Proper(PartsOf(items), Begin(heap)) && Dry(PartsOf(items), Begin(heap))
  {
    hide Reach, Enclosed, PartsOf;
    ReachCloses(PartsOf(items).main);
  }

  // ----- any two layouts move in step -----

  /** The same but for addresses. */
  ghost predicate Alike(x: M.Status, y: M.Status) {
    && x.Running? == y.Running? && (x.Stopped? ==> x.err == y.err)
    && x.s.stack == y.s.stack && x.s.fp == y.s.fp && x.s.globals == y.s.globals && x.s.heap == y.s.heap && x.s.out == y.s.out
    && |x.s.frames| == |y.s.frames| && forall i :: 0 <= i < |x.s.frames| ==> x.s.frames[i].fp == y.s.frames[i].fp
  }

  lemma {:induction false} PutAlike(a: M.Image, aEntry: nat, b: M.Image, bEntry: nat, m: Motion)
    requires !m.Adrift?
    ensures Alike(PutMotion(a, aEntry, m), PutMotion(b, bEntry, m))
  {
  }

  lemma {:induction false} Started(img: M.Image, entry: nat, heap: Heap)
    ensures Put(img, entry, Begin(heap)) == StartAt(entry, heap)
  {
    hide NoGlobals;
  }

  /** Two layouts of a program, after every number of steps: the same stack, depth of calls, globals, heap and
    * output, the same error if they have stopped. It takes no discipline of the program, and it may run forever or
    * fill up the stack; only no run must have come to the end of a function's code, where what follows depends on
    * the layout. */
  lemma {:induction false} LayoutsInStep(items: seq<Item>, a: M.Image, aEntry: nat, b: M.Image, bEntry: nat, heap: Heap, n: nat)
    requires ItemsOk(items, FRESH) && Lays(items, a, aEntry) && Lays(items, b, bEntry)
    requires !Travel(PartsOf(items), Begin(heap), n).Adrift?
    ensures Alike(M.Run(a, StartAt(aEntry, heap), n), M.Run(b, StartAt(bEntry, heap), n))
  {
    hide M.Run, Lays, ItemsOk, PartsOf, Travel, Alike, PutMotion, Put, StartAt, Begin, Holds, Sound, Proper, Dry, Small, Watertight;
    var ps := PartsOf(items);
    LaidParts(items, a, aEntry);
    LaidParts(items, b, bEntry);
    PartsEnclosed(items);
    BeginsDry(items, heap);
    Started(a, aEntry, heap);
    Started(b, bEntry, heap);
    InStep(ps, a, aEntry, Begin(heap), n);
    InStep(ps, b, bEntry, Begin(heap), n);
    PutAlike(a, aEntry, b, bEntry, Travel(ps, Begin(heap), n));
  }

  /** And no run does come to the end of a function's code when each body whose last byte is taken for a return ends
    * in one: then any two layouts agree after every number of steps. */
  lemma {:induction false} LayoutsAgree(items: seq<Item>, a: M.Image, aEntry: nat, b: M.Image, bEntry: nat, heap: Heap, n: nat)
    requires ItemsOk(items, FRESH) && Lays(items, a, aEntry) && Lays(items, b, bEntry) && Returning(items)
    ensures Alike(M.Run(a, StartAt(aEntry, heap), n), M.Run(b, StartAt(bEntry, heap), n))
  {
    hide M.Run, Lays, ItemsOk, PartsOf, Travel, Alike, StartAt, Begin, Holds, Sound, Proper, Dry, Small, Watertight, Returning;
    LaidParts(items, a, aEntry);
    PartsEnclosed(items);
    BeginsDry(items, heap);
    NeverAdrift(PartsOf(items), Begin(heap), n);
    LayoutsInStep(items, a, aEntry, b, bEntry, heap, n);
  }

  lemma {:induction false} AdriftAt(ps: Parts, s: Loose, n: nat) returns (m: nat, t: Loose)
    requires Travel(ps, s, n).Adrift?
    ensures m < n && Travel(ps, s, m) == Going(t) && t.at.off >= |CodeOf(ps, t.at.unit)|
    decreases n
  {
    hide Perform;
    if Advance(ps, s).Adrift? {
      AdriftEnd(ps, s);
      m, t := 0, s;
    } else {
      var m1, t1 := AdriftAt(ps, Advance(ps, s).s, n - 1);
      m, t := m1 + 1, t1;
    }
  }

  lemma {:induction false} AdriftEnd(ps: Parts, s: Loose)
    requires Advance(ps, s).Adrift?
    ensures s.at.off >= |CodeOf(ps, s.at.unit)|
  {
    hide Perform;
    if s.at.off < |CodeOf(ps, s.at.unit)| {
      var d := InstrAt(CodeOf(ps, s.at.unit), s.at.off);
      Performs(ps, d.instr, s.(at := s.at.(off := s.at.off + d.size)));
    }
  }

  /** If one does, it does in every layout, after the same number of steps and at the end of the same code. */
  lemma {:induction false} EndTogether(items: seq<Item>, a: M.Image, aEntry: nat, b: M.Image, bEntry: nat, heap: Heap, n: nat)
      returns (m: nat, t: Loose)
    requires ItemsOk(items, FRESH) && Lays(items, a, aEntry) && Lays(items, b, bEntry)
    requires Travel(PartsOf(items), Begin(heap), n).Adrift?
    ensures m < n && t.at.off >= |CodeOf(PartsOf(items), t.at.unit)|
    ensures M.Run(a, StartAt(aEntry, heap), m) == M.Running(Put(a, aEntry, t))
    ensures M.Run(b, StartAt(bEntry, heap), m) == M.Running(Put(b, bEntry, t))
  {
    hide M.Run, Lays, ItemsOk, PartsOf, Travel, Put, StartAt, Begin, Holds, Sound, Proper, Dry, Small, Watertight, CodeOf;
    var ps := PartsOf(items);
    LaidParts(items, a, aEntry);
    LaidParts(items, b, bEntry);
    PartsEnclosed(items);
    BeginsDry(items, heap);
    Started(a, aEntry, heap);
    Started(b, bEntry, heap);
    m, t := AdriftAt(ps, Begin(heap), n);
    InStep(ps, a, aEntry, Begin(heap), m);
    InStep(ps, b, bEntry, Begin(heap), m);
  }
}
