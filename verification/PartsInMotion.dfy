/** A program in parts: a machine that keeps the main code and each function body apart and counts positions from
  * the start of a part. Wherever the parts are put, the real machine moves in step with it. */
module PartsInMotion {
  import opened Bytes
  import opened Values
  import opened Syntax
  import opened CodeGen
  import opened Runs
  import opened Flow
  import opened Visits
  import M = Machine

  datatype Parts = Parts(main: seq<Byte>, bodies: seq<seq<Byte>>, arity: seq<Byte>)

  function CodeOf(ps: Parts, u: Unit): seq<Byte> {
    match u
    case MainCode => ps.main
    case FunctionCode(i) => if i < |ps.bodies| then ps.bodies[i] else []
  }

  /** A position `off` bytes into a part. */
  datatype Pos = Pos(unit: Unit, off: nat)
  datatype Caller = Caller(at: Pos, fp: nat)

  /** The state of a machine that knows nothing of addresses. */
  datatype Loose = Loose(at: Pos, stack: seq<Value>, fp: nat, callers: seq<Caller>, globals: seq<Option<Value>>, heap: Heap,
                         out: seq<seq<Byte>>)

  /** Still going, ended, or at the end of a part with nothing known behind it. */
  datatype Motion = Going(s: Loose) | Ended(err: M.Err, s: Loose) | Adrift(s: Loose)

  const NOWHERE := M.Image([], [])

  /** `s` without its positions. */
  function Core(s: Loose): M.State {
    M.State(0, s.stack, s.fp, [], s.globals, s.heap, s.out)
  }

  function WithCore(s: Loose, t: M.State): Loose {
    s.(stack := t.stack, fp := t.fp, globals := t.globals, heap := t.heap, out := t.out)
  }

  /** Instructions that read or change the position. */
  predicate Steers(i: M.Instr) {
    Distance(i).Some? || i.ILoop? || i.ICall? || i.IReturn? || i.IReturnVoid?
  }

  function Jump(s: Loose, off: U16): Loose {
    s.(at := s.at.(off := (s.at.off + off) % 0x1_0000))
  }

  function Popped(s: Loose): Loose
    requires |s.stack| > 0
  {
    s.(stack := s.stack[..|s.stack| - 1])
  }

  function Top(s: Loose): Value
    requires |s.stack| > 0
  {
    s.stack[|s.stack| - 1]
  }

  function JumpWhen(s: Loose, sense: bool, off: U16): Motion {
    if |s.stack| == 0 then Ended(M.StackUnder, s)
    else if !(Top(s).Imm? && Top(s).v.Bool?) then Ended(M.TypeMismatch, s)
    else Going(if Top(s).v.b == sense then Jump(Popped(s), off) else Popped(s))
  }

  /** A nil is popped, anything else stays; one of the two jumps. */
  function JumpNil(s: Loose, whenNil: bool, off: U16): Motion {
    if |s.stack| == 0 then Ended(M.StackUnder, s)
    else
      var t := if IsNil(Top(s)) then Popped(s) else s;
      Going(if IsNil(Top(s)) == whenNil then Jump(t, off) else t)
  }

  function Enter(ps: Parts, s: Loose, f: Byte, argc: Byte): Motion {
    if |s.stack| < argc then Ended(M.StackUnder, s)
    else if f >= |ps.bodies| then Ended(M.BadOpcode, s)
    else if |s.callers| >= M.CALL_FRAMES then Ended(M.StackOver, s)
    else if f >= |ps.arity| || ps.arity[f] != argc then Ended(M.BadOpcode, s)
    else Going(s.(callers := s.callers + [Caller(s.at, s.fp)], fp := |s.stack| - argc, at := Pos(FunctionCode(f), 0)))
  }

  function Leave(s: Loose, upTo: nat, v: Value): Motion
    requires |s.callers| > 0 && upTo <= |s.stack|
  {
    if s.fp > upTo then Ended(M.OutOfModel, s)
    else
      var c := s.callers[|s.callers| - 1];
      var t := s.(heap := ReleaseAll(s.heap, s.stack[s.fp..upTo]), stack := s.stack[..s.fp],
                  callers := s.callers[..|s.callers| - 1], at := c.at, fp := c.fp);
      if |t.stack| >= M.STACK_SLOTS then Ended(M.StackOver, t) else Going(t.(stack := t.stack + [v]))
  }

  /** The effect of `i` on `s`, whose position is already behind the instruction. */
  function Perform(ps: Parts, i: M.Instr, s: Loose): Motion {
    match i
    case IJump(off) => Going(Jump(s, off))
    case IJumpIf(sense, off) => JumpWhen(s, sense, off)
    case ICoalesce(off) => JumpNil(s, false, off)
    case IIfLet(off) => JumpNil(s, true, off)
    case ILoop(back) => if back > s.at.off then Ended(M.BadOpcode, s) else Going(s.(at := s.at.(off := s.at.off - back)))
    case ICall(f, argc) => Enter(ps, s, f, argc)
    case IReturn =>
      if |s.callers| == 0 then Ended(M.BadOpcode, s)
      else if |s.stack| == 0 then Ended(M.StackUnder, s)
      else Leave(s, |s.stack| - 1, Top(s))
    case IReturnVoid =>
      if |s.callers| == 0 then Ended(M.BadOpcode, s) else Leave(s, |s.stack|, Imm(Nil))
    case _ =>
      match M.Exec(NOWHERE, i, Core(s))
      case Running(t) => Going(WithCore(s, t))
      case Stopped(e, t) => Ended(e, WithCore(s, t))
  }

  lemma {:induction false} Performs(ps: Parts, i: M.Instr, s: Loose)
    ensures !Perform(ps, i, s).Adrift?
  {
    hide M.Exec, ReleaseAll;
  }

  function Advance(ps: Parts, s: Loose): Motion {
    var c := CodeOf(ps, s.at.unit);
    if s.at.off >= |c| then Adrift(s)
    else
      var d := InstrAt(c, s.at.off);
      Perform(ps, d.instr, s.(at := s.at.(off := s.at.off + d.size)))
  }

  /** After at most `n` steps. */
  function Travel(ps: Parts, s: Loose, n: nat): Motion
    decreases n
  {
    if n == 0 then Going(s)
    else match Advance(ps, s)
         case Going(t) => Travel(ps, t, n - 1)
         case other => other
  }

  // ----- putting the parts somewhere -----

  /** Each part is somewhere in the image, and the function table says where. */
  ghost predicate Holds(ps: Parts, img: M.Image, entry: nat) {
    && |img.code| <= 0xFFFF && |img.funcs| == |ps.bodies| == |ps.arity|
    && CodeAt(img.code, entry, ps.main)
    && forall i :: 0 <= i < |ps.bodies| ==>
         |ps.bodies[i]| > 0 && CodeAt(img.code, img.funcs[i].start, ps.bodies[i]) && img.funcs[i].params == ps.arity[i]
  }

  /** The state that `s` stands for when the parts are where `img` has them. */
  function Put(img: M.Image, entry: nat, s: Loose): M.State {
    M.State(Base(img, entry, s.at.unit) + s.at.off, s.stack, s.fp, PutCallers(img, entry, s.callers), s.globals, s.heap, s.out)
  }

  function PutCallers(img: M.Image, entry: nat, cs: seq<Caller>): (r: seq<M.Frame>)
    ensures |r| == |cs|
  {
    seq(|cs|, i requires 0 <= i < |cs| => M.Frame(Base(img, entry, cs[i].at.unit) + cs[i].at.off, cs[i].fp))
  }

  function PutMotion(img: M.Image, entry: nat, m: Motion): M.Status
    requires !m.Adrift?
  {
    match m
    case Going(s) => M.Running(Put(img, entry, s))
    case Ended(err, s) => M.Stopped(err, Put(img, entry, s))
  }

  /** Control that enters `c` at its start can only leave it at its end. */
  ghost predicate Enclosed(c: seq<Byte>) {
    exists r :: Closed(c, r, {|c|}) && 0 in r
  }

  /** Control that enters `c` at its start stays in it until the run or the call ends. */
  ghost predicate Sealed(c: seq<Byte>) {
    exists r :: Closed(c, r, {}) && 0 in r
  }

  /** Places that control can reach in `c`. */
  ghost function Reach(c: seq<Byte>): set<int> {
    if Sealed(c) then (var r :| Closed(c, r, {}) && 0 in r; r)
    else if Enclosed(c) then (var r :| Closed(c, r, {|c|}) && 0 in r; r)
    else {}
  }

  lemma {:induction false} SealedEncloses(c: seq<Byte>)
    requires Sealed(c)
    ensures Enclosed(c)
  {
    hide LeadsTo;
    var r :| Closed(c, r, {}) && 0 in r;
    MoreOuts(c, r, {}, {|c|});
  }

  lemma {:induction false} MoreOuts(c: seq<Byte>, r: set<int>, outs: set<int>, more: set<int>)
    requires Closed(c, r, outs) && outs <= more && forall t :: t in more ==> t < 0 || |c| <= t
    ensures Closed(c, r, more)
  {
    hide LeadsTo;
    forall o | o in r
      ensures LeadsTo(c, o, r + more)
    {
      FirstLeads(c, [], o, r + outs, r + more);
      assert c + [] == c;
    }
  }

  lemma {:induction false} ReachCloses(c: seq<Byte>)
    requires Enclosed(c)
    ensures Closed(c, Reach(c), {|c|}) && 0 in Reach(c)
    ensures Sealed(c) ==> Closed(c, Reach(c), {})
  {
    hide LeadsTo, Closed;
    if Sealed(c) {
      MoreOuts(c, Reach(c), {}, {|c|});
    }
  }

  ghost predicate Sound(ps: Parts) {
    Enclosed(ps.main) && forall i :: 0 <= i < |ps.bodies| ==> Enclosed(ps.bodies[i])
  }

  /** A place that control can reach, or the end of its part. */
  ghost predicate Valid(ps: Parts, p: Pos) {
    (p.unit.FunctionCode? ==> p.unit.i < |ps.bodies|)
    && (p.off in Reach(CodeOf(ps, p.unit)) || p.off == |CodeOf(ps, p.unit)|)
  }

  ghost predicate Proper(ps: Parts, s: Loose) {
    Valid(ps, s.at) && forall i :: 0 <= i < |s.callers| ==> Valid(ps, s.callers[i].at)
  }

  ghost predicate CallersProper(ps: Parts, s: Loose) {
    forall i :: 0 <= i < |s.callers| ==> Valid(ps, s.callers[i].at)
  }

  lemma {:induction false} PartInPlace(ps: Parts, img: M.Image, entry: nat, p: Pos)
    requires Holds(ps, img, entry) && Valid(ps, p)
    ensures CodeAt(img.code, Base(img, entry, p.unit), CodeOf(ps, p.unit))
  {
    hide Reach;
  }

  lemma {:induction false} PartSound(ps: Parts, p: Pos)
    requires Sound(ps) && Valid(ps, p)
    ensures Enclosed(CodeOf(ps, p.unit)) && p.off <= |CodeOf(ps, p.unit)|
  {
    hide Reach, Enclosed, LeadsTo;
    assert Enclosed(CodeOf(ps, p.unit));
    ReachInside(CodeOf(ps, p.unit), p.off);
  }

  lemma {:induction false} ReachInside(c: seq<Byte>, o: int)
    requires Enclosed(c)
    ensures o in Reach(c) ==> 0 <= o < |c|
  {
    hide Reach, Enclosed, LeadsTo;
    ReachCloses(c);
  }

  /** The real machine decodes the same instruction. */
  lemma {:induction false} SameFetch(code: seq<Byte>, base: nat, c: seq<Byte>, o: nat)
    requires CodeAt(code, base, c) && o < |c| && !InstrAt(c, o).instr.ITruncated?
    ensures base + o < |code| && M.Decode(M.Fetch(code, base + o)) == InstrAt(c, o)
  {
    hide M.Decode;
    var f, g := M.Fetch(c, o), M.Fetch(code, base + o);
    assert f <= g by {
      assert forall j :: 0 <= j < |f| ==> f[j] == c[o + j] == code[base..base + |c|][o + j];
    }
    DecodePrefix(f, g);
  }

  // ----- instructions that do not steer -----

  /** `r` with another position and other frames. */
  function Elsewhere(r: M.Status, pc: nat, frames: seq<M.Frame>): M.Status {
    match r
    case Running(t) => M.Running(t.(pc := pc, frames := frames))
    case Stopped(e, t) => M.Stopped(e, t.(pc := pc, frames := frames))
  }

  predicate OnHeapOrStack(i: M.Instr) {
    i.IConcat? || i.IInterp? || i.INewArray? || i.IArrayGet? || i.IArraySet? || i.IArrayLen? || i.IArrayAppend? || i.IBuiltin? || i.IArith?
  }

  lemma {:induction false} ObliviousSimple(img: M.Image, i: M.Instr, s: M.State)
    requires !Steers(i) && !OnHeapOrStack(i)
    ensures M.Exec(img, i, s) == Elsewhere(M.Exec(NOWHERE, i, s.(pc := 0, frames := [])), s.pc, s.frames)
  {
    hide Retain, Release, ReleaseAll, SameValue, M.DoArith, M.DoBuiltin, M.DoConcat, M.DoInterp, M.DoNewArray, M.DoArrayGet,
         M.DoArraySet, M.DoArrayLen, M.DoArrayAppend, M.DoCall, M.DoReturn, M.DoReturnVoid;
  }

  lemma {:induction false} ObliviousElement(img: M.Image, i: M.Instr, s: M.State)
    requires i.IArrayGet? || i.IArraySet?
    ensures M.Exec(img, i, s) == Elsewhere(M.Exec(NOWHERE, i, s.(pc := 0, frames := [])), s.pc, s.frames)
  {
    hide Retain, Release, ReleaseAt, ReleaseAll, Alloc, ArrayAt, StrBytes, HeapPtr, M.Immediates;
  }

  lemma {:induction false} ObliviousArray(img: M.Image, i: M.Instr, s: M.State)
    requires i.INewArray? || i.IArrayLen? || i.IArrayAppend?
    ensures M.Exec(img, i, s) == Elsewhere(M.Exec(NOWHERE, i, s.(pc := 0, frames := [])), s.pc, s.frames)
  {
    hide Retain, Release, ReleaseAt, ReleaseAll, Alloc, ArrayAt, StrBytes, HeapPtr, M.Immediates;
  }

  lemma {:induction false} ObliviousNumber(img: M.Image, i: M.Instr, s: M.State)
    requires i.IBuiltin? || i.IArith?
    ensures M.Exec(img, i, s) == Elsewhere(M.Exec(NOWHERE, i, s.(pc := 0, frames := [])), s.pc, s.frames)
  {
    hide Retain, Release, ReleaseAll, Alloc, StrBytes, HeapPtr, LineText, ImmediateText, M.Arith;
  }

  lemma {:induction false} ObliviousText(img: M.Image, i: M.Instr, s: M.State)
    requires i.IConcat? || i.IInterp?
    ensures M.Exec(img, i, s) == Elsewhere(M.Exec(NOWHERE, i, s.(pc := 0, frames := [])), s.pc, s.frames)
  {
    hide Retain, Release, ReleaseAll, Alloc, StrBytes, HeapPtr, LineText, ImmediateText, M.Arith;
  }

  /** Such an instruction looks neither at the position nor at the frames. */
  lemma {:induction false} Oblivious(img: M.Image, i: M.Instr, s: M.State)
    requires !Steers(i)
    ensures M.Exec(img, i, s) == Elsewhere(M.Exec(NOWHERE, i, s.(pc := 0, frames := [])), s.pc, s.frames)
  {
    hide M.Exec, Elsewhere;
    if i.INewArray? || i.IArrayLen? || i.IArrayAppend? {
      ObliviousArray(img, i, s);
    } else if i.IArrayGet? || i.IArraySet? {
      ObliviousElement(img, i, s);
    } else if i.IBuiltin? || i.IArith? {
      ObliviousNumber(img, i, s);
    } else if i.IConcat? || i.IInterp? {
      ObliviousText(img, i, s);
    } else {
      ObliviousSimple(img, i, s);
    }
  }

  lemma {:induction false} DataStep(ps: Parts, img: M.Image, entry: nat, i: M.Instr, s: Loose)
    requires !Steers(i)
    ensures var m := Perform(ps, i, s);
            && !m.Adrift? && M.Exec(img, i, Put(img, entry, s)) == PutMotion(img, entry, m)
            && m.s.at == s.at && m.s.callers == s.callers
  {
    hide M.Exec, Base;
    Oblivious(img, i, Put(img, entry, s));
    assert Put(img, entry, s).(pc := 0, frames := []) == Core(s);
    KeepsFrame(i, Core(s));
  }

  lemma {:induction false} KeepsFrame(i: M.Instr, s: M.State)
    requires !Steers(i)
    ensures M.Exec(NOWHERE, i, s).s.frames == s.frames
  {
    hide M.Exec, Elsewhere;
    Oblivious(NOWHERE, i, s);
    SameFrames(M.Exec(NOWHERE, i, s.(pc := 0, frames := [])), s.pc, s.frames);
  }

  lemma {:induction false} SameFrames(r: M.Status, pc: nat, frames: seq<M.Frame>)
    ensures Elsewhere(r, pc, frames).s.frames == frames
  {
  }

  // ----- jumps -----

  /** Where the part of `p` may be left or entered again: its reachable places and its end. */
  ghost function Goals(ps: Parts, u: Unit): set<int> {
    Reach(CodeOf(ps, u)) + {|CodeOf(ps, u)|}
  }

  /** A jump that hits its part goes to the same place in it, wherever the part is. */
  lemma {:induction false} JumpStep(ps: Parts, img: M.Image, entry: nat, s: Loose, off: U16)
    requires Sound(ps) && Holds(ps, img, entry) && (s.at.unit.FunctionCode? ==> s.at.unit.i < |ps.bodies|)
    requires Hits(Goals(ps, s.at.unit), s.at.off + off)
    ensures M.Branch(img, Put(img, entry, s), off) == M.Running(Put(img, entry, Jump(s, off)))
    ensures Valid(ps, Jump(s, off).at)
  {
    hide Reach, Enclosed;
    var c := CodeOf(ps, s.at.unit);
    var t :| t in Goals(ps, s.at.unit) && (s.at.off + off - t) % 0x1_0000 == 0;
    assert Enclosed(c);
    ReachInside(c, t);
    assert CodeAt(img.code, Base(img, entry, s.at.unit), c);
    Residue(s.at.off + off, t);
    Residue(Base(img, entry, s.at.unit) + s.at.off + off, Base(img, entry, s.at.unit) + t);
  }

  lemma {:induction false} Residue(q: int, t: int)
    requires (q - t) % 0x1_0000 == 0 && 0 <= t < 0x1_0000
    ensures q % 0x1_0000 == t
  {
  }

  /** The position behind the instruction at `s`. */
  function Past(s: Loose, d: M.Decoded): Loose {
    s.(at := s.at.(off := s.at.off + d.size))
  }

  /** What sound parts promise of the instruction at a valid position. */
  lemma {:induction false} AtInstr(ps: Parts, s: Loose)
    requires Sound(ps) && Proper(ps, s) && s.at.off < |CodeOf(ps, s.at.unit)|
    ensures var c := CodeOf(ps, s.at.unit);
            var d := InstrAt(c, s.at.off);
            !d.instr.ITruncated? && LeadsTo(c, s.at.off, Goals(ps, s.at.unit)) && (FallsThrough(d.instr) ==> Proper(ps, Past(s, d)))
  {
    hide Reach, Enclosed, InstrAt, Hits;
    PartSound(ps, s.at);
    ReachCloses(CodeOf(ps, s.at.unit));
  }

  lemma {:induction false} PutPast(img: M.Image, entry: nat, s: Loose, d: M.Decoded)
    ensures Put(img, entry, Past(s, d)) == Put(img, entry, s).(pc := Put(img, entry, s).pc + d.size)
  {
    hide Base;
  }

  lemma {:induction false} PutPopped(img: M.Image, entry: nat, s: Loose)
    requires |s.stack| > 0
    ensures Put(img, entry, Popped(s)) == Put(img, entry, s).(stack := M.Dropped(Put(img, entry, s), 1))
    ensures M.Peek(Put(img, entry, s)) == Top(s)
  {
    hide Base;
  }

  /** The four jumps over a distance. */
  lemma {:induction false} SteerJump(ps: Parts, img: M.Image, entry: nat, i: M.Instr, s: Loose)
    requires Sound(ps) && Holds(ps, img, entry) && Distance(i).Some?
    requires (s.at.unit.FunctionCode? ==> s.at.unit.i < |ps.bodies|) && CallersProper(ps, s)
    requires Hits(Goals(ps, s.at.unit), s.at.off + Distance(i).value) && (!i.IJump? ==> Proper(ps, s))
    ensures var m := Perform(ps, i, s);
            !m.Adrift? && M.Exec(img, i, Put(img, entry, s)) == PutMotion(img, entry, m) && Proper(ps, m.s)
  {
    hide Hits, CodeOf, Put, Holds, Sound, Valid;
    JumpStep(ps, img, entry, s, Distance(i).value);
    PutStack(img, entry, s);
    if |s.stack| > 0 {
      JumpStep(ps, img, entry, Popped(s), Distance(i).value);
      PutPopped(img, entry, s);
    }
  }

  lemma {:induction false} PutStack(img: M.Image, entry: nat, s: Loose)
    ensures Put(img, entry, s).stack == s.stack
  {
  }

  lemma {:induction false} SteerLoop(ps: Parts, img: M.Image, entry: nat, back: U16, s: Loose)
    requires Sound(ps) && (s.at.unit.FunctionCode? ==> s.at.unit.i < |ps.bodies|) && CallersProper(ps, s)
    requires s.at.off - back in Goals(ps, s.at.unit)
    ensures var m := Perform(ps, M.ILoop(back), s);
            !m.Adrift? && M.Exec(img, M.ILoop(back), Put(img, entry, s)) == PutMotion(img, entry, m) && Proper(ps, m.s)
  {
    hide Reach, Enclosed;
    assert Enclosed(CodeOf(ps, s.at.unit));
    ReachInside(CodeOf(ps, s.at.unit), s.at.off - back);
  }

  lemma {:induction false} SteerCall(ps: Parts, img: M.Image, entry: nat, f: Byte, argc: Byte, s: Loose)
    requires Sound(ps) && Holds(ps, img, entry) && Proper(ps, s)
    ensures var m := Perform(ps, M.ICall(f, argc), s);
            !m.Adrift? && M.Exec(img, M.ICall(f, argc), Put(img, entry, s)) == PutMotion(img, entry, m) && Proper(ps, m.s)
  {
    hide Reach, Enclosed, Sound, Proper, CodeAt;
    if f < |ps.bodies| {
      InTable(ps, img, entry, f);
      CallerPushed(img, entry, s);
      if argc <= |s.stack| { EntryProper(ps, s, f, |s.stack| - argc); }
    }
  }

  lemma {:induction false} InTable(ps: Parts, img: M.Image, entry: nat, f: nat)
    requires Holds(ps, img, entry) && f < |ps.bodies|
    ensures img.funcs[f].start < |img.code| && img.funcs[f].params == ps.arity[f]
  {
  }

  lemma {:induction false} EntryProper(ps: Parts, s: Loose, f: nat, fp: int)
    requires Sound(ps) && Proper(ps, s) && f < |ps.bodies| && fp >= 0
    ensures Proper(ps, s.(callers := s.callers + [Caller(s.at, s.fp)], fp := fp, at := Pos(FunctionCode(f), 0)))
  {
    hide Reach, Enclosed;
    ReachCloses(ps.bodies[f]);
  }

  lemma {:induction false} CallerPushed(img: M.Image, entry: nat, s: Loose)
    ensures PutCallers(img, entry, s.callers + [Caller(s.at, s.fp)])
         == PutCallers(img, entry, s.callers) + [M.Frame(Base(img, entry, s.at.unit) + s.at.off, s.fp)]
  {
    hide Base;
  }

  lemma {:induction false} SteerReturn(ps: Parts, img: M.Image, entry: nat, i: M.Instr, s: Loose)
    requires CallersProper(ps, s) && (i.IReturn? || i.IReturnVoid?)
    ensures var m := Perform(ps, i, s);
            !m.Adrift? && M.Exec(img, i, Put(img, entry, s)) == PutMotion(img, entry, m) && (m.Going? ==> Proper(ps, m.s))
  {
    hide Valid, Base, ReleaseAll;
    if |s.callers| > 0 {
      assert PutCallers(img, entry, s.callers)[..|s.callers| - 1] == PutCallers(img, entry, s.callers[..|s.callers| - 1]);
    }
  }

  // ----- in step -----

  /** One step of the real machine is one step of the machine in parts. */
  lemma {:induction false} StepInParts(ps: Parts, img: M.Image, entry: nat, s: Loose)
    requires Sound(ps) && Holds(ps, img, entry) && Proper(ps, s) && !Advance(ps, s).Adrift?
    ensures M.Step(img, Put(img, entry, s)) == PutMotion(img, entry, Advance(ps, s))
    ensures Advance(ps, s).Going? ==> Proper(ps, Advance(ps, s).s)
  {
    hide Hits, M.Fetch, M.Exec, M.Decode, Sound, Holds, Perform, Put, Reach, InstrAt;
    var c := CodeOf(ps, s.at.unit);
    var d := InstrAt(c, s.at.off);
    var t := Past(s, d);
    AtInstr(ps, s);
    PartInPlace(ps, img, entry, s.at);
    PutPc(img, entry, s);
    SameFetch(img.code, Base(img, entry, s.at.unit), c, s.at.off);
    PutPast(img, entry, s, d);
    if Distance(d.instr).Some? {
      SteerJump(ps, img, entry, d.instr, t);
    } else if d.instr.ILoop? {
      SteerLoop(ps, img, entry, d.instr.back, t);
    } else if d.instr.ICall? {
      SteerCall(ps, img, entry, d.instr.f, d.instr.argc, t);
    } else if d.instr.IReturn? || d.instr.IReturnVoid? {
      SteerReturn(ps, img, entry, d.instr, t);
    } else {
      DataStep(ps, img, entry, d.instr, t);
      HaltEnds(ps, t);
    }
  }

  lemma {:induction false} HaltStops(s: M.State)
    ensures M.Exec(NOWHERE, M.IHalt, s).Stopped?
  {
  }

  lemma {:induction false} HaltEnds(ps: Parts, s: Loose)
    ensures Perform(ps, M.IHalt, s).Ended?
  {
    hide M.Exec;
    HaltStops(Core(s));
  }

  lemma {:induction false} PutPc(img: M.Image, entry: nat, s: Loose)
    ensures Put(img, entry, s).pc == Base(img, entry, s.at.unit) + s.at.off
  {
    hide Base;
  }

  /** After any number of steps the real machine is where the machine in parts is, unless that one has come to the
    * end of a part. */
  lemma {:induction false} InStep(ps: Parts, img: M.Image, entry: nat, s: Loose, n: nat)
    requires Sound(ps) && Holds(ps, img, entry) && Proper(ps, s) && !Travel(ps, s, n).Adrift?
    ensures M.Run(img, Put(img, entry, s), n) == PutMotion(img, entry, Travel(ps, s, n))
    decreases n
  {
    hide M.Step, Sound, Holds, Valid, Put, Advance;
    if n > 0 {
      StepInParts(ps, img, entry, s);
      if Advance(ps, s).Going? {
        InStep(ps, img, entry, Advance(ps, s).s, n - 1);
      }
    }
  }

  // ----- parts whose ends are never reached -----

  ghost predicate Watertight(ps: Parts) {
    Sealed(ps.main) && forall i :: 0 <= i < |ps.bodies| ==> Sealed(ps.bodies[i])
  }

  /** No position is at the end of a part. */
  ghost predicate Dry(ps: Parts, s: Loose) {
    Inside(ps, s.at) && forall i :: 0 <= i < |s.callers| ==> Inside(ps, s.callers[i].at)
  }

  ghost predicate Inside(ps: Parts, p: Pos) {
    p.off in Reach(CodeOf(ps, p.unit)) && (p.unit.FunctionCode? ==> p.unit.i < |ps.bodies|)
  }

  /** In sealed parts each instruction leads to a reachable place. */
  lemma {:induction false} SealedLeads(ps: Parts, p: Pos)
    requires Watertight(ps) && Inside(ps, p)
    ensures p.off < |CodeOf(ps, p.unit)| && LeadsTo(CodeOf(ps, p.unit), p.off, Reach(CodeOf(ps, p.unit)))
  {
    hide Reach, Enclosed, Sealed, LeadsTo;
    var c := CodeOf(ps, p.unit);
    assert Sealed(c);
    SealedEncloses(c);
    ReachCloses(c);
    assert Reach(c) + {} == Reach(c);
  }

  /** Each part fits the address space. */
  predicate Small(ps: Parts) {
    |ps.main| <= 0xFFFF && forall i :: 0 <= i < |ps.bodies| ==> |ps.bodies[i]| <= 0xFFFF
  }

  lemma {:induction false} StaysDry(ps: Parts, s: Loose)
    requires Watertight(ps) && Small(ps) && Dry(ps, s)
    ensures !Advance(ps, s).Adrift? && (Advance(ps, s).Going? ==> Dry(ps, Advance(ps, s).s))
  {
    hide Reach, Hits, InstrAt, M.Exec, Enclosed, Sealed, Jump, ReleaseAll, Leave, Enter;
    var c := CodeOf(ps, s.at.unit);
    SealedLeads(ps, s.at);
    var d := InstrAt(c, s.at.off);
    if Distance(d.instr).Some? {
      JumpDry(ps, Past(s, d), Distance(d.instr).value);
      if |s.stack| > 0 {
        JumpDry(ps, Popped(Past(s, d)), Distance(d.instr).value);
      }
    } else if d.instr.ICall? {
      CallDry(ps, Past(s, d), d.instr.f, d.instr.argc);
    } else if d.instr.IReturn? || d.instr.IReturnVoid? {
      ReturnDry(ps, d.instr, Past(s, d));
    } else if d.instr.IHalt? {
      HaltStops(Core(Past(s, d)));
    }
  }

  lemma {:induction false} ReturnDry(ps: Parts, i: M.Instr, s: Loose)
    requires (i.IReturn? || i.IReturnVoid?) && forall j :: 0 <= j < |s.callers| ==> Inside(ps, s.callers[j].at)
    ensures var m := Perform(ps, i, s); !m.Adrift? && (m.Going? ==> Dry(ps, m.s))
  {
    hide Inside, ReleaseAll;
  }

  lemma {:induction false} CallDry(ps: Parts, s: Loose, f: Byte, argc: Byte)
    requires Watertight(ps) && Dry(ps, s)
    ensures var m := Enter(ps, s, f, argc); !m.Adrift? && (m.Going? ==> Dry(ps, m.s))
  {
    hide Reach, Enclosed, Sealed;
    if f < |ps.bodies| {
      SealedEncloses(ps.bodies[f]);
      ReachCloses(ps.bodies[f]);
    }
  }

  lemma {:induction false} JumpDry(ps: Parts, s: Loose, off: U16)
    requires Watertight(ps) && (s.at.unit.FunctionCode? ==> s.at.unit.i < |ps.bodies|) && |CodeOf(ps, s.at.unit)| <= 0xFFFF
    requires Hits(Reach(CodeOf(ps, s.at.unit)), s.at.off + off)
    ensures Inside(ps, Jump(s, off).at) && Jump(s, off).callers == s.callers
  {
    hide Reach, Enclosed, Sealed;
    var c := CodeOf(ps, s.at.unit);
    var t :| t in Reach(c) && (s.at.off + off - t) % 0x1_0000 == 0;
    assert Sealed(c);
    SealedEncloses(c);
    ReachInside(c, t);
    Residue(s.at.off + off, t);
  }

  /** Nothing that starts inside sealed parts ever comes to the end of one. */
  lemma {:induction false} NeverAdrift(ps: Parts, s: Loose, n: nat)
    requires Watertight(ps) && Small(ps) && Dry(ps, s)
    ensures !Travel(ps, s, n).Adrift?
    decreases n
  {
    hide Watertight, Advance, Dry, Small;
    if n > 0 {
      StaysDry(ps, s);
      if Advance(ps, s).Going? {
        NeverAdrift(ps, Advance(ps, s).s, n - 1);
      }
    }
  }
}
