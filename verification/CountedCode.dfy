/** A condition on the code alone under which reference counts stay exact in every run of it. */
module CountedCode {
  import opened Bytes
  import opened Values
  import opened Machine
  import opened RefCounts
  import opened Flow
  import opened PartsInMotion

  /** Places of the code that control does not leave: the functions start there, and every instruction leads there. */
  ghost predicate Track(img: Image, r: set<int>) {
    && |img.code| <= 0xFFFF && Closed(img.code, r, {})
    && forall f :: 0 <= f < |img.funcs| ==> img.funcs[f].start in r
  }

  ghost predicate OnTrack(r: set<int>, s: State) {
    s.pc in r && forall i :: 0 <= i < |s.frames| ==> s.frames[i].pc in r
  }

  /** No `==` or `!=` among the places `r` if the counts are to stay exact, and only string constants of `base`. */
  predicate CleanCode(code: seq<Byte>, r: set<int>, base: Heap, exact: bool) {
    forall o :: o in r && 0 <= o < |code| ==>
      (InstrAt(code, o).instr.IStr? ==> ConstAt(base, InstrAt(code, o).instr.at)) && (exact ==> !InstrAt(code, o).instr.IEqual?)
  }

  lemma {:induction false} DataOnTrack(img: Image, r: set<int>, i: Instr, s: State)
    requires !Steers(i) && OnTrack(r, s)
    ensures OnTrack(r, Exec(img, i, s).s)
  {
    hide Exec;
    Oblivious(img, i, s);
  }

  lemma {:induction false} BranchOnTrack(img: Image, r: set<int>, s: State, off: U16)
    requires Track(img, r) && Hits(r, s.pc + off) && Branch(img, s, off).Running?
    ensures Branch(img, s, off).s.pc in r
  {
    hide LeadsTo;
    var t :| t in r && (s.pc + off - t) % 0x1_0000 == 0;
    assert 0 <= t < |img.code|;
    hide *;
    Residue(s.pc + off, t);
    BranchTarget(img, s, off);
  }

  lemma {:induction false} BranchTarget(img: Image, s: State, off: U16)
    requires Branch(img, s, off).Running?
    ensures Branch(img, s, off).s.pc == (s.pc + off) % 0x1_0000
  {
  }

  lemma {:induction false} JumpOnTrack(img: Image, r: set<int>, i: Instr, s: State)
    requires Track(img, r) && Distance(i).Some? && Hits(r, s.pc + Distance(i).value) && (FallsThrough(i) ==> s.pc in r)
    requires forall j :: 0 <= j < |s.frames| ==> s.frames[j].pc in r
    ensures Exec(img, i, s).Running? ==> OnTrack(r, Exec(img, i, s).s)
  {
    hide Hits, Track, Branch;
    var off := Distance(i).value;
    BranchResult(img, s, off);
    if Branch(img, s, off).Running? {
      BranchOnTrack(img, r, s, off);
    }
    if |s.stack| > 0 {
      var t := s.(stack := Dropped(s, 1));
      BranchResult(img, t, off);
      if Branch(img, t, off).Running? {
        BranchOnTrack(img, r, t, off);
      }
    }
  }

  lemma {:induction false} BranchResult(img: Image, s: State, off: U16)
    ensures Branch(img, s, off).s.frames == s.frames
  {
  }

  lemma {:induction false} CallOnTrack(img: Image, r: set<int>, f: Byte, argc: Byte, s: State)
    requires Track(img, r) && OnTrack(r, s) && DoCall(img, s, f, argc).Running?
    ensures OnTrack(r, DoCall(img, s, f, argc).s)
  {
    hide Closed;
  }

  lemma {:induction false} ReturnOnTrack(img: Image, r: set<int>, i: Instr, s: State)
    requires (i.IReturn? || i.IReturnVoid?) && (forall j :: 0 <= j < |s.frames| ==> s.frames[j].pc in r)
    requires Exec(img, i, s).Running?
    ensures OnTrack(r, Exec(img, i, s).s)
  {
    hide ReleaseAll;
  }

  /** Control stays on the track. */
  lemma {:induction false} StepOnTrack(img: Image, r: set<int>, s: State)
    requires Track(img, r) && OnTrack(r, s) && Step(img, s).Running?
    ensures OnTrack(r, Step(img, s).s)
  {
    hide Exec, Hits, Decode, Fetch;
    assert LeadsTo(img.code, s.pc, r + {});
    assert r + {} == r;
    var d := InstrAt(img.code, s.pc);
    var t := s.(pc := s.pc + d.size);
    if Distance(d.instr).Some? {
      JumpOnTrack(img, r, d.instr, t);
    } else if d.instr.ILoop? {
      LoopOnTrack(img, r, d.instr.back, t);
    } else if d.instr.ICall? {
      CallOnTrack(img, r, d.instr.f, d.instr.argc, t) by { CallExec(img, d.instr, t); }
      CallExec(img, d.instr, t);
    } else if d.instr.IReturn? || d.instr.IReturnVoid? {
      ReturnOnTrack(img, r, d.instr, t);
    } else {
      HaltNotRunning(img, t);
      DataOnTrack(img, r, d.instr, t);
    }
  }

  lemma {:induction false} CallExec(img: Image, i: Instr, s: State)
    requires i.ICall?
    ensures Exec(img, i, s) == DoCall(img, s, i.f, i.argc)
  {
  }

  lemma {:induction false} HaltNotRunning(img: Image, s: State)
    ensures Exec(img, IHalt, s).Stopped?
  {
  }

  lemma {:induction false} LoopOnTrack(img: Image, r: set<int>, back: U16, s: State)
    requires s.pc - back in r && (forall j :: 0 <= j < |s.frames| ==> s.frames[j].pc in r) && Exec(img, ILoop(back), s).Running?
    ensures OnTrack(r, Exec(img, ILoop(back), s).s)
  {
  }

  lemma {:induction false} RunOnTrack(img: Image, r: set<int>, s: State, n: nat)
    requires Track(img, r) && OnTrack(r, s) && Run(img, s, n).Running?
    ensures OnTrack(r, Run(img, s, n).s)
    decreases n
  {
    hide Step, Track, OnTrack;
    if n > 0 {
      StepOnTrack(img, r, s);
      RunOnTrack(img, r, Step(img, s).s, n - 1);
    }
  }

  /** Code without `==` and `!=` on its track, and with constants of the pool only, keeps the counts exact in every
    * run, whatever it computes; code that compares strings never lets a count fall below the number of references. */
  lemma {:induction false} CleanCodeCounts(img: Image, r: set<int>, s: State, n: nat, base: Heap, exact: bool)
    requires Track(img, r) && CleanCode(img.code, r, base, exact) && OnTrack(r, s)
    requires Counted(s, base, exact) && Run(img, s, n).Running?
    ensures Counted(Run(img, s, n).s, base, exact)
  {
    hide Run, Track, Counted, ConstAt, Decode, Fetch, OnTrack;
    assert Clean(img, s, n, base, exact) by { CleanRuns(img, r, s, n, base, exact); }
    CountsStay(img, s, n, base, exact);
  }

  lemma {:induction false} CleanRuns(img: Image, r: set<int>, s: State, n: nat, base: Heap, exact: bool)
    requires Track(img, r) && CleanCode(img.code, r, base, exact) && OnTrack(r, s)
    ensures Clean(img, s, n, base, exact)
  {
    hide Run, Track, ConstAt, Decode, Fetch, Step;
    forall m: nat | m < n && Run(img, s, m).Running? && Run(img, s, m).s.pc < |img.code|
      ensures RefCounts.Proper(NextInstr(img, Run(img, s, m).s), Run(img, s, m).s, base, exact)
    {
      RunOnTrack(img, r, s, m);
    }
  }
}
