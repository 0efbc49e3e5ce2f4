/** Where control can go in a piece of code: from some places in it, along its instructions, to other places in it
  * or out of it. Pieces compose when what leads out of one is let in by the other. */
module Flow {
  import opened Bytes
  import opened Values
  import opened CodeGen
  import opened Runs
  import M = Machine

  /** The instruction at offset `o`. */
  function InstrAt(c: seq<Byte>, o: int): (d: M.Decoded)
    requires 0 <= o < |c|
    ensures 1 <= d.size
  {
    M.Decode(M.Fetch(c, o))
  }

  /** The distance of a jump that is computed modulo 65536. */
  function Distance(i: M.Instr): Option<U16> {
    match i
    case IJump(off) => Some(off)
    case IJumpIf(_, off) => Some(off)
    case ICoalesce(off) => Some(off)
    case IIfLet(off) => Some(off)
    case _ => None
  }

  /** Control may go on with the next instruction. */
  predicate FallsThrough(i: M.Instr) {
    !i.IHalt? && !i.IReturn? && !i.IReturnVoid? && !i.IJump? && !i.ILoop?
  }

  /** One of `targets` is `q` modulo 65536. */
  ghost predicate Hits(targets: set<int>, q: int) {
    exists t :: t in targets && (q - t) % 0x1_0000 == 0
  }

  /** The instruction at `o` is complete and leads only to `targets`. */
  ghost predicate LeadsTo(c: seq<Byte>, o: int, targets: set<int>)
    requires 0 <= o < |c|
  {
    var d := InstrAt(c, o);
    && !d.instr.ITruncated? && o + d.size <= |c|
    && (FallsThrough(d.instr) ==> o + d.size in targets)
    && (Distance(d.instr).Some? ==> d.size == 3 && Hits(targets, o + 3 + Distance(d.instr).value))
    && (d.instr.ILoop? ==> d.size == 3 && o + 3 - d.instr.back in targets)
  }

  /** From the places `r` of `c` control goes to places of `r`, or out of `c` to one of `outs`. */
  ghost predicate Closed(c: seq<Byte>, r: set<int>, outs: set<int>) {
    && (forall o :: o in r ==> 0 <= o < |c|)
    && (forall o :: o in r ==> LeadsTo(c, o, r + outs))
    && (forall t :: t in outs ==> t < 0 || |c| <= t)
  }

  /** Let in at one of `ins`, control leaves `c` only for one of `outs`. */
  ghost predicate Flows(c: seq<Byte>, ins: set<int>, outs: set<int>) {
    exists r :: Closed(c, r, outs) && ins <= r + outs
  }

  // ----- pieces compose -----

  lemma {:induction false} SameInstr(c: seq<Byte>, o: int, b: seq<Byte>)
    requires 0 <= o < |c| && !InstrAt(c, o).instr.ITruncated?
    ensures InstrAt(c + b, o) == InstrAt(c, o)
  {
    var f, g := M.Fetch(c, o), M.Fetch(c + b, o);
    assert f <= g;
    DecodePrefix(f, g);
  }

  lemma {:induction false} LaterInstr(a: seq<Byte>, c: seq<Byte>, o: int)
    requires 0 <= o < |c|
    ensures InstrAt(a + c, |a| + o) == InstrAt(c, o)
  {
    assert M.Fetch(a + c, |a| + o) == M.Fetch(c, o);
  }

  lemma {:induction false} HitsMore(targets: set<int>, q: int, more: set<int>)
    requires Hits(targets, q) && targets <= more
    ensures Hits(more, q)
  {
    var t :| t in targets && (q - t) % 0x1_0000 == 0;
    assert t in more;
  }

  lemma {:induction false} HitsLater(targets: set<int>, q: int, n: int, more: set<int>)
    requires Hits(targets, q) && forall t :: t in targets ==> n + t in more
    ensures Hits(more, n + q)
  {
    var t :| t in targets && (q - t) % 0x1_0000 == 0;
    assert n + t in more && (n + q - (n + t)) % 0x1_0000 == 0;
  }

  lemma {:induction false} FirstLeads(a: seq<Byte>, b: seq<Byte>, o: int, targets: set<int>, more: set<int>)
    requires 0 <= o < |a| && LeadsTo(a, o, targets) && targets <= more
    ensures LeadsTo(a + b, o, more)
  {
    hide Hits, InstrAt;
    SameInstr(a, o, b);
    var i := InstrAt(a, o).instr;
    if Distance(i).Some? {
      HitsMore(targets, o + 3 + Distance(i).value, more);
    }
  }

  lemma {:induction false} SecondLeads(a: seq<Byte>, b: seq<Byte>, o: int, targets: set<int>, more: set<int>)
    requires 0 <= o < |b| && LeadsTo(b, o, targets) && forall t :: t in targets ==> |a| + t in more
    ensures LeadsTo(a + b, |a| + o, more)
  {
    hide Hits, InstrAt;
    LaterInstr(a, b, o);
    var i := InstrAt(b, o).instr;
    if Distance(i).Some? {
      HitsLater(targets, o + 3 + Distance(i).value, |a|, more);
    }
  }

  /** Two pieces in a row. What leads out of the first leads out of both or into the second; what leads out of the
    * second leads out of both or back into the first. */
  lemma {:induction false} Compose(a: seq<Byte>, b: seq<Byte>, inA: set<int>, outA: set<int>, inB: set<int>, outB: set<int>,
                                   ins: set<int>, outs: set<int>)
    requires Flows(a, inA, outA) && Flows(b, inB, outB)
    requires forall t :: t in outA ==> t in outs || t - |a| in inB
    requires forall t :: t in outB ==> |a| + t in outs || (|a| + t in inA && 0 <= |a| + t < |a|)
    requires forall t :: t in ins ==> t in inA || t - |a| in inB
    requires forall t :: t in outs ==> t < 0 || |a| + |b| <= t
    ensures Flows(a + b, ins, outs)
  {
    hide LeadsTo;
    var ra :| Closed(a, ra, outA) && inA <= ra + outA;
    var rb :| Closed(b, rb, outB) && inB <= rb + outB;
    var r := ra + set o | o in rb :: |a| + o;
    forall t | t in rb + outB
      ensures |a| + t in r + outs
    {
    }
    forall t | t in ra + outA
      ensures t in r + outs
    {
      if t in outA && t !in outs {
        assert |a| + (t - |a|) in r + outs;
      }
    }
    forall o | o in r
      ensures 0 <= o < |a + b| && LeadsTo(a + b, o, r + outs)
    {
      if o in ra {
        FirstLeads(a, b, o, ra + outA, r + outs);
      } else {
        SecondLeads(a, b, o - |a|, rb + outB, r + outs);
      }
    }
    forall t | t in ins
      ensures t in r + outs
    {
      if t !in inA {
        assert |a| + (t - |a|) in r + outs;
      }
    }
    assert Closed(a + b, r, outs);
  }

  /** Straight on. */
  lemma {:induction false} Then(a: seq<Byte>, b: seq<Byte>, outB: set<int>, outs: set<int>)
    requires Flows(a, {0}, {|a|}) && Flows(b, {0}, outB)
    requires forall t :: t in outB ==> t >= |b| && |a| + t in outs
    requires forall t :: t in outs ==> |a| + |b| <= t
    ensures Flows(a + b, {0}, outs)
  {
    hide Flows;
    Compose(a, b, {0}, {|a|}, {0}, outB, {0}, outs);
  }

  /** Code that is never entered does not matter. */
  lemma {:induction false} Dead(b: seq<Byte>)
    ensures Flows(b, {}, {})
  {
    assert Closed(b, {}, {});
  }

  lemma {:induction false} Nothing()
    ensures Flows([], {0}, {0})
  {
    assert Closed([], {}, {0});
  }

  /** More ways out. */
  lemma {:induction false} Weaken(c: seq<Byte>, ins: set<int>, outs: set<int>, more: set<int>)
    requires Flows(c, ins, outs) && outs <= more && forall t :: t in more ==> t < 0 || |c| <= t
    ensures Flows(c, ins, more)
  {
    hide LeadsTo;
    var r :| Closed(c, r, outs) && ins <= r + outs;
    forall o | o in r
      ensures LeadsTo(c, o, r + more)
    {
      FirstLeads(c, [], o, r + outs, r + more);
      assert c + [] == c;
    }
    assert Closed(c, r, more);
  }

  // ----- single instructions -----

  lemma {:induction false} OneInstr(c: seq<Byte>, outs: set<int>)
    requires 1 <= |c| <= 3 && M.Decode(c).size == |c| && !M.Decode(c).instr.ITruncated?
    requires var i := M.Decode(c).instr;
             && (FallsThrough(i) ==> |c| in outs)
             && (Distance(i).Some? ==> |c| == 3 && Hits(outs, 3 + Distance(i).value))
             && (i.ILoop? ==> |c| == 3 && 3 - i.back in outs)
    requires forall t :: t in outs ==> t < 0 || |c| <= t
    ensures Flows(c, {0}, outs)
  {
    hide M.Decode;
    assert M.Fetch(c, 0) == c;
    var i := M.Decode(c).instr;
    if Distance(i).Some? {
      HitsMore(outs, 3 + Distance(i).value, {0} + outs);
    }
    assert Closed(c, {0}, outs);
  }

  /** An instruction that goes on with the next one. */
  lemma {:induction false} Plain(c: seq<Byte>)
    requires 1 <= |c| <= 3 && M.Decode(c).size == |c| && !M.Decode(c).instr.ITruncated?
    requires FallsThrough(M.Decode(c).instr) && Distance(M.Decode(c).instr).None?
    ensures Flows(c, {0}, {|c|})
  {
    hide M.Decode, Flows;
    OneInstr(c, {|c|});
  }

  /** A return or a halt. */
  lemma {:induction false} Final(b: Byte)
    requires b == 0x54 || b == 0x61 || b == 0x62
    ensures Flows([b], {0}, {})
  {
    hide Flows;
    OneInstr([b], {});
  }

  lemma {:induction false} HitsDistance(targets: set<int>, d: int)
    requires 3 + d in targets
    ensures Hits(targets, 3 + d % 0x1_0000)
  {
    assert (3 + d % 0x1_0000 - (3 + d)) % 0x1_0000 == 0;
  }

  lemma {:induction false} Always(d: int)
    requires d < -3 || 0 <= d
    ensures Flows(JumpCode(0x50, d), {0}, {3 + d})
  {
    hide M.Decode, Flows, Hits, JumpCode;
    DecodeJump(0x50, d);
    HitsDistance({3 + d}, d);
    OneInstr(JumpCode(0x50, d), {3 + d});
  }

  lemma {:induction false} Sometimes(op: Byte, d: nat)
    requires op == 0x51 || op == 0x52 || op == 0x72 || op == 0x73
    ensures Flows(JumpCode(op, d), {0}, {3, 3 + d})
  {
    hide M.Decode, Flows, Hits, JumpCode;
    DecodeJump(op, d);
    HitsDistance({3, 3 + d}, d);
    OneInstr(JumpCode(op, d), {3, 3 + d});
  }

  lemma {:induction false} Backward(back: nat)
    requires 3 < back <= 0xFFFF
    ensures Flows(JumpCode(0x53, back), {0}, {3 - back})
  {
    hide M.Decode, Flows, Hits, JumpCode;
    DecodeJump(0x53, back);
    OneInstr(JumpCode(0x53, back), {3 - back});
  }
}
