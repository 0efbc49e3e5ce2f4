/** The reference counts of the heap under the machine: in every state of every run the count of a block is
  * the number of references to it from the stack, the globals and the constant pool. */
module RefCounts {
  import opened Bytes
  import opened Values
  import opened M = Machine

  // ----- addresses -----

  lemma {:induction false} AddrIncreases(h: Heap, i: nat, j: nat)
    requires i < j <= |h|
    ensures AddrOf(h, i) + BlockSize(h[i]) <= AddrOf(h, j)
    decreases j
  {
    if i < j - 1 {
      AddrIncreases(h, i, j - 1);
    }
  }

  lemma {:induction false} AddrUnique(h: Heap, i: nat, j: nat)
    requires i < |h| && j < |h| && AddrOf(h, i) == AddrOf(h, j)
    ensures i == j
  {
    if i < j { AddrIncreases(h, i, j); }
    if j < i { AddrIncreases(h, j, i); }
  }

  lemma {:induction false} BlockFound(h: Heap, i: nat)
    requires i < |h|
    ensures BlockAt(h, AddrOf(h, i)) == Some(i)
  {
    var r := BlockAt(h, AddrOf(h, i));
    AddrUnique(h, r.value, i);
  }

  /** Blocks of the same sizes lie at the same addresses. */
  lemma {:induction false} AddrKept(h: Heap, g: Heap, n: nat)
    requires n <= |h| && n <= |g| && forall i :: 0 <= i < n ==> BlockSize(h[i]) == BlockSize(g[i])
    ensures AddrOf(h, n) == AddrOf(g, n)
    decreases n
  {
    if n > 0 {
      AddrKept(h, g, n - 1);
    }
  }

  // ----- references and counts -----

  /** What a reference to the block `i` looks like. */
  function RefOf(h: Heap, i: nat): (v: Value)
    requires i < |h|
    ensures !v.Imm?
  {
    var at: U16 := AddrOf(h, i) % 0x1_0000;
    if h[i].StrBlock? then Str(at) else Arr(at)
  }

  /** A value without heap payload, or a reference to a block of its kind. */
  ghost predicate Points(h: Heap, v: Value) {
    OnHeap(v) ==> exists i :: 0 <= i < |h| && v == RefOf(h, i)
  }

  /** `exact`: the count of a block is the number of its references; otherwise it is at least that. */
  predicate Counts(count: nat, refs: nat, exact: bool) {
    if exact then count == refs else count >= refs
  }

  /** The same kinds of blocks of the same sizes. */
  predicate SameShape(h: Heap, g: Heap, n: nat) {
    n <= |h| && n <= |g| && forall i :: 0 <= i < n ==> h[i].StrBlock? == g[i].StrBlock? && BlockSize(h[i]) == BlockSize(g[i])
  }

  /** The references `refs` and one reference from the constant pool to each of the constants `base` at the
    * bottom are what the counts of the heap account for, and none of them dangles. */
  ghost predicate Good(h: Heap, refs: multiset<Value>, base: Heap, exact: bool) {
    && HeapPtr(h) <= HEAP_SIZE && SameShape(base, h, |base|)
    && (forall v :: v in refs ==> Points(h, v))
    && (forall i :: 0 <= i < |h| ==> Counts(h[i].count, refs[RefOf(h, i)] + (if i < |base| then 1 else 0), exact))
  }

  lemma {:induction false} RefFits(h: Heap, i: nat)
    requires i < |h| && HeapPtr(h) <= HEAP_SIZE
    ensures RefOf(h, i).at == AddrOf(h, i) && OnHeap(RefOf(h, i)) && BlockAt(h, AddrOf(h, i)) == Some(i)
  {
    AddrIncreases(h, i, |h|);
    BlockFound(h, i);
  }

  lemma {:induction false} RefDistinct(h: Heap, i: nat, j: nat)
    requires i < |h| && j < |h| && HeapPtr(h) <= HEAP_SIZE && RefOf(h, i) == RefOf(h, j)
    ensures i == j
  {
    RefFits(h, i);
    RefFits(h, j);
  }

  lemma {:induction false} ShapeKept(h: Heap, g: Heap, n: nat)
    requires SameShape(h, g, n)
    ensures AddrOf(h, n) == AddrOf(g, n)
    ensures forall i :: 0 <= i < n ==> RefOf(h, i) == RefOf(g, i)
  {
    AddrKept(h, g, n);
    forall i | 0 <= i < n
      ensures RefOf(h, i) == RefOf(g, i)
    {
      AddrKept(h, g, i);
    }
  }

  lemma {:induction false} PointsKept(h: Heap, g: Heap, v: Value)
    requires SameShape(h, g, |h|) && Points(h, v)
    ensures Points(g, v)
  {
    ShapeKept(h, g, |h|);
    if OnHeap(v) {
      var i :| 0 <= i < |h| && v == RefOf(h, i);
      assert v == RefOf(g, i);
    }
  }

  /** A change of one count by the change in the number of its references. */
  lemma {:induction false} Recount(h: Heap, refs: multiset<Value>, base: Heap, exact: bool, i: nat, b: Block, refs': multiset<Value>)
    requires Good(h, refs, base, exact) && i < |h|
    requires b.StrBlock? == h[i].StrBlock? && BlockSize(b) == BlockSize(h[i])
    requires Counts(b.count, refs'[RefOf(h, i)] + (if i < |base| then 1 else 0), exact)
    requires forall v :: v in refs' ==> Points(h, v)
    requires forall v :: v != RefOf(h, i) ==> refs'[v] == refs[v]
    ensures Good(h[i := b], refs', base, exact)
  {
    hide RefOf, Points, Counts, AddrOf;
    var g := h[i := b];
    ShapeKept(h, g, |h|);
    forall v | v in refs'
      ensures Points(g, v)
    {
      PointsKept(h, g, v);
    }
    forall j | 0 <= j < |g|
      ensures Counts(g[j].count, refs'[RefOf(g, j)] + (if j < |base| then 1 else 0), exact)
    {
      if j != i && RefOf(h, j) == RefOf(h, i) {
        RefDistinct(h, i, j);
      }
    }
  }

  lemma {:induction false} RetainIs(h: Heap, i: nat)
    requires i < |h| && HeapPtr(h) <= HEAP_SIZE
    ensures Retain(h, RefOf(h, i)) == h[i := if h[i].count == 0xFFFF then h[i] else h[i].(count := h[i].count + 1)]
  {
    hide AddrOf, BlockAt, RefOf;
    RefFits(h, i);
    assert h[i := h[i]] == h;
  }

  lemma {:induction false} ReleaseIs(h: Heap, i: nat)
    requires i < |h| && HeapPtr(h) <= HEAP_SIZE
    ensures Release(h, RefOf(h, i))
         == if h[i].count == 0 then h else if h[i].count == 1 && i == |h| - 1 then h[..i]
            else h[i := h[i].(count := h[i].count - 1)]
  {
    hide AddrOf, BlockAt, RefOf;
    RefFits(h, i);
  }

  lemma {:induction false} RetainGood(h: Heap, refs: multiset<Value>, base: Heap, exact: bool, v: Value)
    requires Good(h, refs, base, exact) && Points(h, v) && refs[v] + 2 <= 0xFFFF
    ensures Good(Retain(h, v), refs + multiset{v}, base, exact)
  {
    if OnHeap(v) {
      var i :| 0 <= i < |h| && v == RefOf(h, i);
      RetainIs(h, i);
      hide Counts, AddrOf, BlockSize, Retain, OnHeap, SameShape, RefOf;
      CountUp(h[i].count, refs[v] + (if i < |base| then 1 else 0), exact);
      var b := if h[i].count == 0xFFFF then h[i] else h[i].(count := h[i].count + 1);
      SameSize(h[i], b);
      Recount(h, refs, base, exact, i, b, refs + multiset{v});
    } else {
      PlainGood(h, refs, base, exact, v);
    }
  }

  lemma {:induction false} SameSize(b: Block, c: Block)
    requires c == b.(count := c.count)
    ensures BlockSize(b) == BlockSize(c) && b.StrBlock? == c.StrBlock?
  {
  }

  lemma {:induction false} CountUp(count: U16, refs: nat, exact: bool)
    requires Counts(count, refs, exact) && refs + 1 <= 0xFFFF
    ensures Counts(if count == 0xFFFF then count else count + 1, refs + 1, exact)
  {
  }

  /** A value without heap payload makes no difference. */
  lemma {:induction false} PlainGood(h: Heap, refs: multiset<Value>, base: Heap, exact: bool, v: Value)
    requires Good(h, refs, base, exact) && !OnHeap(v)
    ensures Good(h, refs + multiset{v}, base, exact) && Good(h, refs - multiset{v}, base, exact)
  {
    hide Counts, AddrOf, BlockSize;
    forall i | 0 <= i < |h|
      ensures RefOf(h, i) != v
    {
      RefFits(h, i);
    }
  }

  lemma {:induction false} CountDown(count: U16, refs: nat, exact: bool)
    requires Counts(count, refs, exact) && refs > 0
    ensures count > 0 && Counts(count - 1, refs - 1, exact)
  {
  }

  lemma {:induction false} ReleaseGood(h: Heap, refs: multiset<Value>, base: Heap, exact: bool, v: Value)
    requires Good(h, refs, base, exact) && v in refs
    ensures Good(Release(h, v), refs - multiset{v}, base, exact)
  {
    if OnHeap(v) {
      assert Points(h, v);
      var i :| 0 <= i < |h| && v == RefOf(h, i);
      ReleaseIs(h, i);
      hide AddrOf, BlockSize, Release, OnHeap, SameShape, RefOf, Points, Counts;
      CountDown(h[i].count, refs[v] + (if i < |base| then 1 else 0), exact);
      if h[i].count == 1 && i == |h| - 1 {
        Reclaimed(h, refs, base, exact, v);
      } else {
        ReleasedOne(h, refs, base, exact, i);
      }
    } else {
      PlainGood(h, refs, base, exact, v);
    }
  }

  lemma {:induction false} ReleasedOne(h: Heap, refs: multiset<Value>, base: Heap, exact: bool, i: nat)
    requires Good(h, refs, base, exact) && i < |h| && RefOf(h, i) in refs
    ensures h[i].count > 0 && Good(h[i := h[i].(count := h[i].count - 1)], refs - multiset{RefOf(h, i)}, base, exact)
  {
    hide AddrOf, BlockSize, OnHeap, SameShape, RefOf, Points, Counts;
    CountDown(h[i].count, refs[RefOf(h, i)] + (if i < |base| then 1 else 0), exact);
    var b := h[i].(count := h[i].count - 1);
    SameSize(h[i], b);
    Recount(h, refs, base, exact, i, b, refs - multiset{RefOf(h, i)});
  }

  /** Nothing refers to a block that is reclaimed. */
  lemma {:induction false} Reclaimed(h: Heap, refs: multiset<Value>, base: Heap, exact: bool, v: Value)
    requires Good(h, refs, base, exact) && v in refs && |h| > 0 && v == RefOf(h, |h| - 1) && h[|h| - 1].count == 1
    ensures Good(h[..|h| - 1], refs - multiset{v}, base, exact)
  {
    hide AddrOf, BlockSize;
    var n := |h| - 1;
    var g := h[..n];
    assert Counts(h[n].count, refs[v] + (if n < |base| then 1 else 0), exact);
    ShapeKept(h, g, n);
    AddrIncreases(h, n, |h|);
    var left := refs - multiset{v};
    forall w | w in left
      ensures Points(g, w)
    {
      assert Points(h, w);
      if OnHeap(w) {
        var j :| 0 <= j < |h| && w == RefOf(h, j);
        assert j != n;
        assert w == RefOf(g, j);
      }
    }
    forall j | 0 <= j < n
      ensures Counts(g[j].count, left[RefOf(g, j)] + (if j < |base| then 1 else 0), exact)
    {
      if RefOf(h, j) == v {
        RefDistinct(h, j, n);
      }
      assert Counts(h[j].count, refs[RefOf(h, j)] + (if j < |base| then 1 else 0), exact);
    }
  }

  /** A block put on top is not referred to by what was there before. */
  lemma {:induction false} TopIsFresh(h: Heap, g: Heap, refs: multiset<Value>)
    requires |g| == |h| + 1 && g[..|h|] == h && HeapPtr(g) <= HEAP_SIZE
    requires forall v :: v in refs ==> Points(h, v)
    ensures RefOf(g, |h|) !in refs
    ensures forall i :: 0 <= i < |h| ==> RefOf(g, i) == RefOf(h, i) != RefOf(g, |h|)
    ensures forall v :: v in refs ==> Points(g, v)
  {
    hide BlockSize, AddrOf, RefOf, Points;
    var n := |h|;
    var v := RefOf(g, n);
    ShapeKept(h, g, n);
    RefFits(g, n);
    forall i | 0 <= i < n
      ensures RefOf(g, i) != v
    {
      if RefOf(g, i) == v {
        RefDistinct(g, i, n);
      }
    }
    forall w | w in refs
      ensures w != v && Points(g, w)
    {
      PointsKept(h, g, w);
      if w == v {
        NotBelow(h, g, w);
      }
    }
  }

  lemma {:induction false} NotBelow(h: Heap, g: Heap, v: Value)
    requires |g| == |h| + 1 && Points(h, v) && OnHeap(v)
    requires forall i :: 0 <= i < |h| ==> RefOf(g, i) == RefOf(h, i)
    ensures exists i :: 0 <= i < |h| && v == RefOf(g, i)
  {
    var i :| 0 <= i < |h| && v == RefOf(h, i);
    assert v == RefOf(g, i);
  }

  /** A new block comes with its one reference. */
  lemma {:induction false} AllocGood(h: Heap, refs: multiset<Value>, base: Heap, exact: bool, b: Block)
    requires Good(h, refs, base, exact) && Alloc(h, b).Some?
    ensures HeapPtr(h) < 0x1_0000
    ensures var v := if b.StrBlock? then Str(HeapPtr(h)) else Arr(HeapPtr(h));
            Good(Alloc(h, b).value, refs + multiset{v}, base, exact)
  {
    var n, c := |h|, b.(count := 1);
    SameSize(b, c);
    var g := h + [c];
    ShapeKept(h, g, n);
    assert AddrOf(g, n + 1) == AddrOf(g, n) + BlockSize(g[n]);
    TopIsFresh(h, g, refs);
    RefFits(g, n);
    NewTop(h, g, refs, base, exact);
  }

  lemma {:induction false} NewTop(h: Heap, g: Heap, refs: multiset<Value>, base: Heap, exact: bool)
    requires Good(h, refs, base, exact) && HeapPtr(g) <= HEAP_SIZE
    requires |g| == |h| + 1 && g[..|h|] == h && g[|h|].count == 1 && RefOf(g, |h|) !in refs
    requires forall i :: 0 <= i < |h| ==> RefOf(g, i) == RefOf(h, i) != RefOf(g, |h|)
    requires forall v :: v in refs ==> Points(g, v)
    ensures Good(g, refs + multiset{RefOf(g, |h|)}, base, exact)
  {
    hide BlockSize, AddrOf, RefOf;
    var n := |h|;
    var more := refs + multiset{RefOf(g, n)};
    assert Points(g, RefOf(g, n));
    forall i | 0 <= i < |g|
      ensures Counts(g[i].count, more[RefOf(g, i)] + (if i < |base| then 1 else 0), exact)
    {
      if i < n {
        assert g[i] == h[i];
        assert Counts(h[i].count, refs[RefOf(h, i)] + (if i < |base| then 1 else 0), exact);
      }
    }
  }

  /** Rewriting the contents of a block changes nothing. */
  lemma {:induction false} RewriteGood(h: Heap, refs: multiset<Value>, base: Heap, exact: bool, i: nat, b: Block)
    requires Good(h, refs, base, exact) && i < |h| && b.count == h[i].count
    requires b.StrBlock? == h[i].StrBlock? && BlockSize(b) == BlockSize(h[i])
    ensures Good(h[i := b], refs, base, exact)
  {
    hide AddrOf, BlockSize, RefOf;
    assert Counts(h[i].count, refs[RefOf(h, i)] + (if i < |base| then 1 else 0), exact);
    Recount(h, refs, base, exact, i, b, refs);
  }

  /** Forgetting a reference without releasing it: the counts are at least the references, still. */
  lemma {:induction false} ForgetGood(h: Heap, refs: multiset<Value>, base: Heap, v: Value)
    requires Good(h, refs, base, false)
    ensures Good(h, refs - multiset{v}, base, false)
  {
    hide AddrOf, BlockSize, RefOf;
    forall i | 0 <= i < |h|
      ensures Counts(h[i].count, (refs - multiset{v})[RefOf(h, i)] + (if i < |base| then 1 else 0), false)
    {
      assert Counts(h[i].count, refs[RefOf(h, i)] + (if i < |base| then 1 else 0), false);
    }
  }

  lemma {:induction false} ExactIsEnough(h: Heap, refs: multiset<Value>, base: Heap)
    requires Good(h, refs, base, true)
    ensures Good(h, refs, base, false)
  {
    hide AddrOf, BlockSize, RefOf;
    forall i | 0 <= i < |h|
      ensures Counts(h[i].count, refs[RefOf(h, i)] + (if i < |base| then 1 else 0), false)
    {
      assert Counts(h[i].count, refs[RefOf(h, i)] + (if i < |base| then 1 else 0), true);
    }
  }

  lemma {:induction false} ReleaseAllGood(h: Heap, refs: multiset<Value>, base: Heap, exact: bool, vs: seq<Value>)
    requires Good(h, refs, base, exact) && multiset(vs) <= refs
    ensures Good(ReleaseAll(h, vs), refs - multiset(vs), base, exact)
    decreases |vs|
  {
    hide Good, Release;
    if vs == [] {
      assert refs - multiset(vs) == refs;
    } else {
      assert vs == [vs[0]] + vs[1..];
      assert vs[0] in multiset(vs);
      ReleaseGood(h, refs, base, exact, vs[0]);
      ReleaseAllGood(Release(h, vs[0]), refs - multiset{vs[0]}, base, exact, vs[1..]);
      assert refs - multiset(vs) == refs - multiset{vs[0]} - multiset(vs[1..]);
    }
  }

  // ----- the references a machine state holds -----

  function RefsOf(g: Option<Value>): multiset<Value> {
    if g.Some? then multiset{g.value} else multiset{}
  }

  function GlobalRefs(globals: seq<Option<Value>>): (r: multiset<Value>)
    ensures |r| <= |globals|
    decreases |globals|
  {
    if globals == [] then multiset{}
    else
      var n := |globals| - 1;
      GlobalRefs(globals[..n]) + RefsOf(globals[n])
  }

  lemma {:induction false} GlobalHeld(globals: seq<Option<Value>>, i: nat)
    requires i < |globals| && globals[i].Some?
    ensures globals[i].value in GlobalRefs(globals)
    decreases |globals|
  {
    if i < |globals| - 1 {
      GlobalHeld(globals[..|globals| - 1], i);
    }
  }

  lemma {:induction false} Reordered(refs: multiset<Value>, gone: multiset<Value>, v: Value, last: multiset<Value>)
    requires gone <= refs
    ensures refs - gone + multiset{v} + last == refs + last - gone + multiset{v}
  {
  }

  lemma {:induction false} GlobalReplaced(globals: seq<Option<Value>>, i: nat, v: Value)
    requires i < |globals|
    ensures RefsOf(globals[i]) <= GlobalRefs(globals)
    ensures GlobalRefs(globals[i := Some(v)]) == GlobalRefs(globals) - RefsOf(globals[i]) + multiset{v}
    decreases |globals|
  {
    hide GlobalRefs, RefsOf;
    var n, changed := |globals| - 1, globals[i := Some(v)];
    LastGlobal(globals);
    LastGlobal(changed);
    var low := GlobalRefs(globals[..n]);
    OneRef(v);
    if i < n {
      GlobalReplaced(globals[..n], i, v);
      assert changed[..n] == globals[..n][i := Some(v)];
      Reordered(low, RefsOf(globals[i]), v, RefsOf(globals[n]));
    } else {
      assert changed[..n] == globals[..n];
      Exchanged(low, RefsOf(globals[n]), v);
    }
  }

  lemma {:induction false} LastGlobal(globals: seq<Option<Value>>)
    requires globals != []
    ensures GlobalRefs(globals) == GlobalRefs(globals[..|globals| - 1]) + RefsOf(globals[|globals| - 1])
  {
  }

  lemma {:induction false} OneRef(v: Value)
    ensures RefsOf(Some(v)) == multiset{v}
  {
  }

  lemma {:induction false} Exchanged(low: multiset<Value>, gone: multiset<Value>, v: Value)
    ensures gone <= low + gone && low + multiset{v} == low + gone - gone + multiset{v}
  {
  }

  function Held(s: State): multiset<Value> {
    multiset(s.stack) + GlobalRefs(s.globals)
  }

  /** The counts are exact (or at least large enough) in `s`, with the constants `base` at the bottom of the heap. */
  ghost predicate Counted(s: State, base: Heap, exact: bool) {
    Good(s.heap, Held(s), base, exact) && |s.stack| <= STACK_SLOTS && |s.globals| <= 0xFF00
  }

  // ----- what each instruction does to the counts -----

  lemma {:induction false} TopHeld(s: State, n: nat)
    requires n <= |s.stack|
    ensures multiset(s.stack) == multiset(Dropped(s, n)) + multiset(s.stack[|s.stack| - n..])
  {
    assert s.stack == Dropped(s, n) + s.stack[|s.stack| - n..];
  }

  lemma {:induction false} SlotHeld(s: State, i: nat)
    requires i < |s.stack|
    ensures s.stack[i] in Held(s)
  {
    assert s.stack[i] in multiset(s.stack);
  }

  lemma {:induction false} ValuePoints(s: State, v: Value, base: Heap, exact: bool)
    requires Counted(s, base, exact) && v in Held(s)
    ensures Points(s.heap, v)
  {
    hide Points, RefOf, AddrOf, GlobalRefs;
  }

  lemma {:induction false} HeldPoints(s: State, v: Value, i: nat, base: Heap, exact: bool)
    requires Counted(s, base, exact) && i < |s.stack| && v == s.stack[i]
    ensures Points(s.heap, v)
  {
    hide Points, RefOf, AddrOf, GlobalRefs;
    SlotHeld(s, i);
  }

  lemma {:induction false} OfSize(refs: multiset<Value>, v: Value)
    ensures refs[v] <= |refs|
  {
    assert |refs[v := 0]| == |refs| - refs[v];
  }

  lemma {:induction false} Pushed(s: State, v: Value, base: Heap, exact: bool)
    requires Good(s.heap, Held(s) + multiset{v}, base, exact) && |s.globals| <= 0xFF00 && M.Push(s, v).Running?
    ensures Counted(M.Push(s, v).s, base, exact)
  {
    hide Good;
    var t := M.Push(s, v).s;
    assert Held(t) == Held(s) + multiset{v};
  }

  /** One more reference to a value that there is already. */
  lemma {:induction false} Copied(s: State, base: Heap, exact: bool, v: Value)
    requires Counted(s, base, exact) && Points(s.heap, v) && M.Push(s.(heap := Retain(s.heap, v)), v).Running?
    ensures Counted(M.Push(s.(heap := Retain(s.heap, v)), v).s, base, exact)
  {
    hide Good, Points, Retain;
    OfSize(Held(s), v);
    RetainGood(s.heap, Held(s), base, exact, v);
    Pushed(s.(heap := Retain(s.heap, v)), v, base, exact);
  }

  /** The top `n` values go; those that refer to the heap leave their counts behind. */
  lemma {:induction false} OneGone(s: State, base: Heap, exact: bool)
    requires Counted(s, base, exact) && |s.stack| > 0 && (exact ==> !OnHeap(Peek(s)))
    ensures Counted(s.(stack := Dropped(s, 1)), base, exact)
  {
    hide Good, GlobalRefs, OnHeap;
    TopHeld(s, 1);
    assert Held(s.(stack := Dropped(s, 1))) == Held(s) - multiset{Peek(s)};
    if exact {
      PlainGood(s.heap, Held(s), base, exact, Peek(s));
    } else {
      ForgetGood(s.heap, Held(s), base, Peek(s));
    }
  }

  lemma {:induction false} TopGone(s: State, n: nat, base: Heap, exact: bool)
    requires Counted(s, base, exact) && n <= |s.stack|
    requires exact ==> forall i :: |s.stack| - n <= i < |s.stack| ==> !OnHeap(s.stack[i])
    ensures Counted(s.(stack := Dropped(s, n)), base, exact)
    decreases n
  {
    hide Counted, OnHeap;
    if n == 0 {
      assert Dropped(s, 0) == s.stack;
    } else {
      var t := s.(stack := Dropped(s, 1));
      OneGone(s, base, exact);
      TopGone(t, n - 1, base, exact);
      assert Dropped(t, n - 1) == Dropped(s, n);
    }
  }

  /** The top `n` values are replaced by an immediate. */
  lemma {:induction false} TopReplaced(s: State, n: nat, v: Immediate, base: Heap, exact: bool)
    requires Counted(s, base, exact) && 0 < n <= |s.stack|
    requires exact ==> forall i :: |s.stack| - n <= i < |s.stack| ==> !OnHeap(s.stack[i])
    ensures Counted(s.(stack := Dropped(s, n) + [Imm(v)]), base, exact)
  {
    hide Good;
    TopGone(s, n, base, exact);
    var t := s.(stack := Dropped(s, n));
    PlainGood(t.heap, Held(t), base, exact, Imm(v));
    Pushed(t, Imm(v), base, exact);
  }

  /** The values from `from` up to `upTo` are released, and those and the ones above leave the stack. */
  lemma {:induction false} Released(s: State, from: nat, base: Heap, exact: bool)
    requires Counted(s, base, exact) && from <= |s.stack|
    ensures Counted(s.(heap := ReleaseAll(s.heap, s.stack[from..]), stack := s.stack[..from]), base, exact)
  {
    hide Good;
    var vs := s.stack[from..];
    TopHeld(s, |vs|);
    assert Dropped(s, |vs|) == s.stack[..from];
    ReleaseAllGood(s.heap, Held(s), base, exact, vs);
    assert Held(s) - multiset(vs) == multiset(s.stack[..from]) + GlobalRefs(s.globals);
  }

  lemma {:induction false} PopCounted(s: State, base: Heap, exact: bool)
    requires Counted(s, base, exact) && DoPop(s).Running?
    ensures Counted(DoPop(s).s, base, exact)
  {
    hide Good, Release, GlobalRefs, OnHeap;
    var t := DoPop(s).s;
    TopHeld(s, 1);
    assert Held(t) == Held(s) - multiset{Peek(s)};
    ReleaseGood(s.heap, Held(s), base, exact, Peek(s));
  }

  lemma {:induction false} CopyCounted(s: State, depth: nat, base: Heap, exact: bool)
    requires Counted(s, base, exact) && DoCopy(s, depth).Running?
    ensures Counted(DoCopy(s, depth).s, base, exact)
  {
    hide Good, GlobalRefs, Retain, Points, Counted, Held, OnHeap;
    var v := s.stack[|s.stack| - 1 - depth];
    HeldPoints(s, v, |s.stack| - 1 - depth, base, exact);
    Copied(s, base, exact, v);
  }

  lemma {:induction false} Swapped(stack: seq<Value>)
    requires |stack| >= 2
    ensures multiset(stack[..|stack| - 2] + [stack[|stack| - 1], stack[|stack| - 2]]) == multiset(stack)
  {
    assert stack == stack[..|stack| - 2] + [stack[|stack| - 2], stack[|stack| - 1]];
  }

  lemma {:induction false} SwapCounted(s: State, base: Heap, exact: bool)
    requires Counted(s, base, exact) && DoSwap(s).Running?
    ensures Counted(DoSwap(s).s, base, exact)
  {
    hide Good, GlobalRefs;
    Swapped(s.stack);
    assert Held(DoSwap(s).s) == Held(s);
  }

  /** OP_STR refers to a pool slot or to one of the constants. */
  predicate ConstAt(base: Heap, at: U16) {
    at < POOL_SLOTS || exists i :: 0 <= i < |base| && Str(at) == RefOf(base, i)
  }

  lemma {:induction false} StrCounted(s: State, at: U16, base: Heap, exact: bool)
    requires Counted(s, base, exact) && DoStr(s, at).Running? && ConstAt(base, at)
    ensures Counted(DoStr(s, at).s, base, exact)
  {
    assert SameShape(base, s.heap, |base|);
    ConstPoints(base, s.heap, at);
    hide Good, ConstAt, Points, Retain, Counted;
    Copied(s, base, exact, Str(at));
  }

  lemma {:induction false} ConstPoints(base: Heap, h: Heap, at: U16)
    requires SameShape(base, h, |base|) && ConstAt(base, at)
    ensures Points(h, Str(at))
  {
    ShapeKept(base, h, |base|);
    if at >= POOL_SLOTS {
      var i :| 0 <= i < |base| && Str(at) == RefOf(base, i);
      assert Str(at) == RefOf(h, i);
    }
  }

  /** The top of the stack becomes a global. */
  lemma {:induction false} DefinedRefs(s: State, i: Byte)
    requires DoDefineGlobal(s, i).Running?
    ensures var g := s.globals[i];
            Held(DoDefineGlobal(s, i).s) == (if g.Some? then Held(s) - multiset{g.value} else Held(s))
    ensures s.globals[i].Some? ==> s.globals[i].value in Held(s)
  {
    hide Release;
    var low, v := multiset(Dropped(s, 1)), Peek(s);
    assert s.stack == Dropped(s, 1) + [v];
    GlobalReplaced(s.globals, i, v);
    var refs := GlobalRefs(s.globals);
    var more := GlobalRefs(s.globals[i := Some(v)]);
    if s.globals[i].Some? {
      var w := s.globals[i].value;
      GlobalHeld(s.globals, i);
      hide GlobalRefs;
      Moved(low, refs, more, v, w);
    }
  }

  lemma {:induction false} Moved(low: multiset<Value>, refs: multiset<Value>, more: multiset<Value>, v: Value, w: Value)
    requires w in refs && more == refs - multiset{w} + multiset{v}
    ensures low + more == low + multiset{v} + refs - multiset{w}
  {
  }

  lemma {:induction false} DefineCounted(s: State, i: Byte, base: Heap, exact: bool)
    requires Counted(s, base, exact) && DoDefineGlobal(s, i).Running?
    ensures Counted(DoDefineGlobal(s, i).s, base, exact)
  {
    hide Good, Held, Release;
    DefinedRefs(s, i);
    if s.globals[i].Some? {
      ReleaseGood(s.heap, Held(s), base, exact, s.globals[i].value);
    }
  }

  lemma {:induction false} GetGlobalCounted(s: State, i: Byte, base: Heap, exact: bool)
    requires Counted(s, base, exact) && DoGetGlobal(s, i).Running?
    ensures Counted(DoGetGlobal(s, i).s, base, exact)
  {
    hide Good, GlobalRefs, Retain, Points, Counted, OnHeap;
    var v := s.globals[i].value;
    GlobalHeld(s.globals, i);
    assert v in Held(s);
    ValuePoints(s, v, base, exact);
    Copied(s, base, exact, v);
  }

  lemma {:induction false} SetGlobalCounted(s: State, i: Byte, base: Heap, exact: bool)
    requires Counted(s, base, exact) && DoSetGlobal(s, i).Running?
    ensures Counted(DoSetGlobal(s, i).s, base, exact)
  {
    DefineCounted(s, i, base, exact);
  }

  lemma {:induction false} GetLocalCounted(s: State, i: Byte, base: Heap, exact: bool)
    requires Counted(s, base, exact) && DoGetLocal(s, i).Running?
    ensures Counted(DoGetLocal(s, i).s, base, exact)
  {
    hide Good, GlobalRefs, Retain, Points, Counted, Held, OnHeap;
    var v := s.stack[s.fp + i];
    HeldPoints(s, v, s.fp + i, base, exact);
    Copied(s, base, exact, v);
  }

  lemma {:induction false} LocalSet(s: State, i: Byte)
    requires DoSetLocal(s, i).Running?
    ensures s.stack[s.fp + i] in Held(s)
    ensures Held(DoSetLocal(s, i).s) == Held(s) - multiset{s.stack[s.fp + i]}
  {
    hide GlobalRefs, Release;
    SlotHeld(s, s.fp + i);
    SlotMoved(s.stack, s.fp + i);
    assert s.stack[s.fp + i] in multiset(s.stack);
  }

  lemma {:induction false} SetLocalCounted(s: State, i: Byte, base: Heap, exact: bool)
    requires Counted(s, base, exact) && DoSetLocal(s, i).Running?
    ensures Counted(DoSetLocal(s, i).s, base, exact)
  {
    hide Good, Held, Release;
    LocalSet(s, i);
    ReleaseGood(s.heap, Held(s), base, exact, s.stack[s.fp + i]);
  }

  /** The top value moves into slot `j`. */
  lemma {:induction false} SlotMoved(stack: seq<Value>, j: nat)
    requires j < |stack|
    ensures multiset(stack[j := stack[|stack| - 1]][..|stack| - 1]) == multiset(stack) - multiset{stack[j]}
  {
    var n := |stack| - 1;
    if j == n {
      assert stack[j := stack[n]][..n] == stack[..n];
      assert stack == stack[..n] + [stack[n]];
    } else {
      assert stack[j := stack[n]][..n] == stack[..j] + [stack[n]] + stack[j + 1..n];
      assert stack == stack[..j] + [stack[j]] + stack[j + 1..n] + [stack[n]];
    }
  }

  lemma {:induction false} ReturnCounted(s: State, upTo: nat, v: Value, base: Heap, exact: bool)
    requires Counted(s, base, exact) && |s.frames| > 0 && upTo <= |s.stack| && LeaveFrame(s, upTo, v).Running?
    requires (upTo == |s.stack| && !OnHeap(v)) || (upTo == |s.stack| - 1 && v == Peek(s))
    ensures Counted(LeaveFrame(s, upTo, v).s, base, exact)
  {
    hide Good, ReleaseAll, GlobalRefs, OnHeap;
    var vs, low := s.stack[s.fp..upTo], s.stack[..s.fp];
    assert s.stack[..upTo] == low + vs;
    var heap := ReleaseAll(s.heap, vs);
    var t := s.(heap := heap, stack := low);
    if upTo == |s.stack| {
      assert s.stack == low + vs;
      ReleaseAllGood(s.heap, Held(s), base, exact, vs);
      assert Held(s) - multiset(vs) == Held(t);
      PlainGood(heap, Held(t), base, exact, v);
    } else {
      assert s.stack == low + vs + [v];
      ReleaseAllGood(s.heap, Held(s), base, exact, vs);
      assert Held(s) - multiset(vs) == Held(t) + multiset{v};
    }
    var caller := s.frames[|s.frames| - 1];
    Pushed(t.(frames := s.frames[..|s.frames| - 1], pc := caller.pc, fp := caller.fp), v, base, exact);
  }

  lemma {:induction false} TextCounted(s: State, text: seq<Byte>, base: Heap, exact: bool)
    requires Counted(s, base, exact) && PushString(s, text).Running?
    ensures Counted(PushString(s, text).s, base, exact)
  {
    hide Good;
    AllocGood(s.heap, Held(s), base, exact, StrBlock(1, text));
    Pushed(s.(heap := Alloc(s.heap, StrBlock(1, text)).value), Str(HeapPtr(s.heap)), base, exact);
  }

  lemma {:induction false} TwoHeld(s: State)
    requires |s.stack| >= 2
    ensures var a, b := s.stack[|s.stack| - 2], Peek(s);
            b in Held(s) && a in Held(s) - multiset{b}
            && Held(s.(stack := Dropped(s, 2))) == Held(s) - multiset{b} - multiset{a}
  {
    hide GlobalRefs;
    assert s.stack == Dropped(s, 2) + [s.stack[|s.stack| - 2], Peek(s)];
  }

  lemma {:induction false} ConcatCounted(s: State, base: Heap, exact: bool)
    requires Counted(s, base, exact) && DoConcat(s).Running?
    ensures Counted(DoConcat(s).s, base, exact)
  {
    hide Good, PushString, Release, StrBytes, GlobalRefs;
    var a, b := s.stack[|s.stack| - 2], Peek(s);
    TwoHeld(s);
    ReleaseGood(s.heap, Held(s), base, exact, b);
    ReleaseGood(Release(s.heap, b), Held(s) - multiset{b}, base, exact, a);
    var t := s.(heap := Release(Release(s.heap, b), a), stack := Dropped(s, 2));
    TextCounted(t, StrBytes(s.heap, a.at) + StrBytes(s.heap, b.at), base, exact);
  }

  lemma {:induction false} InterpCounted(s: State, base: Heap, exact: bool)
    requires Counted(s, base, exact) && DoInterp(s).Running?
    ensures Counted(DoInterp(s).s, base, exact)
  {
    hide Good, PushString;
    if Peek(s).Imm? {
      TopGone(s, 1, base, exact);
      TextCounted(s.(stack := Dropped(s, 1)), ImmediateText(Peek(s).v), base, exact);
    }
  }

  lemma {:induction false} PrintCounted(s: State, argc: Byte, base: Heap, exact: bool)
    requires Counted(s, base, exact) && DoBuiltin(s, BUILTIN_PRINT, argc).Running?
    ensures Counted(DoBuiltin(s, BUILTIN_PRINT, argc).s, base, exact)
  {
    hide Good, ReleaseAll, LineText;
    var args := s.stack[|s.stack| - argc..];
    Released(s, |s.stack| - argc, base, exact);
    var t := s.(heap := ReleaseAll(s.heap, args), stack := Dropped(s, argc));
    PlainGood(t.heap, Held(t), base, exact, Imm(Nil));
    Pushed(t.(out := s.out + [LineText(s.heap, args)]), Imm(Nil), base, exact);
  }

  lemma {:induction false} BuiltinCounted(s: State, id: Byte, argc: Byte, base: Heap, exact: bool)
    requires Counted(s, base, exact) && DoBuiltin(s, id, argc).Running?
    ensures Counted(DoBuiltin(s, id, argc).s, base, exact)
  {
    hide Good, ReleaseAll, LineText;
    if id == BUILTIN_PRINT {
      PrintCounted(s, argc, base, exact);
    } else {
      var a, b := s.stack[|s.stack| - 2], Peek(s);
      TopReplaced(s, 2, (if (a.v.n < b.v.n) == (id == BUILTIN_MIN) then a else b).v, base, exact);
    }
  }

  lemma {:induction false} NewArrayCounted(s: State, n: Byte, base: Heap, exact: bool)
    requires Counted(s, base, exact) && DoNewArray(s, n).Running?
    ensures Counted(DoNewArray(s, n).s, base, exact)
  {
    hide Good, GlobalRefs, BlockSize;
    var top := s.stack[|s.stack| - n..];
    assert forall i :: |s.stack| - n <= i < |s.stack| ==> top[i - (|s.stack| - n)] == s.stack[i];
    TopGone(s, n, base, exact);
    var t := s.(stack := Dropped(s, n));
    var b := ArrBlock(1, if n == 0 then ARRAY_INIT_CAPACITY else n, Immediates(top).value);
    AllocGood(t.heap, Held(t), base, exact, b);
    Pushed(t.(heap := Alloc(s.heap, b).value), Arr(HeapPtr(s.heap)), base, exact);
  }

  lemma {:induction false} ArrayGetCounted(s: State, base: Heap, exact: bool)
    requires Counted(s, base, exact) && DoArrayGet(s).Running?
    ensures Counted(DoArrayGet(s).s, base, exact)
  {
    hide Good;
    var a, v := s.stack[|s.stack| - 2], s.heap[ArrayAt(s.heap, s.stack[|s.stack| - 2].at).value].slots[Peek(s).v.n];
    TopGone(s, 1, base, exact);
    var t := s.(stack := Dropped(s, 1));
    assert Peek(t) == a;
    PopCounted(t, base, exact);
    var u := DoPop(t).s;
    assert u.stack == Dropped(s, 2);
    PlainGood(u.heap, Held(u), base, exact, Imm(v));
    Pushed(u, Imm(v), base, exact);
  }

  lemma {:induction false} ArraySetCounted(s: State, base: Heap, exact: bool)
    requires Counted(s, base, exact) && DoArraySet(s).Running?
    ensures Counted(DoArraySet(s).s, base, exact)
  {
    hide Good;
    var a, i, v := s.stack[|s.stack| - 3], s.stack[|s.stack| - 2], Peek(s);
    var at := ArrayAt(s.heap, a.at).value;
    var b := s.heap[at].(slots := s.heap[at].slots[i.v.n as int := v.v]);
    TopGone(s, 2, base, exact);
    var t := s.(stack := Dropped(s, 2));
    RewriteGood(t.heap, Held(t), base, exact, at, b);
    var u := t.(heap := s.heap[at := b]);
    assert Peek(u) == a;
    PopCounted(u, base, exact);
    assert DoPop(u).s == DoArraySet(s).s;
  }

  lemma {:induction false} LengthCounted(s: State, base: Heap, exact: bool)
    requires Counted(s, base, exact) && DoArrayLen(s).Running?
    ensures Counted(DoArrayLen(s).s, base, exact)
  {
    hide Good;
    PopCounted(s, base, exact);
    var t := DoPop(s).s;
    var v := Peek(DoArrayLen(s).s);
    PlainGood(t.heap, Held(t), base, exact, v);
    Pushed(t, v, base, exact);
  }

  lemma {:induction false} AppendCounted(s: State, base: Heap, exact: bool)
    requires Counted(s, base, exact) && DoArrayAppend(s).Running?
    ensures Counted(DoArrayAppend(s).s, base, exact)
  {
    hide Good;
    var a, v := s.stack[|s.stack| - 2], Peek(s);
    var at := ArrayAt(s.heap, a.at).value;
    TopGone(s, 1, base, exact);
    var t := s.(stack := Dropped(s, 1));
    assert Peek(t) == a;
    if |s.heap[at].slots| < s.heap[at].cap {
      RewriteGood(t.heap, Held(t), base, exact, at, s.heap[at].(slots := s.heap[at].slots + [v.v]));
      assert Dropped(s, 2) + [a] == t.stack;
    } else {
      GrowCounted(s, t, a, base, exact);
    }
  }

  /** The new block takes over the reference to the old one. */
  lemma {:induction false} TakenOver(t: State, h: Heap, fresh_: Value, base: Heap, exact: bool)
    requires Good(h, Held(t) + multiset{fresh_}, base, exact) && |t.globals| <= 0xFF00
    requires 0 < |t.stack| <= STACK_SLOTS && Peek(t).Arr?
    ensures Counted(t.(heap := ReleaseAt(h, Peek(t).at), stack := Dropped(t, 1) + [fresh_]), base, exact)
  {
    hide Good, AddrOf, BlockSize, GlobalRefs, ReleaseAt;
    var a, both := Peek(t), Held(t) + multiset{fresh_};
    TopHeld(t, 1);
    assert a in both;
    ReleaseGood(h, both, base, exact, a);
    var u := t.(heap := Release(h, a), stack := Dropped(t, 1));
    assert both - multiset{a} == Held(u) + multiset{fresh_};
    Pushed(u, fresh_, base, exact);
  }

  lemma {:induction false} GrowCounted(s: State, t: State, a: Value, base: Heap, exact: bool)
    requires DoArrayAppend(s).Running? && t == s.(stack := Dropped(s, 1)) && Counted(t, base, exact)
    requires a == Peek(t) && a.Arr? && ArrayAt(s.heap, a.at).Some?
    requires |s.heap[ArrayAt(s.heap, a.at).value].slots| >= s.heap[ArrayAt(s.heap, a.at).value].cap
    ensures Counted(DoArrayAppend(s).s, base, exact)
  {
    hide Good, AddrOf, BlockSize, Held, ArrayAt, BlockAt, OnHeap, Points, ReleaseAt;
    var full := s.heap[ArrayAt(s.heap, a.at).value];
    var cap := if full.cap * 2 < ARRAY_INIT_CAPACITY then ARRAY_INIT_CAPACITY else full.cap * 2;
    var b := ArrBlock(1, cap, full.slots + [Peek(s).v]);
    AllocGood(t.heap, Held(t), base, exact, b);
    TakenOver(t, Alloc(s.heap, b).value, Arr(HeapPtr(s.heap)), base, exact);
    assert Dropped(t, 1) == Dropped(s, 2);
  }

  // ----- steps and runs -----

  /** The instruction at the program counter. */
  function NextInstr(img: Image, s: State): Instr
    requires s.pc < |img.code|
  {
    Decode(Fetch(img.code, s.pc)).instr
  }

  /** `==` and `!=` drop their operands without releasing them. */
  predicate Leaks(i: Instr, s: State) {
    i.IEqual? && |s.stack| >= 2 && (OnHeap(Peek(s)) || OnHeap(s.stack[|s.stack| - 2]))
  }

  /** A string constant comes from the pool, and nothing leaks if the counts are to stay exact. */
  predicate Proper(i: Instr, s: State, base: Heap, exact: bool) {
    (i.IStr? ==> ConstAt(base, i.at)) && (exact ==> !Leaks(i, s))
  }

  lemma {:induction false} EqualCounted(s: State, same: bool, base: Heap, exact: bool)
    requires Counted(s, base, exact) && DoEqual(s, same).Running? && (exact ==> !Leaks(IEqual(same), s))
    ensures Counted(DoEqual(s, same).s, base, exact)
  {
    hide Good;
    TopReplaced(s, 2, Bool(SameValue(s.stack[|s.stack| - 2], Peek(s)) == same), base, exact);
  }

  lemma {:induction false} ArithCounted(s: State, op: ArithOp, base: Heap, exact: bool)
    requires Counted(s, base, exact) && DoArith(s, op).Running?
    ensures Counted(DoArith(s, op).s, base, exact)
  {
    hide Good, Arith, DoConcat;
    var a, b := s.stack[|s.stack| - 2], Peek(s);
    if op == Add && a.Str? && b.Str? {
      ConcatCounted(s, base, exact);
    } else {
      TopReplaced(s, 2, Int(Arith(op, a.v.n, b.v.n).n), base, exact);
    }
  }

  lemma {:induction false} OperatorCounted(i: Instr, img: Image, s: State, base: Heap, exact: bool)
    requires Counted(s, base, exact) && Exec(img, i, s).Running?
    requires i.INeg? || i.IInc? || i.ICompare? || i.INot?
    ensures Counted(Exec(img, i, s).s, base, exact)
  {
    hide Good, Compare, Wrap16, GlobalRefs, Counted;
    var t := Exec(img, i, s).s;
    TopReplaced(s, if i.ICompare? then 2 else 1, Peek(t).v, base, exact);
  }

  /** Jumps and calls leave the stack alone, but for a condition or a nil. */
  lemma {:induction false} JumpCounted(i: Instr, img: Image, s: State, base: Heap, exact: bool)
    requires Counted(s, base, exact) && Exec(img, i, s).Running?
    requires i.IJump? || i.IJumpIf? || i.ILoop? || i.ICoalesce? || i.IIfLet? || i.IUnwrap? || i.ICall?
    ensures Counted(Exec(img, i, s).s, base, exact)
  {
    hide Good, GlobalRefs, Counted, OnHeap;
    var t := Exec(img, i, s).s;
    if i.IJumpIf? || ((i.ICoalesce? || i.IIfLet?) && IsNil(Peek(s))) {
      PlainTop(s);
      TopGone(s, 1, base, exact);
      Elsewhere(s.(stack := Dropped(s, 1)), t, base, exact);
    } else {
      Elsewhere(s, t, base, exact);
    }
  }

  lemma {:induction false} PlainTop(s: State)
    requires |s.stack| > 0 && Peek(s).Imm?
    ensures forall i :: |s.stack| - 1 <= i < |s.stack| ==> !OnHeap(s.stack[i])
  {
  }

  /** Where execution stands has no part in the counts. */
  lemma {:induction false} Elsewhere(s: State, t: State, base: Heap, exact: bool)
    requires Counted(s, base, exact) && t.stack == s.stack && t.heap == s.heap && t.globals == s.globals
    ensures Counted(t, base, exact)
  {
    hide Good, GlobalRefs;
  }

  lemma {:induction false} PushCounted(s: State, v: Immediate, base: Heap, exact: bool)
    requires Counted(s, base, exact) && M.Push(s, Imm(v)).Running?
    ensures Counted(M.Push(s, Imm(v)).s, base, exact)
  {
    hide Good, GlobalRefs;
    PlainGood(s.heap, Held(s), base, exact, Imm(v));
    Pushed(s, Imm(v), base, exact);
  }

  lemma {:induction false} ExecCounted(img: Image, i: Instr, s: State, base: Heap, exact: bool)
    requires Counted(s, base, exact) && Exec(img, i, s).Running? && Proper(i, s, base, exact)
    ensures Counted(Exec(img, i, s).s, base, exact)
  {
    hide Counted, ConstAt, M.Push, DoStr, DoPop, DoCopy, DoSwap, DoDefineGlobal, DoGetGlobal, DoSetGlobal, DoGetLocal, DoSetLocal;
    hide DoArith, DoNeg, DoInc, DoEqual, DoCompare, DoNot, Branch, DoJumpIf, DoLoop, DoNilBranch, DoUnwrap, DoCall, LeaveFrame;
    hide DoBuiltin, DoConcat, DoInterp, DoNewArray, DoArrayGet, DoArraySet, DoArrayLen, DoArrayAppend, Leaks;
    match i {
      case IStr(at) => StrCounted(s, at, base, exact);
      case IPop => PopCounted(s, base, exact);
      case IDup => CopyCounted(s, 0, base, exact);
      case ISwap => SwapCounted(s, base, exact);
      case IOver => CopyCounted(s, 1, base, exact);
      case IDefineGlobal(g) => DefineCounted(s, g, base, exact);
      case IGetGlobal(g) => GetGlobalCounted(s, g, base, exact);
      case ISetGlobal(g) => SetGlobalCounted(s, g, base, exact);
      case IGetLocal(l) => GetLocalCounted(s, l, base, exact);
      case ISetLocal(l) => SetLocalCounted(s, l, base, exact);
      case IArith(op) => ArithCounted(s, op, base, exact);
      case IEqual(same) => EqualCounted(s, same, base, exact);
      case IReturn => ReturnCounted(s, |s.stack| - 1, Peek(s), base, exact);
      case IReturnVoid => ReturnCounted(s, |s.stack|, Imm(Nil), base, exact);
      case IBuiltin(id, argc) => BuiltinCounted(s, id, argc, base, exact);
      case IConcat => ConcatCounted(s, base, exact);
      case IInterp => InterpCounted(s, base, exact);
      case INewArray(n) => NewArrayCounted(s, n, base, exact);
      case IArrayGet => ArrayGetCounted(s, base, exact);
      case IArraySet => ArraySetCounted(s, base, exact);
      case IArrayLen => LengthCounted(s, base, exact);
      case IArrayAppend => AppendCounted(s, base, exact);
      case IPush(v) => PushCounted(s, v, base, exact);
      case INeg => OperatorCounted(i, img, s, base, exact);
      case IInc => OperatorCounted(i, img, s, base, exact);
      case ICompare(_) => OperatorCounted(i, img, s, base, exact);
      case INot => OperatorCounted(i, img, s, base, exact);
      case IJump(_) => JumpCounted(i, img, s, base, exact);
      case IJumpIf(_, _) => JumpCounted(i, img, s, base, exact);
      case ILoop(_) => JumpCounted(i, img, s, base, exact);
      case ICoalesce(_) => JumpCounted(i, img, s, base, exact);
      case IIfLet(_) => JumpCounted(i, img, s, base, exact);
      case IUnwrap => JumpCounted(i, img, s, base, exact);
      case ICall(_, _) => JumpCounted(i, img, s, base, exact);
      case _ =>
    }
  }

  lemma {:induction false} StepCounted(img: Image, s: State, base: Heap, exact: bool)
    requires Counted(s, base, exact) && Step(img, s).Running? && Proper(NextInstr(img, s), s, base, exact)
    ensures Counted(Step(img, s).s, base, exact)
  {
    hide Good, Exec, Decode, Held;
    var d := Decode(Fetch(img.code, s.pc));
    var t := s.(pc := s.pc + d.size);
    Elsewhere(s, t, base, exact);
    ExecCounted(img, d.instr, t, base, exact);
  }

  /** In the first `n` steps from `s`, string constants come from the pool; and if the counts are to stay
    * exact, no string or array is compared with `==` or `!=`. */
  ghost predicate Clean(img: Image, s: State, n: nat, base: Heap, exact: bool) {
    forall m: nat :: m < n && Run(img, s, m).Running? && Run(img, s, m).s.pc < |img.code| ==>
      Proper(NextInstr(img, Run(img, s, m).s), Run(img, s, m).s, base, exact)
  }

  /** In every state of every run the count of a block is the number of references to it; at least that,
    * when strings are compared. */
  lemma {:induction false} CountsStay(img: Image, s: State, n: nat, base: Heap, exact: bool)
    requires Counted(s, base, exact) && Clean(img, s, n, base, exact) && Run(img, s, n).Running?
    ensures Counted(Run(img, s, n).s, base, exact)
    decreases n
  {
    hide Counted, Proper, Step;
    if n > 0 {
      if Run(img, s, n - 1).Stopped? {
        RunStays(img, s, n - 1, n);
        assert false;
      }
      CountsStay(img, s, n - 1, base, exact);
      RunAdd(img, s, n - 1, 1);
      LastStep(img, Run(img, s, n - 1).s, base, exact);
    }
  }

  lemma {:induction false} LastStep(img: Image, t: State, base: Heap, exact: bool)
    requires Counted(t, base, exact) && Run(img, t, 1).Running?
    requires t.pc < |img.code| ==> Proper(NextInstr(img, t), t, base, exact)
    ensures Counted(Run(img, t, 1).s, base, exact)
  {
    hide Counted, Proper, Exec, Decode;
    assert Run(img, t, 1) == Step(img, t);
    StepCounted(img, t, base, exact);
  }

  /** A run starts with exact counts: the compiler leaves one reference to each constant. */
  lemma {:induction false} StartsCounted(start: nat, globals: seq<Option<Value>>, base: Heap)
    requires HeapPtr(base) <= HEAP_SIZE && forall i :: 0 <= i < |base| ==> base[i].count == 1
    requires |globals| <= 0xFF00 && forall i :: 0 <= i < |globals| ==> globals[i].None?
    ensures Counted(Start(start, globals, base), base, true)
  {
    hide AddrOf, BlockSize;
    NothingHeld(globals);
  }

  lemma {:induction false} NothingHeld(globals: seq<Option<Value>>)
    requires forall i :: 0 <= i < |globals| ==> globals[i].None?
    ensures GlobalRefs(globals) == multiset{}
    decreases |globals|
  {
    if globals != [] {
      NothingHeld(globals[..|globals| - 1]);
    }
  }

  /** No reference dangles: a string or array on the stack or in a global is a block of its kind that has
    * not been reclaimed, with a positive count. */
  lemma {:induction false} NothingDangles(s: State, base: Heap, exact: bool, v: Value)
    requires Counted(s, base, exact) && OnHeap(v)
    requires v in s.stack || Some(v) in s.globals
    ensures BlockAt(s.heap, v.at).Some?
    ensures var b := s.heap[BlockAt(s.heap, v.at).value];
            b.count > 0 && b.StrBlock? == v.Str?
  {
    hide AddrOf, BlockAt;
    if v !in s.stack {
      var g :| 0 <= g < |s.globals| && s.globals[g] == Some(v);
      GlobalHeld(s.globals, g);
    }
    assert v in Held(s);
    assert Points(s.heap, v);
    var i :| 0 <= i < |s.heap| && v == RefOf(s.heap, i);
    RefFits(s.heap, i);
    assert Counts(s.heap[i].count, Held(s)[RefOf(s.heap, i)] + (if i < |base| then 1 else 0), exact);
  }

  /** When exactly `==` keeps the counts exact: when neither operand lives on the heap. */
  lemma {:induction false} EqualExactly(s: State, same: bool, base: Heap)
    requires Counted(s, base, true) && |s.stack| >= 2
    ensures Counted(DoEqual(s, same).s, base, true) <==> !Leaks(IEqual(same), s)
    ensures Counted(DoEqual(s, same).s, base, false)
  {
    hide Good;
    ExactIsEnough(s.heap, Held(s), base);
    EqualCounted(s, same, base, false);
    if Leaks(IEqual(same), s) {
      var v := if OnHeap(Peek(s)) then Peek(s) else s.stack[|s.stack| - 2];
      OneLess(s, same, v);
      NowTooMany(s, DoEqual(s, same).s, base, v);
    } else {
      EqualCounted(s, same, base, true);
    }
  }

  lemma {:induction false} OneLess(s: State, same: bool, v: Value)
    requires |s.stack| >= 2 && OnHeap(v) && (v == Peek(s) || v == s.stack[|s.stack| - 2])
    ensures Held(DoEqual(s, same).s)[v] < Held(s)[v] && DoEqual(s, same).s.heap == s.heap
  {
    hide GlobalRefs, SameValue;
    assert s.stack == Dropped(s, 2) + [s.stack[|s.stack| - 2], Peek(s)];
  }

  lemma {:induction false} NowTooMany(s: State, t: State, base: Heap, v: Value)
    requires Counted(s, base, true) && t.heap == s.heap && OnHeap(v) && Held(t)[v] < Held(s)[v]
    ensures !Counted(t, base, true)
  {
    hide AddrOf, GlobalRefs, Held;
    assert Points(s.heap, v);
    var i :| 0 <= i < |s.heap| && v == RefOf(s.heap, i);
    assert Counts(s.heap[i].count, Held(s)[RefOf(s.heap, i)] + (if i < |base| then 1 else 0), true);
  }
}
