/** The `.swb` format byte by byte, and that the files the Compiler writes have exactly these bytes. */
module FileFormat {
  import opened Bytes
  import opened SwbImage

  /** Two bytes at `at` hold `w`, low byte first. */
  predicate Holds(s: seq<Byte>, at: nat, w: nat) {
    at + 2 <= |s| && (s[at + 1] as int) * 256 + s[at] == w
  }

  /** Magic, version, entry point, the sizes of the three sections, and a byte without meaning. */
  predicate Header(s: seq<Byte>, p: Program) {
    |s| >= 12
    && s[0] == 'S' as int && s[1] == 'W' as int && s[2] == 'B' as int && s[3] == 1
    && Holds(s, 4, p.start) && Holds(s, 6, |p.code|) && Holds(s, 8, |p.heap|) && s[10] == |p.funcs|
  }

  /** Four bytes: start, number of parameters, and whether there is a result. */
  predicate RecordAt(s: seq<Byte>, at: nat, f: Entry) {
    at + 4 <= |s| && Holds(s, at, f.start) && s[at + 2] == f.params && s[at + 3] == f.ret
  }

  lemma {:induction false} HoldsWord(s: seq<Byte>, at: nat, w: U16)
    requires at + 2 <= |s|
    ensures Holds(s, at, w) <==> WordAt(s, at) == w
  {
    hide Word;
    WordValue(s[at], s[at + 1]);
  }

  lemma {:induction false} RecordsHeld(s: seq<Byte>, at: nat, fs: seq<Entry>)
    requires at + 4 * |fs| <= |s|
    ensures EntriesAt(s, at, |fs|) == fs <==> forall i :: 0 <= i < |fs| ==> RecordAt(s, at + 4 * i, fs[i])
  {
    hide Word;
    var es := EntriesAt(s, at, |fs|);
    forall i | 0 <= i < |fs|
      ensures RecordAt(s, at + 4 * i, fs[i]) <==> es[i] == fs[i]
    {
      HoldsWord(s, at + 4 * i, fs[i].start);
      assert es[i] == EntryAt(s, at + 4 * i);
    }
  }

  /** The bytes of a file: header, code, heap and records in this order, with nothing between them. */
  lemma {:induction false} Layout(s: seq<Byte>, p: Program)
    requires Sized(p) && |s| == 12 + |p.code| + |p.heap| + 4 * |p.funcs|
    ensures var heapAt := 12 + |p.code|;
            var funcsAt := heapAt + |p.heap|;
            s == FileOf(p, s[11]) <==>
              Header(s, p) && s[12..heapAt] == p.code && s[heapAt..funcsAt] == p.heap
              && forall i :: 0 <= i < |p.funcs| ==> RecordAt(s, funcsAt + 4 * i, p.funcs[i])
  {
    hide Holds, FileOf, HeaderBytes, EntriesAt, RecordAt, Word;
    SectionsRead(s, p, s[11]);
    HeaderRead(s, p.start, |p.code|, |p.heap|, |p.funcs|, s[11]);
    HoldsWord(s, 4, p.start);
    HoldsWord(s, 6, |p.code|);
    HoldsWord(s, 8, |p.heap|);
    RecordsHeld(s, 12 + |p.code| + |p.heap|, p.funcs);
    assert s[..3] == [s[0], s[1], s[2]];
  }
}
