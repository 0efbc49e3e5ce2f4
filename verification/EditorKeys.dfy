/** What each key of the editor does, by its code and in terms of lines and columns. */
module EditorKeys {
  import opened Bytes
  import opened Editor

  /** The number of a line is the number of line feeds before it. */
  lemma {:induction false} IndexCounts(t: seq<Byte>, p: nat)
    requires p <= |t|
    ensures LineIndex(t, p) == multiset(t[..p])['\n' as int]
    decreases p
  {
    if p > 0 {
      IndexCounts(t, p - 1);
      assert t[..p] == t[..p - 1] + [t[p - 1]];
    }
  }

  function LineLength(t: seq<Byte>, p: nat): nat
    requires p <= |t|
  {
    LineEnd(t, p) - LineStart(t, p)
  }

  /** `q` is in the line `line`, and as far right as `col` or as that line reaches. */
  predicate Lands(t: seq<Byte>, q: nat, line: int, col: nat) {
    q <= |t| && LineIndex(t, q) == line && Column(t, q) == if col <= LineLength(t, q) then col else LineLength(t, q)
  }

  lemma {:induction false} UpLands(t: seq<Byte>, p: nat)
    requires p <= |t|
    ensures if LineIndex(t, p) == 0 then Up(t, p) == p else Lands(t, Up(t, p), LineIndex(t, p) - 1, Column(t, p))
  {
    hide LineStart, LineEnd, LineIndex, Up;
    UpGoes(t, p);
    ZeroAtStart(t);
    IndexKept(t, 0, LineStart(t, p));
    IndexKept(t, LineStart(t, p), p);
    if LineStart(t, p) > 0 {
      assert t[LineStart(t, p) - 1] == LF;
    }
  }

  lemma {:induction false} DownLands(t: seq<Byte>, p: nat)
    requires p <= |t|
    ensures if LineIndex(t, p) == LineIndex(t, |t|) then Down(t, p) == p else Lands(t, Down(t, p), LineIndex(t, p) + 1, Column(t, p))
  {
    hide LineStart, LineEnd, LineIndex, Down;
    DownGoes(t, p);
    IndexKept(t, p, |t|);
    if LineEnd(t, p) < |t| {
      assert t[LineEnd(t, p)] == LF;
    }
  }

  /** Every line with a number from `a` to `b` reaches the column `col`. */
  ghost predicate Reach(t: seq<Byte>, a: int, b: int, col: nat) {
    forall q :: 0 <= q <= |t| && a <= LineIndex(t, q) <= b ==> LineLength(t, q) >= col
  }

  /** `q` is `n` lines above or below `p`, or at the last line there is, and in the column of `p` if all lines on the way
    * reach it. */
  ghost predicate PageLands(t: seq<Byte>, p: nat, q: nat, n: nat, up: bool) {
    p <= |t| && q <= |t|
    && LineIndex(t, q) == (if up then (if LineIndex(t, p) < n then 0 else LineIndex(t, p) - n)
                           else if LineIndex(t, p) + n > LineIndex(t, |t|) then LineIndex(t, |t|) else LineIndex(t, p) + n)
    && Column(t, q) <= Column(t, p)
    && (Reach(t, if up then LineIndex(t, q) else LineIndex(t, p), if up then LineIndex(t, p) else LineIndex(t, q), Column(t, p))
        ==> Column(t, q) == Column(t, p))
  }

  lemma {:induction false} LastLine(t: seq<Byte>, p: nat)
    requires p <= |t|
    ensures LineIndex(t, p) <= LineIndex(t, |t|)
  {
    hide LineIndex;
    IndexKept(t, p, |t|);
  }

  lemma {:induction false} LinesLand(t: seq<Byte>, p: nat, n: nat, up: bool)
    requires p <= |t|
    ensures PageLands(t, p, Lines(t, p, n, up), n, up)
    decreases n
  {
    hide LineIndex, LineStart, LineEnd, Up, Down, Lands, Reach;
    LastLine(t, p);
    if n > 0 {
      var m := if up then Up(t, p) else Down(t, p);
      LinesLand(t, m, n - 1, up);
      LastLine(t, m);
      if up { UpLands(t, p); } else { DownLands(t, p); }
      StepLands(t, p, m, Lines(t, p, n, up), n, up);
    }
  }

  lemma {:induction false} StepLands(t: seq<Byte>, p: nat, m: nat, q: nat, n: nat, up: bool)
    requires p <= |t| && m <= |t| && n > 0 && PageLands(t, m, q, n - 1, up)
    requires LineIndex(t, p) <= LineIndex(t, |t|) && LineIndex(t, m) <= LineIndex(t, |t|)
    requires if LineIndex(t, p) == (if up then 0 else LineIndex(t, |t|)) then m == p
             else Lands(t, m, if up then LineIndex(t, p) - 1 else LineIndex(t, p) + 1, Column(t, p))
    ensures PageLands(t, p, q, n, up)
  {
    hide LineIndex, LineStart, LineEnd, Column, LineLength;
  }

  /** The keys that move the cursor. */
  lemma {:induction false} KeyMoves(d: Doc, key: Byte, cap: nat)
    requires d.at <= |d.text| <= cap
    requires key in {0x08, 0x15, 0x0B, 0x0F, 0x0A, 0x0C, 0x14, 0x16, 0x01, 0x05}
    ensures var t, p, r := d.text, d.at, Pressed(d, key, cap);
            && r.text == t
            && (key == 0x08 ==> r.at == if p == 0 then 0 else p - 1)
            && (key == 0x15 ==> r.at == if p == |t| then p else p + 1)
            && (key == 0x0B || key == 0x0F ==>
                  if LineIndex(t, p) == 0 then r.at == p else Lands(t, r.at, LineIndex(t, p) - 1, Column(t, p)))
            && (key == 0x0A || key == 0x0C ==>
                  if LineIndex(t, p) == LineIndex(t, |t|) then r.at == p else Lands(t, r.at, LineIndex(t, p) + 1, Column(t, p)))
            && (key == 0x14 ==> PageLands(t, p, r.at, 20, true))
            && (key == 0x16 ==> PageLands(t, p, r.at, 20, false))
            && (key == 0x01 ==> LineIndex(t, r.at) == LineIndex(t, p) && Column(t, r.at) == 0)
            && (key == 0x05 ==> LineIndex(t, r.at) == LineIndex(t, p) && Column(t, r.at) == LineLength(t, p))
  {
    hide LineIndex, LineStart, LineEnd, Up, Down, Lands, PageLands, Lines;
    var t, p := d.text, d.at;
    UpLands(t, p);
    DownLands(t, p);
    LinesLand(t, p, 20, true);
    LinesLand(t, p, 20, false);
    EndsOfLine(t, p);
  }

  lemma {:induction false} EndsOfLine(t: seq<Byte>, p: nat)
    requires p <= |t|
    ensures LineIndex(t, LineStart(t, p)) == LineIndex(t, p) == LineIndex(t, LineEnd(t, p))
    ensures LineStart(t, LineStart(t, p)) == LineStart(t, p) == LineStart(t, LineEnd(t, p))
  {
    hide LineStart, LineEnd, LineIndex;
    var start, end := LineStart(t, p), LineEnd(t, p);
    IndexKept(t, start, p);
    IndexKept(t, p, end);
    IndexKept(t, LineStart(t, start), start);
    IndexKept(t, LineStart(t, end), end);
    StartUnique(t, LineStart(t, start), start);
    StartUnique(t, LineStart(t, end), start);
  }

  /** The keys that change the text: the byte before the cursor goes, or one comes in while there is room. */
  lemma {:induction false} KeyEdits(d: Doc, key: Byte, cap: nat)
    requires d.at <= |d.text| <= cap
    ensures var r := Pressed(d, key, cap);
            && (key == 0x7F || key == 0x04 ==>
                  if d.at == 0 then r == d
                  else r.at + 1 == d.at && r.text[..r.at] + [d.text[r.at]] + r.text[r.at..] == d.text)
            && (0x20 <= key < 0x7F || key == 0x0D ==>
                  if |d.text| == cap then r == d
                  else d.at + 1 == r.at && d.text[..d.at] + [if key == 0x0D then '\n' as int else key] + d.text[d.at..] == r.text)
            && (!(key in {0x7F, 0x04, 0x0D}) && !(0x20 <= key < 0x7F) ==> r.text == d.text)
  {
    hide Target;
    if (key == 0x7F || key == 0x04) && d.at > 0 {
      var r := Pressed(d, key, cap);
      assert r.text[..r.at] == d.text[..r.at] && r.text[r.at..] == d.text[d.at..];
    }
  }

  /** The keys that do nothing to the text, and what the others make the editor do. */
  lemma {:induction false} KeyActions(s: State, key: Byte, cap: nat)
    requires s.doc.at <= |s.doc.text| <= cap && InView(s)
    ensures ActionOf(key) == if key == 0x13 then Save else if key == 0x12 then Run else if key == 0x11 then Quit else Nothing
    ensures ActionOf(key) != Nothing ==> Dispatched(s, key, cap) == s
    ensures key < 0x20 && !(key in {0x04, 0x0D, 0x08, 0x15, 0x0B, 0x0F, 0x0A, 0x0C, 0x14, 0x16, 0x01, 0x05}) ==> Dispatched(s, key, cap) == s
    ensures key > 0x7F ==> Dispatched(s, key, cap) == s
    ensures Dispatched(s, key, cap).dirty <==> s.dirty || Dispatched(s, key, cap).doc.text != s.doc.text
  {
    hide Up, Down, Lines, LineStart, LineEnd, LineIndex;
  }

  /** The screen moves no further than it must: the line with the cursor comes to its upper or lower edge. */
  lemma {:induction false} ScrollsLeast(s: State, key: Byte, cap: nat)
    requires s.doc.at <= |s.doc.text| <= cap && InView(s)
    ensures var r := Dispatched(s, key, cap);
            var line := LineIndex(r.doc.text, r.doc.at);
            && r.top <= line < r.top + 22
            && (s.top <= line < s.top + 22 ==> r.top == s.top)
            && (line < s.top ==> r.top == line) && (line >= s.top + 22 ==> r.top + 21 == line)
  {
    hide Pressed, LineIndex;
  }
}
