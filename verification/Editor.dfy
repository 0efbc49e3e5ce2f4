/** The editor's text model (gapbuf.c, textnav.c, keymap.c): a gap buffer, scans over its lines, and what each
  * key does to the text, the cursor and the viewport. */
module Editor {
  import opened Bytes

  const LF: Byte := 0x0A
  const WORK_ROWS := 22
  const PAGE_LINES := WORK_ROWS - 2

  // ----- lines of a text -----

  /** textnav_line_start. */
  function LineStart(t: seq<Byte>, p: nat): (r: nat)
    requires p <= |t|
    ensures r <= p && (r == 0 || t[r - 1] == LF)
    ensures forall i :: r <= i < p ==> t[i] != LF
    decreases p
  {
    if p > 0 && t[p - 1] != LF then LineStart(t, p - 1) else p
  }

  /** textnav_line_end. */
  function LineEnd(t: seq<Byte>, p: nat): (r: nat)
    requires p <= |t|
    ensures p <= r <= |t| && (r == |t| || t[r] == LF)
    ensures forall i :: p <= i < r ==> t[i] != LF
    decreases |t| - p
  {
    if p < |t| && t[p] != LF then LineEnd(t, p + 1) else p
  }

  /** textnav_line_index: the number of line breaks before `p`. */
  function LineIndex(t: seq<Byte>, p: nat): nat
    requires p <= |t|
    decreases p
  {
    if p == 0 then 0 else LineIndex(t, p - 1) + if t[p - 1] == LF then 1 else 0
  }

  /** Behind the break with which the text from `p` on reaches line `line`; -1 when it does not. */
  function FindLine(t: seq<Byte>, p: nat, line: nat): (r: int)
    requires p <= |t| && LineIndex(t, p) < line
    ensures r == -1 || (p < r <= |t| && t[r - 1] == LF && LineIndex(t, r) == line)
    ensures r == -1 ==> LineIndex(t, |t|) < line
    decreases |t| - p
  {
    if p == |t| then -1
    else if LineIndex(t, p + 1) == line then p + 1
    else FindLine(t, p + 1, line)
  }

  /** textnav_line_at: the start of a line, or of the last one when there are not that many. */
  function LineAt(t: seq<Byte>, line: nat): (r: nat)
    ensures r <= |t|
  {
    if line == 0 then 0
    else
      var r := FindLine(t, 0, line);
      if r >= 0 then r else LineStart(t, |t|)
  }

  function Column(t: seq<Byte>, p: nat): nat
    requires p <= |t|
  {
    p - LineStart(t, p)
  }

  /** pos_in_line. */
  function PosInLine(t: seq<Byte>, start: nat, col: nat): (r: nat)
    requires start <= |t|
    ensures start <= r <= LineEnd(t, start)
  {
    start + Min(col, LineEnd(t, start) - start)
  }

  /** textnav_up. */
  function Up(t: seq<Byte>, p: nat): (r: nat)
    requires p <= |t|
    ensures r <= p
  {
    var start := LineStart(t, p);
    if start == 0 then p else PosInLine(t, LineStart(t, start - 1), p - start)
  }

  /** textnav_down. */
  function Down(t: seq<Byte>, p: nat): (r: nat)
    requires p <= |t|
    ensures p <= r <= |t|
  {
    var end := LineEnd(t, p);
    if end == |t| then p else PosInLine(t, end + 1, Column(t, p))
  }

  lemma {:induction false} IndexKept(t: seq<Byte>, p: nat, q: nat)
    requires p <= q <= |t|
    ensures LineIndex(t, p) <= LineIndex(t, q)
    ensures (forall i :: p <= i < q ==> t[i] != LF) <==> LineIndex(t, p) == LineIndex(t, q)
    decreases q
  {
    if p < q {
      IndexKept(t, p, q - 1);
    }
  }

  /** A position behind a break starts the only line with its number. */
  lemma {:induction false} StartUnique(t: seq<Byte>, r: nat, s: nat)
    requires r <= |t| && s <= |t| && LineIndex(t, r) == LineIndex(t, s)
    requires (r == 0 || t[r - 1] == LF) && (s == 0 || t[s - 1] == LF)
    ensures r == s
  {
    if r < s { IndexKept(t, r, s); }
    if s < r { IndexKept(t, s, r); }
  }

  /** The start of the line with the number of the line at `p` is the start of the line at `p`. */
  lemma {:induction false} LineFound(t: seq<Byte>, p: nat)
    requires p <= |t|
    ensures LineAt(t, LineIndex(t, p)) == LineStart(t, p)
  {
    hide LineIndex, FindLine;
    var start, line := LineStart(t, p), LineIndex(t, p);
    IndexKept(t, start, p);
    if line == 0 {
      IndexKept(t, 0, start);
      StartUnique(t, 0, start) by { ZeroAtStart(t); }
    } else {
      ZeroAtStart(t);
      var r := FindLine(t, 0, line);
      IndexKept(t, p, |t|);
      StartUnique(t, r, start);
    }
  }

  lemma {:induction false} ZeroAtStart(t: seq<Byte>)
    ensures LineIndex(t, 0) == 0
  {
  }

  /** The line of a position between a start and the end of that line. */
  lemma {:induction false} StartOfLine(t: seq<Byte>, start: nat, p: nat)
    requires start <= p <= |t| && (start == 0 || t[start - 1] == LF) && p <= LineEnd(t, start)
    ensures LineStart(t, p) == start && LineEnd(t, p) == LineEnd(t, start) && LineIndex(t, p) == LineIndex(t, start)
  {
    hide LineStart, LineEnd, LineIndex;
    IndexKept(t, start, p);
    IndexKept(t, LineStart(t, p), p);
    StartUnique(t, start, LineStart(t, p));
  }

  lemma {:induction false} NextIndex(t: seq<Byte>, p: nat)
    requires p < |t|
    ensures LineIndex(t, p + 1) == LineIndex(t, p) + if t[p] == LF then 1 else 0
  {
  }

  /** Down goes to the next line, to the same column or as far as the line goes; on the last line nowhere. */
  lemma {:induction false} DownGoes(t: seq<Byte>, p: nat)
    requires p <= |t|
    ensures var q, end := Down(t, p), LineEnd(t, p);
            if end == |t| then q == p
            else
              && LineStart(t, q) == end + 1 && LineIndex(t, q) == LineIndex(t, p) + 1
              && Column(t, q) == Min(Column(t, p), LineEnd(t, q) - LineStart(t, q))
  {
    hide LineStart, LineEnd, LineIndex;
    var end := LineEnd(t, p);
    if end < |t| {
      StartOfLine(t, end + 1, Down(t, p));
      IndexKept(t, p, end);
      NextIndex(t, end);
    }
  }

  /** Up goes to the line before, likewise; on the first line nowhere. */
  lemma {:induction false} UpGoes(t: seq<Byte>, p: nat)
    requires p <= |t|
    ensures var q, start := Up(t, p), LineStart(t, p);
            if start == 0 then q == p
            else
              && LineEnd(t, q) == start - 1 && LineIndex(t, q) == LineIndex(t, p) - 1
              && Column(t, q) == Min(Column(t, p), LineEnd(t, q) - LineStart(t, q))
  {
    hide LineStart, LineEnd, LineIndex;
    var start := LineStart(t, p);
    if start > 0 {
      var above := LineStart(t, start - 1);
      EndOfLine(t, above, start - 1);
      StartOfLine(t, above, Up(t, p));
      IndexKept(t, start, p);
      IndexKept(t, above, start - 1);
      NextIndex(t, start - 1);
    }
  }

  lemma {:induction false} EndOfLine(t: seq<Byte>, start: nat, end: nat)
    requires start <= end < |t| && t[end] == LF && forall i :: start <= i < end ==> t[i] != LF
    ensures LineEnd(t, start) == end
  {
    var r := LineEnd(t, start);
    if r < end {
      assert false;
    }
  }

  /** Down and then up comes back exactly when the lower line reaches the column, or there is no lower line
    * and no upper one either. */
  lemma {:induction false} DownThenUp(t: seq<Byte>, p: nat)
    requires p <= |t|
    ensures var below := Down(t, p);
            if LineEnd(t, p) == |t| then Up(t, below) == p <==> LineStart(t, p) == 0
            else Up(t, below) == p <==> Column(t, p) <= LineEnd(t, below) - LineStart(t, below)
  {
    hide LineStart, LineEnd, LineIndex;
    DownGoes(t, p);
    var q := Down(t, p);
    UpGoes(t, q);
    if LineEnd(t, p) < |t| {
      var up := Up(t, q);
      IndexKept(t, LineStart(t, p), p);
      IndexKept(t, LineStart(t, up), up);
      StartUnique(t, LineStart(t, p), LineStart(t, up));
    } else if LineStart(t, p) > 0 {
      assert LineIndex(t, Up(t, q)) != LineIndex(t, p);
    }
  }

  // ----- the gap buffer -----

  /** A text with a cursor. */
  datatype Doc = Doc(text: seq<Byte>, at: nat)

  /** Copy the `k` bytes that end at `from` to the ones that end at `to`, from the top down. */
  method CopyUp(buf: array<Byte>, from: nat, to: nat, k: nat)
    requires k <= from <= to <= buf.Length
    modifies buf
    ensures buf[..from - k] == old(buf[..from - k]) && buf[to - k..] == old(buf[from - k..from]) + old(buf[to..])
  {
    var i := 0;
    while i < k
      invariant 0 <= i <= k
      invariant forall x :: 0 <= x < buf.Length ==> buf[x] == old(buf[if to - i <= x < to then x - (to - from) else x])
    {
      buf[to - 1 - i] := buf[from - 1 - i];
      i := i + 1;
    }
    CopiedUp(old(buf[..]), buf[..], from, to, k);
    assert old(buf[..from - k]) == old(buf[..])[..from - k] && buf[..from - k] == buf[..][..from - k];
    assert old(buf[from - k..from]) == old(buf[..])[from - k..from];
    assert old(buf[to..]) == old(buf[..])[to..] && buf[to - k..] == buf[..][to - k..];
  }

  lemma {:induction false} CopiedUp(s: seq<Byte>, t: seq<Byte>, from: nat, to: nat, k: nat)
    requires k <= from <= to <= |s| == |t|
    requires forall x :: 0 <= x < |s| ==> t[x] == s[if to - k <= x < to then x - (to - from) else x]
    ensures t[..from - k] == s[..from - k] && t[to - k..] == s[from - k..from] + s[to..]
  {
  }

  /** Copy the `k` bytes from `from` on down to `to`, from the bottom up. */
  method CopyDown(buf: array<Byte>, from: nat, to: nat, k: nat)
    requires to <= from <= from + k <= buf.Length
    modifies buf
    ensures buf[..to + k] == old(buf[..to]) + old(buf[from..from + k]) && buf[from + k..] == old(buf[from + k..])
  {
    var i := 0;
    while i < k
      invariant 0 <= i <= k
      invariant forall x :: 0 <= x < buf.Length ==> buf[x] == old(buf[if to <= x < to + i then x + (from - to) else x])
    {
      buf[to + i] := buf[from + i];
      i := i + 1;
    }
    CopiedDown(old(buf[..]), buf[..], from, to, k);
    assert old(buf[..to]) == old(buf[..])[..to] && buf[..to + k] == buf[..][..to + k];
    assert old(buf[from..from + k]) == old(buf[..])[from..from + k];
    assert old(buf[from + k..]) == old(buf[..])[from + k..] && buf[from + k..] == buf[..][from + k..];
  }

  lemma {:induction false} CopiedDown(s: seq<Byte>, t: seq<Byte>, from: nat, to: nat, k: nat)
    requires to <= from <= from + k <= |s| == |t|
    requires forall x :: 0 <= x < |s| ==> t[x] == s[if to <= x < to + k then x + (from - to) else x]
    ensures t[..to + k] == s[..to] + s[from..from + k] && t[from + k..] == s[from + k..]
  {
  }

  lemma {:induction false} Regrouped(a: seq<Byte>, b: seq<Byte>, c: seq<Byte>)
    ensures a + b + c == a + (b + c)
  {
  }

  class GapBuf {
    const buf: array<Byte>
    var gapStart: nat
    var gapEnd: nat

    predicate Valid()
      reads this
    {
      gapStart <= gapEnd <= buf.Length
    }

    /** What the buffer stands for: the text on both sides of the gap, and the cursor at the gap. */
    ghost function Contents(): (d: Doc)
      reads this, buf
      requires Valid()
      ensures d.at == gapStart && |d.text| == gapStart + (buf.Length - gapEnd)
    {
      Doc(buf[..gapStart] + buf[gapEnd..], gapStart)
    }

    constructor (cap: nat)
      ensures Valid() && fresh(buf) && buf.Length == cap && Contents() == Doc([], 0)
    {
      buf := new Byte[cap];
      gapStart, gapEnd := 0, cap;
    }

    function Len(): (n: nat)
      reads this
      requires Valid()
    {
      gapStart + (buf.Length - gapEnd)
    }

    /** gapbuf_insert. */
    method Insert(ch: Byte) returns (ok: bool)
      requires Valid()
      modifies this`gapStart, buf
      ensures Valid() && ok == (|old(Contents()).text| < buf.Length)
      ensures var d := old(Contents());
              Contents() == if ok then Doc(d.text[..d.at] + [ch] + d.text[d.at..], d.at + 1) else d
    {
      if gapStart == gapEnd {
        return false;
      }
      ghost var d := Contents();
      buf[gapStart] := ch;
      gapStart := gapStart + 1;
      assert d.text[..d.at] == old(buf[..gapStart]) && d.text[d.at..] == old(buf[gapEnd..]);
      assert buf[..gapStart] == d.text[..d.at] + [ch];
      return true;
    }

    /** gapbuf_delete_left: the byte disappears into the gap. */
    method DeleteLeft() returns (ok: bool)
      requires Valid()
      modifies this`gapStart
      ensures Valid() && ok == (old(Contents()).at > 0)
      ensures var d := old(Contents());
              Contents() == if ok then Doc(d.text[..d.at - 1] + d.text[d.at..], d.at - 1) else d
    {
      if gapStart == 0 {
        return false;
      }
      ghost var d := Contents();
      assert d.text[..d.at - 1] == buf[..gapStart - 1] && d.text[d.at..] == buf[gapEnd..];
      gapStart := gapStart - 1;
      return true;
    }

    /** gapbuf_delete_right. */
    method DeleteRight() returns (ok: bool)
      requires Valid()
      modifies this`gapEnd
      ensures Valid() && ok == (old(Contents()).at < |old(Contents()).text|)
      ensures var d := old(Contents());
              Contents() == if ok then Doc(d.text[..d.at] + d.text[d.at + 1..], d.at) else d
    {
      if gapEnd == buf.Length {
        return false;
      }
      ghost var d := Contents();
      assert d.text[..d.at] == buf[..gapStart] && d.text[d.at + 1..] == buf[gapEnd + 1..];
      gapEnd := gapEnd + 1;
      return true;
    }

    /** gapbuf_move_left: the bytes move over the gap from the top down, as they may overlap. */
    method MoveLeft(n: nat)
      requires Valid()
      modifies this, buf
      ensures Valid() && Contents() == old(Contents()).(at := if n > old(Contents()).at then 0 else old(Contents()).at - n)
    {
      var k := if n > gapStart then gapStart else n;
      ghost var a, b, c := buf[..gapStart - k], buf[gapStart - k..gapStart], buf[gapEnd..];
      assert buf[..gapStart] == a + b;
      CopyUp(buf, gapStart, gapEnd, k);
      gapStart, gapEnd := gapStart - k, gapEnd - k;
      Regrouped(a, b, c);
    }

    /** gapbuf_move_right: from the bottom up. */
    method MoveRight(n: nat)
      requires Valid()
      modifies this, buf
      ensures Valid()
      ensures var d := old(Contents());
              Contents() == d.(at := if n > |d.text| - d.at then |d.text| else d.at + n)
    {
      var avail := buf.Length - gapEnd;
      var k := if n > avail then avail else n;
      ghost var a, b, c := buf[..gapStart], buf[gapEnd..gapEnd + k], buf[gapEnd + k..];
      assert buf[gapEnd..] == b + c;
      CopyDown(buf, gapEnd, gapStart, k);
      gapStart, gapEnd := gapStart + k, gapEnd + k;
      Regrouped(a, b, c);
    }

    /** gapbuf_move_to. */
    method MoveTo(pos: nat)
      requires Valid()
      modifies this, buf
      ensures Valid() && Contents() == old(Contents()).(at := Min(pos, |old(Contents()).text|))
    {
      var target := if pos > Len() then Len() else pos;
      if target < gapStart {
        MoveLeft(gapStart - target);
      } else if target > gapStart {
        MoveRight(target - gapStart);
      }
    }

    /** gapbuf_at: zero beyond the text. */
    function At(pos: nat): (b: Byte)
      reads this, buf
      requires Valid()
      ensures b == if pos < |Contents().text| then Contents().text[pos] else 0
    {
      if pos >= Len() then 0
      else if pos < gapStart then buf[pos]
      else buf[gapEnd + (pos - gapStart)]
    }

    /** gapbuf_serialize. */
    method Serialize(out: array<Byte>, cap: nat) returns (n: nat)
      requires Valid() && cap <= out.Length && out != buf
      modifies out
      ensures n == Min(|Contents().text|, cap) && out[..n] == Contents().text[..n]
    {
      n := 0;
      while n < gapStart && n < cap
        invariant 0 <= n <= cap && n <= gapStart && out[..n] == Contents().text[..n]
      {
        out[n] := buf[n];
        n := n + 1;
      }
      ghost var t := Contents().text;
      var i := 0;
      while i < buf.Length - gapEnd && n < cap
        invariant 0 <= i <= buf.Length - gapEnd && n <= cap
        invariant n < cap ==> n == gapStart + i
        invariant n == cap || n == gapStart + i
        invariant n <= |t| && out[..n] == t[..n]
      {
        assert buf[gapEnd + i] == t[gapStart + i];
        out[n] := buf[gapEnd + i];
        n, i := n + 1, i + 1;
      }
    }

    /** gapbuf_load: the text goes to the top of the buffer, the cursor to its start. */
    method Load(src: seq<Byte>) returns (ok: bool)
      requires Valid()
      modifies this, buf
      ensures Valid() && ok == (|src| <= buf.Length)
      ensures Contents() == if ok then Doc(src, 0) else old(Contents())
    {
      if |src| > buf.Length {
        return false;
      }
      gapStart, gapEnd := 0, buf.Length - |src|;
      var i := 0;
      while i < |src|
        invariant 0 <= i <= |src| && gapStart == 0 && gapEnd == buf.Length - |src|
        invariant buf[gapEnd..gapEnd + i] == src[..i]
      {
        buf[gapEnd + i] := src[i];
        assert buf[gapEnd..gapEnd + i + 1] == buf[gapEnd..gapEnd + i] + [src[i]] == src[..i + 1];
        i := i + 1;
      }
      assert buf[gapEnd..] == buf[gapEnd..gapEnd + i] == src && buf[..0] + src == src;
      return true;
    }
  }

  // ----- scans over the lines of a buffer (textnav.c) -----

  method FindStart(gb: GapBuf, pos: nat) returns (i: nat)
    requires gb.Valid()
    ensures i == LineStart(gb.Contents().text, Min(pos, gb.Len()))
  {
    i := Min(pos, gb.Len());
    while i > 0 && gb.At(i - 1) != LF
      invariant i <= gb.Len() && LineStart(gb.Contents().text, i) == LineStart(gb.Contents().text, Min(pos, gb.Len()))
    {
      i := i - 1;
    }
  }

  method FindEnd(gb: GapBuf, pos: nat) returns (i: nat)
    requires gb.Valid()
    ensures i == LineEnd(gb.Contents().text, Min(pos, gb.Len()))
  {
    i := Min(pos, gb.Len());
    while i < gb.Len() && gb.At(i) != LF
      invariant i <= gb.Len() && LineEnd(gb.Contents().text, i) == LineEnd(gb.Contents().text, Min(pos, gb.Len()))
    {
      i := i + 1;
    }
  }

  method FindIndex(gb: GapBuf, pos: nat) returns (line: nat)
    requires gb.Valid()
    ensures line == LineIndex(gb.Contents().text, Min(pos, gb.Len()))
  {
    line := 0;
    var i := 0;
    while i < Min(pos, gb.Len())
      invariant 0 <= i <= Min(pos, gb.Len()) && line == LineIndex(gb.Contents().text, i)
    {
      if gb.At(i) == LF {
        line := line + 1;
      }
      i := i + 1;
    }
  }

  /** textnav_line_count. */
  method CountLines(gb: GapBuf) returns (lines: nat)
    requires gb.Valid()
    ensures lines == LineIndex(gb.Contents().text, gb.Len()) + 1
  {
    lines := 1;
    var i := 0;
    while i < gb.Len()
      invariant 0 <= i <= gb.Len() && lines == LineIndex(gb.Contents().text, i) + 1
    {
      if gb.At(i) == LF {
        lines := lines + 1;
      }
      i := i + 1;
    }
  }

  /** textnav_line_at. */
  method FindPlace(gb: GapBuf, line: nat) returns (r: nat)
    requires gb.Valid()
    ensures r == LineAt(gb.Contents().text, line)
  {
    hide LineStart;
    if line == 0 {
      return 0;
    }
    var seen, i := 0, 0;
    while i < gb.Len()
      invariant 0 <= i <= gb.Len() && seen == LineIndex(gb.Contents().text, i) < line
      invariant FindLine(gb.Contents().text, i, line) == FindLine(gb.Contents().text, 0, line)
    {
      if gb.At(i) == LF {
        seen := seen + 1;
        if seen == line {
          return i + 1;
        }
      }
      i := i + 1;
    }
    r := FindStart(gb, gb.Len());
  }

  method PlaceInLine(gb: GapBuf, start: nat, col: nat) returns (r: nat)
    requires gb.Valid() && start <= gb.Len()
    ensures r == PosInLine(gb.Contents().text, start, col)
  {
    hide LineEnd;
    var end := FindEnd(gb, start);
    r := start + if col > end - start then end - start else col;
  }

  method MoveUp(gb: GapBuf, pos: nat) returns (r: nat)
    requires gb.Valid()
    ensures r == Up(gb.Contents().text, Min(pos, gb.Len()))
  {
    hide LineStart, PosInLine;
    var p := Min(pos, gb.Len());
    var start := FindStart(gb, p);
    if start == 0 {
      return p;
    }
    var above := FindStart(gb, start - 1);
    r := PlaceInLine(gb, above, p - start);
  }

  method MoveDown(gb: GapBuf, pos: nat) returns (r: nat)
    requires gb.Valid()
    ensures r == Down(gb.Contents().text, Min(pos, gb.Len()))
  {
    hide LineStart, LineEnd, PosInLine;
    var p := Min(pos, gb.Len());
    var start := FindStart(gb, p);
    var end := FindEnd(gb, p);
    if end >= gb.Len() {
      return p;
    }
    r := PlaceInLine(gb, end + 1, p - start);
  }

  // ----- keys -----

  const CTRL_A: Byte := 0x01
  const CTRL_D: Byte := 0x04
  const CTRL_E: Byte := 0x05
  const LEFT: Byte := 0x08
  const DOWN: Byte := 0x0A
  const UP: Byte := 0x0B
  const CTRL_L: Byte := 0x0C
  const RETURN: Byte := 0x0D
  const CTRL_O: Byte := 0x0F
  const CTRL_Q: Byte := 0x11
  const CTRL_R: Byte := 0x12
  const CTRL_S: Byte := 0x13
  const PAGE_UP: Byte := 0x14
  const RIGHT: Byte := 0x15
  const PAGE_DOWN: Byte := 0x16
  const DELETE: Byte := 0x7F

  datatype Action = Nothing | Save | Run | Quit

  /** The text with its cursor, the first line on the screen, and whether there is something to save. */
  datatype State = State(doc: Doc, top: nat, dirty: bool)

  function Inserted(d: Doc, ch: Byte): Doc
    requires d.at <= |d.text|
  {
    Doc(d.text[..d.at] + [ch] + d.text[d.at..], d.at + 1)
  }

  /** `n` lines up or down. */
  function Lines(t: seq<Byte>, p: nat, n: nat, up: bool): (r: nat)
    requires p <= |t|
    ensures r <= |t|
    decreases n
  {
    if n == 0 then p else Lines(t, if up then Up(t, p) else Down(t, p), n - 1, up)
  }

  /** Where a key that moves the cursor takes it. */
  function Target(d: Doc, key: Byte): (p: nat)
    requires d.at <= |d.text|
    ensures p <= |d.text|
  {
    if key == LEFT then (if d.at == 0 then 0 else d.at - 1)
    else if key == RIGHT then Min(d.at + 1, |d.text|)
    else if key == UP || key == CTRL_O then Up(d.text, d.at)
    else if key == DOWN || key == CTRL_L then Down(d.text, d.at)
    else if key == PAGE_UP then Lines(d.text, d.at, PAGE_LINES, true)
    else if key == PAGE_DOWN then Lines(d.text, d.at, PAGE_LINES, false)
    else if key == CTRL_A then LineStart(d.text, d.at)
    else if key == CTRL_E then LineEnd(d.text, d.at)
    else d.at
  }

  /** The byte that a key types, if it types one. */
  function Typed(key: Byte): int {
    if key == RETURN then LF else if 0x20 <= key < 0x7F then key else -1
  }

  /** What a key does to the text and the cursor, with room for `cap` bytes. */
  function Pressed(d: Doc, key: Byte, cap: nat): (r: Doc)
    requires d.at <= |d.text| <= cap
    ensures r.at <= |r.text| <= cap
  {
    if key == DELETE || key == CTRL_D then
      if d.at == 0 then d else Doc(d.text[..d.at - 1] + d.text[d.at..], d.at - 1)
    else if Typed(key) >= 0 then
      if |d.text| == cap then d else Inserted(d, Typed(key))
    else d.(at := Target(d, key))
  }

  /** editor_scroll. */
  function Scrolled(top: nat, line: nat): nat {
    if line < top then line else if line >= top + WORK_ROWS then line - WORK_ROWS + 1 else top
  }

  function ActionOf(key: Byte): Action {
    if key == CTRL_S then Save else if key == CTRL_R then Run else if key == CTRL_Q then Quit else Nothing
  }

  /** One key. */
  function Dispatched(s: State, key: Byte, cap: nat): (r: State)
    requires s.doc.at <= |s.doc.text| <= cap
    ensures r.doc.at <= |r.doc.text| <= cap
  {
    if ActionOf(key) != Nothing then s
    else
      var d := Pressed(s.doc, key, cap);
      State(d, Scrolled(s.top, LineIndex(d.text, d.at)), s.dirty || d.text != s.doc.text)
  }

  /** A series of keys. */
  function AllDispatched(s: State, keys: seq<Byte>, cap: nat): (r: State)
    requires s.doc.at <= |s.doc.text| <= cap
    ensures r.doc.at <= |r.doc.text| <= cap
    decreases |keys|
  {
    if keys == [] then s else AllDispatched(Dispatched(s, keys[0], cap), keys[1..], cap)
  }

  /** The line with the cursor is on the screen. */
  predicate InView(s: State)
    requires s.doc.at <= |s.doc.text|
  {
    s.top <= LineIndex(s.doc.text, s.doc.at) < s.top + WORK_ROWS
  }

  /** Whatever is typed, the cursor stays on the screen. */
  lemma {:induction false} StaysInView(s: State, keys: seq<Byte>, cap: nat)
    requires s.doc.at <= |s.doc.text| <= cap && InView(s)
    ensures InView(AllDispatched(s, keys, cap))
    decreases |keys|
  {
    hide Pressed;
    if keys != [] {
      StaysInView(Dispatched(s, keys[0], cap), keys[1..], cap);
    }
  }

  class EditorState {
    const gb: GapBuf
    var topLine: nat
    var dirty: bool

    ghost predicate Valid()
      reads this, gb
    {
      gb.Valid()
    }

    ghost function View(): (s: State)
      reads this, gb, gb.buf
      requires Valid()
      ensures s.doc.at <= |s.doc.text| <= gb.buf.Length
    {
      State(gb.Contents(), topLine, dirty)
    }

    /** editor_state_init on an empty buffer. */
    constructor (cap: nat)
      ensures Valid() && fresh(gb) && fresh(gb.buf) && gb.buf.Length == cap && View() == State(Doc([], 0), 0, false)
    {
      gb := new GapBuf(cap);
      topLine, dirty := 0, false;
    }

    /** follow_cursor. */
    method FollowCursor()
      requires Valid()
      modifies this`topLine
      ensures topLine == Scrolled(old(topLine), LineIndex(gb.Contents().text, gb.Contents().at))
    {
      hide LineIndex;
      var line := FindIndex(gb, gb.gapStart);
      if line < topLine {
        topLine := line;
      } else if line >= topLine + WORK_ROWS {
        topLine := line - WORK_ROWS + 1;
      }
    }

    method Backspace()
      requires Valid()
      modifies this`dirty, gb
      ensures Valid()
      ensures var d, r := old(gb.Contents()), Pressed(old(gb.Contents()), DELETE, gb.buf.Length);
              gb.Contents() == r && dirty == (old(dirty) || r.text != d.text)
    {
      var ok := gb.DeleteLeft();
      if ok {
        dirty := true;
        assert |gb.Contents().text| < |old(gb.Contents()).text|;
      }
    }

    method Type(ch: Byte)
      requires Valid()
      modifies this`dirty, gb, gb.buf
      ensures Valid()
      ensures var d := old(gb.Contents());
              var r := if |d.text| == gb.buf.Length then d else Inserted(d, ch);
              gb.Contents() == r && dirty == (old(dirty) || r.text != d.text)
    {
      var ok := gb.Insert(ch);
      if ok {
        dirty := true;
        assert |gb.Contents().text| > |old(gb.Contents()).text|;
      }
    }

    /** A page up or down: one line at a time, then one move of the gap. */
    method Page(up: bool) returns (pos: nat)
      requires Valid()
      ensures pos == Lines(gb.Contents().text, gb.Contents().at, PAGE_LINES, up)
    {
      hide Up, Down;
      pos := gb.gapStart;
      var i := 0;
      while i < PAGE_LINES
        invariant 0 <= i <= PAGE_LINES && pos <= gb.Len()
        invariant Lines(gb.Contents().text, pos, PAGE_LINES - i, up) == Lines(gb.Contents().text, gb.Contents().at, PAGE_LINES, up)
      {
        if up {
          pos := MoveUp(gb, pos);
        } else {
          pos := MoveDown(gb, pos);
        }
        i := i + 1;
      }
    }

    /** The place to which a key moves the cursor. */
    method Aim(key: Byte) returns (pos: nat)
      requires Valid()
      ensures pos == Target(gb.Contents(), key)
    {
      hide Up, Down, Lines, LineStart, LineEnd;
      pos := gb.gapStart;
      if key == UP || key == CTRL_O {
        pos := MoveUp(gb, pos);
      } else if key == DOWN || key == CTRL_L {
        pos := MoveDown(gb, pos);
      } else if key == PAGE_UP {
        pos := Page(true);
      } else if key == PAGE_DOWN {
        pos := Page(false);
      } else if key == CTRL_A {
        pos := FindStart(gb, pos);
      } else if key == CTRL_E {
        pos := FindEnd(gb, pos);
      } else if key == LEFT && pos > 0 {
        pos := pos - 1;
      } else if key == RIGHT && pos < gb.Len() {
        pos := pos + 1;
      }
    }

    /** editor_dispatch. */
    method Dispatch(key: Byte) returns (action: Action)
      requires Valid()
      modifies this, gb, gb.buf
      ensures Valid() && View() == Dispatched(old(View()), key, gb.buf.Length) && action == ActionOf(key)
    {
      hide Target, LineIndex, Inserted;
      action := ActionOf(key);
      if action != Nothing {
        return;
      }
      if key == DELETE || key == CTRL_D {
        Backspace();
      } else if key == RETURN {
        Type(LF);
      } else if 0x20 <= key < 0x7F {
        Type(key);
      } else if key == LEFT {
        gb.MoveLeft(1);
        LeftIs(old(gb.Contents()));
      } else if key == RIGHT {
        gb.MoveRight(1);
        RightIs(old(gb.Contents()));
      } else {
        var pos := Aim(key);
        gb.MoveTo(pos);
      }
      FollowCursor();
    }

    /** The editor does to its gap buffer what the keys do to the plain text. */
    method TypeAll(keys: seq<Byte>)
      requires Valid()
      modifies this, gb, gb.buf
      ensures Valid() && View() == AllDispatched(old(View()), keys, gb.buf.Length)
    {
      hide Dispatched;
      ghost var s := View();
      var i := 0;
      assert keys[0..] == keys;
      while i < |keys|
        invariant 0 <= i <= |keys| && Valid()
        invariant AllDispatched(View(), keys[i..], gb.buf.Length) == AllDispatched(s, keys, gb.buf.Length)
      {
        assert keys[i..][1..] == keys[i + 1..];
        var _ := Dispatch(keys[i]);
        i := i + 1;
      }
    }
  }

  lemma {:induction false} LeftIs(d: Doc)
    requires d.at <= |d.text|
    ensures Target(d, LEFT) == if 1 > d.at then 0 else d.at - 1
  {
  }

  lemma {:induction false} RightIs(d: Doc)
    requires d.at <= |d.text|
    ensures Target(d, RIGHT) == if 1 > |d.text| - d.at then |d.text| else d.at + 1
  {
  }
}
