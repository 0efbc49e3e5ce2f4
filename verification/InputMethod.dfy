/** Typing Swift on a keyboard without lower case, braces or underscores (input.c): the translator that runs
  * over a finished line, possibly in place, and its inverse for loading a file into the editor. */
module InputMethod {
  import opened Bytes

  datatype Mode = Normal | InString | LineComment | BlockComment

  /** A staged case marker: for one letter, or for a run of letters. */
  datatype Pending = NoMark | OneMark | RunMark

  const LF: Byte := 0x0A
  const CR: Byte := 0x0D
  const CTRL_W: Byte := 0x17
  const QUOTE: Byte := 0x22
  const PERCENT: Byte := 0x25
  const APOSTROPHE: Byte := 0x27
  const STAR: Byte := 0x2A
  const SLASH: Byte := 0x2F
  const COLON: Byte := 0x3A
  const LESS: Byte := 0x3C
  const GREATER: Byte := 0x3E
  const QUESTION: Byte := 0x3F
  const BANG: Byte := 0x21
  const BACKSLASH: Byte := 0x5C
  const UNDERSCORE: Byte := 0x5F

  predicate IsLower(c: Byte) { 0x61 <= c <= 0x7A }

  predicate IsUpper(c: Byte) { 0x41 <= c <= 0x5A }

  predicate IsLetter(c: Byte) { IsLower(c) || IsUpper(c) }

  function ToLower(c: Byte): (r: Byte)
    ensures IsLetter(r) == IsLetter(c) && !IsUpper(r)
  {
    if IsUpper(c) then c + 32 else c
  }

  function ToUpper(c: Byte): (r: Byte)
    ensures IsLetter(r) == IsLetter(c) && !IsLower(r)
  {
    if IsLower(c) then c - 32 else c
  }

  // ----- what a line means -----

  /** The state of the translator between two bytes. */
  datatype State = State(mode: Mode, pending: Pending, prev: Byte)

  const START := State(Normal, NoMark, 0)

  /** What one turn does: the bytes it emits, the number of bytes it reads, and the state it leaves. */
  datatype Turn = Turn(emit: seq<Byte>, read: nat, next: State)

  function Emit(b: Byte, read: nat, st: State): Turn {
    Turn([b], read, State(st.mode, NoMark, b))
  }

  function At(u: seq<Byte>, i: nat): Byte {
    if i < |u| then u[i] else 0
  }

  /** The character that a digraph or trigraph at the front of `u` stands for, and its length; zero if none. */
  function Spelling(u: seq<Byte>): (r: (Byte, nat))
    ensures r.1 <= |u|
  {
    var k, n := At(u, 0), At(u, 1);
    if k == LESS && n == PERCENT then (0x7B, 2)
    else if k == PERCENT && n == GREATER then (0x7D, 2)
    else if k == LESS && n == COLON then (0x5B, 2)
    else if k == COLON && n == GREATER then (0x5D, 2)
    else if k == QUESTION && n == QUESTION && At(u, 2) == SLASH then (BACKSLASH, 3)
    else if k == QUESTION && n == QUESTION && At(u, 2) == BANG then (0x7C, 3)
    else (0, 0)
  }

  /** One turn of input_translate on the rest `u` of the line, with room for `room` more bytes. */
  function TurnOf(u: seq<Byte>, st: State, room: nat): (t: Turn)
    requires u != [] && room > 0
    ensures 1 <= t.read <= |u| && |t.emit| <= t.read && |t.emit| <= room
  {
    var k := u[0];
    if st.mode == BlockComment then
      if k == STAR && At(u, 1) == SLASH && room > 1 then Turn([STAR, SLASH], 2, State(Normal, st.pending, SLASH))
      else Turn([ToLower(k)], 1, State(BlockComment, st.pending, ToLower(k)))
    else if st.mode == LineComment then
      if k == LF || k == CR then Turn([k], 1, State(Normal, st.pending, k))
      else Turn([ToLower(k)], 1, State(LineComment, st.pending, ToLower(k)))
    else if k == APOSTROPHE then ApostropheTurn(u, st)
    else if k == CTRL_W && st.mode == Normal then Emit(UNDERSCORE, 1, st)
    else if IsLetter(k) then LetterTurn(k, st)
    else PlainTurn(u, st, room)
  }

  /** In a string behind a letter an apostrophe is one; elsewhere it marks case. */
  function ApostropheTurn(u: seq<Byte>, st: State): Turn
    requires u != []
  {
    if st.mode == InString && IsLetter(st.prev) then Turn([APOSTROPHE], 1, State(st.mode, st.pending, APOSTROPHE))
    else if At(u, 1) == APOSTROPHE then Turn([], 2, State(st.mode, RunMark, st.prev))
    else Turn([], 1, State(st.mode, OneMark, st.prev))
  }

  function LetterTurn(k: Byte, st: State): Turn {
    var letter := if st.pending == NoMark then ToLower(k) else ToUpper(ToLower(k));
    Turn([letter], 1, State(st.mode, if st.pending == OneMark then NoMark else st.pending, letter))
  }

  /** Everything that is not a letter drops a pending marker. */
  function PlainTurn(u: seq<Byte>, st: State, room: nat): (t: Turn)
    requires u != [] && room > 0
    ensures 1 <= t.read <= |u| && |t.emit| <= t.read && |t.emit| <= room
  {
    var k := u[0];
    if k == QUOTE then Turn([QUOTE], 1, State(if st.mode == InString then Normal else InString, NoMark, QUOTE))
    else if st.mode == InString && k == BACKSLASH then
      if |u| > 1 && room > 1 then Turn([BACKSLASH, ToLower(u[1])], 2, State(InString, NoMark, ToLower(u[1])))
      else Turn([BACKSLASH], 1, State(InString, NoMark, BACKSLASH))
    else if st.mode == Normal && k == SLASH && At(u, 1) == SLASH && room > 1 then
      Turn([SLASH, SLASH], 2, State(LineComment, NoMark, SLASH))
    else if st.mode == Normal && k == SLASH && At(u, 1) == STAR && room > 1 then
      Turn([SLASH, STAR], 2, State(BlockComment, NoMark, STAR))
    else if Spelling(u).1 > 0 then Emit(Spelling(u).0, Spelling(u).1, st)
    else Emit(k, 1, st)
  }

  /** input_translate on the rest `u` of the line. */
  function Translated(u: seq<Byte>, st: State, room: nat): (r: seq<Byte>)
    ensures |r| <= |u| && |r| <= room
    decreases |u|
  {
    if u == [] || room == 0 then []
    else
      var t := TurnOf(u, st, room);
      t.emit + Translated(u[t.read..], t.next, room - |t.emit|)
  }

  // ----- the translator, in place -----

  /** The bytes from `r` on have not been overwritten, and there is room at `w`, which is not beyond `r`. */
  ghost predicate Unread(src: array<Byte>, r: nat, n: nat, out: array<Byte>, w: nat, max: nat, s: seq<Byte>)
    reads src
  {
    |s| == n <= src.Length && w <= r < n && w < max <= out.Length && forall i :: r <= i < n ==> src[i] == s[i]
  }

  /** The turn `t` has been taken: its bytes are written up to `end`, and reading goes on at `next`. */
  ghost predicate Took(src: array<Byte>, r: nat, n: nat, before: seq<Byte>, out: array<Byte>, w: nat, s: seq<Byte>, t: Turn,
                       end: nat, next: nat, st: State)
    reads src, out
  {
    && n <= src.Length && n == |s| && w <= |before| == out.Length
    && end == w + |t.emit| <= out.Length && next == r + t.read <= n && st == t.next
    && out[..end] == before[..w] + t.emit && forall i :: next <= i < n ==> src[i] == s[i]
  }

  /** Comments: letters become lower case, and that is all. */
  method CommentTurn(src: array<Byte>, r: nat, n: nat, out: array<Byte>, w: nat, max: nat, st: State, ghost s: seq<Byte>)
    returns (end: nat, next: nat, st': State)
    requires Unread(src, r, n, out, w, max, s) && (st.mode == LineComment || st.mode == BlockComment)
    modifies out
    ensures Took(src, r, n, old(out[..]), out, w, s, TurnOf(s[r..], st, max - w), end, next, st')
  {
    var k := src[r];
    assert s[r..][0] == k && (r + 1 < n ==> s[r..][1] == s[r + 1]);
    var letter := ToLower(k);
    out[w] := letter;
    end, next, st' := w + 1, r + 1, State(st.mode, st.pending, letter);
    if st.mode == BlockComment {
      if k == STAR && next < n && src[next] == SLASH && end < max {
        out[end] := SLASH;
        end, next, st' := end + 1, next + 1, State(Normal, st.pending, SLASH);
      }
    } else if k == LF || k == CR {
      st' := State(Normal, st.pending, k);
    }
  }

  /** Apostrophes outside comments. */
  method MarkerTurn(src: array<Byte>, r: nat, n: nat, out: array<Byte>, w: nat, max: nat, st: State, ghost s: seq<Byte>)
    returns (end: nat, next: nat, st': State)
    requires Unread(src, r, n, out, w, max, s) && src[r] == APOSTROPHE
    modifies out
    ensures Took(src, r, n, old(out[..]), out, w, s, ApostropheTurn(s[r..], st), end, next, st')
  {
    assert r + 1 < n ==> s[r..][1] == s[r + 1];
    if st.mode == InString && IsLetter(st.prev) {
      out[w] := APOSTROPHE;
      return w + 1, r + 1, State(st.mode, st.pending, APOSTROPHE);
    }
    if r + 1 < n && src[r + 1] == APOSTROPHE {
      return w, r + 2, State(st.mode, RunMark, st.prev);
    }
    return w, r + 1, State(st.mode, OneMark, st.prev);
  }

  /** Letters outside comments. */
  method LetterStep(src: array<Byte>, r: nat, n: nat, out: array<Byte>, w: nat, max: nat, st: State, ghost s: seq<Byte>)
    returns (end: nat, next: nat, st': State)
    requires Unread(src, r, n, out, w, max, s) && IsLetter(src[r])
    modifies out
    ensures Took(src, r, n, old(out[..]), out, w, s, LetterTurn(s[r], st), end, next, st')
  {
    var letter := ToLower(src[r]);
    var pending := st.pending;
    if pending == OneMark {
      letter := ToUpper(letter);
      pending := NoMark;
    } else if pending == RunMark {
      letter := ToUpper(letter);
    }
    out[w] := letter;
    return w + 1, r + 1, State(st.mode, pending, letter);
  }

  /** A backslash in a string takes the next byte along. */
  method EscapeTurn(src: array<Byte>, r: nat, n: nat, out: array<Byte>, w: nat, max: nat, st: State, ghost s: seq<Byte>)
    returns (end: nat, next: nat, st': State)
    requires Unread(src, r, n, out, w, max, s) && st.mode == InString && src[r] == BACKSLASH
    modifies out
    ensures Took(src, r, n, old(out[..]), out, w, s, PlainTurn(s[r..], st, max - w), end, next, st')
  {
    assert r + 1 < n ==> s[r..][1] == s[r + 1];
    out[w] := BACKSLASH;
    if r + 1 < n && w + 1 < max {
      var argument := ToLower(src[r + 1]);
      out[w + 1] := argument;
      return w + 2, r + 2, State(InString, NoMark, argument);
    }
    return w + 1, r + 1, State(InString, NoMark, BACKSLASH);
  }

  /** Digraphs, trigraphs and whatever else passes through. */
  method SpellingTurn(src: array<Byte>, r: nat, n: nat, out: array<Byte>, w: nat, max: nat, st: State, ghost s: seq<Byte>)
    returns (end: nat, next: nat, st': State)
    requires Unread(src, r, n, out, w, max, s) && src[r] != QUOTE
    requires !(st.mode == InString && src[r] == BACKSLASH)
    requires !(st.mode == Normal && src[r] == SLASH && (At(s[r..], 1) == SLASH || At(s[r..], 1) == STAR) && w + 1 < max)
    requires st.mode == Normal || st.mode == InString
    modifies out
    ensures Took(src, r, n, old(out[..]), out, w, s, PlainTurn(s[r..], st, max - w), end, next, st')
  {
    var k := src[r];
    var c, c2 := if r + 1 < n then src[r + 1] else 0, if r + 2 < n then src[r + 2] else 0;
    assert c == At(s[r..], 1) && c2 == At(s[r..], 2);
    var b, read := k, 1;
    if k == LESS && c == PERCENT {
      b, read := 0x7B, 2;
    } else if k == PERCENT && c == GREATER {
      b, read := 0x7D, 2;
    } else if k == LESS && c == COLON {
      b, read := 0x5B, 2;
    } else if k == COLON && c == GREATER {
      b, read := 0x5D, 2;
    } else if k == QUESTION && c == QUESTION && c2 == SLASH {
      b, read := BACKSLASH, 3;
    } else if k == QUESTION && c == QUESTION && c2 == BANG {
      b, read := 0x7C, 3;
    }
    out[w] := b;
    return w + 1, r + read, State(st.mode, NoMark, b);
  }

  /** Quotes, escapes, the start of a comment, and the rest. */
  method PlainStep(src: array<Byte>, r: nat, n: nat, out: array<Byte>, w: nat, max: nat, st: State, ghost s: seq<Byte>)
    returns (end: nat, next: nat, st': State)
    requires Unread(src, r, n, out, w, max, s) && (st.mode == Normal || st.mode == InString)
    modifies out
    ensures Took(src, r, n, old(out[..]), out, w, s, PlainTurn(s[r..], st, max - w), end, next, st')
  {
    var k, c := src[r], if r + 1 < n then src[r + 1] else 0;
    assert c == At(s[r..], 1) && k == s[r..][0];
    if k == QUOTE {
      out[w] := QUOTE;
      return w + 1, r + 1, State(if st.mode == InString then Normal else InString, NoMark, QUOTE);
    }
    if st.mode == InString && k == BACKSLASH {
      end, next, st' := EscapeTurn(src, r, n, out, w, max, st, s);
      return;
    }
    if st.mode == Normal && k == SLASH && (c == SLASH || c == STAR) && w + 1 < max {
      out[w], out[w + 1] := SLASH, c;
      return w + 2, r + 2, State(if c == SLASH then LineComment else BlockComment, NoMark, c);
    }
    end, next, st' := SpellingTurn(src, r, n, out, w, max, st, s);
  }

  /** One turn of the loop. */
  method Step(src: array<Byte>, r: nat, n: nat, out: array<Byte>, w: nat, max: nat, st: State, ghost s: seq<Byte>)
    returns (end: nat, next: nat, st': State)
    requires Unread(src, r, n, out, w, max, s)
    modifies out
    ensures Took(src, r, n, old(out[..]), out, w, s, TurnOf(s[r..], st, max - w), end, next, st')
  {
    hide ToLower, ToUpper, Spelling, PlainTurn, ApostropheTurn, LetterTurn;
    var k := src[r];
    assert s[r..][0] == k;
    if st.mode == LineComment || st.mode == BlockComment {
      end, next, st' := CommentTurn(src, r, n, out, w, max, st, s);
    } else if k == APOSTROPHE {
      end, next, st' := MarkerTurn(src, r, n, out, w, max, st, s);
    } else if k == CTRL_W && st.mode == Normal {
      out[w] := UNDERSCORE;
      end, next, st' := w + 1, r + 1, State(st.mode, NoMark, UNDERSCORE);
    } else if IsLetter(k) {
      end, next, st' := LetterStep(src, r, n, out, w, max, st, s);
    } else {
      end, next, st' := PlainStep(src, r, n, out, w, max, st, s);
    }
  }

  lemma {:induction false} Unfolded(s: seq<Byte>, r: nat, st: State, room: nat)
    requires r < |s| && room > 0
    ensures var t := TurnOf(s[r..], st, room);
            r + t.read <= |s|
            && Translated(s[r..], st, room) == t.emit + Translated(s[r + t.read..], t.next, room - |t.emit|)
  {
    hide TurnOf;
    var t := TurnOf(s[r..], st, room);
    assert s[r..][t.read..] == s[r + t.read..];
  }

  /** input_translate. `out` may be the array that is read: the result is the same, because no byte is
    * overwritten before it is read, and it is never longer than the line. */
  method Translate(src: array<Byte>, n: nat, out: array<Byte>, max: nat) returns (w: nat)
    requires n <= src.Length && max <= out.Length
    modifies out
    ensures w <= n && w <= max && out[..w] == Translated(old(src[..n]), START, max)
  {
    hide TurnOf, Translated;
    ghost var s := src[..n];
    var r, st := 0, START;
    w := 0;
    assert s[0..] == s && out[..0] + Translated(s, START, max) == Translated(s, START, max);
    while r < n && w < max
      invariant w <= r <= n && w <= max
      invariant forall i :: r <= i < n ==> src[i] == s[i]
      invariant out[..w] + Translated(s[r..], st, max - w) == Translated(s, START, max)
      decreases n - r
    {
      Unfolded(s, r, st, max - w);
      ghost var t, before := TurnOf(s[r..], st, max - w), out[..w];
      w, r, st := Step(src, r, n, out, w, max, st, s);
      assert before + (t.emit + Translated(s[r..], st, max - w)) == before + t.emit + Translated(s[r..], st, max - w);
    }
    Finished(s[r..], st, max - w);
    assert out[..w] + [] == out[..w];
  }

  lemma {:induction false} Finished(u: seq<Byte>, st: State, room: nat)
    requires u == [] || room == 0
    ensures Translated(u, st, room) == []
  {
  }

  // ----- the inverse, for loading a file -----

  /** One turn of input_untranslate. When there is no room for a marked capital, the rest is dropped. */
  function MarkTurn(u: seq<Byte>, st: State, room: nat): (t: Turn)
    requires u != [] && room > 0
    ensures 1 <= t.read <= |u| && |t.emit| <= room && |t.emit| <= 2 * t.read
    ensures t.next.pending == st.pending
  {
    var k := u[0];
    if st.mode == LineComment then Raw(k, st, if k == LF || k == CR then Normal else LineComment)
    else if st.mode == BlockComment then
      if k == STAR && At(u, 1) == SLASH && room > 1 then Pair(STAR, SLASH, st, Normal) else Raw(k, st, BlockComment)
    else if st.mode == Normal && k == SLASH && At(u, 1) == SLASH && room > 1 then Pair(SLASH, SLASH, st, LineComment)
    else if st.mode == Normal && k == SLASH && At(u, 1) == STAR && room > 1 then Pair(SLASH, STAR, st, BlockComment)
    else if st.mode == InString && k == BACKSLASH then
      if |u| > 1 && room > 1 then Pair(BACKSLASH, u[1], st, InString) else Raw(k, st, InString)
    else if k == QUOTE then Raw(k, st, if st.mode == InString then Normal else InString)
    else if IsUpper(k) && !(st.mode == InString && IsLetter(st.prev)) then
      if room > 1 then Turn([APOSTROPHE, ToLower(k)], 1, State(st.mode, st.pending, ToLower(k))) else Turn([], |u|, st)
    else Raw(k, st, st.mode)
  }

  function Raw(k: Byte, st: State, mode: Mode): Turn {
    Turn([k], 1, State(mode, st.pending, k))
  }

  function Pair(k: Byte, n: Byte, st: State, mode: Mode): Turn {
    Turn([k, n], 2, State(mode, st.pending, n))
  }

  /** input_untranslate on the rest `u` of the line. */
  function Marked(u: seq<Byte>, st: State, room: nat): (r: seq<Byte>)
    ensures |r| <= 2 * |u| && |r| <= room
    decreases |u|
  {
    if u == [] || room == 0 then []
    else
      var t := MarkTurn(u, st, room);
      t.emit + Marked(u[t.read..], t.next, room - |t.emit|)
  }

  /** input_untranslate. The result may be longer than the line, so it goes to another array. */
  method Untranslate(src: array<Byte>, n: nat, out: array<Byte>, max: nat) returns (w: nat)
    requires n <= src.Length && max <= out.Length && src != out
    modifies out
    ensures w <= max && out[..w] == Marked(src[..n], START, max)
  {
    hide Marked;
    ghost var s := src[..n];
    var r, mode, prev := 0, Normal, 0;
    w := 0;
    assert s[0..] == s && out[..0] + Marked(s, START, max) == Marked(s, START, max);
    while r < n && w < max
      invariant r <= n && w <= max
      invariant out[..w] + Marked(s[r..], State(mode, NoMark, prev), max - w) == Marked(s, START, max)
      decreases n - r
    {
      MarkUnfolded(s, r, State(mode, NoMark, prev), max - w);
      ghost var t, before := MarkTurn(s[r..], State(mode, NoMark, prev), max - w), out[..w];
      var stop;
      w, r, mode, prev, stop := MarkStep(src, r, n, out, w, max, mode, prev);
      assert out[..w] == before + t.emit;
      assert before + (t.emit + Marked(s[r..], t.next, max - w)) == before + t.emit + Marked(s[r..], t.next, max - w);
      if stop {
        break;
      }
    }
    MarkFinished(s[r..], State(mode, NoMark, prev), max - w);
    assert out[..w] + [] == out[..w];
  }

  /** One turn of the loop; `stop` when a marked capital does not fit. */
  method MarkStep(src: array<Byte>, r: nat, n: nat, out: array<Byte>, w: nat, max: nat, mode: Mode, prev: Byte)
    returns (end: nat, next: nat, mode': Mode, prev': Byte, stop: bool)
    requires r < n <= src.Length && w < max <= out.Length && src != out
    modifies out
    ensures var t := MarkTurn(src[..n][r..], State(mode, NoMark, prev), max - w);
            && end == w + |t.emit| <= out.Length && next == r + t.read && State(mode', NoMark, prev') == t.next
            && out[..end] == old(out[..w]) + t.emit && (stop ==> next == n)
  {
    var k, c := src[r], if r + 1 < n then src[r + 1] else 0;
    ghost var u := src[..n][r..];
    assert k == u[0] && c == At(u, 1) && (|u| > 1 <==> r + 1 < n);
    mode', stop := mode, false;
    var two := w + 1 < max && ((mode == BlockComment && k == STAR && c == SLASH)
                               || (mode == Normal && k == SLASH && (c == SLASH || c == STAR))
                               || (mode == InString && k == BACKSLASH && r + 1 < n));
    if two {
      out[w], out[w + 1] := k, c;
      end, next, prev' := w + 2, r + 2, c;
      if mode == BlockComment {
        mode' := Normal;
      } else if mode == Normal {
        mode' := if c == SLASH then LineComment else BlockComment;
      }
    } else if IsUpper(k) && (mode == Normal || (mode == InString && !IsLetter(prev))) {
      end, next, prev', stop := MarkCapital(r, n, out, w, max, k, prev);
    } else {
      out[w] := k;
      end, next, prev' := w + 1, r + 1, k;
      if mode == LineComment {
        if k == LF || k == CR {
          mode' := Normal;
        }
      } else if mode != BlockComment && k == QUOTE {
        mode' := if mode == InString then Normal else InString;
      }
    }
  }

  method MarkCapital(r: nat, n: nat, out: array<Byte>, w: nat, max: nat, k: Byte, prev: Byte)
    returns (end: nat, next: nat, prev': Byte, stop: bool)
    requires r < n && w < max <= out.Length && IsUpper(k)
    modifies out
    ensures stop == (w + 1 >= max)
    ensures stop ==> end == w && next == n && prev' == prev && out[..end] == old(out[..w])
    ensures !stop ==> end == w + 2 && next == r + 1 && prev' == ToLower(k) && out[..end] == old(out[..w]) + [APOSTROPHE, ToLower(k)]
  {
    if w + 1 >= max {
      return w, n, prev, true;
    }
    out[w], out[w + 1] := APOSTROPHE, k + 32;
    return w + 2, r + 1, k + 32, false;
  }

  lemma {:induction false} MarkUnfolded(s: seq<Byte>, r: nat, st: State, room: nat)
    requires r < |s| && room > 0
    ensures var t := MarkTurn(s[r..], st, room);
            r + t.read <= |s|
            && Marked(s[r..], st, room) == t.emit + Marked(s[r + t.read..], t.next, room - |t.emit|)
  {
    hide MarkTurn;
    var t := MarkTurn(s[r..], st, room);
    assert s[r..][t.read..] == s[r + t.read..];
  }

  lemma {:induction false} MarkFinished(u: seq<Byte>, st: State, room: nat)
    requires u == [] || room == 0
    ensures Marked(u, st, room) == []
  {
  }

  // ----- loading, then saving -----

  /** The typing model can express what stands at the front of `u`. */
  predicate CleanTurn(u: seq<Byte>, st: State)
    requires u != []
  {
    var k := u[0];
    if st.mode == LineComment || st.mode == BlockComment then !IsUpper(k)
    else if st.mode == InString && k == BACKSLASH then !IsUpper(At(u, 1))
    else if k == APOSTROPHE then st.mode == InString && IsLetter(st.prev)
    else if IsUpper(k) then !(st.mode == InString && IsLetter(st.prev))
    else if k == CTRL_W then st.mode != Normal
    else Spelling(u).1 == 0
  }

  /** No capitals in comments, behind a letter in a string or behind a backslash; no digraph, trigraph or
    * Ctrl-W; and apostrophes only in comments, or in strings behind a letter. */
  predicate Clean(u: seq<Byte>, st: State)
    decreases |u|
  {
    u == [] || (CleanTurn(u, st) && var t := MarkTurn(u, st, 2); Clean(u[t.read..], t.next))
  }

  /** The loader and the translator are in step. The case of the letter before does not matter. */
  predicate InStep(a: State, b: State) {
    a.mode == b.mode && a.pending == NoMark && b.pending == NoMark && IsLetter(a.prev) == IsLetter(b.prev)
  }

  lemma {:induction false} EnoughRoom(u: seq<Byte>, st: State, room: nat)
    requires u != [] && room >= 2
    ensures MarkTurn(u, st, room) == MarkTurn(u, st, 2)
  {
  }

  /** The first byte of a loaded line. */
  lemma {:induction false} FirstMarked(u: seq<Byte>, st: State, room: nat)
    requires u != [] && room >= 2
    ensures Marked(u, st, room) != []
    ensures Marked(u, st, room)[0] == u[0] || (IsUpper(u[0]) && Marked(u, st, room)[0] == APOSTROPHE)
  {
  }

  /** `a` and `b` are alike for whoever looks for the second half of a spelling or of a comment mark. */
  predicate SameNext(a: Byte, b: Byte) {
    (a == PERCENT <==> b == PERCENT) && (a == GREATER <==> b == GREATER) && (a == COLON <==> b == COLON)
    && (a == QUESTION <==> b == QUESTION) && (a == SLASH <==> b == SLASH) && (a == BANG <==> b == BANG)
    && (a == STAR <==> b == STAR)
  }

  /** A marked line looks ahead like the line itself. */
  lemma {:induction false} LooksAlike(u: seq<Byte>, st: State, room: nat)
    requires room >= 2 * |u|
    ensures var v := Marked(u, st, room);
            SameNext(At(u, 0), At(v, 0))
  {
    if u != [] {
      FirstMarked(u, st, room);
    }
  }

  lemma {:induction false} SameSpelling(u: seq<Byte>, v: seq<Byte>)
    requires u != [] && v != [] && u[0] == v[0] && SameNext(At(u, 1), At(v, 1))
    requires u[0] == QUESTION && At(u, 1) == QUESTION ==> SameNext(At(u, 2), At(v, 2))
    ensures Spelling(u) == Spelling(v)
  {
  }

  /** Digraphs and trigraphs are the same before and after marking. */
  lemma {:induction false} SpellingKept(u: seq<Byte>, st: State, room: nat)
    requires u != [] && room >= 2 * |u| - 2 && (st.mode == Normal || st.mode == InString) && st.pending == NoMark
    ensures Spelling([u[0]] + Marked(u[1..], st, room)) == Spelling(u)
  {
    hide Spelling, Marked, MarkTurn;
    var v := Marked(u[1..], st, room);
    LooksAlike(u[1..], st, room);
    assert At(u[1..], 0) == At(u, 1) && At([u[0]] + v, 1) == At(v, 0);
    if u[0] == QUESTION && At(u, 1) == QUESTION {
      SecondQuestion(u[1..], st, room);
      var x, next := u[2..], State(st.mode, NoMark, QUESTION);
      assert u[1..][1..] == x;
      LooksAlike(x, next, room - 1);
      assert At(x, 0) == At(u, 2) && At([u[0]] + v, 2) == At(Marked(x, next, room - 1), 0);
    }
    SameSpelling(u, [u[0]] + v);
  }

  lemma {:induction false} SecondQuestion(u: seq<Byte>, st: State, room: nat)
    requires u != [] && u[0] == QUESTION && room >= 2 && (st.mode == Normal || st.mode == InString) && st.pending == NoMark
    ensures Marked(u, st, room) == [QUESTION] + Marked(u[1..], State(st.mode, NoMark, QUESTION), room - 1)
  {
    hide Marked;
    assert u[0..] == u;
    MarkUnfolded(u, 0, st, room);
  }

  /** Outside comments an apostrophe is never the first thing to come out, unless the string says so. */
  lemma {:induction false} NoApostrophe(v: seq<Byte>, st: State, room: nat)
    requires st.mode == Normal || (st.mode == InString && !IsLetter(st.prev))
    ensures Translated(v, st, room) == [] || Translated(v, st, room)[0] != APOSTROPHE
    decreases |v|
  {
    hide TurnOf, Translated;
    if v != [] && room > 0 {
      var t := TurnOf(v, st, room);
      TranslatedFirst(v, st, room, t);
      NoApostropheTurn(v, st, room);
      if t.emit == [] {
        NoApostrophe(v[t.read..], t.next, room);
        assert [] + Translated(v[t.read..], t.next, room) == Translated(v[t.read..], t.next, room);
      }
    } else {
      Finished(v, st, room);
    }
  }

  lemma {:induction false} NoApostropheTurn(v: seq<Byte>, st: State, room: nat)
    requires v != [] && room > 0 && (st.mode == Normal || (st.mode == InString && !IsLetter(st.prev)))
    ensures var t := TurnOf(v, st, room);
            if t.emit == [] then t.next.mode == st.mode && t.next.prev == st.prev else t.emit[0] != APOSTROPHE
  {
  }

  lemma {:induction false} CleanSplits(u: seq<Byte>, a: State)
    requires u != []
    ensures var t := MarkTurn(u, a, 2);
            Clean(u, a) <==> CleanTurn(u, a) && Clean(u[t.read..], t.next)
  {
  }

  lemma {:induction false} MarkedFirst(u: seq<Byte>, a: State, room: nat)
    requires u != [] && room >= 2 * |u|
    ensures var t := MarkTurn(u, a, 2);
            |t.emit| <= room && Marked(u, a, room) == t.emit + Marked(u[t.read..], t.next, room - |t.emit|)
  {
    hide MarkTurn;
    EnoughRoom(u, a, room);
  }

  lemma {:induction false} TranslatedFirst(v: seq<Byte>, b: State, room: nat, t: Turn)
    requires v != [] && room > 0 && t == TurnOf(v, b, room)
    ensures Translated(v, b, room) == t.emit + Translated(v[t.read..], t.next, room - |t.emit|)
  {
  }

  /** Two turns of the translator make a marked capital of a marker and a letter. */
  lemma {:induction false} CapitalBack(k: Byte, rest: seq<Byte>, b: State, room: nat)
    requires IsUpper(k) && b.pending == NoMark && room > 0
    requires b.mode == Normal || (b.mode == InString && !IsLetter(b.prev))
    ensures Translated([APOSTROPHE, ToLower(k)] + rest, b, room) == [k] + Translated(rest, State(b.mode, NoMark, k), room - 1)
  {
    hide Translated;
    var v := [APOSTROPHE, ToLower(k)] + rest;
    var marked := State(b.mode, OneMark, b.prev);
    assert TurnOf(v, b, room) == Turn([], 1, marked);
    TranslatedFirst(v, b, room, Turn([], 1, marked));
    var w := [ToLower(k)] + rest;
    assert v[1..] == w && w[1..] == rest;
    assert TurnOf(w, marked, room) == Turn([k], 1, State(b.mode, NoMark, k));
    TranslatedFirst(w, marked, room, Turn([k], 1, State(b.mode, NoMark, k)));
    assert [] + Translated(w, marked, room) == Translated(w, marked, room);
  }

  lemma {:induction false} NotSpelled(u: seq<Byte>)
    requires u != []
    ensures u[0] == CTRL_W ==> Spelling(u).1 == 0
  {
  }

  /** The other clean turns come back as they are. */
  lemma {:induction false} SameTurn(u: seq<Byte>, a: State, b: State, rest: seq<Byte>, room: nat)
    requires u != [] && InStep(a, b) && CleanTurn(u, a)
    requires !(IsUpper(u[0]) && (a.mode == Normal || a.mode == InString))
    requires var t := MarkTurn(u, a, 2);
             && room >= |t.emit| + |rest| && (t.read == 1 ==> SameNext(At(u, 1), At(rest, 0)) && (|u| == 1 ==> rest == []))
             && (t.read == 1 && (a.mode == Normal || a.mode == InString) ==> Spelling([u[0]] + rest) == Spelling(u))
    ensures var t, t' := MarkTurn(u, a, 2), TurnOf(MarkTurn(u, a, 2).emit + rest, b, room);
            && t'.emit == t.emit == u[..t.read] && t'.read == t.read && InStep(t.next, t'.next)
  {
    NotSpelled(u);
    hide Spelling;
    var t := MarkTurn(u, a, 2);
    var v := t.emit + rest;
    assert v[0] == u[0] && (t.read == 2 ==> |u| > 1 && v[1] == u[1]) && (t.read == 1 ==> At(v, 1) == At(rest, 0));
    if t.read == 2 {
      assert u[..2] == [u[0], u[1]];
    } else {
      assert u[..1] == [u[0]];
    }
  }

  /** When the front of the line is clean, it comes back, and the two stay in step. */
  lemma {:induction false} CleanCarries(u: seq<Byte>, a: State, b: State, rest: seq<Byte>, room: nat) returns (b': State)
    requires u != [] && InStep(a, b) && CleanTurn(u, a)
    requires var t := MarkTurn(u, a, 2);
             && room >= |t.emit| + |rest| && (t.read == 1 ==> SameNext(At(u, 1), At(rest, 0)) && (|u| == 1 ==> rest == []))
             && (t.read == 1 && (a.mode == Normal || a.mode == InString) && !IsUpper(u[0]) ==> Spelling([u[0]] + rest) == Spelling(u))
    ensures var t := MarkTurn(u, a, 2);
            && InStep(t.next, b') && t.read + |rest| <= room
            && Translated(t.emit + rest, b, room) == u[..t.read] + Translated(rest, b', room - t.read)
  {
    hide Translated, Spelling, SameNext;
    var t := MarkTurn(u, a, 2);
    if IsUpper(u[0]) && (a.mode == Normal || a.mode == InString) {
      CapitalBack(u[0], rest, b, room);
      b' := State(b.mode, NoMark, u[0]);
    } else {
      SameTurn(u, a, b, rest, room);
      var t' := TurnOf(t.emit + rest, b, room);
      TranslatedFirst(t.emit + rest, b, room, t');
      assert (t.emit + rest)[t.read..] == rest;
      b' := t'.next;
    }
  }

  /** What the model cannot express does not come back. */
  lemma {:induction false} UncleanChanges(u: seq<Byte>, a: State, b: State, rest: seq<Byte>, room: nat)
    requires u != [] && InStep(a, b) && !CleanTurn(u, a)
    requires var t := MarkTurn(u, a, 2);
             && room >= |t.emit| + |rest|
             && (t.read == 1 && (a.mode == Normal || a.mode == InString) && !IsUpper(u[0]) ==> Spelling([u[0]] + rest) == Spelling(u))
    ensures Translated(MarkTurn(u, a, 2).emit + rest, b, room) != u
  {
    hide Translated, Spelling;
    var t := MarkTurn(u, a, 2);
    var v := t.emit + rest;
    var t' := TurnOf(v, b, room);
    TranslatedFirst(v, b, room, t');
    assert v[0] == u[0];
    if (a.mode == Normal || a.mode == InString) && u[0] == APOSTROPHE {
      NoApostrophe(v[t'.read..], t'.next, room);
      assert t'.emit == [] && Translated(v, b, room) == Translated(v[t'.read..], t'.next, room);
    } else if a.mode == InString && u[0] == BACKSLASH {
      assert t'.emit == [BACKSLASH, ToLower(u[1])];
      assert Translated(v, b, room)[1] == ToLower(u[1]) != u[1];
    } else {
      FirstDiffers(u, a, b, rest, room);
      assert Translated(v, b, room)[0] == t'.emit[0];
    }
  }

  lemma {:induction false} FirstDiffers(u: seq<Byte>, a: State, b: State, rest: seq<Byte>, room: nat)
    requires u != [] && InStep(a, b) && !CleanTurn(u, a)
    requires !((a.mode == Normal || a.mode == InString) && u[0] == APOSTROPHE) && !(a.mode == InString && u[0] == BACKSLASH)
    requires var t := MarkTurn(u, a, 2);
             && room >= |t.emit| + |rest|
             && (t.read == 1 && (a.mode == Normal || a.mode == InString) && !IsUpper(u[0]) ==> Spelling([u[0]] + rest) == Spelling(u))
    ensures var t' := TurnOf(MarkTurn(u, a, 2).emit + rest, b, room);
            t'.emit != [] && t'.emit[0] != u[0]
  {
    var t := MarkTurn(u, a, 2);
    assert t.emit == [u[0]] && t.read == 1;
  }

  /** The looks ahead of the translator into the marked rest. */
  lemma {:induction false} RestLooksAlike(u: seq<Byte>, a: State, room: nat)
    requires u != [] && a.pending == NoMark && room >= 2 * |u|
    ensures var t := MarkTurn(u, a, 2);
            var rest := Marked(u[t.read..], t.next, room - |t.emit|);
            t.read == 1 ==>
              && SameNext(At(u, 1), At(rest, 0)) && (|u| == 1 ==> rest == [])
              && (a.mode == Normal || a.mode == InString ==> !IsUpper(u[0]) ==> Spelling([u[0]] + rest) == Spelling(u))
  {
    hide Marked, Spelling, SameNext;
    var t := MarkTurn(u, a, 2);
    if t.read == 1 {
      LooksAlike(u[1..], t.next, room - |t.emit|);
      assert At(u[1..], 0) == At(u, 1);
      if |u| == 1 {
        NothingMarked(t.next, t.next, room - |t.emit|, 0);
      }
      if (a.mode == Normal || a.mode == InString) && !IsUpper(u[0]) {
        SpellingKept(u, t.next, room - |t.emit|);
      }
    }
  }

  lemma {:induction false} NothingMarked(a: State, b: State, room: nat, room': nat)
    ensures Marked([], a, room) == [] && Translated(Marked([], a, room), b, room') == [] && Clean([], a)
  {
  }

  /** Loading a line and saving it gives the line back exactly when the typing model can express it. */
  lemma {:induction false} LoadThenSave(u: seq<Byte>, a: State, b: State, room: nat, room': nat)
    requires InStep(a, b) && room >= 2 * |u| && room' >= |Marked(u, a, room)|
    ensures Translated(Marked(u, a, room), b, room') == u <==> Clean(u, a)
    decreases |u|
  {
    hide Marked, Translated, MarkTurn, TurnOf, Clean, CleanTurn, Spelling, SameNext;
    if u == [] {
      NothingMarked(a, b, room, room');
    } else {
      var t := MarkTurn(u, a, 2);
      var rest := Marked(u[t.read..], t.next, room - |t.emit|);
      MarkedFirst(u, a, room);
      CleanSplits(u, a);
      RestLooksAlike(u, a, room);
      if CleanTurn(u, a) {
        var b' := CleanCarries(u, a, b, rest, room');
        LoadThenSave(u[t.read..], t.next, b', room - |t.emit|, room' - t.read);
        assert u == u[..t.read] + u[t.read..];
      } else {
        UncleanChanges(u, a, b, rest, room');
      }
    }
  }
}
