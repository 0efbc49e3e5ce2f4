/** The typing model as its users know it: how to type a line of the language on a keyboard without lower case, braces,
  * brackets, backslash, bar and underscore, and that the translator makes exactly that line of it. */
module TypingModel {
  import opened Bytes
  import opened Values
  import opened InputMethod
  import opened Spellings

  // ----- how a line is typed -----

  /** The spelling that C99 has for a character the keyboard lacks. */
  function C99(c: Byte): (w: string) {
    if Is(c, '{') then "<%"
    else if Is(c, '}') then "%>"
    else if Is(c, '[') then "<:"
    else if Is(c, ']') then ":>"
    else if Is(c, '\\') then "??/"
    else if Is(c, '|') then "??!"
    else ""
  }

  const KEY_UNDERSCORE: Byte := 0x17  // Ctrl-W

  predicate Small(c: Byte) {
    'a' as int <= c <= 'z' as int
  }

  predicate Capital(c: Byte) {
    'A' as int <= c <= 'Z' as int
  }

  /** How the first bytes of a line are typed: the keys, how many bytes they stand for, and where that leads. */
  datatype Piece = Piece(keys: seq<Byte>, size: nat, mode: Mode)

  function PieceOf(u: seq<Byte>, mode: Mode): (r: Piece)
    requires u != []
    ensures 1 <= r.size <= 2 && r.size <= |u|
  {
    match mode
    case LineComment => Piece([u[0]], 1, if Break(u[0]) then Normal else LineComment)
    case BlockComment => if Fits(u, 0, "*/") then Piece(u[..2], 2, Normal) else Piece([u[0]], 1, BlockComment)
    case Normal =>
      if Fits(u, 0, "//") then Piece(u[..2], 2, LineComment)
      else if Fits(u, 0, "/*") then Piece(u[..2], 2, BlockComment)
      else if Is(u[0], '\"') then Piece([u[0]], 1, InString)
      else if Is(u[0], '_') then Piece([KEY_UNDERSCORE], 1, Normal)
      else Piece(KeysOf(u[0]), 1, Normal)
    case InString => if Is(u[0], '\"') then Piece([u[0]], 1, Normal) else Piece(KeysOf(u[0]), 1, InString)
  }

  /** A capital is marked with an apostrophe. */
  function KeysOf(c: Byte): seq<Byte> {
    if Capital(c) then ['\'' as int, c + 32] else if C99(c) != "" then Ascii(C99(c)) else [c]
  }

  /** The keys for the line `u`. */
  function Typed(u: seq<Byte>, mode: Mode): seq<Byte>
    decreases |u|
  {
    if u == [] then [] else PieceOf(u, mode).keys + Typed(u[PieceOf(u, mode).size..], PieceOf(u, mode).mode)
  }

  /** The keys start with the spelling of some character. */
  predicate StartsSpelled(keys: seq<Byte>) {
    exists c: Byte :: C99(c) != "" && Fits(keys, 0, C99(c))
  }

  /** The front of the line `u`, behind the byte `prev`, can be typed. */
  predicate PieceTypable(u: seq<Byte>, mode: Mode, prev: Byte)
    requires u != []
  {
    if mode == LineComment || mode == BlockComment then !Capital(u[0])
    else if Is(u[0], '\'') then mode == InString && (Small(prev) || Capital(prev))
    else if Capital(u[0]) then !(mode == InString && (Small(prev) || Capital(prev)))
    else if u[0] == KEY_UNDERSCORE then mode == InString
    else C99(u[0]) != "" || PieceOf(u, mode).size == 2 || !StartsSpelled([u[0]] + Typed(u[1..], PieceOf(u, mode).mode))
  }

  /** No capitals in comments, nor in strings behind a letter; apostrophes in strings behind a letter only; no Ctrl-W
    * outside strings and comments; and no two or three keys that happen to be the spelling of something else. */
  predicate Typable(u: seq<Byte>, mode: Mode, prev: Byte)
    decreases |u|
  {
    u == []
    || (PieceTypable(u, mode, prev) && Typable(u[PieceOf(u, mode).size..], PieceOf(u, mode).mode, u[PieceOf(u, mode).size - 1]))
  }

  // ----- the translator on one piece -----

  lemma {:induction false} SameLetters(c: Byte)
    ensures IsLower(c) == Small(c) && IsUpper(c) == Capital(c) && (c == InputMethod.QUOTE) == Is(c, '\"')
    ensures (c == APOSTROPHE) == Is(c, '\'') && (c == InputMethod.LF || c == InputMethod.CR) == Break(c)
  {
  }

  /** The spelling of a character is read as that character, whatever follows. */
  lemma {:induction false} SpelledAs(c: Byte, rest: seq<Byte>)
    requires C99(c) != ""
    ensures InputMethod.Spelling(Ascii(C99(c)) + rest) == (c, |C99(c)|)
  {
    var w := Ascii(C99(c)) + rest;
    assert w[0] == C99(c)[0] as int && w[1] == C99(c)[1] as int && (|C99(c)| == 3 ==> w[2] == C99(c)[2] as int);
  }

  /** Only spellings are read as something else. */
  lemma {:induction false} SpelledOnly(keys: seq<Byte>)
    ensures InputMethod.Spelling(keys).1 > 0 <==> StartsSpelled(keys)
    ensures InputMethod.Spelling(keys).1 > 0 ==> InputMethod.Spelling(keys).0 != keys[0]
  {
    if InputMethod.Spelling(keys).1 > 0 {
      var c := InputMethod.Spelling(keys).0;
      assert C99(c) != "" && Fits(keys, 0, C99(c));
    }
    if StartsSpelled(keys) {
      var c: Byte :| C99(c) != "" && Fits(keys, 0, C99(c));
      assert keys[0] == C99(c)[0] as int && keys[1] == C99(c)[1] as int && (|C99(c)| == 3 ==> keys[2] == C99(c)[2] as int);
    }
  }

  /** A key is the first byte of what it is typed for, as far as comments can tell. */
  lemma {:induction false} FirstKey(v: seq<Byte>, mode: Mode)
    ensures var keys := Typed(v, mode);
            if v == [] then keys == [] else keys != [] && (Is(keys[0], '/') ==> Is(v[0], '/')) && (Is(keys[0], '*') ==> Is(v[0], '*'))
  {
    hide Fits;
    if v != [] {
      TwoFit(v, 0, "//");
      TwoFit(v, 0, "/*");
      TwoFit(v, 0, "*/");
      FirstOfKeys(v[0]);
    }
  }

  lemma {:induction false} FirstOfKeys(c: Byte)
    ensures KeysOf(c) != [] && !(Is(KeysOf(c)[0], '/') && !Is(c, '/')) && !(Is(KeysOf(c)[0], '*') && !Is(c, '*'))
  {
    if C99(c) != "" {
      assert Ascii(C99(c))[0] == C99(c)[0] as int;
    }
  }

  /** What the next turn on the keys of a piece does. */
  predicate Takes(u: seq<Byte>, mode: Mode, prev: Byte, rest: seq<Byte>, room: nat)
    requires u != [] && room > 0
  {
    var p := PieceOf(u, mode);
    p.keys != []
    && TurnOf(p.keys + rest, State(mode, NoMark, prev), room) == Turn(u[..p.size], |p.keys|, State(p.mode, NoMark, u[p.size - 1]))
  }

  lemma {:induction false} CommentTakes(u: seq<Byte>, mode: Mode, prev: Byte, rest: seq<Byte>, room: nat)
    requires u != [] && room >= |u| && (mode == LineComment || mode == BlockComment) && !Capital(u[0])
    requires rest == Typed(u[PieceOf(u, mode).size..], PieceOf(u, mode).mode)
    ensures Takes(u, mode, prev, rest, room)
  {
    hide Fits, Typed;
    var p := PieceOf(u, mode);
    TwoFit(u, 0, "*/");
    SameLetters(u[0]);
    FirstKey(u[p.size..], p.mode);
    assert u[..p.size] == if p.size == 2 then [u[0], u[1]] else [u[0]];
  }

  /** A line comment or block comment starts. */
  lemma {:induction false} CommentStarts(u: seq<Byte>, prev: Byte, rest: seq<Byte>, room: nat)
    requires room >= |u| && (Fits(u, 0, "//") || Fits(u, 0, "/*"))
    ensures Takes(u, Normal, prev, rest, room)
  {
    hide Fits;
    TwoFit(u, 0, "//");
    TwoFit(u, 0, "/*");
    assert u[..2] == [u[0], u[1]];
  }

  /** An apostrophe, a quote, Ctrl-W for an underscore, or a character that is typed as it is. */
  lemma {:induction false} PlainTakes(u: seq<Byte>, mode: Mode, prev: Byte, rest: seq<Byte>, room: nat)
    requires u != [] && room > 0 && (mode == Normal || mode == InString) && PieceTypable(u, mode, prev)
    requires !Capital(u[0]) && C99(u[0]) == "" && PieceOf(u, mode).size == 1
    requires rest == Typed(u[1..], PieceOf(u, mode).mode)
    ensures Takes(u, mode, prev, rest, room)
  {
    hide Fits, Typed, InputMethod.Spelling, StartsSpelled, C99;
    var c := u[0];
    SameLetters(c);
    SameLetters(prev);
    assert u[..1] == [c];
    NotMissing(c);
    if mode == Normal && Is(c, '/') {
      TwoFit(u, 0, "//");
      TwoFit(u, 0, "/*");
      FirstKey(u[1..], Normal);
    }
    SpelledOnly([c] + rest);
    NotSpelled([c] + rest);
  }

  lemma {:induction false} NotMissing(c: Byte)
    ensures Is(c, '\'') || Is(c, '\"') || Is(c, '_') || Small(c) || Capital(c) || c == KEY_UNDERSCORE ==> C99(c) == ""
    ensures C99(c) == "" ==> !Is(c, '\\')
  {
  }

  lemma {:induction false} SpelledTakes(u: seq<Byte>, mode: Mode, prev: Byte, rest: seq<Byte>, room: nat)
    requires u != [] && room > 0 && (mode == Normal || mode == InString) && C99(u[0]) != ""
    ensures Takes(u, mode, prev, rest, room)
  {
    hide Fits, InputMethod.Spelling;
    var c := u[0];
    assert u[..1] == [c];
    SpelledAs(c, rest);
    TwoFit(u, 0, "//");
    TwoFit(u, 0, "/*");
    FirstSpelled(c);
  }

  lemma {:induction false} FirstSpelled(c: Byte)
    requires C99(c) != ""
    ensures var k := Ascii(C99(c));
            && |k| == |C99(c)| && k[0] in {'<' as int, '%' as int, ':' as int, '?' as int}
            && !Is(c, '/') && !Is(c, '\"') && !Is(c, '_') && !Capital(c)
  {
    assert Ascii(C99(c))[0] == C99(c)[0] as int;
  }

  /** A piece that can be typed comes out, and the translator goes on behind it. */
  lemma {:induction false} PieceTyped(u: seq<Byte>, mode: Mode, prev: Byte, rest: seq<Byte>, room: nat)
    requires u != [] && room >= |u| && PieceTypable(u, mode, prev)
    requires rest == Typed(u[PieceOf(u, mode).size..], PieceOf(u, mode).mode)
    ensures var p := PieceOf(u, mode);
            Translated(p.keys + rest, State(mode, NoMark, prev), room)
            == u[..p.size] + Translated(rest, State(p.mode, NoMark, u[p.size - 1]), room - p.size)
  {
    hide Typed, Translated, TurnOf, Fits, C99, StartsSpelled;
    var p, st := PieceOf(u, mode), State(mode, NoMark, prev);
    TwoFit(u, 0, "//");
    TwoFit(u, 0, "/*");
    TwoFit(u, 0, "*/");
    SameLetters(u[0]);
    SameLetters(prev);
    if (mode == Normal || mode == InString) && Capital(u[0]) {
      assert p.keys == [APOSTROPHE, ToLower(u[0])] && u[..1] == [u[0]];
      CapitalBack(u[0], rest, st, room);
    } else {
      if mode == LineComment || mode == BlockComment {
        CommentTakes(u, mode, prev, rest, room);
      } else if C99(u[0]) != "" {
        SpelledTakes(u, mode, prev, rest, room);
        NotMissing(u[0]);
      } else if p.size == 2 {
        CommentStarts(u, prev, rest, room);
      } else {
        PlainTakes(u, mode, prev, rest, room);
      }
      TranslatedFirst(p.keys + rest, st, room, TurnOf(p.keys + rest, st, room));
      assert (p.keys + rest)[|p.keys|..] == rest;
    }
  }

  /** A piece that cannot be typed comes out as something else. */
  lemma {:induction false} PieceMistyped(u: seq<Byte>, mode: Mode, prev: Byte, rest: seq<Byte>, room: nat)
    requires u != [] && room >= |u| && !PieceTypable(u, mode, prev)
    requires rest == Typed(u[PieceOf(u, mode).size..], PieceOf(u, mode).mode)
    ensures Translated(PieceOf(u, mode).keys + rest, State(mode, NoMark, prev), room) != u
  {
    hide Typed, Translated, TurnOf, Fits, C99, StartsSpelled, InputMethod.Spelling;
    var p, st := PieceOf(u, mode), State(mode, NoMark, prev);
    TwoFit(u, 0, "//");
    TwoFit(u, 0, "/*");
    TwoFit(u, 0, "*/");
    SameLetters(u[0]);
    SameLetters(prev);
    NotMissing(u[0]);
    if (mode == Normal || mode == InString) && Is(u[0], '\'') {
      NoApostrophe(p.keys + rest, st, room);
    } else {
      MistypedFirst(u, mode, prev, rest, room);
      TranslatedFirst(p.keys + rest, st, room, TurnOf(p.keys + rest, st, room));
      var t := TurnOf(p.keys + rest, st, room);
      assert Translated(p.keys + rest, st, room)[0] == t.emit[0];
    }
  }

  lemma {:induction false} MistypedFirst(u: seq<Byte>, mode: Mode, prev: Byte, rest: seq<Byte>, room: nat)
    requires u != [] && room >= |u| && !PieceTypable(u, mode, prev)
    requires !((mode == Normal || mode == InString) && Is(u[0], '\''))
    requires rest == Typed(u[PieceOf(u, mode).size..], PieceOf(u, mode).mode)
    ensures var p := PieceOf(u, mode);
            && p.keys != []
            && var t := TurnOf(p.keys + rest, State(mode, NoMark, prev), room);
               t.emit != [] && t.emit[0] != u[0]
  {
    hide Typed, Fits, C99, StartsSpelled, InputMethod.Spelling;
    var c := u[0];
    TwoFit(u, 0, "//");
    TwoFit(u, 0, "/*");
    TwoFit(u, 0, "*/");
    SameLetters(c);
    SameLetters(prev);
    NotMissing(c);
    SpelledOnly([c] + rest);
    SpelledStart([c] + rest);
  }

  /** Spellings start with a few characters. */
  lemma {:induction false} SpelledStart(keys: seq<Byte>)
    ensures StartsSpelled(keys) ==> keys != [] && (Is(keys[0], '<') || Is(keys[0], '%') || Is(keys[0], ':') || Is(keys[0], '?'))
  {
    if StartsSpelled(keys) {
      var c: Byte :| C99(c) != "" && Fits(keys, 0, C99(c));
      assert keys[0] == C99(c)[0] as int;
    }
  }

  // ----- the translator on a line -----

  lemma {:induction false} TypesFrom(u: seq<Byte>, mode: Mode, prev: Byte, room: nat)
    requires room >= |u|
    ensures Translated(Typed(u, mode), State(mode, NoMark, prev), room) == u <==> Typable(u, mode, prev)
    decreases |u|
  {
    hide Translated, PieceOf, PieceTypable;
    if u == [] {
      Finished([], State(mode, NoMark, prev), room);
    } else {
      var p := PieceOf(u, mode);
      var rest, more := Typed(u[p.size..], p.mode), u[p.size..];
      assert u == u[..p.size] + more;
      if PieceTypable(u, mode, prev) {
        PieceTyped(u, mode, prev, rest, room);
        TypesFrom(more, p.mode, u[p.size - 1], room - p.size);
        SameBehind(u[..p.size], Translated(rest, State(p.mode, NoMark, u[p.size - 1]), room - p.size), more);
      } else {
        PieceMistyped(u, mode, prev, rest, room);
      }
    }
  }

  lemma {:induction false} SameBehind(a: seq<Byte>, b: seq<Byte>, c: seq<Byte>)
    ensures a + b == a + c <==> b == c
  {
    if a + b == a + c {
      assert b == (a + b)[|a|..] == (a + c)[|a|..] == c;
    }
  }

  /** Typing a line and translating it gives the line, for exactly the lines that can be typed. */
  lemma {:induction false} TypesExactly(u: seq<Byte>, room: nat)
    requires room >= |u|
    ensures Translated(Typed(u, Normal), START, room) == u <==> Typable(u, Normal, 0)
  {
    TypesFrom(u, Normal, 0, room);
  }

  // ----- letters -----

  /** `caps` is `letters` in capitals. */
  predicate InCapitals(letters: seq<Byte>, caps: seq<Byte>) {
    |caps| == |letters|
    && forall i :: 0 <= i < |letters| ==> Capital(caps[i]) && (caps[i] == letters[i] || caps[i] + 32 == letters[i])
  }

  /** A run mark turns every letter up to the next other character into a capital. */
  lemma {:induction false} RunCapitals(letters: seq<Byte>, rest: seq<Byte>, mode: Mode, prev: Byte, room: nat)
    returns (caps: seq<Byte>, last: Byte)
    requires forall i :: 0 <= i < |letters| ==> Small(letters[i]) || Capital(letters[i])
    requires rest == [] || (!Small(rest[0]) && !Capital(rest[0]) && !Is(rest[0], '\''))
    requires (mode == Normal || mode == InString) && room >= |letters|
    ensures InCapitals(letters, caps) && last == (if caps == [] then prev else caps[|caps| - 1])
    ensures Translated(letters + rest, State(mode, RunMark, prev), room)
            == caps + Translated(rest, State(mode, NoMark, last), room - |letters|)
    decreases |letters|
  {
    hide Translated, TurnOf;
    if letters == [] {
      caps, last := [], prev;
      assert letters + rest == rest;
      RunEnds(rest, mode, prev, room);
    } else {
      var k, st := letters[0], State(mode, RunMark, prev);
      var all, more := letters + rest, letters[1..];
      var c: Byte := if Small(k) then k - 32 else k;
      assert all[1..] == more + rest;
      RunTurn(all, st, room, c);
      TranslatedFirst(all, st, room, TurnOf(all, st, room));
      caps, last := RunCapitals(more, rest, mode, c, room - 1);
      var tail := Translated(rest, State(mode, NoMark, last), room - |letters|);
      assert [c] + (caps + tail) == [c] + caps + tail;
      caps := [c] + caps;
    }
  }

  lemma {:induction false} RunTurn(v: seq<Byte>, st: State, room: nat, c: Byte)
    requires v != [] && room > 0 && (st.mode == Normal || st.mode == InString) && st.pending == RunMark
    requires (Small(v[0]) && c == v[0] - 32) || (Capital(v[0]) && c == v[0])
    ensures TurnOf(v, st, room) == Turn([c], 1, State(st.mode, RunMark, c))
  {
  }

  /** What is neither a letter nor a mark ends a run. */
  lemma {:induction false} RunEnds(rest: seq<Byte>, mode: Mode, prev: Byte, room: nat)
    requires rest == [] || (!Small(rest[0]) && !Capital(rest[0]) && !Is(rest[0], '\''))
    requires mode == Normal || mode == InString
    ensures Translated(rest, State(mode, RunMark, prev), room) == Translated(rest, State(mode, NoMark, prev), room)
  {
    hide Translated, TurnOf;
    var run, plain := State(mode, RunMark, prev), State(mode, NoMark, prev);
    if rest == [] || room == 0 {
      Finished(rest, run, room);
      Finished(rest, plain, room);
    } else {
      MarkDropped(rest, mode, prev, room);
      TranslatedFirst(rest, run, room, TurnOf(rest, run, room));
      TranslatedFirst(rest, plain, room, TurnOf(rest, plain, room));
    }
  }

  lemma {:induction false} MarkDropped(v: seq<Byte>, mode: Mode, prev: Byte, room: nat)
    requires v != [] && room > 0 && !Small(v[0]) && !Capital(v[0]) && !Is(v[0], '\'') && (mode == Normal || mode == InString)
    ensures TurnOf(v, State(mode, RunMark, prev), room) == TurnOf(v, State(mode, NoMark, prev), room)
  {
    hide InputMethod.Spelling;
  }

  /** Two apostrophes make a run mark. */
  lemma {:induction false} CaseRun(letters: seq<Byte>, rest: seq<Byte>, mode: Mode, prev: Byte, room: nat)
    returns (caps: seq<Byte>, last: Byte)
    requires forall i :: 0 <= i < |letters| ==> Small(letters[i]) || Capital(letters[i])
    requires rest == [] || (!Small(rest[0]) && !Capital(rest[0]) && !Is(rest[0], '\''))
    requires mode == Normal || (mode == InString && !Small(prev) && !Capital(prev))
    requires room > 0 && room >= |letters|
    ensures InCapitals(letters, caps)
    ensures Translated(['\'' as int, '\'' as int] + letters + rest, State(mode, NoMark, prev), room)
            == caps + Translated(rest, State(mode, NoMark, last), room - |letters|)
  {
    hide Translated;
    var v, st := ['\'' as int, '\'' as int] + letters + rest, State(mode, NoMark, prev);
    assert v[2..] == letters + rest;
    assert TurnOf(v, st, room) == Turn([], 2, State(mode, RunMark, prev));
    TranslatedFirst(v, st, room, Turn([], 2, State(mode, RunMark, prev)));
    assert [] + Translated(v[2..], State(mode, RunMark, prev), room) == Translated(v[2..], State(mode, RunMark, prev), room);
    caps, last := RunCapitals(letters, rest, mode, prev, room);
  }

  /** The same keys up to the case of letters. */
  predicate SameKeys(v: seq<Byte>, w: seq<Byte>) {
    |v| == |w|
    && forall i :: 0 <= i < |v| ==> v[i] == w[i] || (Small(v[i]) && w[i] == v[i] - 32) || (Capital(v[i]) && w[i] == v[i] + 32)
  }

  /** It does not matter whether letters are typed in capitals: the case of a letter is what the marks say. */
  lemma {:induction false} KeyCase(v: seq<Byte>, w: seq<Byte>, st: State, room: nat)
    requires SameKeys(v, w)
    ensures Translated(v, st, room) == Translated(w, st, room)
    decreases |v|
  {
    hide Translated, TurnOf;
    if v == [] || room == 0 {
      Finished(v, st, room);
      Finished(w, st, room);
    } else {
      SameTurns(v, w, st, room);
      var t := TurnOf(v, st, room);
      TranslatedFirst(v, st, room, t);
      TranslatedFirst(w, st, room, t);
      KeyCase(v[t.read..], w[t.read..], t.next, room - |t.emit|);
    }
  }

  lemma {:induction false} SameTurns(v: seq<Byte>, w: seq<Byte>, st: State, room: nat)
    requires SameKeys(v, w) && v != [] && room > 0
    ensures TurnOf(v, st, room) == TurnOf(w, st, room)
  {
    hide InputMethod.Spelling, SameKeys;
    SameKey(v, w, 0);
    SameKey(v, w, 1);
    SameSpellings(v, w);
    SameLength(v, w);
  }

  lemma {:induction false} SameLength(v: seq<Byte>, w: seq<Byte>)
    requires SameKeys(v, w)
    ensures |v| == |w|
  {
  }

  /** Two keys are the same, or the same letter. */
  lemma {:induction false} SameKey(v: seq<Byte>, w: seq<Byte>, i: nat)
    requires SameKeys(v, w)
    ensures ToLower(At(v, i)) == ToLower(At(w, i)) && IsLetter(At(v, i)) == IsLetter(At(w, i))
    ensures !IsLetter(At(v, i)) ==> At(v, i) == At(w, i)
  {
  }

  lemma {:induction false} SameSpellings(v: seq<Byte>, w: seq<Byte>)
    requires SameKeys(v, w)
    ensures InputMethod.Spelling(v) == InputMethod.Spelling(w)
  {
    hide SameKeys;
    SameKey(v, w, 0);
    SameKey(v, w, 1);
    SameKey(v, w, 2);
  }

  /** A backslash typed as a trigraph starts no escape: the quote behind it ends the string for the translator, so that
    * Ctrl-W is an underscore there. */
  lemma {:induction false} EscapedQuote()
    ensures Translated([0x22, 0x3F, 0x3F, 0x2F, 0x22, 0x17], START, 8) == [0x22, 0x5C, 0x22, 0x5F]  // "??/"^W  and  "\"_
  {
    hide Translated;
    var v: seq<Byte> := [0x22, 0x3F, 0x3F, 0x2F, 0x22, 0x17];
    var st := State(InString, NoMark, 0x22);
    TranslatedFirst(v, START, 8, Turn([0x22], 1, st));
    TranslatedFirst(v[1..], st, 7, Turn([0x5C], 3, State(InString, NoMark, 0x5C)));
    TranslatedFirst(v[4..], State(InString, NoMark, 0x5C), 6, Turn([0x22], 1, State(Normal, NoMark, 0x22)));
    TranslatedFirst(v[5..], State(Normal, NoMark, 0x22), 5, Turn([0x5F], 1, State(Normal, NoMark, 0x5F)));
    Finished(v[6..], State(Normal, NoMark, 0x5F), 4);
    assert v[1..][3..] == v[4..] && v[4..][1..] == v[5..] && v[5..][1..] == v[6..];
  }

  /** Behind a backslash typed as such the string goes on. */
  lemma {:induction false} RawEscape()
    ensures Translated([0x22, 0x5C, 0x22, 0x17], START, 8) == [0x22, 0x5C, 0x22, 0x17]  // "\"^W
  {
    hide Translated;
    var v: seq<Byte> := [0x22, 0x5C, 0x22, 0x17];
    var st := State(InString, NoMark, 0x22);
    TranslatedFirst(v, START, 8, Turn([0x22], 1, st));
    TranslatedFirst(v[1..], st, 7, Turn([0x5C, 0x22], 2, st));
    TranslatedFirst(v[3..], st, 5, Turn([0x17], 1, State(InString, NoMark, 0x17)));
    Finished(v[4..], State(InString, NoMark, 0x17), 4);
    assert v[1..][2..] == v[3..] && v[3..][1..] == v[4..];
  }
}
