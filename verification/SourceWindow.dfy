/** Scanning a file through a window that slides at statement separators (srcwin.c). The tokens are those of
  * the whole file, or the window reports that it did not see its end. */
module SourceWindow {
  import opened Bytes
  import opened Values
  import opened Lexer

  // ----- what a window shows of a file -----

  /** `s` is what stands in `f` from `b` on. */
  predicate Part(f: seq<Byte>, b: nat, s: seq<Byte>) {
    b + |s| <= |f| && s == f[b..b + |s|]
  }

  lemma {:induction false} PartSlides(f: seq<Byte>, b: nat, s: seq<Byte>, n: nat)
    requires Part(f, b, s) && n <= |s|
    ensures Part(f, b + n, s[n..])
  {
    assert f[b..b + |s|][n..] == f[b + n..b + |s|];
  }

  /** The window reaches to the end of the file. */
  predicate Whole(f: seq<Byte>, b: nat, s: seq<Byte>) {
    b + |s| == |f|
  }

  lemma {:induction false} PeekIn(f: seq<Byte>, b: nat, s: seq<Byte>, p: nat)
    requires Part(f, b, s) && (p < |s| || Whole(f, b, s))
    ensures PeekAt(f, b + p) == PeekAt(s, p)
  {
  }

  lemma {:induction false} LineEndIn(f: seq<Byte>, b: nat, s: seq<Byte>, p: nat)
    requires Part(f, b, s) && p <= |s|
    ensures LineEnd(s, p) < |s| || Whole(f, b, s) ==> LineEnd(f, b + p) == b + LineEnd(s, p)
    decreases |s| - p
  {
    if p < |s| && !IsBreak(s[p]) {
      LineEndIn(f, b, s, p + 1);
    }
  }

  lemma {:induction false} CommentEndIn(f: seq<Byte>, b: nat, s: seq<Byte>, p: nat)
    requires Part(f, b, s) && p <= |s|
    ensures CommentEnd(s, p) < |s| || Whole(f, b, s) ==> CommentEnd(f, b + p) == b + CommentEnd(s, p)
    decreases |s| - p
  {
    if p < |s| {
      CommentEndIn(f, b, s, p + 1);
    }
  }

  /** The trivia end before the last byte, or at a byte that does not start a comment. */
  predicate TriviaSure(s: seq<Byte>, p: nat)
    requires p <= |s|
  {
    var q := Trivia(s, p);
    q < |s| && (q + 1 < |s| || s[q] != SLASH)
  }

  lemma {:induction false} TriviaStep(s: seq<Byte>, p: nat)
    requires p <= |s|
    ensures Trivia(s, p)
         == if p == |s| then p
            else if s[p] == 0x20 || s[p] == 0x09 then Trivia(s, p + 1)
            else if s[p] == SLASH && PeekAt(s, p + 1) == SLASH then Trivia(s, LineEnd(s, p + 2))
            else if s[p] == SLASH && PeekAt(s, p + 1) == STAR then Trivia(s, CommentEnd(s, p + 2))
            else p
  {
  }

  lemma {:induction false} TriviaIn(f: seq<Byte>, b: nat, s: seq<Byte>, p: nat)
    requires Part(f, b, s) && p <= |s| && (TriviaSure(s, p) || Whole(f, b, s))
    ensures Trivia(f, b + p) == b + Trivia(s, p)
    decreases |s| - p
  {
    hide LineEnd, CommentEnd, Trivia;
    TriviaStep(s, p);
    TriviaStep(f, b + p);
    TriviaStep(s, |s|);
    if p == |s| {
    } else if s[p] == 0x20 || s[p] == 0x09 {
      TriviaIn(f, b, s, p + 1);
    } else if s[p] != SLASH {
    } else {
      if p + 1 < |s| || Whole(f, b, s) {
        PeekIn(f, b, s, p + 1);
      }
      if PeekAt(s, p + 1) == SLASH {
        LineEndIn(f, b, s, p + 2);
        TriviaIn(f, b, s, LineEnd(s, p + 2));
      } else if PeekAt(s, p + 1) == STAR {
        CommentEndIn(f, b, s, p + 2);
        TriviaIn(f, b, s, CommentEnd(s, p + 2));
      }
    }
  }

  lemma {:induction false} DigitsIn(f: seq<Byte>, b: nat, s: seq<Byte>, p: nat, acc: nat)
    requires Part(f, b, s) && p <= |s| && acc <= 65535
    ensures match Digits(s, p, acc)
            case Number(n, end) => end < |s| || Whole(f, b, s) ==> Digits(f, b + p, acc) == Number(n, b + end)
            case TooBig => Digits(f, b + p, acc) == TooBig
    decreases |s| - p
  {
    if p < |s| && IsDigit(s[p]) {
      var n := acc * 10 + (s[p] - 0x30);
      if n <= 65535 {
        DigitsIn(f, b, s, p + 1, n);
      }
    }
  }

  lemma {:induction false} IdentEndIn(f: seq<Byte>, b: nat, s: seq<Byte>, p: nat)
    requires Part(f, b, s) && p <= |s|
    ensures IdentEnd(s, p) < |s| || Whole(f, b, s) ==> IdentEnd(f, b + p) == b + IdentEnd(s, p)
    decreases |s| - p
  {
    if p < |s| && IsIdentCont(s[p]) {
      IdentEndIn(f, b, s, p + 1);
    }
  }

  lemma {:induction false} InterpolationIn(f: seq<Byte>, b: nat, s: seq<Byte>, p: nat, depth: nat)
    requires Part(f, b, s) && p <= |s|
    ensures match InterpolationEnd(s, p, depth)
            case Some(q) => InterpolationEnd(f, b + p, depth) == Some(b + q)
            case None => Whole(f, b, s) ==> InterpolationEnd(f, b + p, depth) == None
    decreases |s| - p
  {
    if depth > 0 && p < |s| && s[p] != QUOTE && !IsBreak(s[p]) {
      InterpolationIn(f, b, s, p + 1, if s[p] == LPAREN then depth + 1 else if s[p] == RPAREN then depth - 1 else depth);
    }
  }

  lemma {:induction false} StringEndIn(f: seq<Byte>, b: nat, s: seq<Byte>, p: nat)
    requires Part(f, b, s) && p <= |s|
    ensures match StringEnd(s, p)
            case Some(q) => StringEnd(f, b + p) == Some(b + q)
            case None => Whole(f, b, s) ==> StringEnd(f, b + p) == None
    decreases |s| - p, 1
  {
    if p < |s| && !IsBreak(s[p]) && s[p] != QUOTE {
      if s[p] != BACKSLASH {
        StringEndIn(f, b, s, p + 1);
      } else {
        EscapeIn(f, b, s, p);
      }
    }
  }

  /** A backslash and what it stands before. */
  lemma {:induction false} EscapeIn(f: seq<Byte>, b: nat, s: seq<Byte>, p: nat)
    requires Part(f, b, s) && p < |s| && s[p] == BACKSLASH
    ensures match StringEnd(s, p)
            case Some(q) => StringEnd(f, b + p) == Some(b + q)
            case None => Whole(f, b, s) ==> StringEnd(f, b + p) == None
    decreases |s| - p, 0
  {
    hide InterpolationEnd;
    if p + 1 < |s| {
      if s[p + 1] == LPAREN {
        InterpolationIn(f, b, s, p + 2, 1);
        var r := InterpolationEnd(s, p + 2, 1);
        if r.Some? {
          StringEndIn(f, b, s, r.value);
        }
      } else if IsEscape(s[p + 1]) {
        StringEndIn(f, b, s, p + 2);
      }
    }
  }

  function Shifted(l: Lexeme, b: nat): Lexeme {
    Lexeme(l.kind, b + l.from, b + l.to, b + l.next, l.n)
  }

  /** A dot with another dot as the last byte behind it may be the start of a range operator. */
  predicate DotDot(s: seq<Byte>, l: Lexeme) {
    l.kind == Dot && l.next + 1 == |s| && s[l.next] == DOT
  }

  /** Nothing behind the window can make the token `l` at `p` another one. */
  predicate Sure(s: seq<Byte>, p: nat, l: Lexeme)
    requires p <= |s|
  {
    match l.kind
    case Eof => false
    case Error => false
    case Semi => true
    case Newline => l.next < |s| || (0 < l.next == |s| && s[l.next - 1] == LF)
    case _ => l.next < |s| && !DotDot(s, l)
  }

  lemma {:induction false} LexemeIn(f: seq<Byte>, b: nat, s: seq<Byte>, p: nat)
    requires Part(f, b, s) && p <= |s| && (Sure(s, p, LexemeAt(s, p)) || Whole(f, b, s))
    ensures LexemeAt(f, b + p) == Shifted(LexemeAt(s, p), b)
  {
    hide Digits, IdentEnd, StringEnd, Operator, KeywordOf;
    if p < |s| {
      if IsDigit(s[p]) {
        DigitsIn(f, b, s, p, 0);
      } else if IsIdentStart(s[p]) {
        NameIn(f, b, s, p);
      } else if s[p] == QUOTE {
        StringEndIn(f, b, s, p + 1);
      } else if !IsBreak(s[p]) {
        OperatorIn(f, b, s, p);
      }
    }
  }

  lemma {:induction false} NameIn(f: seq<Byte>, b: nat, s: seq<Byte>, p: nat)
    requires Part(f, b, s) && p < |s| && IsIdentStart(s[p]) && (LexemeAt(s, p).next < |s| || Whole(f, b, s))
    ensures LexemeAt(f, b + p) == Shifted(LexemeAt(s, p), b)
  {
    hide LexemeAt, IdentEnd, KeywordOf;
    NameAt(s, p);
    NameAt(f, b + p);
    IdentEndIn(f, b, s, p);
    assert s[p..IdentEnd(s, p)] == f[b + p..b + IdentEnd(s, p)];
  }

  lemma {:induction false} OperatorIn(f: seq<Byte>, b: nat, s: seq<Byte>, p: nat)
    requires Part(f, b, s) && p < |s| && (Sure(s, p, LexemeAt(s, p)) || Whole(f, b, s))
    requires !IsBreak(s[p]) && !IsDigit(s[p]) && !IsIdentStart(s[p]) && s[p] != QUOTE
    ensures LexemeAt(f, b + p) == Shifted(LexemeAt(s, p), b)
  {
    if p + 1 < |s| {
      OperatorInside(f, b, s, p);
    } else {
      OperatorAtEdge(f, b, s, p);
    }
  }

  /** An operator with a byte behind it in the window. */
  lemma {:induction false} OperatorInside(f: seq<Byte>, b: nat, s: seq<Byte>, p: nat)
    requires Part(f, b, s) && p + 1 < |s| && (Sure(s, p, LexemeAt(s, p)) || Whole(f, b, s))
    requires !IsBreak(s[p]) && !IsDigit(s[p]) && !IsIdentStart(s[p]) && s[p] != QUOTE
    ensures LexemeAt(f, b + p) == Shifted(LexemeAt(s, p), b)
  {
    hide LexemeAt, Operator, Trivia, StringEnd, Sure;
    OperatorAt(s, p);
    OperatorAt(f, b + p);
    SameOperator(f, b, s, p);
    PeekIn(f, b, s, p + 1);
  }

  lemma {:induction false} SameOperator(f: seq<Byte>, b: nat, s: seq<Byte>, p: nat)
    requires Part(f, b, s) && p + 1 < |s| && (Sure(s, p, LexemeAt(s, p)) || Whole(f, b, s))
    requires !IsBreak(s[p]) && !IsDigit(s[p]) && !IsIdentStart(s[p]) && s[p] != QUOTE
    ensures Operator(s[p], s[p + 1], PeekAt(s, p + 2)) == Operator(s[p], s[p + 1], PeekAt(f, b + p + 2))
  {
    hide LexemeAt, Operator, Trivia, StringEnd;
    ThirdByte(s[p], s[p + 1], PeekAt(s, p + 2), PeekAt(f, b + p + 2));
    if p + 2 < |s| || Whole(f, b, s) {
      PeekIn(f, b, s, p + 2);
    } else {
      OperatorAt(s, p);
    }
  }

  /** An operator in the last byte of the window. */
  lemma {:induction false} OperatorAtEdge(f: seq<Byte>, b: nat, s: seq<Byte>, p: nat)
    requires Part(f, b, s) && p + 1 == |s| && (Sure(s, p, LexemeAt(s, p)) || Whole(f, b, s))
    requires !IsBreak(s[p]) && !IsDigit(s[p]) && !IsIdentStart(s[p]) && s[p] != QUOTE
    ensures LexemeAt(f, b + p) == Shifted(LexemeAt(s, p), b)
  {
    hide LexemeAt, Operator, Trivia, StringEnd;
    var c := s[p];
    OperatorAt(s, p);
    OperatorAt(f, b + p);
    if !Whole(f, b, s) {
      JustSemi(c, PeekAt(s, p + 1), PeekAt(s, p + 2));
      JustSemi(c, PeekAt(f, b + p + 1), PeekAt(f, b + p + 2));
    }
  }

  /** The byte after next matters behind two dots only. */
  lemma {:induction false} ThirdByte(c: Byte, c2: Byte, c3: Byte, d3: Byte)
    ensures c != DOT || c2 != DOT ==> Operator(c, c2, c3) == Operator(c, c2, d3)
    ensures c == DOT && c2 == DOT && c3 == 0 ==> Operator(c, c2, c3) == (Dot, 1)
  {
  }

  lemma {:induction false} JustSemi(c: Byte, c2: Byte, c3: Byte)
    ensures Operator(c, c2, c3).0 == Semi <==> c == 0x3B
    ensures c == 0x3B ==> Operator(c, c2, c3).1 == 1
  {
  }

  // ----- tokens without positions -----

  /** What the parser gets to see of a token. */
  datatype Token = Token(kind: Kind, text: seq<Byte>, n: I16, line: int)

  function TokenOf(s: seq<Byte>, l: Lexeme, line: int): Token
    requires l.from <= l.to <= |s|
  {
    Token(l.kind, if l.kind == Newline then [] else s[l.from..l.to], if l.kind == IntLit then l.n else 0, line)
  }

  /** The token behind `p`, with its line number in the whole file. */
  function TokenAt(s: seq<Byte>, p: nat): (t: Token)
    requires p <= |s|
    ensures t.kind == NextLexeme(s, p).kind
  {
    TokenOf(s, NextLexeme(s, p), LineAt(s, Trivia(s, p)))
  }

  /** The tokens from `p` on, up to and with the end of file or an error. */
  function Stream(s: seq<Byte>, p: nat): seq<Token>
    requires p <= |s|
    decreases |s| - p
  {
    var l := NextLexeme(s, p);
    if l.kind == Eof || l.kind == Error then [TokenAt(s, p)] else [TokenAt(s, p)] + Stream(s, l.next)
  }

  /** A newline right behind a newline counts for nothing. */
  function Squeeze(ts: seq<Token>): seq<Token>
    decreases |ts|
  {
    if |ts| < 2 then ts
    else if ts[0].kind == Newline && ts[1].kind == Newline then Squeeze([ts[0]] + ts[2..])
    else [ts[0]] + Squeeze(ts[1..])
  }

  lemma {:induction false} SqueezeFirst(a: seq<Token>, b: seq<Token>)
    requires |a| > 0
    ensures |a| > 1 && a[0].kind == Newline && a[1].kind == Newline ==> Squeeze(a + b) == Squeeze([a[0]] + a[2..] + b)
    ensures |a| > 1 && !(a[0].kind == Newline && a[1].kind == Newline) ==> Squeeze(a + b) == [a[0]] + Squeeze(a[1..] + b)
  {
    if |a| > 1 {
      assert (a + b)[1..] == a[1..] + b;
      assert [(a + b)[0]] + (a + b)[2..] == [a[0]] + a[2..] + b;
    }
  }

  lemma {:induction false} SqueezeTwo(a: seq<Token>, x: Token, y: Token, b: seq<Token>)
    requires x.kind == Newline && y.kind == Newline
    ensures Squeeze(a + [x, y] + b) == Squeeze(a + [x] + b)
    decreases |a|
  {
    hide Squeeze;
    var two, one := a + [x, y], a + [x];
    SqueezeFirst(two, b);
    if a == [] {
      assert [two[0]] + two[2..] == one;
    } else {
      SqueezeFirst(one, b);
      if two[0].kind == Newline && two[1].kind == Newline {
        if |a| == 1 {
          SqueezeTwo([], a[0], y, b);
          assert [two[0]] + two[2..] == [] + [a[0], y] && [one[0]] + one[2..] == [] + [a[0]];
        } else {
          SqueezeTwo([a[0]] + a[2..], x, y, b);
          assert [two[0]] + two[2..] == [a[0]] + a[2..] + [x, y] && [one[0]] + one[2..] == [a[0]] + a[2..] + [x];
        }
      } else {
        SqueezeTwo(a[1..], x, y, b);
        assert two[1..] == a[1..] + [x, y] && one[1..] == a[1..] + [x];
      }
    }
  }

  lemma {:induction false} LineIn(f: seq<Byte>, b: nat, s: seq<Byte>, p: nat)
    requires Part(f, b, s) && p <= |s|
    ensures LineAt(f, b + p) == LineAt(f, b) + LineAt(s, p) - 1
    decreases p
  {
    if p > 0 {
      LineIn(f, b, s, p - 1);
      assert f[b + p - 1] == s[p - 1];
    }
  }

  /** A token that is sure is the token of the file. */
  lemma {:induction false} SureToken(f: seq<Byte>, b: nat, s: seq<Byte>, p: nat)
    requires Part(f, b, s) && p <= |s|
    requires Whole(f, b, s) || Sure(s, Trivia(s, p), NextLexeme(s, p))
    ensures var l := NextLexeme(s, p);
            && b + p <= |f| && NextLexeme(f, b + p) == Shifted(l, b)
            && TokenAt(f, b + p) == TokenOf(s, l, LineAt(f, b) - 1 + LineAt(s, Trivia(s, p)))
  {
    hide LexemeAt, LineAt, Trivia, TriviaSure, Sure, Part, Whole, TokenOf;
    var q := Trivia(s, p);
    if !Whole(f, b, s) {
      SureTrivia(s, p);
    }
    PartFits(f, b, s, p);
    TriviaIn(f, b, s, p);
    LexemeIn(f, b, s, q);
    LineIn(f, b, s, q);
    SameTokenOf(f, b, s, LexemeAt(s, q), LineAt(f, b) - 1 + LineAt(s, q));
  }

  lemma {:induction false} PartFits(f: seq<Byte>, b: nat, s: seq<Byte>, p: nat)
    requires Part(f, b, s) && p <= |s|
    ensures b + p <= |f|
  {
  }

  lemma {:induction false} SameTokenOf(f: seq<Byte>, b: nat, s: seq<Byte>, l: Lexeme, line: int)
    requires Part(f, b, s) && l.from <= l.to <= |s|
    ensures b + l.to <= |f| && TokenOf(f, Shifted(l, b), line) == TokenOf(s, l, line)
  {
    SamePart(f, b, s, l.from, l.to);
  }

  lemma {:induction false} SamePart(f: seq<Byte>, b: nat, s: seq<Byte>, i: nat, j: nat)
    requires Part(f, b, s) && i <= j <= |s|
    ensures s[i..j] == f[b + i..b + j]
  {
    var x, y := s[i..j], f[b + i..b + j];
    forall k | 0 <= k < j - i
      ensures x[k] == y[k]
    {
      assert x[k] == s[i + k] == f[b + (i + k)];
    }
  }

  lemma {:induction false} SureTrivia(s: seq<Byte>, p: nat)
    requires p <= |s| && Sure(s, Trivia(s, p), NextLexeme(s, p))
    ensures TriviaSure(s, p)
  {
    hide Trivia, Digits, IdentEnd, StringEnd;
    var q := Trivia(s, p);
    if q + 1 == |s| && s[q] == SLASH {
      OperatorAt(s, q);
    }
  }

  /** A token that is not sure is cut by the edge of the window: behind it there is nothing, or one more dot. */
  predicate AtTheEdge(s: seq<Byte>, p: nat) {
    p == |s| || (p + 1 == |s| && s[p] == DOT)
  }

  lemma {:induction false} CutToken(s: seq<Byte>, p: nat)
    requires p <= |s| && !Sure(s, Trivia(s, p), NextLexeme(s, p))
    ensures var l := NextLexeme(s, p);
            l.kind == Eof || l.kind == Error || AtTheEdge(s, l.next)
    ensures NextLexeme(s, p).kind == Newline ==> NextLexeme(s, p).next == |s| && s[|s| - 1] == CR
  {
    hide Trivia, Digits, IdentEnd, StringEnd, Operator, KeywordOf;
  }

  /** At the edge there is nothing but the end, after one more dot at most. */
  lemma {:induction false} OnlyTheEnd(s: seq<Byte>, p: nat)
    requires p <= |s| && AtTheEdge(s, p)
    ensures var l := NextLexeme(s, p);
            l.kind == Eof || (l.kind == Dot && l.next == |s|)
  {
    if p < |s| {
      OperatorAt(s, p);
    }
  }

  lemma {:induction false} StreamStep(s: seq<Byte>, p: nat)
    requires p <= |s|
    ensures var l := NextLexeme(s, p);
            Stream(s, p) == [TokenAt(s, p)] + if l.kind == Eof || l.kind == Error then [] else Stream(s, l.next)
  {
  }

  lemma {:induction false} BreakAt(s: seq<Byte>, p: nat)
    requires p < |s| && IsBreak(s[p])
    ensures Trivia(s, p) == p
    ensures var end := if s[p] == CR && PeekAt(s, p + 1) == LF then p + 2 else p + 1;
            LexemeAt(s, p) == Lexeme(Newline, p, end, end, 0)
  {
  }

  /** A line break in two tokens. */
  lemma {:induction false} SplitBreak(f: seq<Byte>, q: nat, r: nat, before: seq<Token>)
    requires q <= r < |f| && Trivia(f, q) == r && f[r] == CR
    ensures var t := TokenOf(f, Lexeme(Newline, r, r + 1, r + 1, 0), LineAt(f, r));
            Squeeze(before + [t] + Stream(f, r + 1)) == Squeeze(before + Stream(f, q))
  {
    hide LineAt, Squeeze, Stream, LexemeAt, Trivia, TokenOf;
    var t := TokenOf(f, Lexeme(Newline, r, r + 1, r + 1, 0), LineAt(f, r));
    BreakToken(f, q, r);
    if r + 1 < |f| && f[r + 1] == LF {
      SecondHalf(f, r, t, before);
    } else {
      assert before + [t] + Stream(f, r + 1) == before + ([t] + Stream(f, r + 1));
    }
  }

  /** A line break that starts with a carriage return is one token, with the line feed behind it or without one. */
  lemma {:induction false} BreakToken(f: seq<Byte>, q: nat, r: nat)
    requires q <= r < |f| && Trivia(f, q) == r && f[r] == CR
    ensures var t := TokenOf(f, Lexeme(Newline, r, r + 1, r + 1, 0), LineAt(f, r));
            t.kind == Newline && Stream(f, q) == [t] + Stream(f, if r + 1 < |f| && f[r + 1] == LF then r + 2 else r + 1)
  {
    hide LineAt, Stream, LexemeAt, Trivia;
    BreakAt(f, r);
    StreamStep(f, q);
    assert TokenAt(f, q) == TokenOf(f, Lexeme(Newline, r, r + 1, r + 1, 0), LineAt(f, r));
  }

  /** The line feed behind a carriage return is a line break of its own, and squeezed away. */
  lemma {:induction false} SecondHalf(f: seq<Byte>, r: nat, t: Token, before: seq<Token>)
    requires r + 1 < |f| && f[r + 1] == LF && t.kind == Newline
    ensures Squeeze(before + [t] + Stream(f, r + 1)) == Squeeze(before + ([t] + Stream(f, r + 2)))
  {
    hide LineAt, Squeeze, Stream, LexemeAt, Trivia;
    BreakAt(f, r + 1);
    StreamStep(f, r + 1);
    var u, rest := TokenAt(f, r + 1), Stream(f, r + 2);
    SqueezeTwo(before, t, u, rest);
    Regrouped(before, t, u, rest);
  }

  lemma {:induction false} Regrouped(before: seq<Token>, t: Token, u: Token, rest: seq<Token>)
    ensures before + [t, u] + rest == before + [t] + ([u] + rest) && before + [t] + rest == before + ([t] + rest)
  {
  }

  // ----- the window -----

  /** An open file. A read delivers at least one byte, but not always all that were asked for. */
  class Source {
    const file: seq<Byte>
    var at: nat

    constructor (contents: seq<Byte>)
      ensures file == contents && at == 0
    {
      file, at := contents, 0;
    }

    /** pf_read: nothing at the end of the file only. */
    method Read(max: nat) returns (chunk: seq<Byte>)
      requires at <= |file| && max > 0
      modifies this
      ensures at == old(at) + |chunk| <= |file| && chunk == file[old(at)..at] && |chunk| <= max
      ensures chunk == [] <==> old(at) == |file|
    {
      var most := Min(max, |file| - at);
      if most == 0 {
        return [];
      }
      var n :| 1 <= n <= most;
      chunk := file[at..at + n];
      at := at + n;
    }
  }

  predicate IsSeparator(k: Kind) { k == Newline || k == Semi }

  /** Copy `chunk` to the places from `at` on. */
  method CopyIn(a: array<Byte>, at: nat, chunk: seq<Byte>)
    requires at + |chunk| <= a.Length
    modifies a
    ensures a[..at] == old(a[..at]) && a[..at + |chunk|] == old(a[..at]) + chunk
  {
    var i := 0;
    while i < |chunk|
      invariant 0 <= i <= |chunk| && a[..at + i] == old(a[..at]) + chunk[..i]
    {
      a[at + i] := chunk[i];
      assert a[..at + i + 1] == a[..at + i] + [chunk[i]] && chunk[..i + 1] == chunk[..i] + [chunk[i]];
      i := i + 1;
    }
    assert chunk[..i] == chunk;
    assert a[..at] == a[..at + |chunk|][..at];
  }

  class SrcWin {
    const window: array<Byte>
    const lexer: Lexer
    const source: Source
    var eof: bool
    var slides: nat

    /** The file offset of the first byte in the window. */
    ghost function Base(): int
      reads source, lexer
    {
      source.at - lexer.len
    }

    /** The window holds the bytes of the file up to where it has been read. */
    ghost predicate Valid()
      reads this, lexer, source, window
    {
      && lexer.src == window && lexer.Valid() && 0 <= Base() && source.at <= |source.file|
      && Part(source.file, Base(), lexer.Text()) && (eof ==> source.at == |source.file|)
    }

    /** The line numbers are those of the file. */
    ghost predicate LinesRight()
      reads this, lexer, source, window
      requires Valid()
    {
      lexer.LinesBefore() == LineAt(source.file, Base()) - 1
    }

    /** srcwin_open and lexer_init. */
    constructor (input: Source, cap: nat)
      requires input.at == 0 && cap > 0
      modifies input
      ensures Valid() && fresh(window) && fresh(lexer) && source == input && window.Length == cap
      ensures Base() == 0 && lexer.pos == 0 && LinesRight() && lexer.tok != Error
      ensures slides == 0 && (eof <==> |input.file| < cap)
    {
      var buffer := new Byte[cap];
      window := buffer;
      lexer := new Lexer(buffer, 0);
      source := input;
      eof, slides := false, 0;
      new;
      TopUp();
    }

    /** top_up: read until the window is full or the file ends. */
    method TopUp()
      requires Valid()
      modifies this`eof, lexer`len, source, window
      ensures Valid() && Base() == old(Base()) && lexer.pos == old(lexer.pos) && (old(eof) ==> eof)
      ensures window[..old(lexer.len)] == old(window[..lexer.len]) && old(lexer.len) <= lexer.len
      ensures !old(eof) ==> (eof <==> |source.file| - Base() < window.Length)
    {
      while !eof && lexer.len < window.Length
        invariant Valid() && Base() == old(Base()) && (old(eof) ==> eof) && old(lexer.len) <= lexer.len
        invariant window[..old(lexer.len)] == old(window[..lexer.len]) && lexer.pos == old(lexer.pos)
        invariant !old(eof) && eof ==> lexer.len < window.Length
        decreases !eof, window.Length - lexer.len
      {
        var chunk := source.Read(window.Length - lexer.len);
        if chunk == [] {
          eof := true;
        } else {
          Store(chunk);
        }
      }
    }

    /** The bytes just read go behind the others. */
    method Store(chunk: seq<Byte>)
      requires lexer.src == window && lexer.Valid() && lexer.len + |chunk| <= window.Length && 0 <= Base() - |chunk|
      requires source.at <= |source.file| && chunk == source.file[source.at - |chunk|..source.at]
      requires Part(source.file, Base() - |chunk|, lexer.Text()) && (eof ==> source.at == |source.file|)
      modifies lexer`len, window
      ensures Valid() && lexer.len == old(lexer.len) + |chunk| && window[..old(lexer.len)] == old(window[..lexer.len])
    {
      ghost var before := lexer.Text();
      CopyIn(window, lexer.len, chunk);
      ghost var base := Base() - |chunk|;
      lexer.len := lexer.len + |chunk|;
      Joined(source.file, base, before, chunk);
    }

    /** srcwin_refill: once scanning has passed half of the window, the current token, a separator, becomes
      * the first in it, and the rest is filled from the file. */
    method Refill()
      requires Valid() && lexer.tokPos <= lexer.pos && LinesRight()
      modifies this, lexer`len, lexer`pos, lexer`tokPos, source, window
      ensures Valid() && LinesRight() && lexer.tokPos <= lexer.pos && Base() + lexer.pos == old(Base() + lexer.pos)
      ensures old(eof) ==> eof && Base() == old(Base())
      ensures slides >= old(slides) && (slides == old(slides) ==> eof == old(eof))
    {
      if eof || lexer.pos < window.Length / 2 || lexer.tokPos == 0 {
        return;
      }
      Slide(lexer.tokPos);
      FillUp();
      slides := slides + 1;
    }

    /** Reading more does not change the lines so far. */
    method FillUp()
      requires Valid() && LinesRight()
      modifies this`eof, lexer`len, source, window
      ensures Valid() && LinesRight() && Base() == old(Base()) && lexer.pos == old(lexer.pos)
    {
      hide LineAt;
      ghost var s, base := lexer.Text(), Base();
      TopUp();
      assert lexer.Text()[..|s|] == s;
      SameLines(s, lexer.Text(), lexer.pos);
    }

    /** memmove, and the lexer's offsets move along. */
    method Slide(delta: nat)
      requires Valid() && delta == lexer.tokPos <= lexer.pos && LinesRight()
      modifies lexer`len, lexer`pos, lexer`tokPos, window
      ensures Valid() && LinesRight() && Base() == old(Base()) + delta && lexer.pos == old(lexer.pos) - delta && lexer.tokPos == 0
      ensures lexer.Text() == old(lexer.Text())[delta..]
    {
      hide LineAt, Part;
      ghost var s := lexer.Text();
      LinesSlide(source.file, Base(), s, delta, lexer.pos - delta);
      PartSlides(source.file, Base(), s, delta);
      var n := lexer.len - delta;
      var i := 0;
      while i < n
        invariant 0 <= i <= n
        invariant forall k :: 0 <= k < i ==> window[k] == s[delta + k]
        invariant forall k :: i <= k < |s| ==> window[k] == s[k]
        modifies window
      {
        window[i] := window[delta + i];
        i := i + 1;
      }
      lexer.len, lexer.pos, lexer.tokPos := n, lexer.pos - delta, 0;
      assert lexer.Text() == s[delta..];
      assert Part(source.file, Base(), lexer.Text());
    }

    /** The bytes of the current token. */
    method TokenText() returns (text: seq<Byte>)
      requires lexer.src == window && lexer.Valid()
      requires lexer.tok != Newline && lexer.tok != Error ==> lexer.tokPos + lexer.tokLen <= lexer.len
      ensures text == if lexer.tok == Newline || lexer.tok == Error then [] else lexer.Text()[lexer.tokPos..lexer.tokPos + lexer.tokLen]
    {
      if lexer.tok == Newline || lexer.tok == Error {
        return [];
      }
      lexer.SameSlice(lexer.tokPos, lexer.tokPos + lexer.tokLen);
      return window[lexer.tokPos..lexer.tokPos + lexer.tokLen];
    }

    /** lexer_next, and the token it found. */
    method NextToken() returns (t: Token)
      requires Valid() && LinesRight() && lexer.tok != Error
      modifies lexer
      ensures Valid() && lexer.len == old(lexer.len)
      ensures var s, p := old(lexer.Text()), old(lexer.pos);
              var l := NextLexeme(s, p);
              && lexer.tok == l.kind == t.kind
              && t == TokenOf(s, l, LineAt(source.file, old(Base())) - 1 + LineAt(s, Trivia(s, p)))
              && (l.kind != Error ==> lexer.pos == l.next && lexer.tokPos == l.from && LinesRight())
    {
      hide LineAt, Trivia, LexemeAt, Part, NextLexeme, TokenOf, Lexer.LinesBefore;
      lexer.Next();
      var text := TokenText();
      t := Token(lexer.tok, text, if lexer.tok == IntLit then lexer.intVal else 0, lexer.tokLine);
      if lexer.tok == Error {
        ErrorIsEmpty(lexer.Text(), old(lexer.pos));
      }
      Built(lexer.Text(), NextLexeme(lexer.Text(), old(lexer.pos)), t);
    }

    static lemma {:induction false} Built(s: seq<Byte>, l: Lexeme, t: Token)
      requires l.from <= l.to <= |s| && t.kind == l.kind && t.n == (if l.kind == IntLit then l.n else 0)
      requires t.text == if l.kind == Newline || l.kind == Error then [] else s[l.from..l.to]
      requires l.kind == Error ==> s[l.from..l.to] == []
      ensures t == TokenOf(s, l, t.line)
    {
    }

    /** The tokens so far and those to come are those of the file; unless the window has cut one (`cut`). */
    ghost predicate OnTrack(ts: seq<Token>, cut: bool)
      reads this, lexer, source, window
      requires Valid()
    {
      var f, at := source.file, Base() + lexer.pos;
      && (!cut ==> Squeeze(ts + Stream(f, at)) == Squeeze(Stream(f, 0)))
      && (cut ==> !eof && AtTheEdge(lexer.Text(), lexer.pos))
      && (|f| < window.Length ==> eof && ts + Stream(f, at) == Stream(f, 0))
    }

    /** One token more. */
    method Take(ts: seq<Token>, ghost cut: bool) returns (t: Token, ghost cut': bool)
      requires Valid() && LinesRight() && lexer.tok != Error && OnTrack(ts, cut)
      modifies lexer
      ensures Valid() && lexer.len == old(lexer.len)
      ensures lexer.tok == Eof || lexer.tok == Error ==>
                && (lexer.tok == Eof && eof ==> Squeeze(ts + [t]) == Squeeze(Stream(source.file, 0)))
                && (|source.file| < window.Length ==> eof && ts + [t] == Stream(source.file, 0))
      ensures lexer.tok != Eof && lexer.tok != Error ==>
                && LinesRight() && OnTrack(ts + [t], cut') && lexer.pos > old(lexer.pos) && lexer.tokPos <= lexer.pos
                && (cut' ==> !IsSeparator(lexer.tok))
    {
      hide LineAt, Trivia, LexemeAt, Stream, Squeeze, TokenOf, Sure, Part, AtTheEdge;
      ghost var s, p, b := lexer.Text(), lexer.pos, Base();
      t := NextToken();
      assert lexer.Text() == s && Base() == b;
      Arrived(source.file, b, s, p, ts, t, cut, eof);
      cut' := CutNow(s, p, cut, eof);
      if eof {
        if lexer.tok == Eof || lexer.tok == Error {
          assert Stream(source.file, b + p) == [t];
        } else {
          assert ts + Stream(source.file, b + p) == ts + [t] + Stream(source.file, Base() + lexer.pos);
        }
      }
    }

    /** parser_skip_separators: behind a separator the refill hook may or may not be installed. */
    method BetweenTokens(ghost ts: seq<Token>, ghost cut: bool)
      requires Valid() && LinesRight() && OnTrack(ts, cut) && lexer.tokPos <= lexer.pos
      requires cut ==> !IsSeparator(lexer.tok)
      modifies this, lexer`len, lexer`pos, lexer`tokPos, source, window
      ensures Valid() && LinesRight() && OnTrack(ts, cut) && Base() + lexer.pos == old(Base() + lexer.pos)
      ensures slides >= old(slides) && (slides == old(slides) ==> eof == old(eof))
    {
      hide LineAt, Stream, Squeeze, Part, AtTheEdge;
      if IsSeparator(lexer.tok) {
        if * {
          Refill();
        }
      }
    }

    /** The tokens of a file, as the parser gets them. Behind any of the separators the window may slide.
      * If scanning ends at the end of file with the window's eof flag set, the tokens are those of the whole
      * file, up to repeated newlines; and a file shorter than the window is scanned exactly. */
    method Tokens() returns (ts: seq<Token>)
      requires Valid() && LinesRight() && lexer.tok != Error && Base() == 0 && lexer.pos == 0
      requires |source.file| < window.Length ==> eof
      modifies this, lexer, source, window
      ensures lexer.tok == Eof || lexer.tok == Error
      ensures lexer.tok == Eof && eof ==> Squeeze(ts) == Squeeze(Stream(source.file, 0))
      ensures |source.file| < window.Length ==> eof && ts == Stream(source.file, 0)
      ensures slides >= old(slides) && (slides == old(slides) ==> eof == old(eof))
    {
      hide LineAt, Trivia, LexemeAt, Stream, Squeeze, Part, AtTheEdge;
      ghost var cut := false;
      ts := [];
      assert ts + Stream(source.file, 0) == Stream(source.file, 0);
      while true
        invariant Valid() && LinesRight() && lexer.tok != Error && OnTrack(ts, cut)
        invariant slides >= old(slides) && (slides == old(slides) ==> eof == old(eof))
        decreases |source.file| - (Base() + lexer.pos)
      {
        var t;
        t, cut := Take(ts, cut);
        ts := ts + [t];
        if lexer.tok == Eof || lexer.tok == Error {
          return;
        }
        BetweenTokens(ts, cut);
      }
    }
  }

  /** Open a file and scan it to the end, or to an error. What the parser got counts only if the eof flag is set
    * then. If the window has not moved, it is set exactly for the files that leave a byte of it free; so a file of
    * just its size, which it holds completely, is refused. */
  method ScanFile(input: Source, cap: nat) returns (whole: bool, ts: seq<Token>, last: Kind, slides: nat)
    requires input.at == 0 && cap > 0
    modifies input
    ensures last == Eof || last == Error
    ensures whole && last == Eof ==> Squeeze(ts) == Squeeze(Stream(input.file, 0))
    ensures |input.file| < cap ==> whole && ts == Stream(input.file, 0)
    ensures slides == 0 ==> (whole <==> |input.file| < cap)
  {
    hide Stream, Squeeze, LineAt, Part;
    var w := new SrcWin(input, cap);
    ts := w.Tokens();
    whole, last, slides := w.eof, w.lexer.tok, w.slides;
  }

  /** The line of a token is that of the text exactly if no CR LF stands before it. */
  lemma {:induction false} LineOfToken(s: seq<Byte>, p: nat)
    requires p <= |s|
    ensures var q := Trivia(s, p); TokenAt(s, p).line == TextLine(s, q) <==> forall i :: 0 < i < q ==> !PairAt(s, i)
  {
    hide Trivia, LexemeAt, NextLexeme, LineAt, TextLine;
    LinesOfText(s, Trivia(s, p));
  }

  /** After one CR LF the lexer is one line ahead. */
  lemma {:induction false} LineAhead()
    ensures var s := [CR, LF, 0x78]; TokenAt(s, 2).line == 3 && TextLine(s, Trivia(s, 2)) == 2
  {
    hide LexemeAt;
    var s := [CR, LF, 0x78];
    assert Trivia(s, 2) == 2;
    assert LineAt(s, 1) == 2 && LineAt(s, 2) == 3 && TextLine(s, 1) == 2;
  }

  lemma {:induction false} ErrorIsEmpty(s: seq<Byte>, p: nat)
    requires p <= |s| && NextLexeme(s, p).kind == Error
    ensures s[NextLexeme(s, p).from..NextLexeme(s, p).to] == []
  {
    hide Trivia, Digits, IdentEnd, StringEnd, Operator, KeywordOf;
  }

  /** After the next token the scanner knows that it has been cut off. */
  ghost predicate CutNow(s: seq<Byte>, p: nat, cut: bool, eof: bool)
    requires p <= |s|
  {
    cut || (!eof && !Sure(s, Trivia(s, p), NextLexeme(s, p)) && NextLexeme(s, p).kind != Newline)
  }

  /** What one more token means for the tokens of the file. */
  lemma {:induction false} Arrived(f: seq<Byte>, b: nat, s: seq<Byte>, p: nat, ts: seq<Token>, t: Token, cut: bool, eof: bool)
    requires Part(f, b, s) && p <= |s| && (eof ==> Whole(f, b, s)) && (cut ==> !eof && AtTheEdge(s, p))
    requires t == TokenOf(s, NextLexeme(s, p), LineAt(f, b) - 1 + LineAt(s, Trivia(s, p)))
    ensures var l := NextLexeme(s, p);
            var done := l.kind == Eof || l.kind == Error;
            && b + l.next <= |f|
            && (CutNow(s, p, cut, eof) && !done ==> AtTheEdge(s, l.next) && !IsSeparator(l.kind))
            && (eof ==> Stream(f, b + p) == [t] + if done then [] else Stream(f, b + l.next))
            && (!CutNow(s, p, cut, eof) && !done ==>
                  Squeeze(ts + [t] + Stream(f, b + l.next)) == Squeeze(ts + Stream(f, b + p)))
  {
    hide LineAt, Trivia, LexemeAt, Stream, Squeeze, TokenOf;
    var l := NextLexeme(s, p);
    PartFits(f, b, s, l.next);
    if cut {
      OnlyTheEnd(s, p);
    } else if eof || Sure(s, Trivia(s, p), l) {
      SureArrives(f, b, s, p, ts);
    } else {
      CutToken(s, p);
      if l.kind == Newline {
        CutBreak(f, b, s, p, ts, t);
      }
    }
  }

  lemma {:induction false} SureArrives(f: seq<Byte>, b: nat, s: seq<Byte>, p: nat, ts: seq<Token>)
    requires Part(f, b, s) && p <= |s| && (Whole(f, b, s) || Sure(s, Trivia(s, p), NextLexeme(s, p)))
    ensures var l := NextLexeme(s, p);
            var t := TokenOf(s, l, LineAt(f, b) - 1 + LineAt(s, Trivia(s, p)));
            var done := l.kind == Eof || l.kind == Error;
            && b + l.next <= |f| && b + p <= |f|
            && Stream(f, b + p) == [t] + (if done then [] else Stream(f, b + l.next))
            && (!done ==> Squeeze(ts + [t] + Stream(f, b + l.next)) == Squeeze(ts + Stream(f, b + p)))
  {
    hide LineAt, Trivia, LexemeAt, Stream, Squeeze, TokenOf, Sure, Whole, Part, NextLexeme;
    var l := NextLexeme(s, p);
    SureStream(f, b, s, p);
    if l.kind != Eof && l.kind != Error {
      var t := TokenOf(s, l, LineAt(f, b) - 1 + LineAt(s, Trivia(s, p)));
      assert ts + [t] + Stream(f, b + l.next) == ts + ([t] + Stream(f, b + l.next));
    }
  }

  /** The tokens of the file from one that the window shows for sure. */
  lemma {:induction false} SureStream(f: seq<Byte>, b: nat, s: seq<Byte>, p: nat)
    requires Part(f, b, s) && p <= |s| && (Whole(f, b, s) || Sure(s, Trivia(s, p), NextLexeme(s, p)))
    ensures var l := NextLexeme(s, p);
            var t := TokenOf(s, l, LineAt(f, b) - 1 + LineAt(s, Trivia(s, p)));
            && b + l.next <= |f| && b + p <= |f|
            && Stream(f, b + p) == [t] + (if l.kind == Eof || l.kind == Error then [] else Stream(f, b + l.next))
  {
    hide LineAt, Trivia, LexemeAt, Stream, TokenOf, TokenAt, Sure, Whole, Part, NextLexeme;
    PartFits(f, b, s, NextLexeme(s, p).next);
    PartFits(f, b, s, p);
    SureToken(f, b, s, p);
    StreamStep(f, b + p);
  }

  /** A CR as the last byte of the window. */
  lemma {:induction false} CutBreak(f: seq<Byte>, b: nat, s: seq<Byte>, p: nat, ts: seq<Token>, t: Token)
    requires Part(f, b, s) && p <= |s| && NextLexeme(s, p).kind == Newline
    requires NextLexeme(s, p).next == |s| && s[|s| - 1] == CR
    requires t == TokenOf(s, NextLexeme(s, p), LineAt(f, b) - 1 + LineAt(s, Trivia(s, p)))
    ensures b + |s| <= |f| && Squeeze(ts + [t] + Stream(f, b + |s|)) == Squeeze(ts + Stream(f, b + p))
  {
    hide LineAt, Stream, Squeeze, Trivia;
    var q := Trivia(s, p);
    IsBreakThere(s, q);
    BreakAt(s, q);
    assert q == |s| - 1;
    TriviaIn(f, b, s, p);
    LineIn(f, b, s, q);
    SplitBreak(f, b + p, b + q, ts);
  }

  lemma {:induction false} IsBreakThere(s: seq<Byte>, p: nat)
    requires p <= |s| && LexemeAt(s, p).kind == Newline
    ensures p < |s| && IsBreak(s[p])
  {
    hide Digits, IdentEnd, StringEnd, KeywordOf, Operator;
  }

  lemma {:induction false} Joined(f: seq<Byte>, b: nat, s: seq<Byte>, t: seq<Byte>)
    requires Part(f, b, s) && b + |s| + |t| <= |f| && t == f[b + |s|..b + |s| + |t|]
    ensures Part(f, b, s + t)
  {
    assert s + t == f[b..b + |s| + |t|];
  }

  /** Lines before the slid window and in it. */
  lemma {:induction false} LinesSlide(f: seq<Byte>, b: nat, s: seq<Byte>, delta: nat, p: nat)
    requires Part(f, b, s) && delta + p <= |s|
    ensures LineAt(s[delta..], p) == LineAt(s, delta + p) - (LineAt(f, b + delta) - LineAt(f, b))
  {
    assert Part(s, delta, s[delta..]);
    LineIn(s, delta, s[delta..], p);
    LineIn(f, b, s, delta);
  }

  lemma {:induction false} SameLines(s: seq<Byte>, t: seq<Byte>, p: nat)
    requires p <= |s| <= |t| && t[..|s|] == s
    ensures LineAt(s, p) == LineAt(t, p)
    decreases p
  {
    if p > 0 {
      SameLines(s, t, p - 1);
      assert t[p - 1] == t[..|s|][p - 1];
    }
  }
}
