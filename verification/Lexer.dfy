/** The scanner of lexer.c: what the next token of a buffer is, and the loops that find it. */
module Lexer {
  import opened Bytes
  import opened Values

  const LF: Byte := 0x0A
  const CR: Byte := 0x0D
  const QUOTE: Byte := 0x22
  const LPAREN: Byte := 0x28
  const RPAREN: Byte := 0x29
  const STAR: Byte := 0x2A
  const DOT: Byte := 0x2E
  const SLASH: Byte := 0x2F
  const LESS: Byte := 0x3C
  const EQUALS: Byte := 0x3D
  const BACKSLASH: Byte := 0x5C

  datatype Kind =
    | Eof | Error | Newline
    | IntLit | StrLit | Ident
    | KwLet | KwVar | KwFunc | KwReturn | KwIf | KwElse | KwWhile | KwFor | KwIn | KwTrue | KwFalse | KwNil | KwBreak
    | Plus | Minus | Star | Slash | Percent | Bang | Assign | Lt | Gt
    | LParen | RParen | LBrace | RBrace | LBracket | RBracket | Comma | Dot | Colon | Semi | Question
    | EqEq | NotEq | LtEq | GtEq | AndAnd | OrOr | QuestionQuestion | Arrow
    | PlusEq | MinusEq | StarEq | SlashEq | DotDotLess | DotDotDot

  predicate IsBreak(c: Byte) { c == LF || c == CR }

  predicate IsDigit(c: Byte) { 0x30 <= c <= 0x39 }

  predicate IsIdentStart(c: Byte) { 0x61 <= c <= 0x7A || 0x41 <= c <= 0x5A || c == 0x5F }

  predicate IsIdentCont(c: Byte) { IsIdentStart(c) || IsDigit(c) }

  /** peek_ch: zero past the end of the buffer. */
  function PeekAt(s: seq<Byte>, p: nat): Byte {
    if p < |s| then s[p] else 0
  }

  // ----- trivia -----

  function LineEnd(s: seq<Byte>, p: nat): (r: nat)
    requires p <= |s|
    ensures p <= r <= |s| && (r < |s| ==> IsBreak(s[r]))
    decreases |s| - p
  {
    if p < |s| && !IsBreak(s[p]) then LineEnd(s, p + 1) else p
  }

  /** The position behind the end of a block comment, or the end of the buffer. */
  function CommentEnd(s: seq<Byte>, p: nat): (r: nat)
    requires p <= |s|
    ensures p <= r <= |s|
    decreases |s| - p
  {
    if p == |s| then p
    else if s[p] == STAR && PeekAt(s, p + 1) == SLASH then p + 2
    else CommentEnd(s, p + 1)
  }

  /** skip_trivia: the first position that belongs to a token. */
  function Trivia(s: seq<Byte>, p: nat): (r: nat)
    requires p <= |s|
    ensures p <= r <= |s|
    decreases |s| - p
  {
    if p == |s| then p
    else if s[p] == 0x20 || s[p] == 0x09 then Trivia(s, p + 1)
    else if s[p] == SLASH && PeekAt(s, p + 1) == SLASH then Trivia(s, LineEnd(s, p + 2))
    else if s[p] == SLASH && PeekAt(s, p + 1) == STAR then Trivia(s, CommentEnd(s, p + 2))
    else p
  }

  // ----- literals and names -----

  datatype IntScan = Number(n: nat, end: nat) | TooBig

  function Digits(s: seq<Byte>, p: nat, acc: nat): (r: IntScan)
    requires p <= |s| && acc <= 65535
    ensures r.Number? ==> p <= r.end <= |s| && r.n <= 65535
    ensures r.Number? && p < |s| && IsDigit(s[p]) ==> p < r.end
    decreases |s| - p
  {
    if p < |s| && IsDigit(s[p]) then
      var n := acc * 10 + (s[p] - 0x30);
      if n > 65535 then TooBig else Digits(s, p + 1, n)
    else Number(acc, p)
  }

  function IdentEnd(s: seq<Byte>, p: nat): (r: nat)
    requires p <= |s|
    ensures p <= r <= |s|
    decreases |s| - p
  {
    if p < |s| && IsIdentCont(s[p]) then IdentEnd(s, p + 1) else p
  }

  /** keyword_lookup: an exact match in lower case. */
  function KeywordOf(text: seq<Byte>): (k: Kind)
    ensures k != Eof && k != Error && k != Newline && k != Semi && k != IntLit
  {
    if text == Ascii("if") then KwIf
    else if text == Ascii("in") then KwIn
    else if text == Ascii("let") then KwLet
    else if text == Ascii("var") then KwVar
    else if text == Ascii("for") then KwFor
    else if text == Ascii("nil") then KwNil
    else if text == Ascii("else") then KwElse
    else if text == Ascii("func") then KwFunc
    else if text == Ascii("true") then KwTrue
    else if text == Ascii("break") then KwBreak
    else if text == Ascii("false") then KwFalse
    else if text == Ascii("while") then KwWhile
    else if text == Ascii("return") then KwReturn
    else Ident
  }

  /** Behind the parenthesis that closes an interpolation, or None when the string breaks off in it. */
  function InterpolationEnd(s: seq<Byte>, p: nat, depth: nat): (r: Option<nat>)
    requires p <= |s|
    ensures r.Some? ==> p <= r.value <= |s|
    decreases |s| - p
  {
    if depth == 0 then Some(p)
    else if p == |s| || s[p] == QUOTE || IsBreak(s[p]) then None
    else InterpolationEnd(s, p + 1, if s[p] == LPAREN then depth + 1 else if s[p] == RPAREN then depth - 1 else depth)
  }

  predicate IsEscape(c: Byte) {
    c == BACKSLASH || c == QUOTE || c == 0x6E || c == 0x74 || c == 0x72 || c == 0x30
  }

  /** The closing quote of the string whose text goes on at `p`, or None when it is malformed. */
  function StringEnd(s: seq<Byte>, p: nat): (r: Option<nat>)
    requires p <= |s|
    ensures r.Some? ==> p <= r.value < |s| && s[r.value] == QUOTE
    decreases |s| - p
  {
    if p == |s| || IsBreak(s[p]) then None
    else if s[p] == QUOTE then Some(p)
    else if s[p] != BACKSLASH then StringEnd(s, p + 1)
    else if p + 1 == |s| then None
    else if s[p + 1] == LPAREN then
      match InterpolationEnd(s, p + 2, 1)
      case None => None
      case Some(q) => StringEnd(s, q)
    else if IsEscape(s[p + 1]) then StringEnd(s, p + 2)
    else None
  }

  // ----- operators -----

  /** A token of one byte, or of two when the next byte is `=`. */
  function WithEquals(c2: Byte, one: Kind, two: Kind): (Kind, nat) {
    if c2 == EQUALS then (two, 2) else (one, 1)
  }

  /** The operator that starts with `c`, given the two bytes that follow: its kind and its length. */
  function Operator(c: Byte, c2: Byte, c3: Byte): (r: (Kind, nat))
    ensures 1 <= r.1 <= 3 && r.0 != Eof && r.0 != Newline && r.0 != IntLit
    ensures (r.1 >= 2 ==> c2 != 0) && (r.1 == 3 ==> c3 != 0)
  {
    if c == 0x2B then WithEquals(c2, Plus, PlusEq)
    else if c == 0x2D then (if c2 == 0x3E then (Arrow, 2) else WithEquals(c2, Minus, MinusEq))
    else if c == STAR then WithEquals(c2, Star, StarEq)
    else if c == SLASH then WithEquals(c2, Slash, SlashEq)
    else if c == 0x25 then (Percent, 1)
    else if c == 0x21 then WithEquals(c2, Bang, NotEq)
    else if c == EQUALS then WithEquals(c2, Assign, EqEq)
    else if c == LESS then WithEquals(c2, Lt, LtEq)
    else if c == 0x3E then WithEquals(c2, Gt, GtEq)
    else if c == 0x26 then (if c2 == 0x26 then (AndAnd, 2) else (Error, 1))
    else if c == 0x7C then (if c2 == 0x7C then (OrOr, 2) else (Error, 1))
    else if c == 0x3F then (if c2 == 0x3F then (QuestionQuestion, 2) else (Question, 1))
    else if c == DOT then
      (if c2 == DOT && c3 == LESS then (DotDotLess, 3) else if c2 == DOT && c3 == DOT then (DotDotDot, 3) else (Dot, 1))
    else Punctuation(c)
  }

  function Punctuation(c: Byte): (r: (Kind, nat))
    ensures r.1 == 1 && r.0 != Eof && r.0 != Newline && r.0 != IntLit
  {
    match c
    case 0x28 => (LParen, 1)
    case 0x29 => (RParen, 1)
    case 0x7B => (LBrace, 1)
    case 0x7D => (RBrace, 1)
    case 0x5B => (LBracket, 1)
    case 0x5D => (RBracket, 1)
    case 0x2C => (Comma, 1)
    case 0x3A => (Colon, 1)
    case 0x3B => (Semi, 1)
    case _ => (Error, 1)
  }

  // ----- tokens -----

  /** A token: its kind, where its text lies, where scanning goes on, and the value of an integer. */
  datatype Lexeme = Lexeme(kind: Kind, from: nat, to: nat, next: nat, n: I16)

  /** The token that starts at `p`, which is not trivia. */
  function LexemeAt(s: seq<Byte>, p: nat): (r: Lexeme)
    requires p <= |s|
    ensures p <= r.from <= r.to <= r.next <= |s|
    ensures r.kind == Eof <==> p == |s|
    ensures r.kind != Eof && r.kind != Error ==> p < r.next
  {
    if p == |s| then Lexeme(Eof, p, p, p, 0)
    else if IsBreak(s[p]) then
      var end := if s[p] == CR && PeekAt(s, p + 1) == LF then p + 2 else p + 1;
      Lexeme(Newline, p, end, end, 0)
    else if IsDigit(s[p]) then
      match Digits(s, p, 0)
      case Number(n, end) => Lexeme(IntLit, p, end, end, Wrap16(n))
      case TooBig => Lexeme(Error, p, p, p, 0)
    else if IsIdentStart(s[p]) then
      var end := IdentEnd(s, p + 1);
      Lexeme(KeywordOf(s[p..end]), p, end, end, 0)
    else if s[p] == QUOTE then
      match StringEnd(s, p + 1)
      case Some(q) => Lexeme(StrLit, p + 1, q, q + 1, 0)
      case None => Lexeme(Error, p, p, p, 0)
    else
      var (kind, len) := Operator(s[p], PeekAt(s, p + 1), PeekAt(s, p + 2));
      if kind == Error then Lexeme(Error, p, p, p, 0) else Lexeme(kind, p, p + len, p + len, 0)
  }

  function NextLexeme(s: seq<Byte>, p: nat): (r: Lexeme)
    requires p <= |s|
    ensures p <= r.from <= r.to <= r.next <= |s|
    ensures r.kind != Eof && r.kind != Error ==> p < r.next
  {
    LexemeAt(s, Trivia(s, p))
  }

  /** The line number at `p`: every CR and every LF counts. */
  function LineAt(s: seq<Byte>, p: nat): nat
    requires p <= |s|
    decreases p
  {
    if p == 0 then 1 else LineAt(s, p - 1) + if IsBreak(s[p - 1]) then 1 else 0
  }

  /** The line number at `p` with CR LF as one line break, as there is one token for it. */
  function TextLine(s: seq<Byte>, p: nat): nat
    requires p <= |s|
    decreases p
  {
    if p == 0 then 1
    else TextLine(s, p - 1) + if IsBreak(s[p - 1]) && !(p >= 2 && PairAt(s, p - 1)) then 1 else 0
  }

  /** A carriage return and a line feed around `i`. */
  predicate PairAt(s: seq<Byte>, i: nat)
    requires 0 < i < |s|
  {
    s[i - 1] == CR && s[i] == LF
  }

  /** The lexer's line number is that of the text exactly if no CR LF stands before. */
  lemma {:induction false} LinesOfText(s: seq<Byte>, p: nat)
    requires p <= |s|
    ensures LineAt(s, p) >= TextLine(s, p)
    ensures LineAt(s, p) == TextLine(s, p) <==> forall i :: 0 < i < p ==> !PairAt(s, i)
    decreases p
  {
    if p > 0 {
      LinesOfText(s, p - 1);
      if p >= 2 && PairAt(s, p - 1) {
        assert LineAt(s, p) > TextLine(s, p);
      }
    }
  }

  lemma {:induction false} NameGoesOn(s: seq<Byte>, p: nat)
    requires p <= |s|
    ensures IdentEnd(s, p) == if p < |s| && IsIdentCont(s[p]) then IdentEnd(s, p + 1) else p
  {
  }

  lemma {:induction false} SameLine(s: seq<Byte>, p: nat)
    requires p < |s| && !IsBreak(s[p])
    ensures LineAt(s, p + 1) == LineAt(s, p)
  {
  }

  lemma {:induction false} NameAt(s: seq<Byte>, p: nat)
    requires p < |s| && IsIdentStart(s[p])
    ensures LexemeAt(s, p) == Lexeme(KeywordOf(s[p..IdentEnd(s, p)]), p, IdentEnd(s, p), IdentEnd(s, p), 0)
  {
    hide KeywordOf, Digits, StringEnd, Operator;
  }

  lemma {:induction false} StringAt(s: seq<Byte>, p: nat)
    requires p < |s| && s[p] == QUOTE
    ensures LexemeAt(s, p) == match StringEnd(s, p + 1)
                              case Some(q) => Lexeme(StrLit, p + 1, q, q + 1, 0)
                              case None => Lexeme(Error, p, p, p, 0)
  {
    hide KeywordOf, Digits, StringEnd, IdentEnd, Operator;
  }

  lemma {:induction false} OperatorAt(s: seq<Byte>, p: nat)
    requires p < |s| && !IsBreak(s[p]) && !IsDigit(s[p]) && !IsIdentStart(s[p]) && s[p] != QUOTE
    ensures var (kind, n) := Operator(s[p], PeekAt(s, p + 1), PeekAt(s, p + 2));
            LexemeAt(s, p) == if kind == Error then Lexeme(Error, p, p, p, 0) else Lexeme(kind, p, p + n, p + n, 0)
  {
    hide KeywordOf, Digits, StringEnd, IdentEnd, Operator;
  }

  class Lexer {
    const src: array<Byte>
    var len: nat
    var pos: nat
    var line: int
    var tok: Kind
    var tokPos: nat
    var tokLen: nat
    var tokLine: int
    var intVal: I16

    predicate Valid()
      reads this
    {
      pos <= len <= src.Length
    }

    /** The bytes to scan. */
    ghost function Text(): (s: seq<Byte>)
      reads this, src
      requires Valid()
      ensures |s| == len
    {
      src[..len]
    }

    /** The line count is right up to what came before the buffer. */
    ghost function LinesBefore(): int
      reads this, src
      requires Valid()
    {
      line - LineAt(Text(), pos)
    }

    /** The token fields show `l`. */
    ghost predicate Shows(l: Lexeme)
      reads this
    {
      tok == l.kind
      && (tok != Error ==> tokPos == l.from && tokLen == l.to - l.from && pos == l.next && (tok == IntLit ==> intVal == l.n))
    }

    /** lexer_init. */
    constructor (buffer: array<Byte>, n: nat)
      requires n <= buffer.Length
      ensures Valid() && src == buffer && len == n && pos == 0 && tok == Eof && line == 1 && LinesBefore() == 0
    {
      src := buffer;
      len, pos, line := n, 0, 1;
      tok, tokPos, tokLen, tokLine, intVal := Eof, 0, 0, 1, 0;
    }

    method Advance()
      requires Valid() && pos < len
      modifies this`pos, this`line
      ensures Valid() && pos == old(pos) + 1 && LinesBefore() == old(LinesBefore())
    {
      if IsBreak(src[pos]) {
        line := line + 1;
      }
      pos := pos + 1;
    }

    function Peek(off: nat): Byte
      reads this, src
      requires Valid()
      ensures Peek(off) == PeekAt(Text(), pos + off)
    {
      if pos + off < len then src[pos + off] else 0
    }

    /** skip_trivia. */
    method SkipTrivia()
      requires Valid()
      modifies this`pos, this`line
      ensures Valid() && pos == Trivia(Text(), old(pos)) && LinesBefore() == old(LinesBefore())
    {
      while true
        invariant Valid() && Trivia(Text(), pos) == Trivia(Text(), old(pos)) && LinesBefore() == old(LinesBefore())
        decreases len - pos
      {
        if pos >= len {
          return;
        }
        var c := src[pos];
        if c == 0x20 || c == 0x09 {
          pos := pos + 1;
        } else if c == SLASH && Peek(1) == SLASH {
          SkipLine();
        } else if c == SLASH && Peek(1) == STAR {
          SkipComment();
        } else {
          return;
        }
      }
    }

    /** A line comment, up to its line break. */
    method SkipLine()
      requires Valid() && pos + 2 <= len && src[pos] == SLASH && src[pos + 1] == SLASH
      modifies this`pos
      ensures Valid() && pos == LineEnd(Text(), old(pos) + 2) && LinesBefore() == old(LinesBefore())
    {
      pos := pos + 2;
      assert LineAt(Text(), pos - 1) == LineAt(Text(), pos - 2);
      while pos < len && !IsBreak(src[pos])
        invariant Valid() && LineEnd(Text(), pos) == LineEnd(Text(), old(pos) + 2) && LinesBefore() == old(LinesBefore())
      {
        pos := pos + 1;
      }
    }

    /** A block comment; it may run to the end of the buffer. */
    method SkipComment()
      requires Valid() && pos + 2 <= len && src[pos] == SLASH && src[pos + 1] == STAR
      modifies this`pos, this`line
      ensures Valid() && pos == CommentEnd(Text(), old(pos) + 2) && LinesBefore() == old(LinesBefore())
    {
      pos := pos + 2;
      assert LineAt(Text(), pos - 1) == LineAt(Text(), pos - 2);
      while pos < len
        invariant Valid() && CommentEnd(Text(), pos) == CommentEnd(Text(), old(pos) + 2) && LinesBefore() == old(LinesBefore())
      {
        if src[pos] == STAR && Peek(1) == SLASH {
          assert Text()[pos] == STAR && Text()[pos + 1] == SLASH;
          assert LineAt(Text(), pos + 1) == LineAt(Text(), pos);
          pos := pos + 2;
          return;
        }
        Advance();
      }
    }

    /** lex_int. */
    method LexInt() returns (ok: bool)
      requires Valid()
      modifies this`pos, this`line, this`tok, this`intVal
      ensures Valid()
      ensures match Digits(Text(), old(pos), 0)
              case Number(n, end) => ok && pos == end && tok == IntLit && intVal == Wrap16(n) && LinesBefore() == old(LinesBefore())
              case TooBig => !ok && tok == Error
    {
      hide LineAt;
      var acc := 0;
      while IsDigit(Peek(0))
        invariant Valid() && 0 <= acc <= 65535 && LinesBefore() == old(LinesBefore())
        invariant Digits(Text(), pos, acc) == Digits(Text(), old(pos), 0)
        decreases len - pos
      {
        acc := acc * 10 + (Peek(0) - 0x30);
        if acc > 65535 {
          tok := Error;
          return false;
        }
        Advance();
      }
      tok, intVal := IntLit, Wrap16(acc);
      return true;
    }

    lemma {:induction false} SameSlice(i: nat, j: nat)
      requires Valid() && i <= j <= len
      ensures src[i..j] == Text()[i..j]
    {
    }

    method SkipName()
      requires Valid()
      modifies this`pos
      ensures Valid() && pos == IdentEnd(Text(), old(pos)) && LinesBefore() == old(LinesBefore())
    {
      hide LineAt, IdentEnd;
      while pos < len && IsIdentCont(src[pos])
        invariant Valid() && IdentEnd(Text(), pos) == IdentEnd(Text(), old(pos)) && LinesBefore() == old(LinesBefore())
      {
        SameLine(Text(), pos);
        NameGoesOn(Text(), pos);
        pos := pos + 1;
      }
      NameGoesOn(Text(), pos);
    }

    /** lex_ident_or_kw. */
    method LexName()
      requires Valid() && pos < len && IsIdentStart(src[pos])
      modifies this`pos, this`tok, this`tokPos, this`tokLen
      ensures Valid() && Shows(LexemeAt(Text(), old(pos))) && LinesBefore() == old(LinesBefore())
    {
      hide KeywordOf, LexemeAt, LineAt, IdentEnd;
      NameAt(Text(), pos);
      var start := pos;
      SkipName();
      tokLen := pos - start;
      SameSlice(start, pos);
      tok := KeywordOf(src[start..pos]);
      tokPos := start;
    }

    /** The interpolation that starts behind `\(`, up to and with its closing parenthesis. */
    method SkipInterpolation() returns (ok: bool)
      requires Valid()
      modifies this`pos, this`line
      ensures Valid()
      ensures match InterpolationEnd(Text(), old(pos), 1)
              case Some(q) => ok && pos == q && LinesBefore() == old(LinesBefore())
              case None => !ok
    {
      hide LineAt;
      var depth := 1;
      while depth > 0
        invariant Valid() && depth >= 0 && LinesBefore() == old(LinesBefore())
        invariant InterpolationEnd(Text(), pos, depth) == InterpolationEnd(Text(), old(pos), 1)
        decreases len - pos
      {
        if pos >= len || src[pos] == QUOTE || IsBreak(src[pos]) {
          return false;
        }
        if src[pos] == LPAREN {
          depth := depth + 1;
        } else if src[pos] == RPAREN {
          depth := depth - 1;
        }
        Advance();
      }
      return true;
    }

    /** One character of a string, or one escape sequence; false when the string is malformed there. */
    method StringStep(ghost start: nat) returns (ok: bool)
      requires Valid() && pos < len && !IsBreak(src[pos]) && src[pos] != QUOTE
      modifies this`pos, this`line
      ensures Valid() && (ok ==> old(pos) < pos && LinesBefore() == old(LinesBefore()))
      ensures if ok then StringEnd(Text(), pos) == StringEnd(Text(), old(pos)) else StringEnd(Text(), old(pos)).None?
    {
      hide LineAt, InterpolationEnd;
      var c := src[pos];
      Advance();
      if c != BACKSLASH {
        return true;
      }
      if pos >= len {
        return false;
      }
      var e := src[pos];
      Advance();
      if e == LPAREN {
        ok := SkipInterpolation();
      } else {
        ok := IsEscape(e);
      }
    }

    /** lex_string. */
    method LexString()
      requires Valid() && pos < len && src[pos] == QUOTE
      modifies this`pos, this`line, this`tok, this`tokPos, this`tokLen
      ensures Valid() && Shows(LexemeAt(Text(), old(pos)))
      ensures tok != Error ==> LinesBefore() == old(LinesBefore())
    {
      hide LineAt, InterpolationEnd, LexemeAt;
      StringAt(Text(), pos);
      Advance();
      var start := pos;
      while true
        invariant Valid() && start <= pos && LinesBefore() == old(LinesBefore())
        invariant StringEnd(Text(), pos) == StringEnd(Text(), start)
        decreases len - pos
      {
        if pos >= len || IsBreak(src[pos]) {
          tok := Error;
          return;
        }
        if src[pos] == QUOTE {
          tok, tokPos, tokLen := StrLit, start, pos - start;
          Advance();
          return;
        }
        var ok := StringStep(start);
        if !ok {
          tok := Error;
          return;
        }
      }
    }

    /** The rest of lexer_next: operators and punctuation. */
    method LexOperator()
      requires Valid() && pos < len && !IsBreak(src[pos]) && !IsDigit(src[pos]) && !IsIdentStart(src[pos]) && src[pos] != QUOTE
      modifies this`pos, this`line, this`tok, this`tokPos, this`tokLen
      ensures Valid()
      ensures Shows(LexemeAt(Text(), old(pos))) && (tok != Error ==> LinesBefore() == old(LinesBefore()))
    {
      hide LineAt, Operator, LexemeAt;
      OperatorAt(Text(), pos);
      var (kind, n) := Operator(src[pos], Peek(1), Peek(2));
      tok := kind;
      if kind == Error {
        return;
      }
      tokPos, tokLen := pos, n;
      var left := n;
      while left > 0
        invariant Valid() && 0 <= left <= n && pos == old(pos) + n - left && old(pos) + n <= len
        invariant LinesBefore() == old(LinesBefore()) && tok == kind && tokPos == old(pos) && tokLen == n
      {
        Advance();
        left := left - 1;
      }
    }

    /** A line break; CR and LF together make one token. */
    method LexBreak()
      requires Valid() && pos < len && IsBreak(src[pos])
      modifies this`pos, this`line, this`tok, this`tokPos, this`tokLen
      ensures Valid() && Shows(LexemeAt(Text(), old(pos))) && LinesBefore() == old(LinesBefore())
    {
      hide LineAt, Digits, IdentEnd, StringEnd, Operator, KeywordOf;
      var c, start := src[pos], pos;
      Advance();
      if c == CR && Peek(0) == LF {
        Advance();
      }
      tok, tokPos, tokLen := Newline, start, pos - start;
    }

    method LexNumber()
      requires Valid() && pos < len && IsDigit(src[pos])
      modifies this`pos, this`line, this`tok, this`tokPos, this`tokLen, this`intVal
      ensures Valid() && Shows(LexemeAt(Text(), old(pos))) && (tok != Error ==> LinesBefore() == old(LinesBefore()))
    {
      hide LineAt, Digits, IdentEnd, StringEnd, Operator, KeywordOf;
      tokPos := pos;
      var ok := LexInt();
      if ok {
        tokLen := pos - tokPos;
      }
    }

    /** lexer_next. Errors are sticky. */
    method Next()
      requires Valid()
      modifies this
      ensures Valid() && len == old(len)
      ensures old(tok) == Error ==> unchanged(this)
      ensures old(tok) != Error ==> Shows(NextLexeme(Text(), old(pos)))
      ensures old(tok) != Error ==> tokLine == old(LinesBefore()) + LineAt(Text(), Trivia(Text(), old(pos)))
      ensures tok != Error ==> LinesBefore() == old(LinesBefore())
    {
      hide LineAt, Trivia, LexemeAt;
      if tok == Error {
        return;
      }
      SkipTrivia();
      tokLine := line;
      if pos >= len {
        LexEnd();
      } else if IsBreak(src[pos]) {
        LexBreak();
      } else if IsDigit(src[pos]) {
        LexNumber();
      } else if IsIdentStart(src[pos]) {
        LexName();
      } else if src[pos] == QUOTE {
        LexString();
      } else {
        LexOperator();
      }
    }

    method LexEnd()
      requires Valid() && pos >= len
      modifies this`tok, this`tokPos, this`tokLen
      ensures Valid() && Shows(LexemeAt(Text(), pos)) && LinesBefore() == old(LinesBefore()) && tok == Eof
    {
      tok, tokPos, tokLen := Eof, pos, 0;
    }
  }
}
