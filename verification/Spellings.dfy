/** What the tokens of the language look like, stated on the text itself, and that the scanner finds exactly these:
  * each fixed token by its spelling, the longest that fits; names, numbers and strings by their characters. */
module Spellings {
  import opened Bytes
  import opened Values
  import opened Lexer
  import Numerals

  // ----- how the tokens are spelled -----

  predicate Keyword(k: Kind) {
    k.KwLet? || k.KwVar? || k.KwFunc? || k.KwReturn? || k.KwIf? || k.KwElse? || k.KwWhile? || k.KwFor? || k.KwIn?
    || k.KwTrue? || k.KwFalse? || k.KwNil? || k.KwBreak?
  }

  /** The tokens of operators and punctuation. */
  predicate Symbol(k: Kind) {
    !Keyword(k) && !k.Eof? && !k.Error? && !k.Newline? && !k.IntLit? && !k.StrLit? && !k.Ident?
  }

  function Spelling(k: Kind): string {
    match k
    case KwLet => "let"
    case KwVar => "var"
    case KwFunc => "func"
    case KwReturn => "return"
    case KwIf => "if"
    case KwElse => "else"
    case KwWhile => "while"
    case KwFor => "for"
    case KwIn => "in"
    case KwTrue => "true"
    case KwFalse => "false"
    case KwNil => "nil"
    case KwBreak => "break"
    case Plus => "+"
    case Minus => "-"
    case Star => "*"
    case Slash => "/"
    case Percent => "%"
    case Bang => "!"
    case Assign => "="
    case Lt => "<"
    case Gt => ">"
    case LParen => "("
    case RParen => ")"
    case LBrace => "{"
    case RBrace => "}"
    case LBracket => "["
    case RBracket => "]"
    case Comma => ","
    case Dot => "."
    case Colon => ":"
    case Semi => ";"
    case Question => "?"
    case EqEq => "=="
    case NotEq => "!="
    case LtEq => "<="
    case GtEq => ">="
    case AndAnd => "&&"
    case OrOr => "||"
    case QuestionQuestion => "??"
    case Arrow => "->"
    case PlusEq => "+="
    case MinusEq => "-="
    case StarEq => "*="
    case SlashEq => "/="
    case DotDotLess => "..<"
    case DotDotDot => "..."
    case _ => ""
  }

  /** The word `w` stands in `s` at `p`. */
  predicate Fits(s: seq<Byte>, p: nat, w: string) {
    p + |w| <= |s| && forall i :: 0 <= i < |w| ==> s[p + i] == w[i] as int
  }

  predicate Is(c: Byte, x: char) {
    c == x as int
  }

  predicate Digit(c: Byte) {
    '0' as int <= c <= '9' as int
  }

  predicate NameStart(c: Byte) {
    'a' as int <= c <= 'z' as int || 'A' as int <= c <= 'Z' as int || Is(c, '_')
  }

  predicate NameByte(c: Byte) {
    NameStart(c) || Digit(c)
  }

  predicate Break(c: Byte) {
    Is(c, '\n') || Is(c, '\r')
  }

  // ----- blanks and comments -----

  predicate Ends(s: seq<Byte>, p: nat, q: nat, w: string) {
    |w| <= q && p <= q - |w| && Fits(s, q - |w|, w) && forall i :: p <= i < q - |w| ==> !Fits(s, i, w)
  }

  /** `s[p..q]` is one comment: up to its line break, or up to the first end mark, or up to the end of the text. */
  predicate Comment(s: seq<Byte>, p: nat, q: nat) {
    p + 2 <= q <= |s|
    && ((Fits(s, p, "//") && (forall i :: p + 2 <= i < q ==> !Break(s[i])) && (q < |s| ==> Break(s[q])))
        || (Fits(s, p, "/*") && (Ends(s, p + 2, q, "*/") || (q == |s| && forall i :: p + 2 <= i < q ==> !Fits(s, i, "*/")))))
  }

  /** `s[p..q]` is nothing but blanks, tabs and comments. */
  ghost predicate Gap(s: seq<Byte>, p: nat, q: nat)
    decreases q - p
  {
    p == q <= |s|
    || (p < q <= |s| && (Is(s[p], ' ') || Is(s[p], '\t')) && Gap(s, p + 1, q))
    || exists m: nat :: p < m <= q && Comment(s, p, m) && Gap(s, m, q)
  }

  /** No blank and no comment starts at `q`. */
  predicate GapOver(s: seq<Byte>, q: nat) {
    q <= |s| && !Fits(s, q, "//") && !Fits(s, q, "/*") && (q < |s| ==> !Is(s[q], ' ') && !Is(s[q], '\t'))
  }

  // ----- strings -----

  /** `s[p..q]` closes `depth` open parentheses, the last one at its end. */
  predicate Closes(s: seq<Byte>, p: nat, q: nat, depth: nat)
    decreases q - p
  {
    if depth == 0 then p == q <= |s|
    else
      p < q <= |s| && !Is(s[p], '\"') && !Break(s[p])
      && Closes(s, p + 1, q, if Is(s[p], '(') then depth + 1 else if Is(s[p], ')') then depth - 1 else depth)
  }

  predicate EscapeChar(c: Byte) {
    exists i :: 0 <= i < 6 && Is(c, "\\\"ntr0"[i])
  }

  /** `s[p..q]` is the inside of a string: characters, escapes, and interpolations in parentheses. */
  ghost predicate Inside(s: seq<Byte>, p: nat, q: nat)
    decreases q - p, 1
  {
    p == q <= |s|
    || (p < q <= |s| && !Is(s[p], '\\') && !Is(s[p], '\"') && !Break(s[p]) && Inside(s, p + 1, q))
    || (p + 2 <= q <= |s| && Is(s[p], '\\') && EscapeChar(s[p + 1]) && Inside(s, p + 2, q))
    || (p + 2 <= q <= |s| && Is(s[p], '\\') && Is(s[p + 1], '(') && exists m: nat :: Interpolated(s, p, m, q))
  }

  /** The interpolation at `p` goes up to `m`, and the string on from there. */
  ghost predicate Interpolated(s: seq<Byte>, p: nat, m: nat, q: nat)
    decreases q - p, 0
  {
    p + 2 <= m <= q && Closes(s, p + 2, m, 1) && Inside(s, m, q)
  }

  // ----- tokens -----

  /** `s[p..q]` is a name, and goes on as far as it can. */
  predicate NameIn(s: seq<Byte>, p: nat, q: nat) {
    p < q <= |s| && NameStart(s[p]) && (forall i :: p <= i < q ==> NameByte(s[i])) && (q < |s| ==> !NameByte(s[q]))
  }

  predicate NumberIn(s: seq<Byte>, p: nat, q: nat) {
    p < q <= |s| && (forall i :: p <= i < q ==> Digit(s[i])) && (q < |s| ==> !Digit(s[q]))
  }

  /** The string that opens at `p` closes at `q`. */
  ghost predicate StringIn(s: seq<Byte>, p: nat, q: nat) {
    p < q < |s| && Is(s[p], '\"') && Is(s[q], '\"') && Inside(s, p + 1, q)
  }

  predicate SymbolFits(s: seq<Byte>, p: nat, k: Kind) {
    Symbol(k) && Fits(s, p, Spelling(k))
  }

  /** `k` is the operator or punctuation mark at `p`: none that fits there is longer. */
  ghost predicate SymbolIn(s: seq<Byte>, p: nat, k: Kind) {
    SymbolFits(s, p, k) && forall j :: SymbolFits(s, p, j) ==> |Spelling(j)| <= |Spelling(k)|
  }

  /** A number over 65535, a string that does not close, or a character that starts nothing. */
  ghost predicate Malformed(s: seq<Byte>, p: nat) {
    p < |s|
    && if Digit(s[p]) then exists q: nat :: NumberIn(s, p, q) && Numerals.ValueOf(s[p..q]) > 65535
       else if Is(s[p], '\"') then forall q: nat :: !StringIn(s, p, q)
       else !NameStart(s[p]) && !Break(s[p]) && forall k :: !SymbolFits(s, p, k)
  }

  /** `l` is the token at `p`, where there is neither a blank nor a comment. */
  ghost predicate TokenAt(s: seq<Byte>, p: nat, l: Lexeme) {
    match l.kind
    case Eof => p == |s| && l == Lexeme(Eof, p, p, p, 0)
    case Error => Malformed(s, p) && l == Lexeme(Error, p, p, p, 0)
    case Newline =>
      p < |s| && Break(s[p]) && l == Lexeme(Newline, p, l.to, l.to, 0) && l.to == p + if Fits(s, p, "\r\n") then 2 else 1
    case IntLit =>
      NumberIn(s, p, l.to) && l == Lexeme(IntLit, p, l.to, l.to, l.n)
      && Numerals.ValueOf(s[p..l.to]) <= 65535 && (l.n - Numerals.ValueOf(s[p..l.to])) % 0x1_0000 == 0
    case StrLit => StringIn(s, p, l.to) && l == Lexeme(StrLit, p + 1, l.to, l.to + 1, 0)
    case Ident =>
      NameIn(s, p, l.to) && l == Lexeme(Ident, p, l.to, l.to, 0)
      && forall k :: Keyword(k) && Fits(s, p, Spelling(k)) ==> p + |Spelling(k)| != l.to
    case k =>
      l == Lexeme(k, p, p + |Spelling(k)|, p + |Spelling(k)|, 0)
      && if Keyword(k) then Fits(s, p, Spelling(k)) && NameIn(s, p, l.to) else SymbolIn(s, p, k)
  }

  // ----- characters -----

  lemma {:induction false} SameClasses(c: Byte)
    ensures IsBreak(c) == Break(c) && IsDigit(c) == Digit(c) && IsIdentStart(c) == NameStart(c) && IsIdentCont(c) == NameByte(c)
    ensures (c == QUOTE) == Is(c, '\"') && (c == BACKSLASH) == Is(c, '\\') && (c == LPAREN) == Is(c, '(') && (c == RPAREN) == Is(c, ')')
  {
  }

  lemma {:induction false} SameEscapes(c: Byte)
    ensures EscapeChar(c) == IsEscape(c)
  {
    var w := "\\\"ntr0";
    assert Is(c, w[0]) == (c == 0x5C) && Is(c, w[1]) == (c == 0x22) && Is(c, w[2]) == (c == 0x6E);
    assert Is(c, w[3]) == (c == 0x74) && Is(c, w[4]) == (c == 0x72) && Is(c, w[5]) == (c == 0x30);
  }

  lemma {:induction false} TwoFit(s: seq<Byte>, p: nat, w: string)
    requires |w| == 2 && p <= |s|
    ensures Fits(s, p, w) <==> p + 2 <= |s| && Is(s[p], w[0]) && Is(s[p + 1], w[1])
  {
  }

  // ----- gaps -----

  lemma {:induction false} LineEndIs(s: seq<Byte>, p: nat, i: nat)
    requires p <= i <= |s| && forall j :: p <= j < i ==> !Break(s[j])
    ensures var q := LineEnd(s, i); (forall j :: p <= j < q ==> !Break(s[j])) && (q < |s| ==> Break(s[q]))
    decreases |s| - i
  {
    if i < |s| && !IsBreak(s[i]) {
      LineEndIs(s, p, i + 1);
    }
  }

  lemma {:induction false} CommentEndIs(s: seq<Byte>, p: nat, i: nat)
    requires p <= i <= |s| && forall j :: p <= j < i ==> !Fits(s, j, "*/")
    ensures var q := CommentEnd(s, i); Ends(s, p, q, "*/") || (q == |s| && forall j :: p <= j < q ==> !Fits(s, j, "*/"))
    decreases |s| - i
  {
    if i < |s| {
      TwoFit(s, i, "*/");
      if !Fits(s, i, "*/") {
        CommentEndIs(s, p, i + 1);
      }
    }
  }

  /** What skip_trivia skips is blanks and comments, and all there are. */
  lemma {:induction false} GapIs(s: seq<Byte>, p: nat)
    requires p <= |s|
    ensures Gap(s, p, Trivia(s, p)) && GapOver(s, Trivia(s, p))
    decreases |s| - p
  {
    hide LineEnd, CommentEnd, Fits;
    TwoFit(s, p, "//");
    TwoFit(s, p, "/*");
    if p < |s| {
      if Fits(s, p, "//") {
        LineEndIs(s, p + 2, p + 2);
        assert Comment(s, p, LineEnd(s, p + 2));
        GapIs(s, LineEnd(s, p + 2));
      } else if Fits(s, p, "/*") {
        CommentEndIs(s, p + 2, p + 2);
        assert Comment(s, p, CommentEnd(s, p + 2));
        GapIs(s, CommentEnd(s, p + 2));
      } else if s[p] == 0x20 || s[p] == 0x09 {
        GapIs(s, p + 1);
      }
    }
  }

  // ----- strings -----

  lemma {:induction false} ClosesIs(s: seq<Byte>, p: nat, q: nat, depth: nat)
    requires p <= |s|
    ensures InterpolationEnd(s, p, depth) == Some(q) <==> Closes(s, p, q, depth)
    decreases |s| - p
  {
    if depth > 0 && p < |s| {
      SameClasses(s[p]);
      ClosesIs(s, p + 1, q, if Is(s[p], '(') then depth + 1 else if Is(s[p], ')') then depth - 1 else depth);
    }
  }

  lemma {:induction false} NotBoth(c: Byte)
    ensures !(Is(c, '\\') && (Is(c, '\"') || Break(c))) && !(Is(c, '\"') && Break(c)) && !(Is(c, '(') && EscapeChar(c))
  {
    SameEscapes(c);
  }

  lemma {:induction false} InsideIs(s: seq<Byte>, p: nat, q: nat)
    requires p <= |s|
    ensures StringEnd(s, p) == Some(q) <==> q < |s| && s[q] == QUOTE && Inside(s, p, q)
    decreases |s| - p
  {
    hide IsEscape, EscapeChar, Closes, InterpolationEnd, IsBreak, Break, Is;
    if p < |s| {
      SameClasses(s[p]);
      NotBoth(s[p]);
      if Is(s[p], '\"') || Break(s[p]) {
      } else if !Is(s[p], '\\') {
        InsideIs(s, p + 1, q);
      } else if p + 1 < |s| {
        SameClasses(s[p + 1]);
        SameEscapes(s[p + 1]);
        NotBoth(s[p + 1]);
        InsideIs(s, p + 2, q);
        if Is(s[p + 1], '(') {
          HoleIs(s, p, q);
        }
      }
    }
  }

  lemma {:induction false} HoleOpen(s: seq<Byte>, p: nat, q: nat) returns (m: nat)
    requires Inside(s, p, q) && q < |s| && s[q] == QUOTE && p + 2 <= |s| && Is(s[p], '\\') && Is(s[p + 1], '(')
    ensures Interpolated(s, p, m, q)
  {
    hide EscapeChar, Closes;
    NotBoth(s[p]);
    NotBoth(s[p + 1]);
    m :| Interpolated(s, p, m, q);
  }

  /** An interpolation, and the rest of the string behind it. */
  lemma {:induction false} HoleIs(s: seq<Byte>, p: nat, q: nat)
    requires p + 2 <= |s| && Is(s[p], '\\') && Is(s[p + 1], '(')
    ensures StringEnd(s, p) == Some(q) <==> q < |s| && s[q] == QUOTE && Inside(s, p, q)
    decreases |s| - p, 0
  {
    hide Closes, InterpolationEnd;
    if q < |s| && s[q] == QUOTE && Inside(s, p, q) {
      var m := HoleOpen(s, p, q);
      ClosesIs(s, p + 2, m, 1);
      InsideIs(s, m, q);
    }
    if StringEnd(s, p) == Some(q) {
      var m := InterpolationEnd(s, p + 2, 1).value;
      ClosesIs(s, p + 2, m, 1);
      InsideIs(s, m, q);
      assert Interpolated(s, p, m, q);
    }
  }

  // ----- numbers and names -----

  lemma {:induction false} DigitRun(s: seq<Byte>, p: nat, i: nat) returns (q: nat)
    requires p < i <= |s| && forall j :: p <= j < i ==> Digit(s[j])
    ensures i <= q && NumberIn(s, p, q)
    decreases |s| - i
  {
    if i < |s| && Digit(s[i]) {
      q := DigitRun(s, p, i + 1);
    } else {
      q := i;
    }
  }

  lemma {:induction false} OneRun(s: seq<Byte>, p: nat, q: nat, q': nat)
    requires (NumberIn(s, p, q) && NumberIn(s, p, q')) || (NameIn(s, p, q) && NameIn(s, p, q'))
    ensures q == q'
  {
  }

  lemma {:induction false} NumberRead(s: seq<Byte>, p: nat, i: nat) returns (q: nat)
    requires p < i <= |s| && (forall j :: p <= j < i ==> Digit(s[j])) && 0 <= Numerals.ValueOf(s[p..i]) <= 65535
    ensures NumberIn(s, p, q)
    ensures match Digits(s, i, Numerals.ValueOf(s[p..i]))
            case Number(n, end) => end == q && n == Numerals.ValueOf(s[p..q]) <= 65535
            case TooBig => Numerals.ValueOf(s[p..q]) > 65535
    decreases |s| - i
  {
    hide Numerals.ValueOf;
    q := i;
    if i < |s| && Digit(s[i]) {
      var w := s[p..i + 1];
      assert w[..i - p] == s[p..i] && w[..i - p + 1] == w;
      Numerals.NextDigit(w, i - p);
      if Numerals.ValueOf(w) <= 65535 {
        q := NumberRead(s, p, i + 1);
      } else {
        q := DigitRun(s, p, i + 1);
        assert s[p..q][..i + 1 - p] == w;
        Numerals.ValueGrows(s[p..q], i + 1 - p);
      }
    }
  }

  lemma {:induction false} FirstDigit(s: seq<Byte>, p: nat)
    requires p < |s| && Digit(s[p])
    ensures Numerals.ValueOf(s[p..p + 1]) == s[p] - 0x30 && Digits(s, p, 0) == Digits(s, p + 1, s[p] - 0x30)
  {
    assert s[p..p + 1][..0] == [];
    assert Numerals.ValueOf([]) == 0;
  }

  lemma {:induction false} NumberScanned(s: seq<Byte>, p: nat)
    requires p < |s| && Digit(s[p])
    ensures TokenAt(s, p, LexemeAt(s, p))
  {
    hide Numerals.ValueOf, Digits, NumberIn;
    FirstDigit(s, p);
    var q := NumberRead(s, p, p + 1);
  }

  lemma {:induction false} NameRead(s: seq<Byte>, p: nat, i: nat)
    requires p < i <= |s| && NameStart(s[p]) && forall j :: p <= j < i ==> NameByte(s[j])
    ensures NameIn(s, p, IdentEnd(s, i))
    decreases |s| - i
  {
    if i < |s| && IsIdentCont(s[i]) {
      NameRead(s, p, i + 1);
    }
  }

  // ----- keywords -----

  /** `text` is the word `w`. */
  predicate Spells(text: seq<Byte>, w: string) {
    |text| == |w| && forall i :: 0 <= i < |w| ==> text[i] == w[i] as int
  }

  lemma {:induction false} SpellsExactly(text: seq<Byte>, w: string)
    requires forall i :: 0 <= i < |w| ==> w[i] < 128 as char
    ensures Spells(text, w) <==> text == Ascii(w)
  {
    var a := Ascii(w);
    assert forall i :: 0 <= i < |w| ==> a[i] == w[i] as int;
  }

  lemma {:induction false} KeywordKind(text: seq<Byte>)
    ensures KeywordOf(text) != Ident ==> Keyword(KeywordOf(text))
  {
    hide Ascii;
  }

  /** What the table calls a keyword is spelled like it. */
  lemma {:induction false} KeywordFound(text: seq<Byte>)
    requires KeywordOf(text) != Ident
    ensures text == Ascii(Spelling(KeywordOf(text)))
  {
    hide Ascii;
    match KeywordOf(text) {
      case KwIf => assert text == Ascii("if");
      case KwIn => assert text == Ascii("in");
      case KwLet => assert text == Ascii("let");
      case KwVar => assert text == Ascii("var");
      case KwFor => assert text == Ascii("for");
      case KwNil => assert text == Ascii("nil");
      case _ =>
    }
  }

  /** What is spelled like a keyword is none of the other names. */
  lemma {:induction false} KeywordMissed(text: seq<Byte>, j: Kind)
    requires KeywordOf(text) == Ident && Keyword(j)
    ensures text != Ascii(Spelling(j))
  {
    hide Ascii;
  }

  lemma {:induction false} KeywordChars(k: Kind)
    requires Keyword(k)
    ensures forall i :: 0 <= i < |Spelling(k)| ==> Spelling(k)[i] < 128 as char
  {
  }

  lemma {:induction false} FitsSlice(s: seq<Byte>, p: nat, q: nat, w: string)
    requires p <= q <= |s|
    ensures Fits(s, p, w) && p + |w| == q <==> Spells(s[p..q], w)
  {
  }

  lemma {:induction false} NameScanned(s: seq<Byte>, p: nat)
    requires p < |s| && NameStart(s[p])
    ensures TokenAt(s, p, LexemeAt(s, p))
  {
    hide KeywordOf, LexemeAt, IdentEnd, Fits, Spelling, NameIn, Spells, Keyword, TokenAt;
    var q := IdentEnd(s, p + 1);
    NameRead(s, p, p + 1);
    NameAt(s, p);
    NameGoesOn(s, p);
    var text := s[p..q];
    KeywordKind(text);
    var k := KeywordOf(text);
    if k == Ident {
      forall j | Keyword(j) && Fits(s, p, Spelling(j))
        ensures p + |Spelling(j)| != q
      {
        KeywordMissed(text, j);
        SpelledAt(s, p, q, j);
      }
      IdentToken(s, p, Lexeme(Ident, p, q, q, 0));
    } else {
      KeywordFound(text);
      SpelledAt(s, p, q, k);
      KeywordToken(s, p, Lexeme(k, p, q, q, 0));
    }
  }

  lemma {:induction false} SpelledAt(s: seq<Byte>, p: nat, q: nat, k: Kind)
    requires p <= q <= |s| && Keyword(k)
    ensures Fits(s, p, Spelling(k)) && p + |Spelling(k)| == q <==> s[p..q] == Ascii(Spelling(k))
  {
    hide Spelling, Ascii, Fits, Spells, Keyword;
    KeywordChars(k);
    SpellsExactly(s[p..q], Spelling(k));
    FitsSlice(s, p, q, Spelling(k));
  }

  lemma {:induction false} IdentToken(s: seq<Byte>, p: nat, l: Lexeme)
    requires l.kind == Ident
    ensures TokenAt(s, p, l) <==> NameIn(s, p, l.to) && l == Lexeme(Ident, p, l.to, l.to, 0)
                                  && forall k :: Keyword(k) && Fits(s, p, Spelling(k)) ==> p + |Spelling(k)| != l.to
  {
    hide Spelling, Fits, NameIn, Keyword;
  }

  lemma {:induction false} KeywordToken(s: seq<Byte>, p: nat, l: Lexeme)
    requires Keyword(l.kind)
    ensures TokenAt(s, p, l) <==> l == Lexeme(l.kind, p, l.to, l.to, 0) && l.to == p + |Spelling(l.kind)|
                                  && Fits(s, p, Spelling(l.kind)) && NameIn(s, p, l.to)
  {
    hide Spelling, Fits, NameIn;
  }

  lemma {:induction false} SymbolToken(s: seq<Byte>, p: nat, l: Lexeme)
    requires Symbol(l.kind)
    ensures TokenAt(s, p, l) <==> l == Lexeme(l.kind, p, l.to, l.to, 0) && l.to == p + |Spelling(l.kind)| && SymbolIn(s, p, l.kind)
  {
    hide Spelling, Fits, SymbolIn;
  }

  // ----- operators and punctuation -----

  /** The bytes of a spelling that fits. */
  predicate Matches(w: string, c: Byte, c2: Byte, c3: Byte) {
    1 <= |w| <= 3 && Is(c, w[0]) && (|w| >= 2 ==> Is(c2, w[1])) && (|w| == 3 ==> Is(c3, w[2]))
  }

  lemma {:induction false} MatchesFit(s: seq<Byte>, p: nat, w: string)
    requires p < |s| && forall i :: 0 <= i < |w| ==> w[i] != 0 as char
    ensures Matches(w, s[p], PeekAt(s, p + 1), PeekAt(s, p + 2)) <==> 1 <= |w| <= 3 && Fits(s, p, w)
  {
  }

  lemma {:induction false} SymbolChars(k: Kind)
    requires Symbol(k)
    ensures 1 <= |Spelling(k)| <= 3 && forall i :: 0 <= i < |Spelling(k)| ==> Spelling(k)[i] != 0 as char
  {
  }

  /** What the scanner takes for an operator is spelled like it. */
  predicate OperatorOk(c: Byte, c2: Byte, c3: Byte) {
    var (k, n) := Operator(c, c2, c3);
    k != Error ==> Symbol(k) && |Spelling(k)| == n && Matches(Spelling(k), c, c2, c3)
  }

  lemma {:induction false} OperatorFits(c: Byte, c2: Byte, c3: Byte)
    ensures OperatorOk(c, c2, c3)
  {
    hide OperatorOk;
    if c in {0x21, 0x25, 0x2A} {
      BangFits(c, c2, c3);
    } else if c in {0x2B, 0x2D, 0x2F} {
      ArithmeticFits(c, c2, c3);
    } else if c in {0x3C, 0x3D, 0x3E, 0x26, 0x7C} {
      ComparisonFits(c, c2, c3);
    } else if c in {0x2E, 0x3F} {
      DotsFit(c, c2, c3);
    } else {
      MarkFits(c);
      AsMark(c, c2, c3);
    }
  }

  lemma {:induction false} BangFits(c: Byte, c2: Byte, c3: Byte)
    requires c in {0x21, 0x25, 0x2A}
    ensures OperatorOk(c, c2, c3)
  {
  }

  lemma {:induction false} ArithmeticFits(c: Byte, c2: Byte, c3: Byte)
    requires c in {0x2B, 0x2D, 0x2F}
    ensures OperatorOk(c, c2, c3)
  {
  }

  lemma {:induction false} ComparisonFits(c: Byte, c2: Byte, c3: Byte)
    requires c in {0x3C, 0x3D, 0x3E, 0x26, 0x7C}
    ensures OperatorOk(c, c2, c3)
  {
  }

  lemma {:induction false} DotsFit(c: Byte, c2: Byte, c3: Byte)
    requires c in {0x2E, 0x3F}
    ensures OperatorOk(c, c2, c3)
  {
  }

  lemma {:induction false} AsMark(c: Byte, c2: Byte, c3: Byte)
    requires !(c in {0x21, 0x25, 0x26, 0x2A, 0x2B, 0x2D, 0x2E, 0x2F, 0x3C, 0x3D, 0x3E, 0x3F, 0x7C})
    requires var (k, n) := Punctuation(c); k != Error ==> Symbol(k) && |Spelling(k)| == 1 && Is(c, Spelling(k)[0])
    ensures OperatorOk(c, c2, c3)
  {
    hide Punctuation, Spelling;
  }

  lemma {:induction false} MarkFits(c: Byte)
    ensures var (k, n) := Punctuation(c);
            k != Error ==> Symbol(k) && |Spelling(k)| == 1 && Is(c, Spelling(k)[0])
  {
    hide Punctuation, Spelling, Symbol;
    MarkSpelled(c);
    MarkIsSymbol(c);
  }

  lemma {:induction false} MarkSpelled(c: Byte)
    ensures var (k, n) := Punctuation(c);
            k != Error ==> |Spelling(k)| == 1 && Is(c, Spelling(k)[0])
  {
    hide Symbol, Spelling;
    Pairs();
    Separators();
    assert Punctuation(c).0 in {LParen, RParen, LBrace, RBrace, LBracket, RBracket, Comma, Colon, Semi, Error};
  }

  lemma {:induction false} Pairs()
    ensures Spelling(LParen) == "(" && Spelling(RParen) == ")" && Spelling(LBrace) == "{" && Spelling(RBrace) == "}"
  {
  }

  lemma {:induction false} Separators()
    ensures Spelling(LBracket) == "[" && Spelling(RBracket) == "]" && Spelling(Comma) == "," && Spelling(Colon) == ":" && Spelling(Semi) == ";"
  {
  }

  lemma {:induction false} MarkIsSymbol(c: Byte)
    ensures var (k, n) := Punctuation(c);
            k != Error ==> Symbol(k)
  {
    hide Spelling;
  }

  /** No spelling that fits is longer. */
  lemma {:induction false} OperatorLongest(j: Kind, c: Byte, c2: Byte, c3: Byte)
    requires Symbol(j) && Matches(Spelling(j), c, c2, c3)
    ensures var (k, n) := Operator(c, c2, c3);
            k != Error && n >= |Spelling(j)|
  {
    hide Operator, Symbol, Spelling;
    if |Spelling(j)| == 1 {
      SingleLongest(j, c, c2, c3);
    } else {
      PairLongest(j, c, c2, c3);
    }
  }

  lemma {:induction false} SingleLongest(j: Kind, c: Byte, c2: Byte, c3: Byte)
    requires Symbol(j) && |Spelling(j)| == 1 && Is(c, Spelling(j)[0])
    ensures Operator(c, c2, c3).0 != Error
  {
  }

  lemma {:induction false} PairLongest(j: Kind, c: Byte, c2: Byte, c3: Byte)
    requires Symbol(j) && |Spelling(j)| > 1 && Matches(Spelling(j), c, c2, c3)
    ensures Operator(c, c2, c3).0 != Error && Operator(c, c2, c3).1 >= |Spelling(j)|
  {
    assert |Spelling(j)| == 3 ==> Operator(c, c2, c3).1 >= 3;
  }

  lemma {:induction false} OperatorScanned(s: seq<Byte>, p: nat)
    requires p < |s| && !NameStart(s[p]) && !Digit(s[p]) && !Break(s[p]) && !Is(s[p], '\"')
    ensures TokenAt(s, p, LexemeAt(s, p))
  {
    hide Operator, Spelling, Symbol, LexemeAt, Matches, Fits, TokenAt, NameStart, Digit, Break;
    SameClasses(s[p]);
    OperatorAt(s, p);
    var c, c2, c3 := s[p], PeekAt(s, p + 1), PeekAt(s, p + 2);
    var (k, n) := Operator(c, c2, c3);
    OperatorFits(c, c2, c3);
    forall j | SymbolFits(s, p, j)
      ensures k != Error && |Spelling(j)| <= n
    {
      SymbolChars(j);
      MatchesFit(s, p, Spelling(j));
      OperatorLongest(j, c, c2, c3);
    }
    if k == Error {
      ErrorToken(s, p);
    } else {
      SymbolChars(k);
      MatchesFit(s, p, Spelling(k));
      SymbolToken(s, p, Lexeme(k, p, p + n, p + n, 0));
    }
  }

  lemma {:induction false} ErrorToken(s: seq<Byte>, p: nat)
    ensures TokenAt(s, p, Lexeme(Error, p, p, p, 0)) <==> Malformed(s, p)
  {
    hide Malformed;
  }

  lemma {:induction false} StringScanned(s: seq<Byte>, p: nat)
    requires p < |s| && Is(s[p], '\"')
    ensures TokenAt(s, p, LexemeAt(s, p))
  {
    hide StringEnd, Inside, LexemeAt, Fits, Spelling;
    StringAt(s, p);
    ErrorToken(s, p);
    forall q: nat
      ensures StringIn(s, p, q) <==> StringEnd(s, p + 1) == Some(q)
    {
      InsideIs(s, p + 1, q);
    }
  }

  lemma {:induction false} BreakScanned(s: seq<Byte>, p: nat)
    requires p < |s| && Break(s[p])
    ensures TokenAt(s, p, LexemeAt(s, p))
  {
    hide Digits, IdentEnd, StringEnd, Operator, KeywordOf;
    TwoFit(s, p, "\r\n");
  }

  // ----- the scanner finds the tokens -----

  lemma {:induction false} Scanned(s: seq<Byte>, p: nat)
    requires p <= |s|
    ensures TokenAt(s, p, LexemeAt(s, p))
  {
    hide Digit, NameStart, Break, Is, NumberIn, NameIn, StringIn, SymbolIn, Malformed, Fits, Spelling;
    if p < |s| {
      if Break(s[p]) {
        BreakScanned(s, p);
      } else if Digit(s[p]) {
        NumberScanned(s, p);
      } else if NameStart(s[p]) {
        NameScanned(s, p);
      } else if Is(s[p], '\"') {
        StringScanned(s, p);
      } else {
        OperatorScanned(s, p);
      }
    }
  }

  // ----- there is one token to find -----

  lemma {:induction false} KeywordsDiffer(k: Kind, j: Kind)
    requires Keyword(k) && Keyword(j) && Spelling(k) == Spelling(j)
    ensures k == j
  {
    assert Spelling(k)[0] == Spelling(j)[0] && Spelling(k)[1] == Spelling(j)[1];
  }

  lemma {:induction false} SymbolsDiffer(k: Kind, j: Kind)
    requires Symbol(k) && Symbol(j) && Spelling(k) == Spelling(j)
    ensures k == j
  {
    hide Spelling, Symbol;
    SymbolChars(k);
    if |Spelling(k)| == 1 {
      SinglesDiffer(k, j);
    } else {
      PairsDiffer(k, j);
    }
  }

  lemma {:induction false} SinglesDiffer(k: Kind, j: Kind)
    requires Symbol(k) && Symbol(j) && |Spelling(k)| == |Spelling(j)| == 1 && Spelling(k)[0] == Spelling(j)[0]
    ensures k == j
  {
  }

  lemma {:induction false} PairsDiffer(k: Kind, j: Kind)
    requires Symbol(k) && Symbol(j) && |Spelling(k)| == |Spelling(j)| > 1
    requires Spelling(k)[0] == Spelling(j)[0] && Spelling(k)[1] == Spelling(j)[1] && (|Spelling(k)| > 2 ==> Spelling(k)[2] == Spelling(j)[2])
    ensures k == j
  {
  }

  lemma {:induction false} SameWord(s: seq<Byte>, p: nat, w: string, v: string)
    requires Fits(s, p, w) && Fits(s, p, v) && |w| == |v|
    ensures w == v
  {
    forall i | 0 <= i < |w|
      ensures w[i] == v[i]
    {
      assert w[i] as int == v[i] as int;
    }
  }

  /** No operator starts like a name, a number, a string or a line break. */
  lemma {:induction false} SymbolFirst(s: seq<Byte>, p: nat, k: Kind)
    requires SymbolFits(s, p, k)
    ensures p < |s| && !NameStart(s[p]) && !Digit(s[p]) && !Break(s[p]) && !Is(s[p], '\"')
  {
    assert s[p] == Spelling(k)[0] as int;
  }

  lemma {:induction false} OneClass(c: Byte)
    ensures Digit(c) ==> !NameStart(c) && !Break(c) && !Is(c, '\"')
    ensures NameStart(c) ==> !Break(c) && !Is(c, '\"')
    ensures Break(c) ==> !Is(c, '\"')
  {
  }

  lemma {:induction false} SameNumber(s: seq<Byte>, p: nat, l: Lexeme, m: Lexeme)
    requires p < |s| && Digit(s[p]) && TokenAt(s, p, l) && TokenAt(s, p, m)
    requires (l.kind == IntLit || l.kind == Error) && (m.kind == IntLit || m.kind == Error)
    ensures l == m
  {
    hide Numerals.ValueOf, Digit;
    if l.kind == IntLit && m.kind == IntLit {
      OneRun(s, p, l.to, m.to);
    } else if l.kind == IntLit || m.kind == IntLit {
      var q: nat :| NumberIn(s, p, q) && Numerals.ValueOf(s[p..q]) > 65535;
      OneRun(s, p, q, if l.kind == IntLit then l.to else m.to);
      assert false;
    }
  }

  lemma {:induction false} SameName(s: seq<Byte>, p: nat, l: Lexeme, m: Lexeme)
    requires TokenAt(s, p, l) && TokenAt(s, p, m)
    requires (l.kind == Ident || Keyword(l.kind)) && (m.kind == Ident || Keyword(m.kind))
    ensures l == m
  {
    hide Keyword, Spelling, Fits, NameIn, TokenAt;
    if l.kind == Ident { IdentToken(s, p, l); } else { KeywordToken(s, p, l); }
    if m.kind == Ident { IdentToken(s, p, m); } else { KeywordToken(s, p, m); }
    OneRun(s, p, l.to, m.to);
    if l.kind != Ident && m.kind != Ident {
      SameWord(s, p, Spelling(l.kind), Spelling(m.kind));
      KeywordsDiffer(l.kind, m.kind);
    }
  }

  lemma {:induction false} SameString(s: seq<Byte>, p: nat, l: Lexeme, m: Lexeme)
    requires p < |s| && Is(s[p], '\"') && TokenAt(s, p, l) && TokenAt(s, p, m)
    requires (l.kind == StrLit || l.kind == Error) && (m.kind == StrLit || m.kind == Error)
    ensures l == m
  {
    hide Inside, StringEnd;
    OneClass(s[p]);
    if l.kind == StrLit { InsideIs(s, p + 1, l.to); }
    if m.kind == StrLit { InsideIs(s, p + 1, m.to); }
  }

  lemma {:induction false} SameSymbol(s: seq<Byte>, p: nat, l: Lexeme, m: Lexeme)
    requires p < |s| && !NameStart(s[p]) && !Digit(s[p]) && !Break(s[p]) && !Is(s[p], '\"')
    requires TokenAt(s, p, l) && TokenAt(s, p, m) && (Symbol(l.kind) || l.kind == Error) && (Symbol(m.kind) || m.kind == Error)
    ensures l == m
  {
    hide Symbol, Spelling, Fits, TokenAt, NameStart, Digit, Break, Is;
    if l.kind != Error { SymbolToken(s, p, l); } else { ErrorIs(s, p, l); }
    if m.kind != Error { SymbolToken(s, p, m); } else { ErrorIs(s, p, m); }
    if l.kind != Error && m.kind != Error {
      SameWord(s, p, Spelling(l.kind), Spelling(m.kind));
      SymbolsDiffer(l.kind, m.kind);
    }
  }

  lemma {:induction false} ErrorIs(s: seq<Byte>, p: nat, l: Lexeme)
    requires l.kind == Error
    ensures TokenAt(s, p, l) <==> Malformed(s, p) && l == Lexeme(Error, p, p, p, 0)
  {
    hide Malformed;
  }

  /** The first byte decides which kinds of token there can be. */
  lemma {:induction false} KindAt(s: seq<Byte>, p: nat, l: Lexeme)
    requires p < |s| && TokenAt(s, p, l)
    ensures l.kind != Eof && (Break(s[p]) <==> l.kind == Newline)
    ensures Digit(s[p]) ==> l.kind == IntLit || l.kind == Error
    ensures NameStart(s[p]) ==> l.kind == Ident || Keyword(l.kind)
    ensures Is(s[p], '\"') ==> l.kind == StrLit || l.kind == Error
    ensures !NameStart(s[p]) && !Digit(s[p]) && !Break(s[p]) && !Is(s[p], '\"') ==> Symbol(l.kind) || l.kind == Error
  {
    hide Spelling, Fits, Digit, NameStart, Break, Is, Inside, Numerals.ValueOf;
    OneClass(s[p]);
    if Symbol(l.kind) {
      SymbolFirst(s, p, l.kind);
    }
  }

  lemma {:induction false} OneToken(s: seq<Byte>, p: nat, l: Lexeme, m: Lexeme)
    requires p <= |s| && TokenAt(s, p, l) && TokenAt(s, p, m)
    ensures l == m
  {
    hide Keyword, Symbol, Spelling, Fits, Digit, NameStart, Break, Is, NumberIn, NameIn, StringIn, SymbolIn, Malformed;
    if p == |s| {
      EndOnly(s, l);
      EndOnly(s, m);
    } else {
      KindAt(s, p, l);
      KindAt(s, p, m);
      if Break(s[p]) {
      } else if Digit(s[p]) {
        SameNumber(s, p, l, m);
      } else if NameStart(s[p]) {
        SameName(s, p, l, m);
      } else if Is(s[p], '\"') {
        SameString(s, p, l, m);
      } else {
        SameSymbol(s, p, l, m);
      }
    }
  }

  lemma {:induction false} EndOnly(s: seq<Byte>, l: Lexeme)
    requires TokenAt(s, |s|, l)
    ensures l == Lexeme(Eof, |s|, |s|, |s|, 0)
  {
    if Symbol(l.kind) {
      SymbolFirst(s, |s|, l.kind);
    }
  }

  lemma {:induction false} OneComment(s: seq<Byte>, p: nat, q: nat, q': nat)
    requires Comment(s, p, q) && Comment(s, p, q')
    ensures q == q'
  {
    hide Fits;
    TwoFit(s, p, "//");
    TwoFit(s, p, "/*");
  }

  lemma {:induction false} OneGap(s: seq<Byte>, p: nat, q: nat)
    requires p <= |s| && Gap(s, p, q) && GapOver(s, q)
    ensures q == Trivia(s, p)
    decreases |s| - p
  {
    hide Fits, LineEnd, CommentEnd, Comment;
    TwoFit(s, p, "//");
    TwoFit(s, p, "/*");
    if p == q {
    } else if p < |s| && (Is(s[p], ' ') || Is(s[p], '\t')) {
      NoComment(s, p);
      OneGap(s, p + 1, q);
    } else {
      var m: nat :| p < m <= q && Comment(s, p, m) && Gap(s, m, q);
      CommentIs(s, p, m);
      OneGap(s, m, q);
    }
  }

  lemma {:induction false} NoComment(s: seq<Byte>, p: nat)
    requires p < |s| && (Is(s[p], ' ') || Is(s[p], '\t'))
    ensures forall m :: !Comment(s, p, m)
  {
    TwoFit(s, p, "//");
    TwoFit(s, p, "/*");
  }

  lemma {:induction false} CommentIs(s: seq<Byte>, p: nat, m: nat)
    requires Comment(s, p, m)
    ensures Trivia(s, p) == Trivia(s, m)
  {
    hide Fits, LineEnd, CommentEnd;
    TwoFit(s, p, "//");
    TwoFit(s, p, "/*");
    if Fits(s, p, "//") {
      LineEndIs(s, p + 2, p + 2);
      OneComment(s, p, m, LineEnd(s, p + 2));
    } else {
      CommentEndIs(s, p + 2, p + 2);
      OneComment(s, p, m, CommentEnd(s, p + 2));
    }
  }

  /** The scanner finds `l` from `p` on exactly if `l` is the token behind the blanks and comments there. */
  lemma {:induction false} ScansExactly(s: seq<Byte>, p: nat, l: Lexeme)
    requires p <= |s|
    ensures NextLexeme(s, p) == l <==> exists q: nat :: Gap(s, p, q) && GapOver(s, q) && TokenAt(s, q, l)
  {
    hide Trivia, LexemeAt, Gap, GapOver, TokenAt;
    var q := Trivia(s, p);
    GapIs(s, p);
    Scanned(s, q);
    if exists q': nat :: Gap(s, p, q') && GapOver(s, q') && TokenAt(s, q', l) {
      var q': nat :| Gap(s, p, q') && GapOver(s, q') && TokenAt(s, q', l);
      OneGap(s, p, q');
      OneToken(s, q, l, LexemeAt(s, q));
    }
  }
}
