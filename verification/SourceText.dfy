/** From the text of an expression to its tree: what the scanner and the precedence climber make of a text together. */
module SourceText {
  import opened Bytes
  import opened Values
  import opened Lexer
  import opened Spellings
  import G = Grammar
  import Syntax
  import CodeGen
  import Decimal
  import M = Machine
  import Numerals
  import Precedence

  // ----- tokens of the scanner, as the parser sees them -----

  function NameText(text: seq<Byte>): string {
    seq(|text|, i requires 0 <= i < |text| => text[i] as char)
  }

  /** The token of an expression that the scanner's token `l` is; everything else ends an expression. */
  function TokenOf(s: seq<Byte>, l: Lexeme): G.Token
    requires l.from <= l.to <= |s|
  {
    match l.kind
    case IntLit => G.TInt(l.n)
    case KwTrue => G.TTrue
    case KwFalse => G.TFalse
    case KwNil => G.TNil
    case Ident => G.TIdent(NameText(s[l.from..l.to]))
    case Plus => G.TOp(Syntax.Arith(M.Add))
    case Minus => G.TOp(Syntax.Arith(M.Sub))
    case Star => G.TOp(Syntax.Arith(M.Mul))
    case Slash => G.TOp(Syntax.Arith(M.Div))
    case Percent => G.TOp(Syntax.Arith(M.Mod))
    case EqEq => G.TOp(Syntax.Equal(true))
    case NotEq => G.TOp(Syntax.Equal(false))
    case Lt => G.TOp(Syntax.Compare(M.Lt))
    case LtEq => G.TOp(Syntax.Compare(M.Le))
    case Gt => G.TOp(Syntax.Compare(M.Gt))
    case GtEq => G.TOp(Syntax.Compare(M.Ge))
    case AndAnd => G.TAnd
    case OrOr => G.TOr
    case QuestionQuestion => G.TCoalesce
    case Bang => G.TBang
    case LParen => G.TLParen
    case RParen => G.TRParen
    case Comma => G.TComma
    case _ => G.TEnd
  }

  /** The tokens from `p` up to the first one that ends an expression. */
  function Scan(s: seq<Byte>, p: nat): seq<G.Token>
    requires p <= |s|
    decreases |s| - p
  {
    var l := NextLexeme(s, p);
    if l.kind == Eof || l.kind == Error || TokenOf(s, l) == G.TEnd then [] else [TokenOf(s, l)] + Scan(s, l.next)
  }

  // ----- how tokens are written -----

  /** The text of the tokens that have one text only. */
  function Sign(t: G.Token): string {
    match t
    case TTrue => "true"
    case TFalse => "false"
    case TNil => "nil"
    case TOp(Arith(Add)) => "+"
    case TOp(Arith(Sub)) => "-"
    case TOp(Arith(Mul)) => "*"
    case TOp(Arith(Div)) => "/"
    case TOp(Arith(Mod)) => "%"
    case TOp(Equal(same)) => if same then "==" else "!="
    case TOp(Compare(Lt)) => "<"
    case TOp(Compare(Le)) => "<="
    case TOp(Compare(Gt)) => ">"
    case TOp(Compare(Ge)) => ">="
    case TAnd => "&&"
    case TOr => "||"
    case TCoalesce => "??"
    case TBang => "!"
    case TLParen => "("
    case TRParen => ")"
    case TComma => ","
    case _ => ""
  }

  /** A name of the language, and no keyword. */
  predicate IsName(x: string) {
    x != "" && (forall i :: 0 <= i < |x| ==> x[i] < 128 as char && NameByte(x[i] as int)) && NameStart(x[0] as int)
    && forall k :: Keyword(k) ==> Spellings.Spelling(k) != x
  }

  /** `text` is how `t` is written. A number is written as its 16 bits without sign. */
  predicate Writes(t: G.Token, text: seq<Byte>) {
    match t
    case TInt(n) =>
      text != [] && (forall i :: 0 <= i < |text| ==> Digit(text[i]))
      && Numerals.ValueOf(text) == if n < 0 then n + 0x1_0000 else n
    case TIdent(x) => IsName(x) && Spells(text, x)
    case TEnd => false
    case _ => Spells(text, Sign(t))
  }

  /** `text` is the tokens `ts`, each with a blank before it. */
  ghost predicate WritesAll(ts: seq<G.Token>, text: seq<Byte>)
    decreases |ts|
  {
    if ts == [] then text == [] else exists i: nat :: WritesFirst(ts, text, i)
  }

  ghost predicate WritesFirst(ts: seq<G.Token>, text: seq<Byte>, i: nat)
    requires ts != []
    decreases |ts|, 0
  {
    1 <= i <= |text| && Is(text[0], ' ') && Writes(ts[0], text[1..i]) && WritesAll(ts[1..], text[i..])
  }

  // ----- the scanner on one token -----

  predicate Closed(s: seq<Byte>, q: nat) {
    q <= |s| && (q < |s| ==> Is(s[q], ' ') || Break(s[q]))
  }

  function KindOf(t: G.Token): Kind {
    match t
    case TTrue => KwTrue
    case TFalse => KwFalse
    case TNil => KwNil
    case TOp(Arith(Add)) => Plus
    case TOp(Arith(Sub)) => Minus
    case TOp(Arith(Mul)) => Star
    case TOp(Arith(Div)) => Slash
    case TOp(Arith(Mod)) => Percent
    case TOp(Equal(same)) => if same then EqEq else NotEq
    case TOp(Compare(Lt)) => Lt
    case TOp(Compare(Le)) => LtEq
    case TOp(Compare(Gt)) => Gt
    case TOp(Compare(Ge)) => GtEq
    case TAnd => AndAnd
    case TOr => OrOr
    case TCoalesce => QuestionQuestion
    case TBang => Bang
    case TLParen => LParen
    case TRParen => RParen
    case TComma => Comma
    case _ => Error
  }

  predicate Fixed(t: G.Token) {
    !t.TInt? && !t.TIdent? && !t.TEnd?
  }

  lemma {:induction false} KindSpells(t: G.Token)
    requires Fixed(t)
    ensures Spellings.Spelling(KindOf(t)) == Sign(t) && Sign(t) != "" && (Keyword(KindOf(t)) || Symbol(KindOf(t)))
  {
  }

  lemma {:induction false} TokenOfKind(t: G.Token, s: seq<Byte>, l: Lexeme)
    requires Fixed(t) && l.kind == KindOf(t) && l.from <= l.to <= |s|
    ensures TokenOf(s, l) == t
  {
  }

  lemma {:induction false} NoBlank(j: Kind)
    requires Symbol(j)
    ensures forall i :: 0 <= i < |Spellings.Spelling(j)| ==> !(Spellings.Spelling(j)[i] in {' ', '\n', '\r'})
  {
  }

  lemma {:induction false} KeywordLetters(k: Kind)
    requires Keyword(k)
    ensures var w := Spellings.Spelling(k); w != "" && forall i :: 0 <= i < |w| ==> 'a' <= w[i] <= 'z'
  {
  }

  lemma {:induction false} SymbolClosed(s: seq<Byte>, p: nat, q: nat, k: Kind)
    requires Symbol(k) && Fits(s, p, Spellings.Spelling(k)) && p + |Spellings.Spelling(k)| == q && Closed(s, q)
    ensures SymbolIn(s, p, k)
  {
    hide Symbol, Spellings.Spelling;
    forall j | SymbolFits(s, p, j)
      ensures |Spellings.Spelling(j)| <= |Spellings.Spelling(k)|
    {
      NoBlank(j);
      if |Spellings.Spelling(j)| > q - p {
        FitsFurther(s, p, q, Spellings.Spelling(j));
      }
    }
  }

  lemma {:induction false} FitsFurther(s: seq<Byte>, p: nat, q: nat, w: string)
    requires Fits(s, p, w) && p <= q < p + |w|
    ensures q < |s| && exists i :: 0 <= i < |w| && Is(s[q], w[i])
  {
    assert Is(s[p + (q - p)], w[q - p]);
  }

  lemma {:induction false} WordClosed(s: seq<Byte>, p: nat, q: nat, w: string)
    requires p < q <= |s| && Spells(s[p..q], w) && w != "" && Closed(s, q)
    requires (forall i :: 0 <= i < |w| ==> NameByte(w[i] as int % 0x100) && w[i] < 128 as char) && NameStart(w[0] as int % 0x100)
    ensures NameIn(s, p, q)
  {
    forall i | p <= i < q
      ensures NameByte(s[i])
    {
      assert s[i] == s[p..q][i - p] == w[i - p] as int;
    }
    assert s[p] == s[p..q][0] == w[0] as int;
  }

  lemma {:induction false} FixedAt(s: seq<Byte>, p: nat, q: nat, t: G.Token)
    requires p < q <= |s| && Fixed(t) && Spells(s[p..q], Sign(t)) && Closed(s, q)
    ensures TokenAt(s, p, Lexeme(KindOf(t), p, q, q, 0))
  {
    hide Keyword, Symbol, Spellings.Spelling, Sign, KindOf, TokenAt, Fits, Spells, Closed, SymbolIn, NameIn;
    var k, w := KindOf(t), Sign(t);
    KindSpells(t);
    FitsSlice(s, p, q, w);
    if Keyword(k) {
      KeywordLetters(k);
      WordClosed(s, p, q, w);
      KeywordToken(s, p, Lexeme(k, p, q, q, 0));
    } else {
      SymbolClosed(s, p, q, k);
      SymbolToken(s, p, Lexeme(k, p, q, q, 0));
    }
  }

  lemma {:induction false} NumberAt(s: seq<Byte>, p: nat, q: nat, n: I16)
    requires p < q <= |s| && Writes(G.TInt(n), s[p..q]) && Closed(s, q)
    ensures TokenAt(s, p, Lexeme(IntLit, p, q, q, n))
  {
    hide Numerals.ValueOf;
    forall i | p <= i < q
      ensures Digit(s[i])
    {
      assert s[i] == s[p..q][i - p];
    }
  }

  lemma {:induction false} NameTokenAt(s: seq<Byte>, p: nat, q: nat, x: string)
    requires p < q <= |s| && Writes(G.TIdent(x), s[p..q]) && Closed(s, q)
    ensures TokenAt(s, p, Lexeme(Ident, p, q, q, 0)) && NameText(s[p..q]) == x
  {
    hide Keyword, Spellings.Spelling, Fits, Spells, NameIn;
    WordClosed(s, p, q, x);
    forall k | Keyword(k) && Fits(s, p, Spellings.Spelling(k))
      ensures p + |Spellings.Spelling(k)| != q
    {
      FitsSlice(s, p, q, Spellings.Spelling(k));
      if Spells(s[p..q], Spellings.Spelling(k)) {
        SameSpelling(s[p..q], x, Spellings.Spelling(k));
      }
    }
    IdentToken(s, p, Lexeme(Ident, p, q, q, 0));
    NameBack(s[p..q], x);
  }

  lemma {:induction false} SameSpelling(text: seq<Byte>, w: string, v: string)
    requires Spells(text, w) && Spells(text, v)
    ensures w == v
  {
    forall i | 0 <= i < |w|
      ensures w[i] == v[i]
    {
      assert text[i] == w[i] as int == v[i] as int;
    }
  }

  lemma {:induction false} NameBack(text: seq<Byte>, x: string)
    requires Spells(text, x)
    ensures NameText(text) == x
  {
  }

  /** A written token neither starts with a blank nor looks like a comment. */
  lemma {:induction false} StartsClean(t: G.Token, text: seq<Byte>)
    requires Writes(t, text)
    ensures text != [] && !Is(text[0], ' ') && !Is(text[0], '\t') && (|text| > 1 ==> !Is(text[0], '/'))
  {
    hide Numerals.ValueOf;
  }

  lemma {:induction false} NextIs(s: seq<Byte>, p: nat, q: nat, t: G.Token)
    requires p + 1 <= q <= |s| && Is(s[p], ' ') && Writes(t, s[p + 1..q]) && Closed(s, q)
    ensures var l := NextLexeme(s, p);
            l.kind != Eof && l.kind != Error && l.next == q && TokenOf(s, l) == t && t != G.TEnd
  {
    hide NextLexeme, TokenAt, TokenOf, Writes, KindOf;
    StartsClean(t, s[p + 1..q]);
    assert s[p + 1..q][0] == s[p + 1];
    TwoFit(s, p + 1, "//");
    TwoFit(s, p + 1, "/*");
    assert Gap(s, p + 1, p + 1);
    var l := Lexeme(match t case TInt(_) => IntLit case TIdent(_) => Ident case _ => KindOf(t), p + 1, q, q, if t.TInt? then t.n else 0);
    TokenIs(s, p + 1, q, t, l);
    assert Gap(s, p, p + 1) && GapOver(s, p + 1) && TokenAt(s, p + 1, l);
    ScansExactly(s, p, l);
  }

  lemma {:induction false} TokenIs(s: seq<Byte>, p: nat, q: nat, t: G.Token, l: Lexeme)
    requires p < q <= |s| && Writes(t, s[p..q]) && Closed(s, q)
    requires l == Lexeme(match t case TInt(_) => IntLit case TIdent(_) => Ident case _ => KindOf(t), p, q, q, if t.TInt? then t.n else 0)
    ensures TokenAt(s, p, l) && TokenOf(s, l) == t && l.kind != Eof && l.kind != Error && t != G.TEnd
  {
    hide TokenAt, KindOf, Closed;
    match t {
      case TInt(n) => NumberAt(s, p, q, n);
      case TIdent(x) => NameTokenAt(s, p, q, x);
      case TEnd =>
      case _ => FixedIs(s, p, q, t, l);
    }
  }

  lemma {:induction false} FixedIs(s: seq<Byte>, p: nat, q: nat, t: G.Token, l: Lexeme)
    requires p < q <= |s| && Fixed(t) && Spells(s[p..q], Sign(t)) && Closed(s, q) && l == Lexeme(KindOf(t), p, q, q, 0)
    ensures TokenAt(s, p, l) && TokenOf(s, l) == t && l.kind != Eof && l.kind != Error
  {
    hide TokenAt, KindOf, Closed, Sign, TokenOf, Spells, Spellings.Spelling;
    FixedAt(s, p, q, t);
    TokenOfKind(t, s, l);
    KindSpells(t);
  }

  // ----- the scanner on a text -----

  /** Nothing, or a line break. */
  predicate Over(s: seq<Byte>, q: nat) {
    q <= |s| && (q < |s| ==> Break(s[q]))
  }

  lemma {:induction false} ScanEnds(s: seq<Byte>, q: nat)
    requires Over(s, q)
    ensures Scan(s, q) == []
  {
    hide StringEnd, Operator, KeywordOf, Digits, IdentEnd;
    var l := NextLexeme(s, q);
    assert l.kind == Eof || l.kind == Newline;
  }

  lemma {:induction false} Front(ts: seq<G.Token>, text: seq<Byte>) returns (i: nat)
    requires ts != [] && WritesAll(ts, text)
    ensures WritesFirst(ts, text, i)
  {
    i :| WritesFirst(ts, text, i);
  }

  lemma {:induction false} FrontBlank(ts: seq<G.Token>, text: seq<Byte>)
    requires WritesAll(ts, text)
    ensures text == [] || Is(text[0], ' ')
  {
    if ts != [] {
      var i := Front(ts, text);
    }
  }

  lemma {:induction false} Slices(s: seq<Byte>, p: nat, text: seq<Byte>, i: nat)
    requires 1 <= i <= |text| && p + |text| <= |s| && s[p..p + |text|] == text
    ensures text[1..i] == s[p + 1..p + i] && text[0] == s[p] && text[i..] == s[p + i..p + |text|]
  {
    forall k | 0 <= k < |text|
      ensures text[k] == s[p + k]
    {
      assert s[p..p + |text|][k] == s[p + k];
    }
  }

  /** A text written token by token is scanned as these tokens. */
  lemma {:induction false} ScanReads(ts: seq<G.Token>, text: seq<Byte>, s: seq<Byte>, p: nat)
    requires WritesAll(ts, text) && p + |text| <= |s| && s[p..p + |text|] == text && Over(s, p + |text|)
    ensures Scan(s, p) == ts
    decreases |ts|
  {
    hide Writes, TokenOf, NextLexeme;
    if ts == [] {
      ScanEnds(s, p);
    } else {
      var i := Front(ts, text);
      var q := p + i;
      Slices(s, p, text, i);
      FrontBlank(ts[1..], text[i..]);
      if q < p + |text| {
        assert s[q] == text[i..][0];
      }
      NextIs(s, p, q, ts[0]);
      ScanReads(ts[1..], text[i..], s, q);
    }
  }

  /** A text of the tokens `ts` is read as the tree `e` exactly if the grammar has that tree for these tokens, its names
    * are declared and its calls have the right number of arguments. */
  lemma {:induction false} ReadsText(ts: seq<G.Token>, text: seq<Byte>, rest: seq<Byte>, e: Syntax.Expr, ctx: CodeGen.Ctx)
    requires WritesAll(ts, text) && Over(text + rest, |text|)
    ensures G.Expression(Scan(text + rest, 0), ctx) == G.Parsed(e, [])
            <==> Precedence.Derives(Precedence.Disjunction, e, ts, true) && CodeGen.ExprOk(e, ctx)
  {
    hide Precedence.Derives, G.Expression, CodeGen.ExprOk, WritesAll, Scan;
    assert (text + rest)[0..|text|] == text;
    ScanReads(ts, text, text + rest, 0);
    assert ts + [] == ts;
    Precedence.ReadsTheGrammar(ts, [], e, ctx);
  }

  /** The instruction for an operator is that of its sign. */
  lemma {:induction false} SignOpcodes(op: Syntax.BinOp)
    ensures var b := CodeGen.OpByte(op);
            Sign(G.TOp(op)) == (match b
                                case 0x30 => "+"
                                case 0x31 => "-"
                                case 0x32 => "*"
                                case 0x33 => "/"
                                case 0x34 => "%"
                                case 0x40 => "=="
                                case 0x41 => "!="
                                case 0x42 => "<"
                                case 0x43 => "<="
                                case 0x44 => ">"
                                case 0x45 => ">="
                                case _ => "")
  {
  }
}
