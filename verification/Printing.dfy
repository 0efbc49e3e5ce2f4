/** The text of a value as `print` and string interpolation write it, stated on its characters, and that it can be read
  * back: the scanner finds the literal of the value in it. */
module Printing {
  import opened Bytes
  import opened Values
  import opened Lexer
  import opened Spellings
  import opened MachineLaws
  import opened ObjectLaws
  import Decimal
  import Numerals
  import Semantics
  import RefCounts
  import M = Machine

  // ----- what the text of a value is -----

  /** A numeral without a plus sign, without leading zeros, and without a sign before zero. */
  predicate Shortest(text: seq<Byte>) {
    text != []
    && var ds := if Is(text[0], '-') then text[1..] else text;
       ds != [] && Digit(ds[0]) && (Is(ds[0], '0') ==> ds == text && |ds| == 1)
  }

  predicate IsText(v: Immediate, text: seq<Byte>) {
    match v
    case Nil => Spells(text, "nil")
    case OptNil => Spells(text, "nil")
    case Bool(b) => Spells(text, if b then "true" else "false")
    case Int(n) => Numerals.Numeral(text) && Numerals.NumeralValue(text) == n && Shortest(text)
  }

  predicate AreTexts(vs: seq<Immediate>, texts: seq<seq<Byte>>) {
    |texts| == |vs| && forall i :: 0 <= i < |vs| ==> IsText(vs[i], texts[i])
  }

  function Joined(texts: seq<seq<Byte>>): seq<Byte>
    decreases |texts|
  {
    if texts == [] then []
    else if |texts| == 1 then texts[0]
    else texts[0] + [',' as int, ' ' as int] + Joined(texts[1..])
  }

  function Flat(texts: seq<seq<Byte>>): seq<Byte>
    decreases |texts|
  {
    if texts == [] then [] else texts[0] + Flat(texts[1..])
  }

  /** A string is written as its bytes, an array as its elements between brackets. */
  ghost predicate IsValueText(h: Heap, v: Value, text: seq<Byte>) {
    match v
    case Imm(i) => IsText(i, text)
    case Str(at) => text == StrBytes(h, at)
    case Arr(at) =>
      match ArrayAt(h, at)
      case None => Spells(text, "[]")
      case Some(k) => exists texts :: AreTexts(h[k].slots, texts) && text == ['[' as int] + Joined(texts) + [']' as int]
  }

  // ----- immediates -----

  lemma {:induction false} LeadingDigit(n: nat)
    ensures var ds := Decimal.Digits(n); Decimal.IsDigit(ds[0]) && (ds[0] == Decimal.ZERO <==> n == 0) && (n == 0 ==> |ds| == 1)
    decreases n
  {
    if n >= 10 {
      LeadingDigit(n / 10);
    }
  }

  lemma {:induction false} TextIs(v: Immediate)
    ensures IsText(v, ImmediateText(v))
  {
    hide Spells, Ascii, Numerals.Numeral, Numerals.NumeralValue;
    match v {
      case Int(n) =>
        var m: int := n;
        Numerals.FormatDenotes(n);
        LeadingDigit(if m < 0 then -m else m);
      case Bool(b) =>
        SpellsExactly(Ascii("true"), "true");
        SpellsExactly(Ascii("false"), "false");
      case _ => SpellsExactly(Ascii("nil"), "nil");
    }
  }

  /** A sign or a digit starts an integer, and nothing else. */
  lemma {:induction false} FirstOf(v: Immediate, text: seq<Byte>)
    requires IsText(v, text)
    ensures text != [] && (v.Int? <==> Digit(text[0]) || Is(text[0], '-'))
    ensures !v.Int? ==> (Semantics.Missing(v) <==> Is(text[0], 'n')) && (v == Bool(true) <==> Is(text[0], 't'))
  {
    hide Numerals.ValueOf;
  }

  /** The same text is written for the two nils and otherwise for equal values only. */
  lemma {:induction false} TextsTell(a: Immediate, b: Immediate, text: seq<Byte>)
    requires IsText(a, text) && IsText(b, text)
    ensures a == b || (Semantics.Missing(a) && Semantics.Missing(b))
  {
    FirstOf(a, text);
    FirstOf(b, text);
  }

  lemma {:induction false} EqualTexts(a: Immediate, b: Immediate)
    ensures ImmediateText(a) == ImmediateText(b) <==> a == b || (Semantics.Missing(a) && Semantics.Missing(b))
  {
    hide ImmediateText;
    TextIs(a);
    TextIs(b);
    if ImmediateText(a) == ImmediateText(b) {
      TextsTell(a, b, ImmediateText(a));
    }
    NilText();
  }

  lemma {:induction false} NilText()
    ensures ImmediateText(Nil) == ImmediateText(OptNil)
  {
  }

  /** The scanner reads the text of a truth value as the literal of that value and the text of a nil as the literal
    * `nil`; the text of an integer that is not negative is a number of that value. */
  lemma {:induction false} ReadBack(v: Immediate) returns (k: Kind, n: I16)
    ensures var text := ImmediateText(v);
            (v.Int? && v.n < 0) || NextLexeme(text, 0) == Lexeme(k, 0, |text|, |text|, n)
    ensures match v
            case Nil => k == KwNil
            case OptNil => k == KwNil
            case Bool(b) => k == if b then KwTrue else KwFalse
            case Int(m) => k == IntLit && n == m
  {
    hide NextLexeme, ImmediateText, TokenAt, Spells, Gap, GapOver, IsText, Spelling;
    var text := ImmediateText(v);
    TextIs(v);
    n := if v.Int? then v.n else 0;
    k := match v case Int(_) => IntLit case Bool(b) => if b then KwTrue else KwFalse case _ => KwNil;
    if !(v.Int? && v.n < 0) {
      StartsToken(v, text);
      if v.Int? {
        NumberToken(text, v.n);
      } else {
        WordToken(v, text, k);
      }
      assert Gap(text, 0, 0) && GapOver(text, 0) && TokenAt(text, 0, Lexeme(k, 0, |text|, |text|, n));
      ScansExactly(text, 0, Lexeme(k, 0, |text|, |text|, n));
    }
  }

  lemma {:induction false} StartsToken(v: Immediate, text: seq<Byte>)
    requires IsText(v, text)
    ensures Gap(text, 0, 0) && GapOver(text, 0)
  {
    hide IsText;
    FirstOf(v, text);
    FirstByte(v, text);
    TwoFit(text, 0, "//");
    TwoFit(text, 0, "/*");
  }

  lemma {:induction false} FirstByte(v: Immediate, text: seq<Byte>)
    requires IsText(v, text)
    ensures text != [] && !Is(text[0], '/') && !Is(text[0], ' ') && !Is(text[0], '\t')
  {
    hide Numerals.ValueOf;
  }

  lemma {:induction false} NumberToken(text: seq<Byte>, n: I16)
    requires IsText(Int(n), text) && n >= 0
    ensures TokenAt(text, 0, Lexeme(IntLit, 0, |text|, |text|, n))
  {
    hide Numerals.ValueOf;
    assert text[0..|text|] == text;
    if Is(text[0], '-') {
      Numerals.ValueGrows(text[1..], 0);
      NonZero(text[1..]);
      assert false;
    }
  }

  lemma {:induction false} NonZero(ds: seq<Byte>)
    requires ds != [] && Numerals.AllDigits(ds) && !Is(ds[0], '0')
    ensures Numerals.ValueOf(ds) > 0
  {
    Numerals.ValueGrows(ds, 1);
    assert ds[..1][..0] == [];
    assert Numerals.ValueOf(ds[..1]) == Numerals.ValueOf([]) * 10 + (ds[0] - 0x30);
  }

  lemma {:induction false} WordToken(v: Immediate, text: seq<Byte>, k: Kind)
    requires IsText(v, text) && !v.Int? && k == (match v case Bool(b) => if b then KwTrue else KwFalse case _ => KwNil)
    ensures TokenAt(text, 0, Lexeme(k, 0, |text|, |text|, 0))
  {
    hide Fits, NameIn;
    assert Keyword(k) && Spells(text, Spelling(k));
    assert text[0..|text|] == text;
    FitsSlice(text, 0, |text|, Spelling(k));
    assert NameIn(text, 0, |text|) by { WordIsName(text, Spelling(k)); }
    KeywordToken(text, 0, Lexeme(k, 0, |text|, |text|, 0));
  }

  lemma {:induction false} WordIsName(text: seq<Byte>, w: string)
    requires Spells(text, w) && w != "" && forall i :: 0 <= i < |w| ==> 'a' <= w[i] <= 'z'
    ensures NameIn(text, 0, |text|)
  {
    assert forall i :: 0 <= i < |text| ==> text[i] == w[i] as int;
  }

  // ----- arrays and lines -----

  lemma {:induction false} ElementsAre(vs: seq<Immediate>) returns (texts: seq<seq<Byte>>)
    ensures AreTexts(vs, texts) && ElementsText(vs) == Joined(texts)
    decreases |vs|
  {
    hide ImmediateText, IsText;
    if vs == [] {
      texts := [];
    } else {
      TextIs(vs[0]);
      var rest := ElementsAre(vs[1..]);
      texts := [ImmediateText(vs[0])] + rest;
      assert texts[1..] == rest;
      Comma();
    }
  }

  lemma {:induction false} Comma()
    ensures Ascii(", ") == [',' as int, ' ' as int] && Ascii("[") == ['[' as int] && Ascii("]") == [']' as int]
  {
  }

  lemma {:induction false} ValueTextIs(h: Heap, v: Value)
    ensures IsValueText(h, v, ValueText(h, v))
  {
    hide ImmediateText, IsText, Spells, ElementsText, Joined, AreTexts, ArrayAt, Ascii;
    match v {
      case Imm(i) => TextIs(i);
      case Str(_) =>
      case Arr(at) =>
        Comma();
        match ArrayAt(h, at) {
          case Some(k) =>
            var texts := ElementsAre(h[k].slots);
          case None => Brackets();
        }
    }
  }

  lemma {:induction false} Brackets()
    ensures Spells(Ascii("[") + [] + Ascii("]"), "[]")
  {
  }

  /** `line` is the texts of `vs`, in order and with nothing between them. */
  ghost predicate IsLine(h: Heap, vs: seq<Value>, texts: seq<seq<Byte>>, line: seq<Byte>) {
    |texts| == |vs| && (forall i :: 0 <= i < |vs| ==> IsValueText(h, vs[i], texts[i])) && line == Flat(texts)
  }

  lemma {:induction false} LineIs(h: Heap, vs: seq<Value>) returns (texts: seq<seq<Byte>>)
    ensures IsLine(h, vs, texts, LineText(h, vs))
    decreases |vs|
  {
    hide ValueText, IsValueText;
    if vs == [] {
      texts := [];
    } else {
      ValueTextIs(h, vs[0]);
      var rest := LineIs(h, vs[1..]);
      texts := [ValueText(h, vs[0])] + rest;
      assert texts[1..] == rest;
    }
  }

  /** `print` adds one line to the output: the texts of its arguments. */
  lemma {:induction false} PrintWrites(img: M.Image, s: M.State, argc: Byte)
    returns (texts: seq<seq<Byte>>, line: seq<Byte>)
    requires AtBuiltin(img, s, 0x00, argc) && |s.stack| >= argc
    ensures IsLine(s.heap, s.stack[|s.stack| - argc..], texts, line)
    ensures M.Step(img, s).s.out == s.out + [line]
    ensures M.Step(img, s).Running? ==> M.Step(img, s).s.stack == s.stack[..|s.stack| - argc] + [Imm(Nil)]
  {
    hide M.Step, LineText, ReleaseAll;
    BuiltinStep(img, s, 0x00, argc);
    texts := LineIs(s.heap, s.stack[|s.stack| - argc..]);
    line := LineText(s.heap, s.stack[|s.stack| - argc..]);
  }

  /** The line a `print` statement means. */
  lemma {:induction false} LineMeant(vs: seq<Immediate>) returns (texts: seq<seq<Byte>>)
    ensures AreTexts(vs, texts) && Semantics.Text(vs) == Flat(texts)
    decreases |vs|
  {
    hide ImmediateText, IsText;
    if vs == [] {
      texts := [];
    } else {
      TextIs(vs[0]);
      var rest := LineMeant(vs[1..]);
      texts := [ImmediateText(vs[0])] + rest;
      assert texts[1..] == rest;
    }
  }

  /** Interpolation turns a value without heap payload into a string of its text, and leaves a string as it is. */
  lemma {:induction false} InterpolationWrites(img: M.Image, s: M.State, v: Immediate)
    requires At(img, s, 0x82) && |s.stack| > 0 && s.stack[|s.stack| - 1] == Imm(v) && M.Step(img, s).Running?
    ensures var t := M.Step(img, s).s;
            && |t.stack| == |s.stack| && t.stack[..|s.stack| - 1] == s.stack[..|s.stack| - 1]
            && t.stack[|s.stack| - 1].Str? && IsText(v, StrBytes(t.heap, t.stack[|s.stack| - 1].at))
  {
    hide M.Step, ImmediateText, IsText, StrBytes, M.PushString;
    var i := ObjectStep(img, s, 0x82);
    TextIs(v);
    NewString(s.(pc := s.pc + 1, stack := s.stack[..|s.stack| - 1]), ImmediateText(v));
  }
}
