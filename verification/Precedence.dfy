/** The expressions of the language as a layered grammar over tokens, one layer for each level of precedence, and that
  * the precedence climber of pratt.c reads exactly the expressions of that grammar. */
module Precedence {
  import opened Bytes
  import opened Values
  import opened Syntax
  import opened CodeGen
  import opened Grammar
  import M = Machine

  // ----- the grammar -----

  datatype Layer = Disjunction | Conjunction | Equality | Coalescing | Comparison | Sum | Product | Operand

  /** The layer of the operands of a layer. */
  function Tighter(y: Layer): Layer
    requires y != Operand
  {
    match y
    case Disjunction => Conjunction
    case Conjunction => Equality
    case Equality => Coalescing
    case Coalescing => Comparison
    case Comparison => Sum
    case Sum => Product
    case Product => Operand
  }

  function Above(y: Layer): nat {
    match y
    case Disjunction => 7
    case Conjunction => 6
    case Equality => 5
    case Coalescing => 4
    case Comparison => 3
    case Sum => 2
    case Product => 1
    case Operand => 0
  }

  /** `t` is an operator of the layer `y`, and the one at the root of `e`. */
  predicate Joins(y: Layer, e: Expr, t: Token) {
    match y
    case Disjunction => e.Or? && t == TOr                                                        // ||
    case Conjunction => e.And? && t == TAnd                                                      // &&
    case Equality => e.Bin? && t == TOp(e.bin) && e.bin.Equal?                                   // == !=
    case Coalescing => e.Coalesce? && t == TCoalesce                                             // ??
    case Comparison => e.Bin? && t == TOp(e.bin) && e.bin.Compare?                               // < <= > >=
    case Sum => e.Bin? && t == TOp(e.bin) && e.bin in {Arith(M.Add), Arith(M.Sub)}               // + -
    case Product => e.Bin? && t == TOp(e.bin) && e.bin in {Arith(M.Mul), Arith(M.Div), Arith(M.Mod)}  // * / %
    case Operand => false
  }

  /** The tokens `ts` are an expression of the layer `y`, with the tree `e`: one of the next layer, or an expression of
    * this layer, an operator of it, and one of the next. Only where `lead` may the first operand be unwrapped. */
  ghost predicate Derives(y: Layer, e: Expr, ts: seq<Token>, lead: bool)
    decreases |ts|, Above(y), 2
  {
    if y == Operand then Word(e, ts) || (lead && Forced(e, ts))
    else Derives(Tighter(y), e, ts, lead) || exists i :: JoinedAt(y, e, ts, lead, i)
  }

  ghost predicate JoinedAt(y: Layer, e: Expr, ts: seq<Token>, lead: bool, i: nat)
    requires y != Operand
    decreases |ts|, Above(y), 1
  {
    i < |ts| && Joins(y, e, ts[i]) && Derives(y, e.l, ts[..i], lead) && Derives(Tighter(y), e.r, ts[i + 1..], true)
  }

  /** An operand and an exclamation mark. */
  ghost predicate Forced(e: Expr, ts: seq<Token>)
    decreases |ts|, 0, 1
  {
    e.Unwrap? && |ts| > 0 && ts[|ts| - 1] == TBang && Derives(Operand, e.e, ts[..|ts| - 1], true)
  }

  /** A literal, a name, a call, a prefix operator and an operand of this kind, or an expression in parentheses. */
  ghost predicate Word(e: Expr, ts: seq<Token>)
    decreases |ts|, 0, 0
  {
    (match e
     case IntLit(n) => ts == [TInt(n)]
     case BoolLit(b) => ts == [if b then TTrue else TFalse]
     case NilLit => ts == [TNil]
     case Var(x) => |ts| == 1 && Names(ts[0], x)
     case Neg(x) => |ts| > 0 && ts[0] == TOp(Arith(M.Sub)) && Word(x, ts[1..])
     case Not(x) => |ts| > 0 && ts[0] == TBang && Word(x, ts[1..])
     case Call(f, args) =>
       |ts| >= 3 && Names(ts[0], f) && ts[1] == TLParen && ts[|ts| - 1] == TRParen && Listing(args, ts[2..|ts| - 1])
     case _ => false)
    || (|ts| >= 2 && ts[0] == TLParen && ts[|ts| - 1] == TRParen && Derives(Disjunction, e, ts[1..|ts| - 1], false))
  }

  /** The name `x`, of which eleven characters count. */
  predicate Names(t: Token, x: Name) {
    t.TIdent? && x == if |t.x| <= 11 then t.x else t.x[..11]
  }

  /** Expressions with commas between them. */
  ghost predicate Listing(es: Exprs, ts: seq<Token>)
    decreases |ts|, 8, 1
  {
    match es
    case NoExprs => ts == []
    case Exprs(e, NoExprs) => Derives(Disjunction, e, ts, true)
    case Exprs(e, rest) => exists i :: CommaAt(e, rest, ts, i)
  }

  ghost predicate CommaAt(e: Expr, rest: Exprs, ts: seq<Token>, i: nat)
    decreases |ts|, 8, 0
  {
    i < |ts| && ts[i] == TComma && Derives(Disjunction, e, ts[..i], true) && Listing(rest, ts[i + 1..])
  }

  // ----- layers and levels -----

  /** The layer whose operators bind at `m`. */
  function LayerOf(m: nat): (y: Layer)
    requires 1 <= m <= 8
    ensures y == Operand <==> m == 8
  {
    if m == 1 then Disjunction
    else if m == 2 then Conjunction
    else if m == 3 then Equality
    else if m == 4 then Coalescing
    else if m == 5 then Comparison
    else if m == 6 then Sum
    else if m == 7 then Product
    else Operand
  }

  lemma {:induction false} NextLayer(m: nat)
    requires 1 <= m <= 7
    ensures Tighter(LayerOf(m)) == LayerOf(m + 1)
  {
  }

  lemma {:induction false} OperatorJoins(t: Token, l: Expr, r: Expr)
    requires InfixPrec(t) > 0
    ensures Joins(LayerOf(InfixPrec(t)), Combine(t, l, r), t) && Combine(t, l, r).l == l && Combine(t, l, r).r == r
  {
  }

  lemma {:induction false} JoinedBy(m: nat, e: Expr, t: Token)
    requires 1 <= m <= 7 && Joins(LayerOf(m), e, t)
    ensures e.Bin? || e.And? || e.Or? || e.Coalesce?
    ensures InfixPrec(t) == m && t != TBang && Combine(t, e.l, e.r) == e
  {
  }

  /** An expression of a layer is one of each looser layer. */
  lemma {:induction false} Loosened(m: nat, n: nat, e: Expr, c: seq<Token>, lead: bool)
    requires 1 <= n <= m <= 8 && Derives(LayerOf(m), e, c, lead)
    ensures Derives(LayerOf(n), e, c, lead)
    decreases m - n
  {
    if n < m {
      Loosened(m, n + 1, e, c, lead);
      NextLayer(n);
    }
  }

  // ----- what is read is in the grammar -----

  lemma {:induction false} PrimaryDerived(ts: seq<Token>, ctx: Ctx) returns (c: seq<Token>)
    requires Primary(ts, ctx).Parsed?
    ensures ts == c + Primary(ts, ctx).rest && Word(Primary(ts, ctx).e, c)
    decreases |ts|, 0
  {
    hide Climb, Named, Derives, Listing, ExprOk;
    c := ts[..1];
    match Head(ts) {
      case TIdent(x) => c := NamedDerived(ts, ctx);
      case TLParen =>
        var r := Climb(ts[1..], PREC_LOWEST, false, ctx);
        var d := ClimbDerived(ts[1..], PREC_LOWEST, false, ctx);
        c := [TLParen] + d + [TRParen];
        assert c[1..|c| - 1] == d && ts == [TLParen] + (d + ([TRParen] + r.rest[1..]));
      case TBang => c := PrefixDerived(ts, ctx);
      case TOp(_) => c := PrefixDerived(ts, ctx);
      case _ =>
    }
  }

  lemma {:induction false} PrefixDerived(ts: seq<Token>, ctx: Ctx) returns (c: seq<Token>)
    requires Primary(ts, ctx).Parsed? && (Head(ts) == TBang || Head(ts).TOp?)
    ensures ts == c + Primary(ts, ctx).rest && Word(Primary(ts, ctx).e, c)
    decreases |ts|, 0, 0
  {
    hide Derives, Listing, ExprOk;
    OnlyPrimary(ts[1..], ctx);
    var d := PrimaryDerived(ts[1..], ctx);
    c := [ts[0]] + d;
    assert c[1..] == d;
  }

  /** Behind a prefix operator there is a primary and nothing else. */
  lemma {:induction false} OnlyPrimary(ts: seq<Token>, ctx: Ctx)
    ensures Climb(ts, PREC_UNARY, false, ctx) == Primary(ts, ctx)
  {
    hide Primary, ExprOk;
  }

  lemma {:induction false} NamedDerived(ts: seq<Token>, ctx: Ctx) returns (c: seq<Token>)
    requires Head(ts).TIdent? && Named(Clamp(ts[0].x), ts[1..], ctx).Parsed?
    ensures var r := Named(Clamp(ts[0].x), ts[1..], ctx); ts == c + r.rest && Word(r.e, c)
    decreases |ts|, 0, 1
  {
    hide Climb, Arguments, Derives, Listing, ExprOk, Resolve;
    if Named(Clamp(ts[0].x), ts[1..], ctx).e.Var? {
      c := ts[..1];
    } else {
      c := CallDerived(Clamp(ts[0].x), ts, ctx);
    }
  }

  lemma {:induction false} CallDerived(f: Name, ts: seq<Token>, ctx: Ctx) returns (c: seq<Token>)
    requires |f| < IDENT_MAX && |ts| > 0 && Names(ts[0], f)
    requires Named(f, ts[1..], ctx).Parsed? && Named(f, ts[1..], ctx).e.Call?
    ensures var r := Named(f, ts[1..], ctx); ts == c + r.rest && Word(r.e, c)
    decreases |ts|, 0, 0
  {
    hide Climb, Arguments, ArgumentList, Derives, Listing, ExprOk, Resolve, Clamp;
    var inner := ts[1..][1..];
    var a := Arguments(inner, ctx);
    var d := ArgumentsDerived(inner, ctx);
    c := [ts[0], TLParen] + d + [TRParen];
    assert ts[1..][0] == TLParen && a.rest[0] == TRParen;
    assert c[2..|c| - 1] == d;
    assert ts == [ts[0], TLParen] + inner && inner == d + a.rest && a.rest == [TRParen] + a.rest[1..];
  }

  lemma {:induction false} ArgumentsDerived(ts: seq<Token>, ctx: Ctx) returns (c: seq<Token>)
    requires Arguments(ts, ctx).ParsedArgs?
    ensures var r := Arguments(ts, ctx); ts == c + r.rest && Listing(r.es, c)
    decreases |ts|, 4
  {
    hide ArgumentList, Derives, ExprOk;
    if Head(ts) == TRParen {
      c := [];
    } else {
      c := ListDerived(ts, ctx);
    }
  }

  lemma {:induction false} ListDerived(ts: seq<Token>, ctx: Ctx) returns (c: seq<Token>)
    requires ArgumentList(ts, ctx).ParsedArgs?
    ensures var r := ArgumentList(ts, ctx); ts == c + r.rest && Listing(r.es, c) && r.es != NoExprs
    decreases |ts|, 3
  {
    hide Climb, Derives, ExprOk;
    var r := Climb(ts, PREC_LOWEST, true, ctx);
    c := ClimbDerived(ts, PREC_LOWEST, true, ctx);
    if Head(r.rest) == TComma {
      var d := ListDerived(r.rest[1..], ctx);
      var more := ArgumentList(r.rest[1..], ctx);
      var all := c + [TComma] + d;
      assert all[..|c|] == c && all[|c| + 1..] == d;
      assert CommaAt(r.e, more.es, all, |c|);
      assert ts == all + more.rest;
      c := all;
    }
  }

  lemma {:induction false} PostfixDerived(e: Expr, c: seq<Token>, ts: seq<Token>) returns (d: seq<Token>)
    requires Derives(Operand, e, c, true)
    ensures var r := Postfix(e, ts); c + ts == d + r.rest && Derives(Operand, r.e, d, true) && Head(r.rest) != TBang
    decreases |ts|
  {
    hide Word;
    if Head(ts) == TBang {
      var f := c + [TBang];
      assert f[..|f| - 1] == c;
      assert Forced(Unwrap(e), f);
      d := PostfixDerived(Unwrap(e), f, ts[1..]);
      assert c + ts == f + ts[1..];
    } else {
      d := c;
    }
  }

  lemma {:induction false} InfixDerived(l: Expr, c: seq<Token>, ts: seq<Token>, min: nat, lead: bool, ctx: Ctx)
    returns (d: seq<Token>)
    requires ExprOk(l, ctx) && 1 <= min <= 8 && Derives(LayerOf(min), l, c, lead) && Infix(l, ts, min, ctx).Parsed?
    requires InfixPrec(Head(ts)) > 0 ==> Derives(LayerOf(InfixPrec(Head(ts))), l, c, lead)
    requires lead ==> Head(ts) != TBang
    ensures var r := Infix(l, ts, min, ctx);
            && c + ts == d + r.rest && Derives(LayerOf(min), r.e, d, lead)
            && InfixPrec(Head(r.rest)) < min && (lead ==> Head(r.rest) != TBang)
    decreases |ts|, 1
  {
    hide ExprOk, Derives, Climb, InfixPrec, LayerOf, Combine;
    var t, p := Head(ts), InfixPrec(Head(ts));
    if p == PREC_NONE || p < min {
      d := c;
    } else {
      NoPrec();
      var r := Climb(ts[1..], p + 1, true, ctx);
      var right := ClimbDerived(ts[1..], p + 1, true, ctx);
      var e, all := Combine(t, l, r.e), c + [t] + right;
      assert c + ts == all + r.rest;
      JoinDerived(t, l, r.e, c, right, lead);
      Loosened(p, min, e, all, lead);
      if InfixPrec(Head(r.rest)) > 0 {
        Loosened(p, InfixPrec(Head(r.rest)), e, all, lead);
      }
      CombineOk(t, l, r.e, ctx);
      d := InfixDerived(e, all, r.rest, min, lead, ctx);
    }
  }

  lemma {:induction false} NoPrec()
    ensures InfixPrec(TEnd) == PREC_NONE
  {
  }

  /** Two operands and the operator between them. */
  lemma {:induction false} JoinDerived(t: Token, l: Expr, r: Expr, c: seq<Token>, d: seq<Token>, lead: bool)
    requires var p := InfixPrec(t); p > 0 && Derives(LayerOf(p), l, c, lead) && Derives(LayerOf(p + 1), r, d, true)
    ensures Derives(LayerOf(InfixPrec(t)), Combine(t, l, r), c + [t] + d, lead)
  {
    hide InfixPrec, LayerOf, Combine, Word, Forced, Joins;
    var p, all := InfixPrec(t), c + [t] + d;
    OperatorJoins(t, l, r);
    NextLayer(p);
    assert all[..|c|] == c && all[|c| + 1..] == d;
    assert JoinedAt(LayerOf(p), Combine(t, l, r), all, lead, |c|);
  }

  lemma {:induction false} ClimbDerived(ts: seq<Token>, min: nat, lead: bool, ctx: Ctx) returns (d: seq<Token>)
    requires 1 <= min <= 8 && Climb(ts, min, lead, ctx).Parsed?
    ensures var r := Climb(ts, min, lead, ctx);
            && ts == d + r.rest && Derives(LayerOf(min), r.e, d, lead)
            && InfixPrec(Head(r.rest)) < min && (lead ==> Head(r.rest) != TBang)
    decreases |ts|, 2
  {
    hide ExprOk, Infix, Primary, InfixPrec, Word, Forced;
    var q := Primary(ts, ctx);
    var c := PrimaryDerived(ts, ctx);
    assert Derives(Operand, q.e, c, lead);
    var r := q;
    if lead {
      r := Postfix(q.e, q.rest);
      c := PostfixDerived(q.e, c, q.rest);
    }
    Loosened(8, min, r.e, c, lead);
    if InfixPrec(Head(r.rest)) > 0 {
      Loosened(8, InfixPrec(Head(r.rest)), r.e, c, lead);
    }
    d := InfixDerived(r.e, c, r.rest, min, lead, ctx);
  }

  // ----- what is in the grammar is read -----

  /** An expression of the layer of `m`, read with operators from level `min` on, comes to be the left operand of
    * whatever follows. */
  lemma {:induction false} DerivedClimbs(m: nat, min: nat, e: Expr, c: seq<Token>, lead: bool, rest: seq<Token>, ctx: Ctx)
    requires 1 <= min <= m <= 8 && Derives(LayerOf(m), e, c, lead) && ExprOk(e, ctx)
    requires InfixPrec(Head(rest)) <= m && Head(rest) != TBang
    ensures Climb(c + rest, min, lead, ctx) == Infix(e, rest, min, ctx)
    decreases |c|, 12 - m, 2
  {
    hide ExprOk, Infix, Primary, InfixPrec, Word, Forced, Climb, LayerOf, JoinedAt;
    if m == 8 {
      OperandClimbs(min, e, c, lead, rest, ctx);
    } else {
      NextLayer(m);
      if Derives(LayerOf(m + 1), e, c, lead) {
        DerivedClimbs(m + 1, min, e, c, lead, rest, ctx);
      } else {
        var i: nat :| JoinedAt(LayerOf(m), e, c, lead, i);
        JoinClimbs(m, min, e, c, lead, i, rest, ctx);
      }
    }
  }

  lemma {:induction false} JoinClimbs(m: nat, min: nat, e: Expr, c: seq<Token>, lead: bool, i: nat, rest: seq<Token>,
                                      ctx: Ctx)
    requires 1 <= min <= m <= 7 && JoinedAt(LayerOf(m), e, c, lead, i) && ExprOk(e, ctx)
    requires InfixPrec(Head(rest)) <= m && Head(rest) != TBang
    ensures Climb(c + rest, min, lead, ctx) == Infix(e, rest, min, ctx)
    decreases |c|, 12 - m, 1
  {
    hide Derives, Infix, Primary, InfixPrec, Climb, LayerOf, Joins, Combine;
    var t, left, right := c[i], c[..i], c[i + 1..];
    JoinedBy(m, e, t);
    var l, r := e.l, e.r;
    NextLayer(m);
    var tail := [t] + (right + rest);
    assert c + rest == left + tail && tail[1..] == right + rest;
    OperandsOk(m, e, t, ctx);
    DerivedClimbs(m, min, l, left, lead, tail, ctx);
    DerivedClimbs(m + 1, m + 1, r, right, true, rest, ctx);
    InfixEnds(r, rest, m + 1, ctx);
    InfixTakes(l, t, right + rest, min, ctx);
  }

  lemma {:induction false} OperandsOk(m: nat, e: Expr, t: Token, ctx: Ctx)
    requires 1 <= m <= 7 && Joins(LayerOf(m), e, t) && ExprOk(e, ctx)
    ensures (e.Bin? || e.And? || e.Or? || e.Coalesce?) && ExprOk(e.l, ctx) && ExprOk(e.r, ctx)
  {
  }

  lemma {:induction false} InfixEnds(l: Expr, ts: seq<Token>, min: nat, ctx: Ctx)
    requires ExprOk(l, ctx) && InfixPrec(Head(ts)) < min
    ensures Infix(l, ts, min, ctx) == Parsed(l, ts)
  {
    hide Climb, InfixPrec, ExprOk;
  }

  lemma {:induction false} InfixTakes(l: Expr, t: Token, ts: seq<Token>, min: nat, ctx: Ctx)
    requires ExprOk(l, ctx) && InfixPrec(t) >= min >= 1
    ensures Infix(l, [t] + ts, min, ctx) == match Climb(ts, InfixPrec(t) + 1, true, ctx)
                                            case NoParse => NoParse
                                            case Parsed(r, rest) => Infix(Combine(t, l, r), rest, min, ctx)
  {
    hide Climb, InfixPrec, ExprOk, Combine;
    assert ([t] + ts)[1..] == ts;
  }

  lemma {:induction false} OperandClimbs(min: nat, e: Expr, c: seq<Token>, lead: bool, rest: seq<Token>, ctx: Ctx)
    requires 1 <= min <= 8 && Derives(Operand, e, c, lead) && ExprOk(e, ctx) && Head(rest) != TBang
    ensures Climb(c + rest, min, lead, ctx) == Infix(e, rest, min, ctx)
    decreases |c|, 3, 0
  {
    hide ExprOk, Infix, Primary, Word, Forced;
    if lead {
      ForcedReads(e, c, rest, ctx);
    } else {
      WordReads(e, c, rest, ctx);
    }
  }

  lemma {:induction false} ForcedReads(e: Expr, c: seq<Token>, rest: seq<Token>, ctx: Ctx)
    requires Derives(Operand, e, c, true) && ExprOk(e, ctx)
    ensures var r := Primary(c + rest, ctx); r.Parsed? && Postfix(r.e, r.rest) == Postfix(e, rest)
    decreases |c|, 2, 0
  {
    hide Primary, Word;
    if Word(e, c) {
      WordReads(e, c, rest, ctx);
    } else {
      var d, tail := c[..|c| - 1], [TBang] + rest;
      assert c + rest == d + tail && tail[1..] == rest;
      ForcedReads(e.e, d, tail, ctx);
    }
  }

  lemma {:induction false} WordReads(e: Expr, c: seq<Token>, rest: seq<Token>, ctx: Ctx)
    requires Word(e, c) && ExprOk(e, ctx)
    ensures Primary(c + rest, ctx) == Parsed(e, rest)
    decreases |c|, 1, 0
  {
    hide Climb, Named, Derives, Listing;
    var ts := c + rest;
    if |c| >= 2 && c[0] == TLParen {
      GroupReads(e, c, rest, ctx);
    } else {
      assert ts[0] == c[0] && ts[1..] == c[1..] + rest;
      match e {
        case Var(x) =>
          assert c[1..] + rest == rest;
          VariableReads(x, rest, ctx);
        case Neg(x) => PrefixReads(x, c, rest, ctx);
        case Not(x) => PrefixReads(x, c, rest, ctx);
        case Call(f, args) => CallWordReads(f, args, c, rest, ctx);
        case IntLit(_) => assert c[1..] + rest == rest;
        case BoolLit(_) => assert c[1..] + rest == rest;
        case NilLit => assert c[1..] + rest == rest;
        case _ =>
      }
    }
  }

  lemma {:induction false} PrefixReads(x: Expr, c: seq<Token>, rest: seq<Token>, ctx: Ctx)
    requires |c| > 0 && Word(x, c[1..]) && ExprOk(x, ctx)
    ensures Climb(c[1..] + rest, PREC_UNARY, false, ctx) == Parsed(x, rest)
    decreases |c|, 0, 0
  {
    hide Climb, Primary, Word;
    OnlyPrimary(c[1..] + rest, ctx);
    WordReads(x, c[1..], rest, ctx);
  }

  lemma {:induction false} GroupReads(e: Expr, c: seq<Token>, rest: seq<Token>, ctx: Ctx)
    requires Word(e, c) && ExprOk(e, ctx) && |c| >= 2 && c[0] == TLParen
    ensures Primary(c + rest, ctx) == Parsed(e, rest)
    decreases |c|, 0, 0
  {
    hide Climb, Named, Derives, Infix, Listing;
    var d, tail := c[1..|c| - 1], [TRParen] + rest;
    assert c + rest == [TLParen] + (d + tail) && (c + rest)[1..] == d + tail && tail[1..] == rest;
    assert Derives(LayerOf(1), e, d, false);
    DerivedClimbs(1, 1, e, d, false, tail, ctx);
    InfixEnds(e, tail, 1, ctx);
  }

  lemma {:induction false} CallWordReads(f: Name, args: Exprs, c: seq<Token>, rest: seq<Token>, ctx: Ctx)
    requires |c| >= 3 && Names(c[0], f) && c[1] == TLParen && c[|c| - 1] == TRParen && Listing(args, c[2..|c| - 1])
    requires ExprOk(Call(f, args), ctx)
    ensures Named(f, c[1..] + rest, ctx) == Parsed(Call(f, args), rest)
    decreases |c|, 0, 0
  {
    hide Climb, Listing, ArgumentList, ExprsOk, Resolve;
    var d, tail := c[2..|c| - 1], [TRParen] + rest;
    assert c[1..] + rest == [TLParen] + (d + tail) && (c[1..] + rest)[1..] == d + tail && tail[1..] == rest;
    ListingReads(args, d, tail, ctx);
  }

  /** No expression starts with a closing parenthesis or is empty. */
  lemma {:induction false} Begins(y: Layer, e: Expr, c: seq<Token>, lead: bool)
    requires Derives(y, e, c, lead)
    ensures |c| > 0 && c[0] != TRParen
    decreases |c|, Above(y)
  {
    if y == Operand {
      if !Word(e, c) {
        Begins(Operand, e.e, c[..|c| - 1], true);
      }
    } else if Derives(Tighter(y), e, c, lead) {
      Begins(Tighter(y), e, c, lead);
    } else {
      var i: nat :| JoinedAt(y, e, c, lead, i);
      Begins(y, e.l, c[..i], lead);
    }
  }

  lemma {:induction false} ListingReads(es: Exprs, c: seq<Token>, rest: seq<Token>, ctx: Ctx)
    requires Listing(es, c) && ExprsOk(es, ctx) && Head(rest) == TRParen
    ensures Arguments(c + rest, ctx) == ParsedArgs(es, rest)
    ensures es != NoExprs ==> ArgumentList(c + rest, ctx) == ParsedArgs(es, rest)
    decreases |c|, 30, 1
  {
    hide Climb, Derives, ExprOk;
    if es == NoExprs {
      assert c + rest == rest;
    } else {
      NextReads(es, c, rest, ctx);
    }
  }

  lemma {:induction false} NextReads(es: Exprs, c: seq<Token>, rest: seq<Token>, ctx: Ctx)
    requires es.Exprs? && Listing(es, c) && ExprsOk(es, ctx) && Head(rest) == TRParen
    ensures ArgumentList(c + rest, ctx) == ParsedArgs(es, rest) && Head(c + rest) != TRParen
    decreases |c|, 30, 0
  {
    hide Climb, Derives, Infix, ExprOk, Arguments;
    var e, more := es.first, es.rest;
    if more == NoExprs {
      Begins(Disjunction, e, c, true);
      DerivedClimbs(1, 1, e, c, true, rest, ctx);
      InfixEnds(e, rest, 1, ctx);
    } else {
      var i: nat :| CommaAt(e, more, c, i);
      var d, tail := c[..i], [TComma] + (c[i + 1..] + rest);
      assert c + rest == d + tail && tail[1..] == c[i + 1..] + rest;
      Begins(Disjunction, e, d, true);
      DerivedClimbs(1, 1, e, d, true, tail, ctx);
      InfixEnds(e, tail, 1, ctx);
      ListingReads(more, c[i + 1..], rest, ctx);
    }
  }

  // ----- the two agree -----

  /** Nothing that could go on with an expression. */
  predicate Stops(t: Token) {
    t != TBang && t != TAnd && t != TOr && t != TCoalesce && !t.TOp?
  }

  /** Reading stops behind the tokens `c` with the tree `e` exactly if the grammar has `e` for these tokens, its names
    * are declared and its calls have the right number of arguments, and what follows cannot go on with it. */
  lemma {:induction false} ReadsTheGrammar(c: seq<Token>, rest: seq<Token>, e: Expr, ctx: Ctx)
    ensures Expression(c + rest, ctx) == Parsed(e, rest) <==> Derives(Disjunction, e, c, true) && ExprOk(e, ctx) && Stops(Head(rest))
  {
    hide Climb, Derives, Infix, ExprOk;
    if Expression(c + rest, ctx) == Parsed(e, rest) {
      var d := ClimbDerived(c + rest, PREC_LOWEST, true, ctx);
      assert |d| == |c| && d == (d + rest)[..|c|] == (c + rest)[..|c|] == c;
    }
    if Derives(Disjunction, e, c, true) && ExprOk(e, ctx) && Stops(Head(rest)) {
      DerivedClimbs(1, 1, e, c, true, rest, ctx);
      InfixEnds(e, rest, 1, ctx);
    }
  }

  /** The same text has one tree. */
  lemma {:induction false} OneTree(c: seq<Token>, e1: Expr, e2: Expr, ctx: Ctx)
    requires Derives(Disjunction, e1, c, true) && Derives(Disjunction, e2, c, true) && ExprOk(e1, ctx) && ExprOk(e2, ctx)
    ensures e1 == e2
  {
    hide Derives, Expression, ExprOk;
    ReadsTheGrammar(c, [], e1, ctx);
    ReadsTheGrammar(c, [], e2, ctx);
  }
}
