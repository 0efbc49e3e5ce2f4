/** Tokens of expressions, what the precedence climber of pratt.c reads from them, and how to write an
  * expression so that it is read back. */
module Grammar {
  import opened Bytes
  import opened Values
  import opened Syntax
  import opened CodeGen
  import M = Machine

  datatype Token =
    | TInt(n: I16) | TTrue | TFalse | TNil | TIdent(x: Name)
    | TOp(op: BinOp) | TAnd | TOr | TCoalesce
    | TBang | TLParen | TRParen | TComma
    | TEnd  // a token that ends every expression: newline, brace, `=`, end of file and so on

  const PREC_NONE := 0
  const PREC_LOWEST := 1
  const PREC_UNARY := 8
  const PREC_PRIMARY := 9

  /** infix_prec. The minus sign is the token of subtraction. */
  function InfixPrec(t: Token): (p: nat)
    ensures p <= 7
  {
    match t
    case TOr => 1
    case TAnd => 2
    case TOp(Equal(_)) => 3
    case TCoalesce => 4
    case TOp(Compare(_)) => 5
    case TOp(Arith(op)) => if op == M.Add || op == M.Sub then 6 else 7
    case _ => PREC_NONE
  }

  const TMinus := TOp(Arith(M.Sub))

  /** The tree of `l t r` for an infix token. */
  function Combine(t: Token, l: Expr, r: Expr): Expr {
    match t
    case TOp(op) => Bin(op, l, r)
    case TAnd => And(l, r)
    case TOr => Or(l, r)
    case _ => Coalesce(l, r)
  }

  /** The tables keep at most 11 characters, and a longer name is compared as its first 11. */
  function Clamp(x: Name): Name {
    if |x| < IDENT_MAX then x else x[..IDENT_MAX - 1]
  }

  datatype Parsed = Parsed(e: Expr, rest: seq<Token>) | NoParse
  datatype ParsedArgs = ParsedArgs(es: Exprs, rest: seq<Token>) | NoArgs

  /** What is read when `r` is the operand of a prefix operator. */
  function Prefixed(not: bool, r: Parsed): Parsed {
    match r
    case Parsed(e, rest) => Parsed(if not then Not(e) else Neg(e), rest)
    case NoParse => NoParse
  }

  /** What is read when `r` is the right operand of the infix token `t`. */
  function Combined(t: Token, l: Expr, r: Parsed): Parsed {
    match r
    case Parsed(e, rest) => Parsed(Combine(t, l, e), rest)
    case NoParse => NoParse
  }

  /** The token at the front; past the last one there are only ends of file. */
  function Head(ts: seq<Token>): Token {
    if |ts| == 0 then TEnd else ts[0]
  }

  /** parse_primary: no postfix operator is read. */
  function Primary(ts: seq<Token>, ctx: Ctx): (r: Parsed)
    ensures r.Parsed? ==> |r.rest| < |ts| && ExprOk(r.e, ctx)
    decreases |ts|, 0
  {
    match Head(ts)
    case TInt(n) => Parsed(IntLit(n), ts[1..])
    case TTrue => Parsed(BoolLit(true), ts[1..])
    case TFalse => Parsed(BoolLit(false), ts[1..])
    case TNil => Parsed(NilLit, ts[1..])
    case TIdent(x) => Named(Clamp(x), ts[1..], ctx)
    case TLParen =>
      (match Climb(ts[1..], PREC_LOWEST, false, ctx)
       case Parsed(e, rest) => if Head(rest) == TRParen then Parsed(e, rest[1..]) else NoParse
       case NoParse => NoParse)
    case TBang => Prefixed(true, Climb(ts[1..], PREC_UNARY, false, ctx))
    case TOp(op) => if op == Arith(M.Sub) then Prefixed(false, Climb(ts[1..], PREC_UNARY, false, ctx)) else NoParse
    case _ => NoParse
  }

  /** What follows the name `x`: nothing for a variable, an argument list for a function. */
  function Named(x: Name, ts: seq<Token>, ctx: Ctx): (r: Parsed)
    requires |x| < IDENT_MAX
    ensures r.Parsed? ==> |r.rest| <= |ts| && ExprOk(r.e, ctx)
    decreases |ts|, 5
  {
    if x == "" then NoParse
    else if !Resolve(x, ctx).Nowhere? then Parsed(Var(x), ts)
    else if FindFunc(ctx.funcs, x).None? || Head(ts) != TLParen then NoParse
    else
      match Arguments(ts[1..], ctx)
      case NoArgs => NoParse
      case ParsedArgs(es, rest) =>
        if Head(rest) == TRParen && Count(es) == ctx.funcs[FindFunc(ctx.funcs, x).value].params <= 255
        then Parsed(Call(x, es), rest[1..]) else NoParse
  }

  /** The expressions up to the closing parenthesis. */
  function Arguments(ts: seq<Token>, ctx: Ctx): (r: ParsedArgs)
    ensures r.ParsedArgs? ==> |r.rest| <= |ts| && ExprsOk(r.es, ctx)
    decreases |ts|, 4
  {
    if Head(ts) == TRParen then ParsedArgs(NoExprs, ts) else ArgumentList(ts, ctx)
  }

  function ArgumentList(ts: seq<Token>, ctx: Ctx): (r: ParsedArgs)
    ensures r.ParsedArgs? ==> |r.rest| < |ts| && ExprsOk(r.es, ctx)
    decreases |ts|, 3
  {
    match Climb(ts, PREC_LOWEST, true, ctx)
    case NoParse => NoArgs
    case Parsed(e, rest) =>
      if Head(rest) == TComma then
        match ArgumentList(rest[1..], ctx)
        case NoArgs => NoArgs
        case ParsedArgs(es, rest) => ParsedArgs(Exprs(e, es), rest)
      else ParsedArgs(Exprs(e, NoExprs), rest)
  }

  /** apply_postfix: each trailing `!` unwraps once more. */
  function Postfix(e: Expr, ts: seq<Token>): (r: Parsed)
    ensures r.Parsed? && |r.rest| <= |ts|
    ensures forall ctx :: ExprOk(e, ctx) ==> ExprOk(r.e, ctx)
    decreases |ts|
  {
    if Head(ts) == TBang then Postfix(Unwrap(e), ts[1..]) else Parsed(e, ts)
  }

  /** parse_infix_loop, with `l` as the left operand read so far. */
  function Infix(l: Expr, ts: seq<Token>, min: nat, ctx: Ctx): (r: Parsed)
    requires ExprOk(l, ctx)
    ensures r.Parsed? ==> |r.rest| <= |ts| && ExprOk(r.e, ctx)
    decreases |ts|, 1
  {
    var p := InfixPrec(Head(ts));
    if p == PREC_NONE || p < min then Parsed(l, ts)
    else
      match Climb(ts[1..], p + 1, true, ctx)
      case NoParse => NoParse
      case Parsed(r, rest) => Infix(Combine(Head(ts), l, r), rest, min, ctx)
  }

  /** A primary and the operators behind it that bind at least as tightly as `min`. The first primary may
    * carry postfix operators only when `lead`: not right behind a parenthesis or a prefix operator. */
  function Climb(ts: seq<Token>, min: nat, lead: bool, ctx: Ctx): (r: Parsed)
    ensures r.Parsed? ==> |r.rest| < |ts| && ExprOk(r.e, ctx)
    decreases |ts|, 2
  {
    match Primary(ts, ctx)
    case NoParse => NoParse
    case Parsed(l, rest) =>
      var q := if lead then Postfix(l, rest) else Parsed(l, rest);
      Infix(q.e, q.rest, min, ctx)
  }

  /** parse_expression. */
  function Expression(ts: seq<Token>, ctx: Ctx): (r: Parsed)
    ensures r.Parsed? ==> |r.rest| < |ts| && ExprOk(r.e, ctx)
  {
    Climb(ts, PREC_LOWEST, true, ctx)
  }

  // ----- writing expressions -----

  /** How tightly the operator at the root of `e` binds. */
  function Prec(e: Expr): (p: nat)
    ensures 1 <= p <= PREC_PRIMARY
  {
    match e
    case Or(_, _) => 1
    case And(_, _) => 2
    case Bin(op, _, _) => InfixPrec(TOp(op))
    case Coalesce(_, _) => 4
    case Unwrap(_) => PREC_UNARY
    case _ => PREC_PRIMARY
  }

  function InfixToken(e: Expr): Token
    requires e.Or? || e.And? || e.Bin? || e.Coalesce?
  {
    match e
    case Or(_, _) => TOr
    case And(_, _) => TAnd
    case Bin(op, _, _) => TOp(op)
    case Coalesce(_, _) => TCoalesce
  }

  /** `e` where an operator of level `min` or above is expected: in parentheses if it binds less tightly. */
  function Written(e: Expr, min: nat): (ts: seq<Token>)
    ensures |ts| > 0
    decreases e, 1
  {
    if Prec(e) < min then [TLParen] + Bare(e) + [TRParen] else Bare(e)
  }

  function Bare(e: Expr): (ts: seq<Token>)
    ensures |ts| > 0
    decreases e, 0
  {
    match e
    case IntLit(n) => [TInt(n)]
    case BoolLit(b) => [if b then TTrue else TFalse]
    case NilLit => [TNil]
    case Var(x) => [TIdent(x)]
    case Neg(e) => [TMinus] + Written(e, PREC_PRIMARY)
    case Not(e) => [TBang] + Written(e, PREC_PRIMARY)
    case Unwrap(e) => Written(e, PREC_UNARY) + [TBang]
    case Call(f, args) => [TIdent(f), TLParen] + WrittenArgs(args) + [TRParen]
    case Bin(_, l, r) => Written(l, Prec(e)) + [InfixToken(e)] + Written(r, Prec(e) + 1)
    case And(l, r) => Written(l, Prec(e)) + [InfixToken(e)] + Written(r, Prec(e) + 1)
    case Or(l, r) => Written(l, Prec(e)) + [InfixToken(e)] + Written(r, Prec(e) + 1)
    case Coalesce(l, r) => Written(l, Prec(e)) + [InfixToken(e)] + Written(r, Prec(e) + 1)
  }

  function WrittenArgs(es: Exprs): seq<Token>
    decreases es, 2
  {
    match es
    case NoExprs => []
    case Exprs(e, NoExprs) => Written(e, PREC_LOWEST)
    case Exprs(e, rest) => Written(e, PREC_LOWEST) + [TComma] + WrittenArgs(rest)
  }

  /** The language can express `e`: its names are short enough to be told apart, and there is no unwrap right
    * behind an opening parenthesis or a prefix operator: `(x!)` is not read, and `-x!` is `(-x)!`. */
  predicate Writable(e: Expr, min: nat, lead: bool)
    decreases e, 1
  {
    if Prec(e) < min then BareWritable(e, false) else BareWritable(e, lead)
  }

  predicate BareWritable(e: Expr, lead: bool)
    decreases e, 0
  {
    match e
    case Neg(e) => Writable(e, PREC_PRIMARY, false)
    case Not(e) => Writable(e, PREC_PRIMARY, false)
    case Unwrap(e) => lead && Writable(e, PREC_UNARY, true)
    case Var(x) => NameOk(x)
    case Call(f, args) => NameOk(f) && ArgsWritable(args)
    case Bin(_, l, r) => Writable(l, Prec(e), lead) && Writable(r, Prec(e) + 1, true)
    case And(l, r) => Writable(l, Prec(e), lead) && Writable(r, Prec(e) + 1, true)
    case Or(l, r) => Writable(l, Prec(e), lead) && Writable(r, Prec(e) + 1, true)
    case Coalesce(l, r) => Writable(l, Prec(e), lead) && Writable(r, Prec(e) + 1, true)
    case _ => true
  }

  predicate ArgsWritable(es: Exprs)
    decreases es, 2
  {
    match es
    case NoExprs => true
    case Exprs(e, rest) => Writable(e, PREC_LOWEST, true) && ArgsWritable(rest)
  }

  // ----- reading inverts writing -----

  /** What may follow an operand written at level `m` so that the operand ends there. */
  predicate Ends(rest: seq<Token>, m: nat) {
    Head(rest) != TBang && InfixPrec(Head(rest)) <= m
  }

  /** Reading `e` written at level `m`, with operators from level `min` on, comes to `e` as the left
    * operand of whatever follows. */
  lemma {:induction false} ClimbReads(e: Expr, m: nat, min: nat, lead: bool, rest: seq<Token>, ctx: Ctx)
    requires ExprOk(e, ctx) && Writable(e, m, lead) && 1 <= min <= m <= PREC_UNARY && Ends(rest, m)
    ensures Climb(Written(e, m) + rest, min, lead, ctx) == Infix(e, rest, min, ctx)
    decreases e, if Prec(e) < m then 7 else 3
  {
    hide Infix, Primary;
    if Prec(e) < m || Prec(e) == PREC_PRIMARY {
      PrimaryReads(e, m, lead, rest, ctx);
    } else if e.Unwrap? {
      PostfixReads(e, rest, ctx);
    } else {
      InfixReads(e, m, min, lead, rest, ctx);
    }
  }

  lemma {:induction false} InfixReads(e: Expr, m: nat, min: nat, lead: bool, rest: seq<Token>, ctx: Ctx)
    requires ExprOk(e, ctx) && Writable(e, m, lead) && 1 <= min <= m && Ends(rest, m)
    requires m <= Prec(e) <= 7
    ensures Climb(Written(e, m) + rest, min, lead, ctx) == Infix(e, rest, min, ctx)
    decreases e, 2
  {
    hide Climb, Written, Bare, Writable, BareWritable, ExprOk, Primary, Combine, InfixPrec;
    var p, l, r, t := Prec(e), e.l, e.r, InfixToken(e);
    InfixParts(e, m, lead, ctx);
    var tail := [t] + (Written(r, p + 1) + rest);
    assert Written(e, m) + rest == Written(l, p) + tail;
    ClimbReads(l, p, min, lead, tail, ctx);
    assert tail[1..] == Written(r, p + 1) + rest;
    ClimbReads(r, p + 1, p + 1, true, rest, ctx);
    assert Infix(r, rest, p + 1, ctx) == Parsed(r, rest);
  }

  lemma {:induction false} InfixParts(e: Expr, m: nat, lead: bool, ctx: Ctx)
    requires ExprOk(e, ctx) && Writable(e, m, lead) && m <= Prec(e) <= 7
    ensures var p, l, r, t := Prec(e), e.l, e.r, InfixToken(e);
            && ExprOk(l, ctx) && ExprOk(r, ctx) && Writable(l, p, lead) && Writable(r, p + 1, true)
            && Written(e, m) == Written(l, p) + [t] + Written(r, p + 1)
            && Combine(t, l, r) == e && InfixPrec(t) == p && t != TBang
  {
  }

  /** Operands that start and end with tokens of their own. */
  lemma {:induction false} PrimaryReads(e: Expr, m: nat, lead: bool, rest: seq<Token>, ctx: Ctx)
    requires ExprOk(e, ctx) && Writable(e, m, lead) && m <= PREC_PRIMARY && (Prec(e) < m || Prec(e) == PREC_PRIMARY)
    ensures Primary(Written(e, m) + rest, ctx) == Parsed(e, rest)
    decreases e, if Prec(e) < m then 6 else 1
  {
    hide Climb, Named, Infix, Primary;
    if Prec(e) < m {
      ParenthesesRead(e, m, lead, rest, ctx);
    } else {
      BareReads(e, lead, rest, ctx);
    }
  }

  lemma {:induction false} ParenthesesRead(e: Expr, m: nat, lead: bool, rest: seq<Token>, ctx: Ctx)
    requires ExprOk(e, ctx) && Writable(e, m, lead) && m <= PREC_PRIMARY && Prec(e) < m
    ensures Primary(Written(e, m) + rest, ctx) == Parsed(e, rest)
    decreases e, 5
  {
    hide Climb, Named, ExprOk, Bare;
    var ts, inner := Written(e, m) + rest, [TRParen] + rest;
    assert ts == [TLParen] + (Written(e, 1) + inner);
    assert ts[1..] == Written(e, 1) + inner;
    ClimbReads(e, 1, 1, false, inner, ctx);
    assert Infix(e, inner, 1, ctx) == Parsed(e, inner);
    assert inner[1..] == rest;
  }

  lemma {:induction false} BareReads(e: Expr, lead: bool, rest: seq<Token>, ctx: Ctx)
    requires ExprOk(e, ctx) && BareWritable(e, lead) && Prec(e) == PREC_PRIMARY
    ensures Primary(Bare(e) + rest, ctx) == Parsed(e, rest)
    decreases e, 0
  {
    hide Climb, Named, Infix, Written, WrittenArgs;
    var ts := Bare(e) + rest;
    match e {
      case IntLit(n) => assert ts == [TInt(n)] + rest;
      case BoolLit(b) => assert ts == [if b then TTrue else TFalse] + rest;
      case NilLit => assert ts == [TNil] + rest;
      case Var(x) =>
        assert ts == [TIdent(x)] + rest;
        VariableReads(x, rest, ctx);
      case Neg(x) =>
        assert ts == [TMinus] + (Written(x, PREC_PRIMARY) + rest);
        OperandReads(x, ts, rest, ctx);
      case Not(x) =>
        assert ts == [TBang] + (Written(x, PREC_PRIMARY) + rest);
        OperandReads(x, ts, rest, ctx);
      case Call(f, args) =>
        assert ts == [TIdent(f), TLParen] + (WrittenArgs(args) + ([TRParen] + rest));
        CallReads(e, ts, rest, ctx);
    }
  }

  lemma {:induction false} VariableReads(x: Name, rest: seq<Token>, ctx: Ctx)
    requires ExprOk(Var(x), ctx)
    ensures Named(Clamp(x), rest, ctx) == Parsed(Var(x), rest)
  {
  }

  /** The operand of a prefix operator. */
  lemma {:induction false} OperandReads(x: Expr, ts: seq<Token>, rest: seq<Token>, ctx: Ctx)
    requires ExprOk(x, ctx) && Writable(x, PREC_PRIMARY, false) && |ts| > 0 && ts[1..] == Written(x, PREC_PRIMARY) + rest
    ensures Climb(ts[1..], PREC_UNARY, false, ctx) == Parsed(x, rest)
    decreases x, 8
  {
    hide Primary;
    PrimaryReads(x, PREC_PRIMARY, false, rest, ctx);
  }

  /** A primary with its trailing unwraps. */
  lemma {:induction false} PostfixReads(e: Expr, rest: seq<Token>, ctx: Ctx)
    requires ExprOk(e, ctx) && Writable(e, PREC_UNARY, true)
    ensures var r := Primary(Written(e, PREC_UNARY) + rest, ctx);
            r.Parsed? && Postfix(r.e, r.rest) == Postfix(e, rest)
    decreases e, if Prec(e) < PREC_UNARY then 7 else 2
  {
    hide Primary;
    if e.Unwrap? {
      var tail := [TBang] + rest;
      assert Written(e, PREC_UNARY) + rest == Written(e.e, PREC_UNARY) + tail;
      PostfixReads(e.e, tail, ctx);
      assert tail[1..] == rest;
    } else {
      PrimaryReads(e, PREC_UNARY, true, rest, ctx);
    }
  }

  lemma {:induction false} CallReads(e: Expr, ts: seq<Token>, rest: seq<Token>, ctx: Ctx)
    requires e.Call? && ExprOk(e, ctx) && ArgsWritable(e.args) && ts == Bare(e) + rest
    ensures Named(Clamp(e.f), ts[1..], ctx) == Parsed(e, rest)
    decreases e.args, 9
  {
    hide Climb;
    var inner := [TRParen] + rest;
    assert ts[1..] == [TLParen] + (WrittenArgs(e.args) + inner);
    assert ts[1..][1..] == WrittenArgs(e.args) + inner;
    if e.args.Exprs? {
      ArgumentsRead(e.args, inner, ctx);
    } else {
      assert WrittenArgs(e.args) + inner == inner;
    }
    assert inner[1..] == rest;
  }

  lemma {:induction false} ArgumentsRead(es: Exprs, rest: seq<Token>, ctx: Ctx)
    requires es.Exprs? && ExprsOk(es, ctx) && ArgsWritable(es) && Head(rest) == TRParen
    ensures var ts := WrittenArgs(es) + rest;
            ArgumentList(ts, ctx) == ParsedArgs(es, rest) && Head(ts) != TRParen
    decreases es, 0
  {
    hide Climb, ExprOk, Writable, Written;
    var e, more := es.first, es.rest;
    var tail := if more == NoExprs then rest else [TComma] + (WrittenArgs(more) + rest);
    assert WrittenArgs(es) + rest == Written(e, PREC_LOWEST) + tail;
    StartsOk(e, PREC_LOWEST, tail);
    ClimbReads(e, 1, 1, true, tail, ctx);
    assert Infix(e, tail, 1, ctx) == Parsed(e, tail);
    if more != NoExprs {
      assert tail[1..] == WrittenArgs(more) + rest;
      ArgumentsRead(more, rest, ctx);
    }
  }

  /** Reading an expression written with as few parentheses as precedence and left associativity allow
    * gives the expression back, and consumes exactly its tokens. */
  lemma {:induction false} ExpressionReads(e: Expr, rest: seq<Token>, ctx: Ctx)
    requires ExprOk(e, ctx) && Writable(e, PREC_LOWEST, true)
    requires Head(rest) != TBang && InfixPrec(Head(rest)) == PREC_NONE
    ensures Expression(Written(e, PREC_LOWEST) + rest, ctx) == Parsed(e, rest)
  {
    ClimbReads(e, PREC_LOWEST, PREC_LOWEST, true, rest, ctx);
  }

  /** What the grammar cannot say: an unwrap inside parentheses is rejected, and one behind a prefix
    * operator applies to the negated value. */
  lemma {:induction false} UnwrapPlaces(x: Name, ctx: Ctx)
    requires ExprOk(Var(x), ctx)
    ensures Expression([TLParen, TIdent(x), TBang, TRParen], ctx) == NoParse
    ensures Expression([TMinus, TIdent(x), TBang], ctx) == Parsed(Unwrap(Neg(Var(x))), [])
  {
    hide Climb, Infix, Named;
    var a: seq<Token> := [TLParen, TIdent(x), TBang, TRParen];
    VariableReads(x, [TBang, TRParen], ctx);
    assert a[1..] == [TIdent(x)] + [TBang, TRParen];
    AloneReads(x, a[1..], [TBang, TRParen], 1, ctx);
    FailsAtOnce(a, ctx);
    var b: seq<Token> := [TMinus, TIdent(x), TBang];
    assert b[1..] == [TIdent(x)] + [TBang] && [TBang][1..] == [];
    VariableReads(x, [TBang], ctx);
    AloneReads(x, b[1..], [TBang], 8, ctx);
    assert Primary(b, ctx) == Parsed(Neg(Var(x)), [TBang]);
    assert Postfix(Neg(Var(x)), [TBang]) == Parsed(Unwrap(Neg(Var(x))), []);
    EndsAtOnce(b, Unwrap(Neg(Var(x))), ctx);
  }

  lemma {:induction false} FailsAtOnce(ts: seq<Token>, ctx: Ctx)
    requires Primary(ts, ctx) == NoParse
    ensures Expression(ts, ctx) == NoParse
  {
    hide Primary;
  }

  lemma {:induction false} EndsAtOnce(ts: seq<Token>, e: Expr, ctx: Ctx)
    requires Primary(ts, ctx).Parsed? && ExprOk(e, ctx)
    requires Postfix(Primary(ts, ctx).e, Primary(ts, ctx).rest) == Parsed(e, [])
    ensures Expression(ts, ctx) == Parsed(e, [])
  {
    hide Primary, Postfix;
    assert Infix(e, [], PREC_LOWEST, ctx) == Parsed(e, []);
  }

  /** A variable in front of a `!`, where no postfix operator is read. */
  lemma {:induction false} AloneReads(x: Name, ts: seq<Token>, rest: seq<Token>, min: nat, ctx: Ctx)
    requires ExprOk(Var(x), ctx) && ts == [TIdent(x)] + rest && Head(rest) == TBang
    ensures Climb(ts, min, false, ctx) == Parsed(Var(x), rest)
  {
    VariableReads(x, rest, ctx);
    assert ts[1..] == rest;
  }

  // ----- exactly the writable expressions can be read -----

  lemma {:induction false} LeadWritable(e: Expr, lead: bool)
    requires BareWritable(e, false)
    ensures BareWritable(e, lead)
    decreases e, 0
  {
    match e {
      case Bin(_, l, _) => LeftWritable(l, Prec(e), lead);
      case And(l, _) => LeftWritable(l, Prec(e), lead);
      case Or(l, _) => LeftWritable(l, Prec(e), lead);
      case Coalesce(l, _) => LeftWritable(l, Prec(e), lead);
      case _ =>
    }
  }

  lemma {:induction false} LeftWritable(l: Expr, m: nat, lead: bool)
    requires Writable(l, m, false)
    ensures Writable(l, m, lead)
    decreases l, 1
  {
    LeadWritable(l, lead);
  }

  /** An operand that can be written at a level can be written at any lower one. */
  lemma {:induction false} LowerWritable(e: Expr, m: nat, m': nat, lead: bool)
    requires Writable(e, m, lead) && m' <= m
    ensures Writable(e, m', lead)
  {
    if BareWritable(e, false) {
      LeadWritable(e, lead);
    }
  }

  lemma {:induction false} PrimaryWritable(ts: seq<Token>, ctx: Ctx)
    ensures var r := Primary(ts, ctx); r.Parsed? ==> Writable(r.e, PREC_PRIMARY, false)
    decreases |ts|, 0
  {
    hide Named, Infix, ExprOk;
    match Head(ts) {
      case TLParen =>
        ClimbWritable(ts[1..], PREC_LOWEST, false, ctx);
        var r := Climb(ts[1..], PREC_LOWEST, false, ctx);
        if r.Parsed? {
          LeadWritable(r.e, false);
        }
      case TBang => PrefixWritable(ts, ctx);
      case TOp(_) => PrefixWritable(ts, ctx);
      case TIdent(x) => NamedWritable(Clamp(x), ts[1..], ctx);
      case _ =>
    }
  }

  /** Behind a prefix operator there is a primary and no infix operator. */
  lemma {:induction false} PrefixWritable(ts: seq<Token>, ctx: Ctx)
    requires |ts| > 0
    ensures var r := Climb(ts[1..], PREC_UNARY, false, ctx); r.Parsed? ==> Writable(r.e, PREC_PRIMARY, false)
    decreases |ts|, 0, 0
  {
    hide Primary, ExprOk;
    PrimaryWritable(ts[1..], ctx);
  }

  lemma {:induction false} NamedWritable(x: Name, ts: seq<Token>, ctx: Ctx)
    requires |x| < IDENT_MAX
    ensures var r := Named(x, ts, ctx); r.Parsed? ==> Writable(r.e, PREC_PRIMARY, false)
    decreases |ts|, 5
  {
    hide ArgumentList, ExprOk;
    var r := Named(x, ts, ctx);
    if r.Parsed? && r.e.Call? {
      if Head(ts[1..]) != TRParen {
        ListWritable(ts[1..], ctx);
        assert Arguments(ts[1..], ctx) == ArgumentList(ts[1..], ctx);
      } else {
        assert r.e.args == NoExprs;
      }
      assert ArgsWritable(r.e.args);
    }
  }

  lemma {:induction false} ListWritable(ts: seq<Token>, ctx: Ctx)
    ensures var r := ArgumentList(ts, ctx); r.ParsedArgs? ==> ArgsWritable(r.es)
    decreases |ts|, 3
  {
    hide ExprOk, Writable;
    ClimbWritable(ts, PREC_LOWEST, true, ctx);
    var r := Climb(ts, PREC_LOWEST, true, ctx);
    if r.Parsed? && Head(r.rest) == TComma {
      ListWritable(r.rest[1..], ctx);
    }
  }

  lemma {:induction false} PostfixWritable(e: Expr, ts: seq<Token>)
    requires Writable(e, PREC_UNARY, true)
    ensures var r := Postfix(e, ts); Writable(r.e, PREC_UNARY, true)
    decreases |ts|
  {
    if Head(ts) == TBang {
      PostfixWritable(Unwrap(e), ts[1..]);
    }
  }

  lemma {:induction false} InfixWritable(l: Expr, ts: seq<Token>, min: nat, lead: bool, ctx: Ctx)
    requires ExprOk(l, ctx) && 1 <= min <= 8 && Writable(l, min, lead)
    requires InfixPrec(Head(ts)) > 0 ==> Writable(l, InfixPrec(Head(ts)), lead)
    ensures var r := Infix(l, ts, min, ctx);
            r.Parsed? ==> Writable(r.e, min, lead) && InfixPrec(Head(r.rest)) < min
    decreases |ts|, 1
  {
    hide ExprOk, Writable, Climb;
    var p := InfixPrec(Head(ts));
    if p >= min {
      ClimbWritable(ts[1..], p + 1, true, ctx);
      var r := Climb(ts[1..], p + 1, true, ctx);
      if r.Parsed? {
        var e := Combine(Head(ts), l, r.e);
        CombineWritable(Head(ts), l, r.e, lead, ctx);
        LowerWritable(e, p, min, lead);
        LowerWritable(e, p, InfixPrec(Head(r.rest)), lead);
        InfixWritable(e, r.rest, min, lead, ctx);
      }
    }
  }

  lemma {:induction false} CombineWritable(t: Token, l: Expr, r: Expr, lead: bool, ctx: Ctx)
    requires InfixPrec(t) > 0 && Writable(l, InfixPrec(t), lead) && Writable(r, InfixPrec(t) + 1, true)
    requires ExprOk(l, ctx) && ExprOk(r, ctx)
    ensures Prec(Combine(t, l, r)) == InfixPrec(t) && Writable(Combine(t, l, r), InfixPrec(t), lead)
    ensures ExprOk(Combine(t, l, r), ctx)
  {
    hide ExprOk, BareWritable, Combine, InfixPrec, Prec;
    CombinePrec(t, l, r);
    CombineBare(t, l, r, lead);
    CombineOk(t, l, r, ctx);
  }

  lemma {:induction false} CombinePrec(t: Token, l: Expr, r: Expr)
    requires InfixPrec(t) > 0
    ensures Prec(Combine(t, l, r)) == InfixPrec(t)
  {
  }

  lemma {:induction false} CombineBare(t: Token, l: Expr, r: Expr, lead: bool)
    requires InfixPrec(t) > 0
    ensures BareWritable(Combine(t, l, r), lead) == (Writable(l, InfixPrec(t), lead) && Writable(r, InfixPrec(t) + 1, true))
  {
    hide Writable;
    match t {
      case TOp(op) => assert BareWritable(Bin(op, l, r), lead) == (Writable(l, InfixPrec(t), lead) && Writable(r, InfixPrec(t) + 1, true));
      case TAnd => assert BareWritable(And(l, r), lead) == (Writable(l, 2, lead) && Writable(r, 3, true));
      case TOr => assert BareWritable(Or(l, r), lead) == (Writable(l, 1, lead) && Writable(r, 2, true));
      case TCoalesce => assert BareWritable(Coalesce(l, r), lead) == (Writable(l, 4, lead) && Writable(r, 5, true));
    }
  }

  lemma {:induction false} CombineOk(t: Token, l: Expr, r: Expr, ctx: Ctx)
    requires InfixPrec(t) > 0 && ExprOk(l, ctx) && ExprOk(r, ctx)
    ensures ExprOk(Combine(t, l, r), ctx)
  {
    hide InfixPrec;
    match t {
      case TOp(op) => assert ExprOk(Bin(op, l, r), ctx);
      case TAnd => assert ExprOk(And(l, r), ctx);
      case TOr => assert ExprOk(Or(l, r), ctx);
      case _ => assert ExprOk(Coalesce(l, r), ctx);
    }
  }

  lemma {:induction false} ClimbWritable(ts: seq<Token>, min: nat, lead: bool, ctx: Ctx)
    requires 1 <= min <= 8
    ensures var r := Climb(ts, min, lead, ctx);
            r.Parsed? ==> Writable(r.e, min, lead) && InfixPrec(Head(r.rest)) < min
    decreases |ts|, 2
  {
    hide ExprOk, Writable, Infix, Primary, BareWritable;
    PrimaryWritable(ts, ctx);
    var q := Primary(ts, ctx);
    if q.Parsed? {
      LeadingWritable(q.e, lead);
      var r := if lead then Postfix(q.e, q.rest) else q;
      if lead {
        PostfixWritable(q.e, q.rest);
      }
      LowerWritable(r.e, PREC_UNARY, min, lead);
      LowerWritable(r.e, PREC_UNARY, InfixPrec(Head(r.rest)), lead);
      InfixWritable(r.e, r.rest, min, lead, ctx);
    }
  }

  lemma {:induction false} LeadingWritable(e: Expr, lead: bool)
    requires Writable(e, PREC_PRIMARY, false)
    ensures Writable(e, PREC_UNARY, lead)
  {
    if BareWritable(e, false) {
      LeadWritable(e, lead);
    }
  }

  /** Some text reads as `e` exactly if `e` is writable. */
  lemma {:induction false} ExactlyTheWritable(e: Expr, ctx: Ctx)
    requires ExprOk(e, ctx)
    ensures (exists ts :: Expression(ts, ctx) == Parsed(e, [])) <==> Writable(e, PREC_LOWEST, true)
  {
    if Writable(e, PREC_LOWEST, true) {
      ExpressionReads(e, [], ctx);
      assert Written(e, PREC_LOWEST) + [] == Written(e, PREC_LOWEST);
    }
    if ts :| Expression(ts, ctx) == Parsed(e, []) {
      ClimbWritable(ts, PREC_LOWEST, true, ctx);
    }
  }

  // ----- ill-formed expressions are not read -----

  /** Reading fails, or stops in front of a parenthesis that nothing can consume. */
  predicate Stuck(r: Parsed) {
    r.NoParse? || Head(r.rest) == TLParen
  }

  lemma {:induction false} ClimbSticks(e: Expr, m: nat, min: nat, lead: bool, rest: seq<Token>, ctx: Ctx)
    requires Head(rest) != TLParen
    requires !ExprOk(e, ctx) && Writable(e, m, lead) && 1 <= min <= m <= PREC_UNARY && Ends(rest, m)
    ensures Stuck(Climb(Written(e, m) + rest, min, lead, ctx))
    decreases e, if Prec(e) < m then 7 else 3
  {
    hide Primary, ExprOk, Writable, Written;
    if Prec(e) < m || Prec(e) == PREC_PRIMARY {
      PrimarySticks(e, m, lead, rest, ctx);
      StaysStuck(Written(e, m) + rest, min, lead, ctx);
    } else if e.Unwrap? {
      UnwrapLeads(e, m, lead);
      UnwrapSticks(e, m, rest, ctx);
      StaysStuck(Written(e, m) + rest, min, lead, ctx);
    } else {
      InfixSticks(e, m, min, lead, rest, ctx);
    }
  }

  lemma {:induction false} UnwrapLeads(e: Expr, m: nat, lead: bool)
    requires e.Unwrap? && m <= PREC_UNARY && Writable(e, m, lead)
    ensures lead
  {
  }

  lemma {:induction false} StaysStuck(ts: seq<Token>, min: nat, lead: bool, ctx: Ctx)
    requires Stuck(Primary(ts, ctx))
    ensures Stuck(Climb(ts, min, lead, ctx))
  {
    hide Primary;
  }

  lemma {:induction false} InfixSticks(e: Expr, m: nat, min: nat, lead: bool, rest: seq<Token>, ctx: Ctx)
    requires Head(rest) != TLParen
    requires !ExprOk(e, ctx) && Writable(e, m, lead) && 1 <= min <= m && Ends(rest, m) && m <= Prec(e) <= 7
    ensures Stuck(Climb(Written(e, m) + rest, min, lead, ctx))
    decreases e, 2
  {
    hide Climb, Written, Bare, Writable, BareWritable, ExprOk, Primary, Combine, InfixPrec;
    var p, l, r, t := Prec(e), e.l, e.r, InfixToken(e);
    OperandParts(e, m, lead, ctx);
    var tail := [t] + (Written(r, p + 1) + rest);
    assert Written(e, m) + rest == Written(l, p) + tail;
    if ExprOk(l, ctx) {
      ClimbReads(l, p, min, lead, tail, ctx);
      assert tail[1..] == Written(r, p + 1) + rest;
      ClimbSticks(r, p + 1, p + 1, true, rest, ctx);
      RightSticks(l, tail, min, ctx);
    } else {
      ClimbSticks(l, p, min, lead, tail, ctx);
    }
  }

  lemma {:induction false} RightSticks(l: Expr, ts: seq<Token>, min: nat, ctx: Ctx)
    requires ExprOk(l, ctx) && InfixPrec(Head(ts)) >= min >= 1 && Stuck(Climb(ts[1..], InfixPrec(Head(ts)) + 1, true, ctx))
    ensures Stuck(Infix(l, ts, min, ctx))
  {
    hide Climb;
  }

  lemma {:induction false} OperandParts(e: Expr, m: nat, lead: bool, ctx: Ctx)
    requires !ExprOk(e, ctx) && Writable(e, m, lead) && m <= Prec(e) <= 7
    ensures var p, l, r, t := Prec(e), e.l, e.r, InfixToken(e);
            && (!ExprOk(l, ctx) || !ExprOk(r, ctx)) && Writable(l, p, lead) && Writable(r, p + 1, true)
            && Written(e, m) == Written(l, p) + [t] + Written(r, p + 1)
            && InfixPrec(t) == p && t != TBang
  {
  }

  lemma {:induction false} PrimarySticks(e: Expr, m: nat, lead: bool, rest: seq<Token>, ctx: Ctx)
    requires Head(rest) != TLParen
    requires !ExprOk(e, ctx) && Writable(e, m, lead) && m <= PREC_PRIMARY && (Prec(e) < m || Prec(e) == PREC_PRIMARY)
    ensures Stuck(Primary(Written(e, m) + rest, ctx))
    decreases e, if Prec(e) < m then 6 else 1
  {
    hide Climb, Named, Infix, Primary;
    if Prec(e) < m {
      GroupSticks(e, m, lead, rest, ctx);
    } else {
      BareSticks(e, lead, rest, ctx);
    }
  }

  lemma {:induction false} GroupSticks(e: Expr, m: nat, lead: bool, rest: seq<Token>, ctx: Ctx)
    requires Head(rest) != TLParen
    requires !ExprOk(e, ctx) && Writable(e, m, lead) && m <= PREC_PRIMARY && Prec(e) < m
    ensures Stuck(Primary(Written(e, m) + rest, ctx))
    decreases e, 5
  {
    hide Climb, Named, ExprOk, Bare;
    var ts, inner := Written(e, m) + rest, [TRParen] + rest;
    assert ts == [TLParen] + (Written(e, 1) + inner);
    assert ts[1..] == Written(e, 1) + inner;
    ClimbSticks(e, 1, 1, false, inner, ctx);
  }

  lemma {:induction false} BareSticks(e: Expr, lead: bool, rest: seq<Token>, ctx: Ctx)
    requires Head(rest) != TLParen
    requires !ExprOk(e, ctx) && BareWritable(e, lead) && Prec(e) == PREC_PRIMARY
    ensures Stuck(Primary(Bare(e) + rest, ctx))
    decreases e, 0
  {
    hide Climb, Named, Infix, Written, WrittenArgs;
    var ts := Bare(e) + rest;
    match e {
      case Var(x) =>
        assert ts == [TIdent(x)] + rest;
        UnknownSticks(x, rest, ctx);
      case Neg(x) =>
        assert ts == [TMinus] + (Written(x, PREC_PRIMARY) + rest);
        OperandSticks(x, ts, rest, ctx);
      case Not(x) =>
        assert ts == [TBang] + (Written(x, PREC_PRIMARY) + rest);
        OperandSticks(x, ts, rest, ctx);
      case Call(f, args) =>
        assert ts == [TIdent(f), TLParen] + (WrittenArgs(args) + ([TRParen] + rest));
        CallSticks(e, ts, rest, ctx);
    }
  }

  lemma {:induction false} UnknownSticks(x: Name, rest: seq<Token>, ctx: Ctx)
    requires NameOk(x) && !ExprOk(Var(x), ctx)
    ensures Head(rest) != TLParen ==> Named(Clamp(x), rest, ctx) == NoParse
  {
  }

  lemma {:induction false} OperandSticks(x: Expr, ts: seq<Token>, rest: seq<Token>, ctx: Ctx)
    requires Head(rest) != TLParen
    requires !ExprOk(x, ctx) && Writable(x, PREC_PRIMARY, false) && |ts| > 0 && ts[1..] == Written(x, PREC_PRIMARY) + rest
    ensures Stuck(Climb(ts[1..], PREC_UNARY, false, ctx))
    decreases x, 8
  {
    hide Primary, Climb;
    PrimarySticks(x, PREC_PRIMARY, false, rest, ctx);
    StaysStuck(ts[1..], PREC_UNARY, false, ctx);
  }

  lemma {:induction false} UnwrapSticks(e: Expr, m: nat, rest: seq<Token>, ctx: Ctx)
    requires Head(rest) != TLParen
    requires e.Unwrap? && !ExprOk(e, ctx) && Writable(e, m, true) && m <= PREC_UNARY
    ensures Stuck(Primary(Written(e, m) + rest, ctx))
    decreases e, 2
  {
    hide Primary;
    var tail := [TBang] + rest;
    assert Written(e, m) + rest == Written(e.e, PREC_UNARY) + tail;
    if e.e.Unwrap? {
      UnwrapSticks(e.e, PREC_UNARY, tail, ctx);
    } else {
      PrimarySticks(e.e, PREC_UNARY, true, tail, ctx);
    }
  }

  lemma {:induction false} CallSticks(e: Expr, ts: seq<Token>, rest: seq<Token>, ctx: Ctx)
    requires Head(rest) != TLParen
    requires e.Call? && !ExprOk(e, ctx) && NameOk(e.f) && ArgsWritable(e.args) && ts == Bare(e) + rest
    ensures Stuck(Named(Clamp(e.f), ts[1..], ctx))
    decreases e.args, 9
  {
    hide Climb;
    var inner := [TRParen] + rest;
    assert ts[1..] == [TLParen] + (WrittenArgs(e.args) + inner);
    assert ts[1..][1..] == WrittenArgs(e.args) + inner;
    if e.args == NoExprs {
      assert WrittenArgs(e.args) + inner == inner;
    } else if ExprsOk(e.args, ctx) {
      ArgumentsRead(e.args, inner, ctx);
    } else {
      ArgumentsStick(e.args, inner, ctx);
    }
  }

  lemma {:induction false} ArgumentsStick(es: Exprs, rest: seq<Token>, ctx: Ctx)
    requires es.Exprs? && !ExprsOk(es, ctx) && ArgsWritable(es) && Head(rest) == TRParen
    ensures var r := ArgumentList(WrittenArgs(es) + rest, ctx); r.NoArgs? || Head(r.rest) == TLParen
    ensures Head(WrittenArgs(es) + rest) != TRParen
    decreases es, 0
  {
    hide Climb, ExprOk;
    var e, more := es.first, es.rest;
    var tail := if more == NoExprs then rest else [TComma] + (WrittenArgs(more) + rest);
    assert WrittenArgs(es) + rest == Written(e, PREC_LOWEST) + tail;
    StartsOk(e, PREC_LOWEST, tail);
    if ExprOk(e, ctx) {
      ClimbReads(e, 1, 1, true, tail, ctx);
      assert Infix(e, tail, 1, ctx) == Parsed(e, tail);
      assert tail[1..] == WrittenArgs(more) + rest;
      ArgumentsStick(more, rest, ctx);
    } else {
      ClimbSticks(e, 1, 1, true, tail, ctx);
    }
  }

  /** No expression starts with a closing parenthesis. */
  lemma {:induction false} StartsOk(e: Expr, m: nat, rest: seq<Token>)
    ensures Head(Written(e, m) + rest) != TRParen
    decreases e
  {
    match e {
      case Bin(_, l, _) => StartsOk(l, Prec(e), []);
      case And(l, _) => StartsOk(l, Prec(e), []);
      case Or(l, _) => StartsOk(l, Prec(e), []);
      case Coalesce(l, _) => StartsOk(l, Prec(e), []);
      case Unwrap(x) => StartsOk(x, PREC_UNARY, []);
      case _ =>
    }
  }

  /** The text of an expression is read to its end, as that expression, exactly if the expression is
    * well-formed: its variables are declared and its calls have the right number of arguments. */
  lemma {:induction false} ExactlyTheWellFormed(e: Expr, ctx: Ctx)
    requires Writable(e, PREC_LOWEST, true)
    ensures var r := Expression(Written(e, PREC_LOWEST) + [TEnd], ctx);
            if ExprOk(e, ctx) then r == Parsed(e, [TEnd]) else r.NoParse? || Head(r.rest) != TEnd
  {
    if ExprOk(e, ctx) {
      ExpressionReads(e, [TEnd], ctx);
    } else {
      ClimbSticks(e, PREC_LOWEST, PREC_LOWEST, true, [TEnd], ctx);
    }
  }

  /** All expressions of a statement are writable. */
  predicate StmtWritable(s: Stmt)
    decreases s, 1
  {
    match s
    case Seq(s1, s2) => StmtWritable(s1) && StmtWritable(s2)
    case Declare(_, _, e) => TextOf(e)
    case Assign(_, e) => TextOf(e)
    case Compound(_, _, e) => TextOf(e)
    case Do(e) => TextOf(e)
    case Print(args) => ArgsWritable(args)
    case If(c, thn, els) => TextOf(c) && StmtWritable(thn) && ElseWritable(els)
    case IfLet(_, e, thn, els) => TextOf(e) && StmtWritable(thn) && ElseWritable(els)
    case While(c, body) => TextOf(c) && StmtWritable(body)
    case ForIn(_, lo, hi, _, body) => TextOf(lo) && TextOf(hi) && StmtWritable(body)
    case Switch(e, cases) => TextOf(e) && CasesWritable(cases)
    case Return(Some(e)) => TextOf(e)
    case _ => true
  }

  /** Some text stands for `e`. */
  predicate TextOf(e: Expr) {
    Writable(e, PREC_LOWEST, true)
  }

  predicate ElseWritable(els: Option<Stmt>)
    decreases els, 2
  {
    els.Some? ==> StmtWritable(els.value)
  }

  predicate CasesWritable(cases: Cases)
    decreases cases, 0
  {
    match cases
    case NoCase => true
    case Default(body) => StmtWritable(body)
    case Case(values, body, rest) => ArgsWritable(values) && StmtWritable(body) && CasesWritable(rest)
  }
}
