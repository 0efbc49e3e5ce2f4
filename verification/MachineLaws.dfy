/** What the instructions compute, law by law: each is stated of the byte in the code and of the stack before and after
  * one step, in terms of the integers, bytes and elements themselves. */
module MachineLaws {
  import opened Bytes
  import opened Values
  import opened Syntax
  import Semantics
  import M = Machine

  /** The next instruction is the byte `op`. */
  predicate At(img: M.Image, s: M.State, op: Byte) {
    s.pc < |img.code| && img.code[s.pc] == op
  }

  /** The next instruction is `op`, and the operands on top of the stack are `a` and `b`. */
  predicate On(img: M.Image, s: M.State, op: Byte, a: Value, b: Value) {
    At(img, s, op) && |s.stack| >= 2 && s.stack[|s.stack| - 2] == a && s.stack[|s.stack| - 1] == b
  }

  predicate OnInts(img: M.Image, s: M.State, op: Byte, a: I16, b: I16) {
    On(img, s, op, Imm(Int(a)), Imm(Int(b)))
  }

  /** One step over an instruction of one byte leaves `v` in place of the topmost `n` values and changes nothing else. */
  predicate Leaves(img: M.Image, s: M.State, n: nat, v: Immediate)
    requires n <= |s.stack|
  {
    M.Step(img, s) == M.Running(s.(pc := s.pc + 1, stack := s.stack[..|s.stack| - n] + [Imm(v)]))
  }

  predicate Stops(img: M.Image, s: M.State, err: M.Err) {
    M.Step(img, s).Stopped? && M.Step(img, s).err == err
  }

  // ----- dispatch -----

  lemma {:induction false} OperatorStep(img: M.Image, s: M.State) returns (i: M.Instr)
    requires s.pc < |img.code| && 0x30 <= img.code[s.pc] < 0x50
    ensures i == M.DecodeOperator([img.code[s.pc]]).instr && M.Step(img, s) == M.Exec(img, i, s.(pc := s.pc + 1))
  {
    hide M.Exec;
    i := M.DecodeOperator([img.code[s.pc]]).instr;
    assert M.Fetch(img.code, s.pc)[0] == img.code[s.pc];
  }

  lemma {:induction false} ArithStep(img: M.Image, s: M.State, op: M.ArithOp, a: I16, b: I16)
    requires OnInts(img, s, match op case Add => 0x30 case Sub => 0x31 case Mul => 0x32 case Div => 0x33 case Mod => 0x34, a, b)
    ensures match M.Arith(op, a, b)
            case Value16(r) => Leaves(img, s, 2, Int(r))
            case IntErr(e) => Stops(img, s, e)
  {
    hide M.Step, M.Arith;
    var i := OperatorStep(img, s);
  }

  // ----- arithmetic in 16 bits -----

  predicate Congruent(x: int, y: int) {
    (x - y) % 0x1_0000 == 0
  }

  /** OP_ADD leaves the sum modulo 65536, and so does `+` in the language. */
  lemma {:induction false} Sum(img: M.Image, s: M.State, a: I16, b: I16, w: Semantics.World) returns (r: I16)
    requires OnInts(img, s, 0x30, a, b)
    ensures Leaves(img, s, 2, Int(r)) && Semantics.Apply(Arith(M.Add), Int(a), Int(b), w) == Semantics.Val(Int(r), w)
    ensures Congruent(r, a + b)
  {
    ArithStep(img, s, M.Add, a, b);
    r := Wrap16(a + b);
  }

  /** OP_SUB leaves what added to the right operand gives the left one. */
  lemma {:induction false} Difference(img: M.Image, s: M.State, a: I16, b: I16, w: Semantics.World) returns (r: I16)
    requires OnInts(img, s, 0x31, a, b)
    ensures Leaves(img, s, 2, Int(r)) && Semantics.Apply(Arith(M.Sub), Int(a), Int(b), w) == Semantics.Val(Int(r), w)
    ensures Congruent(r + b, a)
  {
    ArithStep(img, s, M.Sub, a, b);
    r := Wrap16(a - b);
  }

  lemma {:induction false} Product(img: M.Image, s: M.State, a: I16, b: I16, w: Semantics.World) returns (r: I16)
    requires OnInts(img, s, 0x32, a, b)
    ensures Leaves(img, s, 2, Int(r)) && Semantics.Apply(Arith(M.Mul), Int(a), Int(b), w) == Semantics.Val(Int(r), w)
    ensures Congruent(r, a * b)
  {
    ArithStep(img, s, M.Mul, a, b);
    r := Wrap16(a * b);
  }

  /** Quotient and remainder of truncated division: no other pair is both. */
  predicate Divides(a: int, b: int, q: int, m: int) {
    a == q * b + m && (if b < 0 then b < m < -b else -b < m < b) && (m != 0 ==> (m < 0 <==> a < 0))
  }

  lemma {:induction false} EuclidDivides(a: int, b: int)
    requires b != 0 && a >= 0
    ensures Divides(a, b, a / b, a % b)
  {
    var q, m := a / b, a % b;
    assert a == q * b + m;
  }

  lemma {:induction false} TruncDivides(a: int, b: int)
    requires b != 0
    ensures Divides(a, b, M.TruncDiv(a, b), M.TruncMod(a, b))
  {
    if a >= 0 {
      EuclidDivides(a, b);
      var q, m := a / b, a % b;
      assert b * q == q * b;
    } else {
      EuclidDivides(-a, b);
      var q, m := (-a) / b, (-a) % b;
      assert b * -q == -(q * b) && -q * b == -(q * b);
    }
  }

  /** A quotient leaves 16 bits in one case only. */
  lemma {:induction false} QuotientFits(a: I16, b: I16, q: int, m: int)
    requires b != 0 && Divides(a, b, q, m)
    ensures if a == -0x8000 && b == -1 then q == 0x8000 && m == 0 else -0x8000 <= q < 0x8000
  {
    if b == 1 || b == -1 {
      assert m == 0 && q * b == a;
    } else if q >= 0x4001 || q <= -0x4001 {
      Grows(q, b);
      assert false;
    }
  }

  lemma {:induction false} Grows(q: int, b: int)
    requires (b > 1 || b < -1) && (q >= 0x4001 || q <= -0x4001)
    ensures q * b >= 0x8002 || q * b <= -0x8002
  {
    var x, y := if q > 0 then q else -q, if b > 0 then b else -b;
    NotNegative(x, y - 2);
    Spread(x, y);
    SignsOut(q, b);
  }

  lemma {:induction false} NotNegative(x: nat, y: nat)
    ensures x * y >= 0
  {
  }

  lemma {:induction false} Spread(x: int, y: int)
    ensures x * y == 2 * x + x * (y - 2)
  {
  }

  lemma {:induction false} SignsOut(q: int, b: int)
    ensures var x, y := if q > 0 then q else -q, if b > 0 then b else -b;
            q * b == x * y || q * b == -(x * y)
  {
  }

  /** OP_DIV and OP_MOD together: the quotient is truncated and the remainder has the sign of the dividend. The one
    * quotient that does not fit wraps. */
  lemma {:induction false} QuotientAndRemainder(img: M.Image, s: M.State, img': M.Image, s': M.State, a: I16, b: I16,
      w: Semantics.World)
    returns (q: I16, m: I16)
    requires OnInts(img, s, 0x33, a, b) && OnInts(img', s', 0x34, a, b) && b != 0
    ensures Leaves(img, s, 2, Int(q)) && Semantics.Apply(Arith(M.Div), Int(a), Int(b), w) == Semantics.Val(Int(q), w)
    ensures Leaves(img', s', 2, Int(m)) && Semantics.Apply(Arith(M.Mod), Int(a), Int(b), w) == Semantics.Val(Int(m), w)
    ensures if a == -0x8000 && b == -1 then q == -0x8000 && m == 0 else Divides(a, b, q, m)
  {
    hide M.Step, M.TruncDiv, M.TruncMod, Divides;
    ArithStep(img, s, M.Div, a, b);
    ArithStep(img', s', M.Mod, a, b);
    TruncDivides(a, b);
    QuotientFits(a, b, M.TruncDiv(a, b), M.TruncMod(a, b));
    RemainderFits(a, b, M.TruncDiv(a, b), M.TruncMod(a, b));
    q, m := Wrap16(M.TruncDiv(a, b)), Wrap16(M.TruncMod(a, b));
  }

  lemma {:induction false} RemainderFits(a: I16, b: I16, q: int, m: int)
    requires Divides(a, b, q, m)
    ensures -0x8000 < m < 0x8000
  {
  }

  /** Division stops with an error exactly if the divisor is zero. */
  lemma {:induction false} DivisionByZero(img: M.Image, s: M.State, op: Byte, a: I16, b: I16)
    requires OnInts(img, s, op, a, b) && (op == 0x33 || op == 0x34)
    ensures Stops(img, s, M.DivZero) <==> b == 0
    ensures M.Step(img, s).Stopped? <==> b == 0
  {
    hide M.Step;
    ArithStep(img, s, if op == 0x33 then M.Div else M.Mod, a, b);
  }

  lemma {:induction false} NoSmallMultiple(d: int, b: int)
    requires d != 0
    ensures d * b >= b >= 0 || d * b <= -b <= 0 || d * b >= -b >= 0 || d * b <= b <= 0
  {
    var x, y := if d > 0 then d else -d, if b > 0 then b else -b;
    assert x * y == y + (x - 1) * y;
    NotNegative(x - 1, y);
    if d > 0 {
      assert d * b == if b > 0 then x * y else -(x * y);
    } else {
      assert d * b == if b > 0 then -(x * y) else x * y;
    }
  }

  /** There is one such pair. */
  lemma {:induction false} DivisionUnique(a: int, b: int, q: int, m: int, q': int, m': int)
    requires b != 0 && Divides(a, b, q, m) && Divides(a, b, q', m')
    ensures q == q' && m == m'
  {
    var d := q - q';
    assert d * b == m' - m by {
      assert d * b == q * b - q' * b;
    }
    if d != 0 {
      NoSmallMultiple(d, b);
    }
  }

  // ----- comparison -----

  /** OP_LT, OP_LE, OP_GT and OP_GE leave true exactly for their order of the integers. */
  lemma {:induction false} Ordered(img: M.Image, s: M.State, op: Byte, a: I16, b: I16, w: Semantics.World)
    requires OnInts(img, s, op, a, b) && 0x42 <= op <= 0x45
    ensures var c := if op == 0x42 then M.Lt else if op == 0x43 then M.Le else if op == 0x44 then M.Gt else M.Ge;
            var r := if op == 0x42 then a < b else if op == 0x43 then a <= b else if op == 0x44 then b < a else b <= a;
            Leaves(img, s, 2, Bool(r)) && Semantics.Apply(Compare(c), Int(a), Int(b), w) == Semantics.Val(Bool(r), w)
  {
    hide M.Step;
    var i := OperatorStep(img, s);
  }

  /** Each comparison is the complement of one, and another one with the operands exchanged. */
  lemma {:induction false} Complements(imgs: seq<M.Image>, ss: seq<M.State>, a: I16, b: I16) returns (lt: bool, le: bool)
    requires |imgs| == |ss| == 4
    requires OnInts(imgs[0], ss[0], 0x42, a, b) && OnInts(imgs[1], ss[1], 0x43, a, b)
    requires OnInts(imgs[2], ss[2], 0x44, b, a) && OnInts(imgs[3], ss[3], 0x45, a, b)
    ensures Leaves(imgs[0], ss[0], 2, Bool(lt)) && Leaves(imgs[1], ss[1], 2, Bool(le))
    ensures Leaves(imgs[2], ss[2], 2, Bool(lt)) && Leaves(imgs[3], ss[3], 2, Bool(!lt))
    ensures le <==> lt || a == b
  {
    hide M.Step, Leaves;
    var w := Semantics.World(map[], []);
    Ordered(imgs[0], ss[0], 0x42, a, b, w);
    Ordered(imgs[1], ss[1], 0x43, a, b, w);
    Ordered(imgs[2], ss[2], 0x44, b, a, w);
    Ordered(imgs[3], ss[3], 0x45, a, b, w);
    lt, le := a < b, a <= b;
  }

  predicate Nothing(v: Value) {
    v == Imm(Nil) || v == Imm(OptNil)
  }

  /** OP_EQ and OP_NEQ: the two nils are equal, other values when they are the same. Strings and arrays are compared
    * as references. */
  lemma {:induction false} Equality(img: M.Image, s: M.State, op: Byte, a: Value, b: Value)
    requires On(img, s, op, a, b) && (op == 0x40 || op == 0x41)
    ensures Leaves(img, s, 2, Bool((a == b || (Nothing(a) && Nothing(b))) <==> op == 0x40))
  {
    hide M.Step;
    var i := OperatorStep(img, s);
  }

  /** OP_NEG leaves what cancels its operand modulo 65536, OP_INC the successor, OP_NOT the other truth value. */
  lemma {:induction false} Unary(img: M.Image, s: M.State, op: Byte, a: Immediate) returns (r: Immediate)
    requires At(img, s, op) && |s.stack| > 0 && s.stack[|s.stack| - 1] == Imm(a)
    requires op == 0x35 || op == 0x36 ==> a.Int?
    requires op == 0x46 ==> a.Bool?
    requires op in {0x35, 0x36, 0x46}
    ensures Leaves(img, s, 1, r)
    ensures op == 0x35 ==> r.Int? && Congruent(a.n + r.n, 0)
    ensures op == 0x36 ==> r.Int? && Congruent(r.n, a.n + 1)
    ensures op == 0x46 ==> r.Bool? && r.b != a.b
  {
    hide M.Step;
    var i := OperatorStep(img, s);
    r := M.Exec(img, i, s.(pc := s.pc + 1)).s.stack[|s.stack| - 1].v;
  }

  /** The operators on two integers stop with a type error exactly if an operand is none. */
  lemma {:induction false} NeedsIntegers(img: M.Image, s: M.State, op: Byte, a: Value, b: Value)
    requires On(img, s, op, a, b) && (0x31 <= op <= 0x34 || 0x42 <= op <= 0x45)
    ensures Stops(img, s, M.TypeMismatch) <==> !(a.Imm? && a.v.Int? && b.Imm? && b.v.Int?)
  {
    hide M.Step;
    var i := OperatorStep(img, s);
  }
}
