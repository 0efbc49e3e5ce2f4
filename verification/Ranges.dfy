/** How often a `for` loop over a range turns, and when it ends. */
module Ranges {
  import opened Bytes
  import opened Values
  import opened Syntax
  import opened S = Semantics
  import Fuel

  /** The numbers that `a..<b` or `a...b` stands for. */
  function Turns(a: I16, b: I16, closed: bool): (n: nat)
    ensures n == if closed then (if a <= b then b - a + 1 else 0) else (if a < b then b - a else 0)
  {
    var first, last: int := a, if closed then b + 1 else b;
    if first < last then last - first else 0
  }

  /** Run `body` exactly `n` times with the global `x` counting up from its present value. None when a
    * turn does not end normally, or does not leave `x` alone. */
  function Repeat(fs: seq<FuncDecl>, inFn: bool, x: Name, body: Stmt, loc: Locals, w: World, n: nat, fuel: nat)
      : Option<(Locals, World)>
    decreases n
  {
    if n == 0 then Some((loc, w))
    else if fuel == 0 || x !in w.globals || !w.globals[x].Int? then None
    else
      match Exec(fs, inFn, body, loc, w, fuel - 1)
      case Normal(inner, w1) =>
        if x in w1.globals && w1.globals[x] == w.globals[x]
        then Repeat(fs, inFn, x, body, Narrow(inner, loc), SetGlobal(w1, x, Int(Wrap16(w.globals[x].n + 1))), n - 1, fuel - 1)
        else None
      case _ => None
  }

  /** The variable of the loop is in range: the loop turns once more. */
  predicate InRange(x: Name, b: I16, closed: bool, w: World) {
    x in w.globals && w.globals[x].Int? && (if closed then w.globals[x].n <= b else w.globals[x].n < b)
  }

  /** A turn that ends normally and leaves an integer in `x` is followed by the rest of the loop. */
  lemma {:induction false} TurnTaken(fs: seq<FuncDecl>, inFn: bool, x: Name, b: I16, closed: bool, body: Stmt, loc: Locals, w: World,
                                     fuel: nat, inner: Locals, w1: World)
    requires fuel > 0 && InRange(x, b, closed, w) && Exec(fs, inFn, body, loc, w, fuel - 1) == Normal(inner, w1)
    requires x in w1.globals && w1.globals[x].Int?
    ensures ForLoop(fs, inFn, x, Int(b), closed, body, loc, w, fuel)
         == ForLoop(fs, inFn, x, Int(b), closed, body, Narrow(inner, loc), SetGlobal(w1, x, Int(Wrap16(w1.globals[x].n + 1))), fuel - 1)
  {
    hide Exec;
  }

  lemma {:induction false} NoTurn(fs: seq<FuncDecl>, inFn: bool, x: Name, a: I16, b: I16, closed: bool, body: Stmt, loc: Locals, w: World,
                                  fuel: nat)
    requires x in w.globals && w.globals[x] == Int(a) && Turns(a, b, closed) == 0 && fuel > 0
    ensures ForLoop(fs, inFn, x, Int(b), closed, body, loc, w, fuel) == Normal(loc, w)
    ensures Repeat(fs, inFn, x, body, loc, w, 0, fuel) == Some((loc, w))
  {
    hide Exec;
  }

  /** The first of `n` turns. */
  lemma {:induction false} OneTurn(fs: seq<FuncDecl>, inFn: bool, x: Name, body: Stmt, loc: Locals, w: World, n: nat, fuel: nat)
    requires n > 0 && Repeat(fs, inFn, x, body, loc, w, n, fuel).Some?
    ensures fuel > 0 && x in w.globals && w.globals[x].Int?
    ensures var o := Exec(fs, inFn, body, loc, w, fuel - 1);
            && o.Normal? && x in o.w.globals && o.w.globals[x] == w.globals[x]
            && Repeat(fs, inFn, x, body, loc, w, n, fuel)
               == Repeat(fs, inFn, x, body, Narrow(o.loc, loc), SetGlobal(o.w, x, Int(Wrap16(w.globals[x].n + 1))), n - 1, fuel - 1)
  {
    hide Exec;
  }

  /** A `for` loop runs its body once for each number of its range, in order, and then ends; the variable
    * is left one past the range. A closed range must not end at 32767. */
  lemma {:induction false} ForTurns(fs: seq<FuncDecl>, inFn: bool, x: Name, a: I16, b: I16, closed: bool, body: Stmt,
                                    loc: Locals, w: World, fuel: nat)
    requires x in w.globals && w.globals[x] == Int(a)
    requires closed ==> b < 0x7FFF
    requires Turns(a, b, closed) < fuel
    requires Repeat(fs, inFn, x, body, loc, w, Turns(a, b, closed), fuel).Some?
    ensures var (loc1, w1) := Repeat(fs, inFn, x, body, loc, w, Turns(a, b, closed), fuel).value;
            && ForLoop(fs, inFn, x, Int(b), closed, body, loc, w, fuel) == Normal(loc1, w1)
            && x in w1.globals && w1.globals[x] == Int(a + Turns(a, b, closed))
    decreases Turns(a, b, closed)
  {
    hide Exec, ForLoop, Repeat;
    var n := Turns(a, b, closed);
    if n == 0 {
      NoTurn(fs, inFn, x, a, b, closed, body, loc, w, fuel);
    } else {
      var o := Exec(fs, inFn, body, loc, w, fuel - 1);
      OneTurn(fs, inFn, x, body, loc, w, n, fuel);
      TurnTaken(fs, inFn, x, b, closed, body, loc, w, fuel, o.loc, o.w);
      ForTurns(fs, inFn, x, a + 1, b, closed, body, Narrow(o.loc, loc), SetGlobal(o.w, x, Int(a + 1)), fuel - 1);
    }
  }

  /** Some turn of the loop ends by a `break`. */
  predicate BreaksOut(fs: seq<FuncDecl>, inFn: bool, x: Name, b: I16, closed: bool, body: Stmt, loc: Locals, w: World, fuel: nat)
    decreases fuel
  {
    fuel > 0 && InRange(x, b, closed, w) &&
    match Exec(fs, inFn, body, loc, w, fuel - 1)
    case Broke(_, _) => true
    case Normal(inner, w1) =>
      x in w1.globals && w1.globals[x].Int?
      && BreaksOut(fs, inFn, x, b, closed, body, Narrow(inner, loc), SetGlobal(w1, x, Int(Wrap16(w1.globals[x].n + 1))), fuel - 1)
    case _ => false
  }

  /** A closed range that ends at 32767 has no last turn, since the variable wraps around below the bound: whatever
    * its body does, such a loop ends normally exactly if some turn breaks out of it. */
  lemma {:induction false} ClosedRangeToTheTop(fs: seq<FuncDecl>, inFn: bool, x: Name, body: Stmt, loc: Locals, w: World, fuel: nat)
    requires x in w.globals && w.globals[x].Int?
    ensures ForLoop(fs, inFn, x, Int(0x7FFF), true, body, loc, w, fuel).Normal? <==> BreaksOut(fs, inFn, x, 0x7FFF, true, body, loc, w, fuel)
    decreases fuel
  {
    hide Exec;
    if fuel > 0 {
      var o := Exec(fs, inFn, body, loc, w, fuel - 1);
      if o.Normal? && x in o.w.globals && o.w.globals[x].Int? {
        ClosedRangeToTheTop(fs, inFn, x, body, Narrow(o.loc, loc), SetGlobal(o.w, x, Int(Wrap16(o.w.globals[x].n + 1))), fuel - 1);
      }
    }
  }

  ghost predicate CanRepeat(fs: seq<FuncDecl>, inFn: bool, x: Name, body: Stmt, loc: Locals, w: World, n: nat) {
    exists fuel: nat :: Repeat(fs, inFn, x, body, loc, w, n, fuel).Some?
  }

  /** Any number of turns of `body` end normally and leave `x` alone. */
  ghost predicate Tame(fs: seq<FuncDecl>, inFn: bool, x: Name, body: Stmt, loc: Locals, w: World) {
    forall n: nat :: CanRepeat(fs, inFn, x, body, loc, w, n)
  }

  /** The first turn of a tame body, with any fuel that suffices for it. */
  lemma {:induction false} FirstTurn(fs: seq<FuncDecl>, inFn: bool, x: Name, body: Stmt, loc: Locals, w: World, f: nat, n: nat, g: nat)
    requires n > 0 && Repeat(fs, inFn, x, body, loc, w, n, g).Some? && !Exec(fs, inFn, body, loc, w, f).OutOfFuel?
    ensures g > 0 && x in w.globals && w.globals[x].Int?
    ensures var o := Exec(fs, inFn, body, loc, w, f);
            && o == Exec(fs, inFn, body, loc, w, g - 1) && o.Normal? && x in o.w.globals && o.w.globals[x] == w.globals[x]
            && Repeat(fs, inFn, x, body, Narrow(o.loc, loc), SetGlobal(o.w, x, Int(Wrap16(w.globals[x].n + 1))), n - 1, g - 1).Some?
  {
    hide Exec, Repeat;
    OneTurn(fs, inFn, x, body, loc, w, n, g);
    if f <= g - 1 {
      Fuel.ExecMore(fs, inFn, body, loc, w, f, g - 1);
    } else {
      Fuel.ExecMore(fs, inFn, body, loc, w, g - 1, f);
    }
  }

  lemma {:induction false} TameAfter(fs: seq<FuncDecl>, inFn: bool, x: Name, body: Stmt, loc: Locals, w: World, f: nat)
    requires Tame(fs, inFn, x, body, loc, w) && !Exec(fs, inFn, body, loc, w, f).OutOfFuel?
    ensures x in w.globals && w.globals[x].Int?
    ensures var o := Exec(fs, inFn, body, loc, w, f);
            && o.Normal? && x in o.w.globals && o.w.globals[x] == w.globals[x]
            && Tame(fs, inFn, x, body, Narrow(o.loc, loc), SetGlobal(o.w, x, Int(Wrap16(w.globals[x].n + 1))))
  {
    hide Exec, Repeat;
    var o := Exec(fs, inFn, body, loc, w, f);
    assert CanRepeat(fs, inFn, x, body, loc, w, 1);
    var g1: nat :| Repeat(fs, inFn, x, body, loc, w, 1, g1).Some?;
    FirstTurn(fs, inFn, x, body, loc, w, f, 1, g1);
    var loc1, w1 := Narrow(o.loc, loc), SetGlobal(o.w, x, Int(Wrap16(w.globals[x].n + 1)));
    forall n: nat
      ensures CanRepeat(fs, inFn, x, body, loc1, w1, n)
    {
      assert CanRepeat(fs, inFn, x, body, loc, w, n + 1);
      var g: nat :| Repeat(fs, inFn, x, body, loc, w, n + 1, g).Some?;
      FirstTurn(fs, inFn, x, body, loc, w, f, n + 1, g);
      assert Repeat(fs, inFn, x, body, loc1, w1, n, g - 1).Some?;
    }
  }

  lemma {:induction false} TameStays(fs: seq<FuncDecl>, inFn: bool, x: Name, b: I16, closed: bool, body: Stmt, loc: Locals, w: World, fuel: nat)
    requires Tame(fs, inFn, x, body, loc, w)
    ensures !BreaksOut(fs, inFn, x, b, closed, body, loc, w, fuel)
    decreases fuel
  {
    hide Exec, Tame, InRange, Narrow, SetGlobal;
    if fuel > 0 && InRange(x, b, closed, w) && !Exec(fs, inFn, body, loc, w, fuel - 1).OutOfFuel? {
      var o := Exec(fs, inFn, body, loc, w, fuel - 1);
      TameAfter(fs, inFn, x, body, loc, w, fuel - 1);
      TameStays(fs, inFn, x, b, closed, body, Narrow(o.loc, loc), SetGlobal(o.w, x, Int(Wrap16(w.globals[x].n + 1))), fuel - 1);
    }
  }

  lemma {:induction false} Shorter(fs: seq<FuncDecl>, inFn: bool, x: Name, body: Stmt, loc: Locals, w: World, n: nat, fuel: nat)
    requires Repeat(fs, inFn, x, body, loc, w, n + 1, fuel).Some?
    ensures n < fuel && Repeat(fs, inFn, x, body, loc, w, n, fuel).Some?
    decreases n
  {
    hide Exec;
    if n > 0 {
      var o := Exec(fs, inFn, body, loc, w, fuel - 1);
      OneTurn(fs, inFn, x, body, loc, w, n + 1, fuel);
      Shorter(fs, inFn, x, body, Narrow(o.loc, loc), SetGlobal(o.w, x, Int(Wrap16(w.globals[x].n + 1))), n - 1, fuel - 1);
    }
  }

  /** For every body whose turns end normally and leave the variable alone: the loop ends exactly if its range is not
    * closed at 32767. */
  lemma {:induction false} RangeEnds(fs: seq<FuncDecl>, inFn: bool, x: Name, a: I16, b: I16, closed: bool, body: Stmt, loc: Locals, w: World)
    requires x in w.globals && w.globals[x] == Int(a) && Tame(fs, inFn, x, body, loc, w)
    ensures (exists fuel: nat :: ForLoop(fs, inFn, x, Int(b), closed, body, loc, w, fuel).Normal?) <==> !(closed && b == 0x7FFF)
  {
    hide Exec, ForLoop, Repeat, BreaksOut;
    if closed && b == 0x7FFF {
      forall fuel: nat
        ensures !ForLoop(fs, inFn, x, Int(b), closed, body, loc, w, fuel).Normal?
      {
        ClosedRangeToTheTop(fs, inFn, x, body, loc, w, fuel);
        TameStays(fs, inFn, x, b, closed, body, loc, w, fuel);
      }
    } else {
      var n := Turns(a, b, closed);
      assert CanRepeat(fs, inFn, x, body, loc, w, n + 1);
      var fuel: nat :| Repeat(fs, inFn, x, body, loc, w, n + 1, fuel).Some?;
      Shorter(fs, inFn, x, body, loc, w, n, fuel);
      ForTurns(fs, inFn, x, a, b, closed, body, loc, w, fuel);
    }
  }

  /** The empty body is tame, for one. */
  lemma {:induction false} EmptyTame(fs: seq<FuncDecl>, inFn: bool, x: Name, loc: Locals, w: World)
    requires x in w.globals && w.globals[x].Int?
    ensures Tame(fs, inFn, x, Skip, loc, w)
  {
    forall n: nat
      ensures CanRepeat(fs, inFn, x, Skip, loc, w, n)
    {
      EmptyTurns(fs, inFn, x, loc, w, n);
    }
  }

  lemma {:induction false} EmptyTurns(fs: seq<FuncDecl>, inFn: bool, x: Name, loc: Locals, w: World, n: nat)
    requires x in w.globals && w.globals[x].Int?
    ensures Repeat(fs, inFn, x, Skip, loc, w, n, n).Some?
    decreases n
  {
    if n > 0 {
      EmptyTurns(fs, inFn, x, Narrow(loc, loc), SetGlobal(w, x, Int(Wrap16(w.globals[x].n + 1))), n - 1);
    }
  }
}
