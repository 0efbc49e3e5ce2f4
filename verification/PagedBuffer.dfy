/** The compile buffer of the paged build (bcbuf.c): a small window over an append-only store. Finished
  * function bodies are flushed to the store when the window is full. */
module PagedBuffer {
  import opened Bytes
  import opened Rotation

  /** The flat buffer that the paged one stands for: the code so far, of which `arena` bytes are finished
    * function bodies. */
  datatype Flat = Flat(code: seq<Byte>, arena: nat)

  datatype Op =
    | Append(b: Byte)
    | Patch(at: nat, b: Byte)     // into code that is not finished
    | Finish(start: nat)          // the code from `start` on becomes a function body

  /** What the compiler may ask of its buffer. */
  predicate Legal(op: Op, f: Flat) {
    match op
    case Append(_) => true
    case Patch(at, _) => f.arena <= at < |f.code|
    case Finish(start) => f.arena <= start <= |f.code|
  }

  /** The effect on a flat buffer. */
  function Apply(op: Op, f: Flat): (r: Flat)
    requires f.arena <= |f.code| && Legal(op, f)
    ensures r.arena <= |r.code|
  {
    match op
    case Append(b) => f.(code := f.code + [b])
    case Patch(at, b) => f.(code := f.code[at := b])
    case Finish(start) => Flat(Rotated(f.code, f.arena, start, |f.code|), f.arena + |f.code| - start)
  }

  /** All of `ops` make sense, one after the other. */
  predicate AllLegal(ops: seq<Op>, f: Flat)
    requires f.arena <= |f.code|
    decreases |ops|
  {
    ops == [] || (Legal(ops[0], f) && AllLegal(ops[1..], Apply(ops[0], f)))
  }

  /** The flat buffer after the first `n` operations. */
  function After(ops: seq<Op>, n: nat, f: Flat): (r: Flat)
    requires n <= |ops| && f.arena <= |f.code| && AllLegal(ops, f)
    ensures r.arena <= |r.code|
    decreases n
  {
    if n == 0 then f else After(ops[1..], n - 1, Apply(ops[0], f))
  }

  lemma {:induction false} AfterStep(ops: seq<Op>, n: nat, f: Flat)
    requires n < |ops| && f.arena <= |f.code| && AllLegal(ops, f)
    ensures Legal(ops[n], After(ops, n, f)) && After(ops, n + 1, f) == Apply(ops[n], After(ops, n, f))
    decreases n
  {
    if n > 0 {
      AfterStep(ops[1..], n - 1, Apply(ops[0], f));
    }
  }

  /** An append that finds the code not yet finished as long as the window, or the code as long as the
    * logical limit, fails. */
  predicate Full(f: Flat, window: nat, cap: nat) {
    |f.code| >= cap || |f.code| - f.arena >= window
  }

  /** Copy `count` elements down to the front, one by one. */
  method SlideDown(a: array<Byte>, from: nat, count: nat)
    requires from + count <= a.Length
    modifies a
    ensures a[..count] == old(a[from..from + count])
  {
    var i := 0;
    while i < count
      invariant 0 <= i <= count
      invariant forall k :: 0 <= k < i ==> a[k] == old(a[from + k])
      invariant forall k :: i <= k < a.Length ==> a[k] == old(a[k])
    {
      a[i] := a[from + i];
      i := i + 1;
    }
  }

  lemma {:induction false} Slid(base: seq<Byte>, was: seq<Byte>, frozen: nat, resident: nat)
    requires frozen + resident <= |was|
    ensures base + was[..frozen] + was[frozen..frozen + resident] == base + was[..frozen + resident]
  {
    assert was[..frozen] + was[frozen..frozen + resident] == was[..frozen + resident];
  }

  class Paged {
    const window: array<Byte>
    const cap: nat
    var store: seq<Byte>   // the flushed code
    var arena: nat
    var pos: nat

    ghost predicate Valid()
      reads this
    {
      |store| <= arena <= pos && pos - |store| <= window.Length && window.Length > 0
    }

    /** The flat buffer this one stands for. */
    ghost function Contents(): (f: Flat)
      reads this, window
      requires Valid()
      ensures f.arena <= |f.code|
    {
      Flat(store + window[..pos - |store|], arena)
    }

    constructor (size: nat, limit: nat)
      requires size > 0
      ensures Valid() && fresh(window) && window.Length == size && cap == limit && Contents() == Flat([], 0)
    {
      window := new Byte[size];
      cap := limit;
      store, arena, pos := [], 0, 0;
    }

    /** Move the finished code to the store and slide what remains to the front of the window. */
    method Flush()
      requires Valid()
      modifies this`store, window
      ensures Valid() && |store| == arena && Contents() == old(Contents())
    {
      ghost var was, base := window[..], store;
      var frozen, resident := arena - |store|, pos - arena;
      store := store + window[..frozen];
      assert was[..frozen] == window[..frozen];
      SlideDown(window, frozen, resident);
      Slid(base, was, frozen, resident);
      assert was[..frozen + resident] == old(window[..pos - |store|]);
    }

    /** emit_byte over bcbuf_put at the frontier. */
    method Append(b: Byte) returns (ok: bool)
      requires Valid()
      modifies this`store, this`pos, window
      ensures Valid() && ok == !Full(old(Contents()), window.Length, cap)
      ensures Contents() == if ok then old(Contents()).(code := old(Contents()).code + [b]) else old(Contents())
    {
      if pos >= cap {
        return false;
      }
      if pos - |store| >= window.Length {
        if arena == |store| {
          return false;
        }
        Flush();
        if pos - |store| >= window.Length {
          return false;
        }
      }
      ghost var before := window[..pos - |store|];
      window[pos - |store|] := b;
      pos := pos + 1;
      assert window[..pos - |store|] == before + [b];
      return true;
    }

    /** bcbuf_put as a back-patch: the byte is resident, and nothing is flushed. */
    method Patch(at: nat, b: Byte)
      requires Valid() && arena <= at < pos
      modifies window
      ensures Valid() && Contents() == old(Contents()).(code := old(Contents()).code[at := b])
    {
      ghost var before := window[..pos - |store|];
      window[at - |store|] := b;
      assert window[..pos - |store|] == before[at - |store| := b];
    }

    /** bcbuf_get. */
    method Get(at: nat) returns (b: Byte)
      requires Valid() && arena <= at < pos
      ensures b == Contents().code[at]
    {
      b := window[at - |store|];
    }

    /** bcbuf_rotate_func_into_arena on window-relative indices. None stands for the error 0xFFFF. */
    method Rotate(start: nat, size: nat) returns (place: int)
      requires Valid() && start + size == pos
      modifies this`arena, window
      ensures Valid() && (place == -1 <==> start < old(arena))
      ensures place != -1 ==> place == old(arena) && Contents() == Apply(Finish(start), old(Contents()))
      ensures place == -1 ==> Contents() == old(Contents())
    {
      hide Rotated;
      if start < arena || start + size - |store| > window.Length {
        return -1;
      }
      RotateWindow(start);
      place := arena;
      arena := arena + size;
    }

    method RotateWindow(start: nat)
      requires Valid() && arena <= start <= pos
      modifies window
      ensures Contents().code == Rotated(old(Contents()).code, arena, start, pos)
    {
      hide Rotated;
      ghost var all := window[..];
      var n := pos - |store|;
      assert all[..n] == window[..n];
      RotateDown(window, arena - |store|, start - |store|, n);
      RotatedBehind(store, all, arena, start, pos);
      assert window[..n] == window[..][..n];
    }

    /** Any sequence of operations does to the paged buffer what it does to the flat one, up to the first
      * append for which the unfinished code alone fills the window. */
    method Perform(ops: seq<Op>) returns (done: nat)
      requires Valid() && AllLegal(ops, Contents())
      modifies this, window
      ensures Valid() && done <= |ops| && Contents() == After(ops, done, old(Contents()))
      ensures forall i :: 0 <= i < done && ops[i].Append? ==> !Full(After(ops, i, old(Contents())), window.Length, cap)
      ensures done < |ops| ==> ops[done].Append? && Full(Contents(), window.Length, cap)
    {
      ghost var f := Contents();
      done := 0;
      while done < |ops|
        invariant Valid() && 0 <= done <= |ops| && Contents() == After(ops, done, f)
        invariant forall i :: 0 <= i < done && ops[i].Append? ==> !Full(After(ops, i, f), window.Length, cap)
      {
        AfterStep(ops, done, f);
        match ops[done] {
          case Append(b) =>
            var ok := Append(b);
            if !ok {
              return;
            }
          case Patch(at, b) => Patch(at, b);
          case Finish(start) => var _ := Rotate(start, pos - start);
        }
        done := done + 1;
      }
    }
  }

  /** Rotating the resident part rotates the whole. */
  lemma {:induction false} RotatedBehind(store: seq<Byte>, all: seq<Byte>, arena: nat, start: nat, pos: nat)
    requires |store| <= arena <= start <= pos && pos - |store| <= |all|
    ensures var n := pos - |store|;
            var r := Rotated(all, arena - |store|, start - |store|, n);
            store + r[..n] == Rotated(store + all[..n], arena, start, pos)
  {
    var n := pos - |store|;
    var flat := store + all[..n];
    assert flat[..arena] == store + all[..arena - |store|];
    assert flat[start..pos] == all[start - |store|..n];
    assert flat[arena..start] == all[arena - |store|..start - |store|];
  }
}
