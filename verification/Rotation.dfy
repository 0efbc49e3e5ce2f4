/** Sliding a finished function body under the top-level code, in place (bcbuf.c). */
module Rotation {

  function Reversed<T>(s: seq<T>): (r: seq<T>)
    ensures |r| == |s| && forall i :: 0 <= i < |s| ==> r[i] == s[|s| - 1 - i]
    decreases |s|
  {
    if s == [] then [] else [s[|s| - 1]] + Reversed(s[..|s| - 1])
  }

  /** `s` with the part from `lo` to `hi` turned round. */
  function Flip<T>(s: seq<T>, lo: nat, hi: nat): (r: seq<T>)
    requires lo <= hi <= |s|
    ensures |r| == |s|
  {
    s[..lo] + Reversed(s[lo..hi]) + s[hi..]
  }

  /** Exchange the adjacent parts of `s` that meet at `mid`. */
  function Rotated<T>(s: seq<T>, lo: nat, mid: nat, hi: nat): (r: seq<T>)
    requires lo <= mid <= hi <= |s|
    ensures |r| == |s|
  {
    s[..lo] + s[mid..hi] + s[lo..mid] + s[hi..]
  }

  lemma {:induction false} FlipAt<T>(s: seq<T>, lo: nat, hi: nat, i: nat)
    requires lo <= hi <= |s| && i < |s|
    ensures Flip(s, lo, hi)[i] == if lo <= i < hi then s[lo + hi - 1 - i] else s[i]
  {
  }

  /** Turning each part round and then both together exchanges the parts, each the right way round. */
  lemma {:induction false} ThreeReversals<T>(s: seq<T>, lo: nat, mid: nat, hi: nat)
    requires lo <= mid <= hi <= |s|
    ensures Flip(Flip(Flip(s, lo, mid), mid, hi), lo, hi) == Rotated(s, lo, mid, hi)
  {
    var s1 := Flip(s, lo, mid);
    var s2 := Flip(s1, mid, hi);
    var s3 := Flip(s2, lo, hi);
    forall i | 0 <= i < |s|
      ensures s3[i] == Rotated(s, lo, mid, hi)[i]
    {
      hide Flip;
      FlipAt(s2, lo, hi, i);
      var j := if lo <= i < hi then lo + hi - 1 - i else i;
      FlipAt(s1, mid, hi, j);
      FlipAt(s, lo, mid, if mid <= j < hi then mid + hi - 1 - j else j);
    }
  }

  /** reverse_range. */
  method ReverseRange<T>(a: array<T>, lo: nat, hi: nat)
    requires lo <= hi <= a.Length
    modifies a
    ensures a[..] == Flip(old(a[..]), lo, hi)
  {
    var i, j := lo, hi;
    while i + 1 < j
      invariant lo <= i <= j <= hi && i - lo == hi - j
      invariant forall k :: lo <= k < i || j <= k < hi ==> a[k] == old(a[lo + hi - 1 - k])
      invariant forall k :: 0 <= k < lo || i <= k < j || hi <= k < a.Length ==> a[k] == old(a[k])
    {
      j := j - 1;
      a[i], a[j] := a[j], a[i];
      i := i + 1;
    }
    forall k | 0 <= k < a.Length
      ensures a[k] == Flip(old(a[..]), lo, hi)[k]
    {
      FlipAt(old(a[..]), lo, hi, k);
    }
  }

  /** The three reversals of bcbuf_rotate_func_into_arena: the bytes from `mid` to `hi` move down to `lo`,
    * and those from `lo` to `mid` move up behind them. */
  method RotateDown<T>(a: array<T>, lo: nat, mid: nat, hi: nat)
    requires lo <= mid <= hi <= a.Length
    modifies a
    ensures a[..] == Rotated(old(a[..]), lo, mid, hi)
  {
    hide Flip, Rotated;
    ThreeReversals(a[..], lo, mid, hi);
    ReverseRange(a, lo, mid);
    ReverseRange(a, mid, hi);
    ReverseRange(a, lo, hi);
  }
}
