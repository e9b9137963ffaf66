/** Small value types shared by the model of the infinite-scroll users table. */
module Prelude {
  /** A value that may be absent: JavaScript's `undefined`, or a `parseInt` that gives `NaN`. */
  datatype Option<+T> = None | Some(value: T)

  function Min(a: int, b: int): int { if a <= b then a else b }

  function Max(a: int, b: int): int { if a >= b then a else b }

  /** `slice(from, to)` on an array or a string for non-negative bounds: both are clamped to the length. */
  function Slice<T>(s: seq<T>, from: nat, to: nat): (r: seq<T>)
    ensures |r| == Max(0, Min(to, |s|) - Min(from, |s|))
    ensures forall i :: 0 <= i < |r| ==> r[i] == s[from + i]
  {
    var lo := Min(from, |s|);
    var hi := Min(to, |s|);
    if lo <= hi then s[lo..hi] else []
  }
}
