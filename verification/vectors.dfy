/** Helpers for the fixed-width numeric vectors: zero blocks and the
    "extend with zeros while too short" padding loops. */
module Vectors {

  function Zeros(n: nat): (r: seq<real>)
    ensures |r| == n
    ensures forall i :: 0 <= i < n ==> r[i] == 0.0
  {
    if n == 0 then [] else Zeros(n - 1) + [0.0]
  }

  /** `n` is a multiple of the block size `b`. */
  predicate IsMultiple(n: nat, b: nat)
    decreases n
  {
    n == 0 || (0 < b <= n && IsMultiple(n - b, b))
  }

  lemma {:induction false} TimesIsMultiple(b: nat, k: nat)
    ensures IsMultiple(b * k, b)
  {
    if k > 0 && b > 0 {
      TimesIsMultiple(b, k - 1);
      assert b * k - b == b * (k - 1);
    }
  }

  /** `while len(s) < target: s.extend([0] * block)`. The padding keeps the
      original entries, adds only zeros, stops as soon as the target is
      reached, and lands exactly on the target when the gap is a multiple of
      the block size. */
  function PadWithZeros(s: seq<real>, block: nat, target: nat): (r: seq<real>)
    requires block > 0
    ensures |s| <= |r| && r[..|s|] == s
    ensures forall i :: |s| <= i < |r| ==> r[i] == 0.0
    ensures |s| >= target ==> r == s
    ensures |s| < target ==> target <= |r| < target + block
    ensures |s| <= target && IsMultiple(target - |s|, block) ==> |r| == target
    decreases target - |s|
  {
    if |s| < target then
      var r := PadWithZeros(s + Zeros(block), block, target);
      assert (s + Zeros(block))[..|s|] == s;
      assert r[..|s|] == r[..|s| + block][..|s|];
      r
    else s
  }

  /** Pads a list of entries with copies of `fill` until it has `n` entries:
      `while len(xs) < n: xs.append(fill)`. */
  function PadList<T>(xs: seq<T>, fill: T, n: nat): (r: seq<T>)
    ensures |r| == if |xs| < n then n else |xs|
    ensures r[..|xs|] == xs
    ensures forall i :: |xs| <= i < |r| ==> r[i] == fill
    decreases n - |xs|
  {
    if |xs| < n then
      var r := PadList(xs + [fill], fill, n);
      assert r[..|xs|] == r[..|xs| + 1][..|xs|];
      r
    else xs
  }

  /** The number of `true` entries. */
  function CountTrue(f: seq<bool>): (c: nat)
    ensures c <= |f|
  {
    if |f| == 0 then 0
    else CountTrue(f[..|f| - 1]) + if f[|f| - 1] then 1 else 0
  }

  /** Every entry is counted exactly when every entry is `true`. */
  lemma {:induction false} CountTrueAll(f: seq<bool>)
    ensures CountTrue(f) == |f| <==> forall i :: 0 <= i < |f| ==> f[i]
  {
    if |f| > 0 {
      var n := |f| - 1;
      CountTrueAll(f[..n]);
      assert forall i :: 0 <= i < n ==> f[..n][i] == f[i];
    }
  }
}
