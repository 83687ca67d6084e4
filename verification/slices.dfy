/** Python slicing on sequences, written out so that the edge cases the bot depends on
    (`s[:n]` past the end, `s[-k:]` with `k == 0`) are explicit. */
module Slices {

  /** Python's `s[:n]` for `n >= 0`: the first `n` elements, or all of them if fewer. */
  function Take<T>(s: seq<T>, n: nat): (r: seq<T>)
    ensures |r| <= n && |r| <= |s|
    ensures r == s[..|r|]
    ensures |r| == n || r == s
  {
    if n < |s| then s[..n] else s
  }

  /** Python's `s[-k:]` for any integer `k`. A positive `k` keeps the last `k` elements
      (all of them if fewer); `k == 0` keeps everything, because `-0 == 0`; a negative `k`
      drops the first `-k` elements. */
  function FromEnd<T>(s: seq<T>, k: int): (r: seq<T>)
    ensures |r| <= |s| && r == s[|s| - |r|..]
  {
    if k > 0 then (if k < |s| then s[|s| - k..] else s)
    else if -k <= |s| then s[-k..]
    else []
  }

  /** Concatenation is associative. Stated once so that proofs can name the step instead
      of leaving the solver to rediscover it by extensionality. */
  lemma AppendAssoc<T>(a: seq<T>, b: seq<T>, c: seq<T>)
    ensures a + (b + c) == (a + b) + c
  {
  }
}
