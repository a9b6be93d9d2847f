/** Small definitions shared by every module. */
module Prelude {
  datatype Option<+T> = None | Some(value: T)

  /** Peers are keyed by the string form of their identifier. */
  datatype Peer = Peer(key: string)

  /** A strictly positive integer: a window, a rate or a capacity. */
  type Pos = x: int | 0 < x witness 1

  function Min(a: int, b: int): int { if a <= b then a else b }

  function Max(a: int, b: int): int { if a >= b then a else b }

  function Repeat<T>(x: T, k: nat): (s: seq<T>)
    ensures |s| == k && forall i | 0 <= i < k :: s[i] == x
  {
    if k == 0 then [] else Repeat(x, k - 1) + [x]
  }

  lemma SubSlice<T>(s: seq<T>, a: nat, i: nat, j: nat)
    requires i <= j && a + j <= |s|
    ensures s[a..][i..j] == s[a + i..a + j]
  {}
}
