/**
 * Page state shared by the browser-side modules: a group of elements of
 * which at most one carries the `active` class is a sequence of flags.
 */
module Dom {

  /** `n` flags of which only the one at `k` is set (none when `k >= n`). */
  function Marker(n: nat, k: nat): (m: seq<bool>)
    ensures |m| == n
    ensures forall i | 0 <= i < n :: m[i] <==> i == k
  {
    seq(n, i => i == k)
  }
}
