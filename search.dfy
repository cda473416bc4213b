/** Bounded linear search: the first index below a bound where a test holds. */
module Search {

  /** The least `k < n` with `p(k)`, or `n` when there is none. */
  function FirstIndex(p: nat -> bool, n: nat): (k: nat)
    ensures k <= n
    ensures forall i :: 0 <= i < k ==> !p(i)
    ensures k < n ==> p(k)
  {
    if n == 0 then 0
    else
      var k := FirstIndex(p, n - 1);
      if k < n - 1 then k
      else if p(n - 1) then n - 1
      else n
  }
}
