/**
  The growth policy of the chart's backing arrays.

  A parser starts with room for one cell (`alloc == 1`). A push of the token
  that makes the sequence `j` long grows the `cell` and `tokseq` arrays exactly
  when `j >= alloc`, and then doubles `alloc`; nothing ever shrinks them.
*/
module Capacity {

  /** `n` is 1, 2, 4, 8, ... */
  predicate IsPowerOfTwo(n: int)
    decreases if n < 0 then 0 else n
  {
    n == 1 || (n > 1 && n % 2 == 0 && IsPowerOfTwo(n / 2))
  }

  /** The capacity a push leaves behind when the sequence held `len` tokens. */
  function Grow(alloc: nat, len: nat): (r: nat)
    requires IsPowerOfTwo(alloc) && len < alloc
    ensures IsPowerOfTwo(r)
    ensures len + 1 < r
    ensures r == 2 * alloc <==> len + 1 >= alloc
    ensures r == alloc <==> len + 1 < alloc
  {
    if len + 1 >= alloc then 2 * alloc else alloc
  }

  /** Repeated growth from the initial capacity stays above the length. */
  function CapacityAfter(pushes: nat): (r: nat)
    ensures IsPowerOfTwo(r) && pushes < r
    ensures pushes > 0 ==> r <= 2 * pushes
  {
    if pushes == 0 then 1 else Grow(CapacityAfter(pushes - 1), pushes - 1)
  }
}
