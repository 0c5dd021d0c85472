/** Types that several components share. */
module Basics {

  datatype Option<T> = None | Some(value: T)

  /** The numbers below `n`. */
  ghost function Upto(n: nat): (r: set<nat>)
    ensures forall i: nat :: i in r <==> i < n
  {
    if n == 0 then {} else Upto(n - 1) + {n - 1}
  }

  lemma {:induction false} UptoSize(n: nat)
    ensures |Upto(n)| == n
  {
    if n > 0 {
      UptoSize(n - 1);
    }
  }

  type Byte = x: int | 0 <= x < 256

  /** The number of values of an unsigned 64-bit word. */
  const WORD: int := 0x1_0000_0000_0000_0000
}
