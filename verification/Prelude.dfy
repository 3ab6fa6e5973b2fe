/** Failure and optional values, and 64-bit integers, shared by the models of the node's components. */
module Prelude {

  datatype Option<+T> = None | Some(value: T)

  datatype Result<+T, +E> = Ok(value: T) | Err(error: E)

  const MAX_INT64 := 0x7fff_ffff_ffff_ffff
  const MIN_INT64 := -0x8000_0000_0000_0000

  predicate IsInt64(x: int) { MIN_INT64 <= x <= MAX_INT64 }

  type I64 = x: int | IsInt64(x)

  /** Two's complement wrap-around of an unchecked addition. */
  function Wrap(x: int): (r: I64)
    ensures IsInt64(x) ==> r == x
  {
    (x - MIN_INT64) % 0x1_0000_0000_0000_0000 + MIN_INT64
  }

  /** The range is that of 64 bits, and wrapping adds or takes away multiples of two to the 64. */
  lemma WrapMeaning(x: int)
    ensures IsInt64(x) <==> -9_223_372_036_854_775_808 <= x <= 9_223_372_036_854_775_807
    ensures (Wrap(x) - x) % 18_446_744_073_709_551_616 == 0
  {
  }

  lemma WrapAdds(a: int, b: int)
    ensures Wrap(Wrap(a) + b) == Wrap(a + b)
  {
  }
}
