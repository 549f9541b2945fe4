/** Bytes and the small things shared by every component. */
module Bytes {
  newtype Byte = x: int | 0 <= x < 256

  datatype Option<+T> = None | Some(value: T)

  function Min(a: int, b: int): int { if a <= b then a else b }

  function Max(a: int, b: int): int { if a >= b then a else b }

  /** Always true. A definition under a quantifier over it stays folded until a
      proof says `Unfold`: proofs about calls that keep what is defined need not
      look inside. */
  predicate Unfold(t: int) { true }
}
