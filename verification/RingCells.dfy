/** Positions in a ring buffer: a step past the last cell starts again at the first. */
module RingCells {
  /** The k-th cell of a ring of `size` cells counted from `at`. */
  function Cell(size: nat, at: nat, k: nat): (c: nat)
    requires at < size && k <= size
    ensures c < size
  {
    if at + k < size then at + k else at + k - size
  }

  /** The cell before one, wrapping back to the last. */
  function Before(size: nat, at: nat): (c: nat)
    requires at < size
    ensures c < size && Cell(size, c, 1) == at
  {
    if at == 0 then size - 1 else at - 1
  }
}
