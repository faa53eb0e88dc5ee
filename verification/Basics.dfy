/** Shared data shapes. */
module Basics {
  datatype Option<+T> = None | Some(value: T)

  function Max(a: int, b: int): (m: int)
  {
    if a < b then b else a
  }

  /** The value of a statement that proofs carry as a whole, unlike a predicate, until it is unfolded. */
  datatype Verdict = Holds | Fails

  /** Mentioned where the meaning of a verdict is needed. */
  ghost predicate Unfold(x: int) { x == x }
}
