/** What several modules share. */
module Basics {
  datatype Option<T> = None | Some(value: T)

  lemma MulMono(a: int, b: int, d: nat)
    requires a <= b
    ensures a * d <= b * d
  {
  }
}
