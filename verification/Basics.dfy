/** What several modules share: an optional value, a result that may be refused, the larger of
    two numbers, and lists without repeats. */
module Basics {
  datatype Option<T> = None | Some(value: T)

  datatype Result<T> = Ok(value: T) | Err

  function Max(a: int, b: int): int {
    if a >= b then a else b
  }

  predicate Distinct<T(==)>(s: seq<T>) {
    forall i, j | 0 <= i < j < |s| :: s[i] != s[j]
  }
}
