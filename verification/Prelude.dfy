/** Small definitions the models share. */
module Prelude {

  datatype Option<+T> = None | Some(value: T)

  datatype Result<+T, +E> = Ok(value: T) | Err(error: E)

  function Min(a: int, b: int): int {
    if a <= b then a else b
  }

  function Max(a: int, b: int): int {
    if a >= b then a else b
  }

  lemma CancelOne<T>(x: T, a: multiset<T>, b: multiset<T>)
    ensures multiset{x} + a <= multiset{x} + b ==> a <= b
    ensures multiset{x} + a == multiset{x} + b ==> a == b
  {
    if multiset{x} + a <= multiset{x} + b {
      forall y ensures a[y] <= b[y] {
        assert (multiset{x} + a)[y] <= (multiset{x} + b)[y];
      }
    }
    assert a == multiset{x} + a - multiset{x};
    assert b == multiset{x} + b - multiset{x};
  }
}
