/** Option and Result, both usable with `:-`. */
module Wrappers {

  datatype Option<+T> = None | Some(value: T) {
    predicate IsFailure() { None? }

    function PropagateFailure<U>(): Option<U>
      requires None?
    {
      None
    }

    function Extract(): T
      requires Some?
    {
      value
    }
  }

  datatype Result<+T, +E> = Ok(value: T) | Err(error: E) {
    predicate IsFailure() { Err? }

    function PropagateFailure<U>(): Result<U, E>
      requires Err?
    {
      Err(error)
    }

    function Extract(): T
      requires Ok?
    {
      value
    }
  }

  /** What a loop returns that has already produced `done` and has yet to process the rest. */
  ghost function After<T>(done: seq<T>, rest: Option<seq<T>>): Option<seq<T>> {
    if rest.Some? then Some(done + rest.value) else None
  }

  lemma AfterNothing<T>(rest: Option<seq<T>>)
    ensures After([], rest) == rest
  {
    assert rest.Some? ==> [] + rest.value == rest.value;
  }

  lemma AfterPiece<T>(done: seq<T>, piece: seq<T>, rest: Option<seq<T>>)
    ensures rest.Some? ==> After(done, Some(piece + rest.value)) == After(done + piece, rest)
  {
    assert rest.Some? ==> done + (piece + rest.value) == done + piece + rest.value;
  }

  lemma AfterAll<T>(done: seq<T>)
    ensures After(done, Some([])) == Some(done)
  {
    assert done + [] == done;
  }
}
