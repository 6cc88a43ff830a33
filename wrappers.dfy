/** Option and Result types shared by every module of the model.

    The Rust code reports two kinds of failure: a recoverable error returned
    with `?` (an `anyhow::Error`, an `sqlx::Error`, ...) and a panic raised by
    `unwrap()`, an out-of-bounds index or a slice at a non-character boundary.
    The model keeps the two apart so that a contract can say which one
    happens. */
module Wrappers {

  datatype Option<+T> = None | Some(value: T)

  /** Why a computation did not produce a value. */
  datatype Failure =
    | Error(reason: string)   // returned to the caller (`?`, `Err(...)`)
    | Panic(reason: string)   // unwinds the thread (`unwrap`, index out of bounds)

  datatype Result<+T> = Ok(value: T) | Fail(failure: Failure) {
    predicate IsError() { Fail? && failure.Error? }
    predicate IsPanic() { Fail? && failure.Panic? }
  }

  function Err<T>(reason: string): Result<T> { Fail(Error(reason)) }

  function Panics<T>(reason: string): Result<T> { Fail(Panic(reason)) }

  /** Message of the panic raised by `Option::unwrap` on `None`. */
  const UNWRAP_NONE: string := "called `Option::unwrap()` on a `None` value"

  /** Message of the panic raised by `Result::unwrap` on `Err`. */
  const UNWRAP_ERR: string := "called `Result::unwrap()` on an `Err` value"

  /** A loop that reads every item in order and pushes the value, returning
      with `?` at the first item that fails: all values, in item order, or
      the failure of the first item that does not read. */
  method CollectAll<E, T>(items: seq<E>, read: E -> Result<T>) returns (r: Result<seq<T>>)
    ensures r.Ok? <==> forall i :: 0 <= i < |items| ==> read(items[i]).Ok?
    ensures r.Ok? ==> |r.value| == |items| && forall i :: 0 <= i < |items| ==> r.value[i] == read(items[i]).value
    ensures r.Fail? ==>
      exists i :: 0 <= i < |items| && read(items[i]).Fail? && r == Fail(read(items[i]).failure)
        && forall j :: 0 <= j < i ==> read(items[j]).Ok?
  {
    var values: seq<T> := [];
    for i := 0 to |items|
      invariant |values| == i
      invariant forall j :: 0 <= j < i ==> read(items[j]).Ok? && values[j] == read(items[j]).value
    {
      var value := read(items[i]);
      if value.Fail? {
        return Fail(value.failure);
      }
      values := values + [value.value];
    }
    return Ok(values);
  }
}
