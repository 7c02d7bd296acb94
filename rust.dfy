/** The pieces of Rust's core library that the macros produce or consume:
    `Option`, `Result`, the `Option::ok_or` conversion that the crate's
    `IntoResult` for `Option` calls, and the outcome of an expression that
    may panic. `Result::ok`, which the crate never calls, is here only to
    state that conversion's inverse and how `some!` relates to `ok!`. */
module Rust {

  /** Rust's `i32` and `i16`. */
  newtype i32 = x: int | -0x8000_0000 <= x < 0x8000_0000
  newtype i16 = x: int | -0x8000 <= x < 0x8000

  /** `core::option::Option`. */
  datatype Option<T> = None | Some(value: T)

  /** `core::result::Result`. */
  datatype Result<T, E> = Ok(value: T) | Err(error: E)

  /** What evaluating an expression of type `T` does: it either yields a value
      or panics. The panic message is not modelled. */
  datatype Outcome<T> = Returned(value: T) | Panicked

  /** `Option::ok_or`: `Some(t)` becomes `Ok(t)`, `None` becomes `Err(err)`. */
  function OkOr<T, E>(o: Option<T>, err: E): (r: Result<T, E>)
    ensures r.Ok? <==> o.Some?
    ensures r.Ok? ==> r.value == o.value
    ensures r.Err? ==> r.error == err
  {
    match o
    case Some(t) => Ok(t)
    case None => Err(err)
  }

  /** `Result::ok`: keeps the `Ok` payload and discards the error. */
  function ResultOk<T, E>(r: Result<T, E>): (o: Option<T>)
    ensures o.Some? <==> r.Ok?
    ensures o.Some? ==> o.value == r.value
  {
    match r
    case Ok(t) => Some(t)
    case Err(_) => None
  }
}
