/** The `IntoResult` trait of src/lib.rs: "this value can be read as a
    `Result<T, E>`". A user implementation for an own type is, in this model,
    simply a function `V -> Result<T, E>` handed to the macros that go through
    the trait; the two implementations the crate ships are below. */
module IntoResult {
  import opened Rust

  /** `impl IntoResult<T, E> for Result<T, E>`: a `Result` is already one. */
  function FromResult<T, E>(x: Result<T, E>): (r: Result<T, E>)
    ensures r == x
  {
    x
  }

  /** `impl IntoResult<T, ()> for Option<T>`: `self.ok_or(())`, so `Some(t)`
      becomes `Ok(t)` and `None` becomes `Err(())`. */
  function FromOption<T>(x: Option<T>): (r: Result<T, ()>)
    ensures r.Ok? <==> x.Some?
    ensures r.Ok? ==> r.value == x.value
    ensures r.Err? ==> r.error == ()
  {
    OkOr(x, ())
  }

  /** The conversion of an `Option` loses nothing: `Result::ok` undoes it. */
  lemma FromOptionLossless<T>(x: Option<T>)
    ensures ResultOk(FromOption(x)) == x
  {
  }

  /** Every `Result<T, ()>` is the conversion of exactly one `Option<T>`: the
      unit error carries no information. */
  lemma FromOptionOnto<T>(r: Result<T, ()>)
    ensures FromOption(ResultOk(r)) == r
  {
    match r
    case Ok(_) =>
    case Err(u) => assert u == ();
  }
}
