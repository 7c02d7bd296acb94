/** The examples in the documentation comments of src/lib.rs, each stated as
    a lemma about the model. */
module DocExamples {
  import opened Rust
  import opened Pattern
  import opened IntoResult
  import InnerMacro
  import SomeMacro
  import OkMacro
  import opened Fruits

  /** "Helpful unwrap": `inner!(Some(1))` is 1 and `inner!(Ok(2))` is 2; on
      `None` it panics. */
  lemma HelpfulUnwrap()
    ensures InnerMacro.Plain(Some(1 as i32), FromOption) == Returned(1)
    ensures InnerMacro.Plain<i32, (), Result<i32, ()>>(Ok(2), FromResult) == Returned(2)
    ensures InnerMacro.Plain<i32, (), Option<i32>>(None, FromOption) == Panicked
  {
  }

  /** "Error handling": with `else |e|` on `Err(7)`, `e` is 7, and
      `(e + 2).to_string()` makes the result "9". */
  lemma ErrorHandling(b: i32 -> string)
    ensures InnerMacro.ElseBind<string, i32, Result<string, i32>>(Err(7), FromResult, b) == b(7)
  {
  }

  /** "It works with your enums too": `Fruit::Apple(15)` selected as
      `Fruit::Apple` gives 15, not the `else` value 0; `Fruit::Orange(15)`
      passes the whole item to the `else |e|` binder. */
  lemma OwnEnums(b: Fruit -> i32)
    ensures InnerMacro.IfElse(Apple(15), AppleVariant(), 0) == 15
    ensures InnerMacro.IfElseBind(Orange(15), AppleVariant(), b) == b(Orange(15))
  {
  }

  /** The examples of `some!`: `Some(15)` for `Apple(15)`, `None` for
      `Orange(5)`. */
  lemma SomeExamples()
    ensures SomeMacro.If(Apple(15), AppleVariant()) == Some(15)
    ensures SomeMacro.If(Orange(5), AppleVariant()) == None
  {
  }

  /** The examples of `ok!`: `Ok(15)` for `Apple(15)`; for `Orange(5)`,
      `Err(Orange(5))` without a clause, and `Err(75)` both from `or {75}`
      and from `else {Err(75)}`. */
  lemma OkExamples()
    ensures OkMacro.If(Apple(15), AppleVariant()) == Ok(15)
    ensures OkMacro.If(Orange(5), AppleVariant()) == Err(Orange(5))
    ensures OkMacro.IfOr(Orange(5), AppleVariant(), 75 as i32) == Err(75)
    ensures OkMacro.IfElse(Orange(5), AppleVariant(), Err(75 as i32)) == Err(75)
  {
  }
}

/** The crate documentation's example of implementing `IntoResult` for an own
    enum, so that `inner!` needs no selector and more than one variant can
    count as `Ok`. */
module DocConversion {
  import opened Rust
  import InnerMacro

  /** The enum of the documentation's user `IntoResult` implementation. */
  datatype Fruit = Apple(i32) | Orange(i16) | Rotten

  /** `impl IntoResult<i32, ()> for Fruit` of the documentation: two variants
      are `Ok` (the `i16` widened with `as i32`), `Rotten` is `Err(())`. */
  function FruitIntoResult(f: Fruit): (r: Result<i32, ()>)
    ensures r.Err? <==> f.Rotten?
    ensures forall q: i32 :: f == Apple(q) ==> r == Ok(q)
    ensures forall q: i16 :: f == Orange(q) ==> r == Ok(q as i32)
  {
    match f
    case Apple(i) => Ok(i)
    case Orange(i) => Ok(i as i32)
    case Rotten => Err(())
  }

  /** `inner!(Fruit::Apple(9))` through that implementation is 9; either
      `Ok` variant yields its payload without any selector, and only
      `Rotten` panics. */
  lemma OwnConversion(f: Fruit)
    ensures InnerMacro.Plain(Apple(9), FruitIntoResult) == Returned(9)
    ensures forall q: i32 :: f == Apple(q) ==> InnerMacro.Plain(f, FruitIntoResult) == Returned(q)
    ensures InnerMacro.Plain(f, FruitIntoResult) == Panicked <==> f == Rotten
    ensures forall q: i16 :: f == Orange(q) ==> InnerMacro.Plain(f, FruitIntoResult) == Returned(q as i32)
  {
  }
}
