/** The `#[test]` functions at the end of src/lib.rs, each stated as a lemma
    about the model. A fallback that the test checks from inside (an
    `assert_eq!` on the binder) is a parameter `b`, and the lemma says what
    `b` is applied to. */
module UnitTests {
  import opened Rust
  import opened Pattern
  import opened IntoResult
  import InnerMacro
  import SomeMacro
  import OkMacro
  import opened Fruits

  /** `own_enum`'s `impl IntoResult<i32, i16> for Fruit`. */
  function FruitIntoResult(f: Fruit): (r: Result<i32, i16>)
    ensures f.Apple? <==> r.Ok?
    ensures r.Ok? ==> r.value == f.apple
    ensures r.Err? ==> r.error == f.orange
  {
    match f
    case Apple(i) => Ok(i)
    case Orange(i) => Err(i)
  }

  /** `simple_opt` and `simple_opt_fail`: `inner!(Some(7))` is 7 and
      `inner!(None)` panics. */
  lemma SimpleOpt()
    ensures InnerMacro.Plain(Some(7 as i32), FromOption) == Returned(7)
    ensures InnerMacro.Plain<i32, (), Option<i32>>(None, FromOption) == Panicked
  {
  }

  /** `else_clause_2`: on `Err(7)` the binder `e` is 7, so the result is the
      fallback's value at 7 (`(7 + 2).to_string()` in the test). */
  lemma ElseClause2(b: i32 -> string)
    ensures InnerMacro.ElseBind<string, i32, Result<string, i32>>(Err(7), FromResult, b) == b(7)
  {
  }

  /** `apple` and `if_else`: `Fruit::Apple(15)` selected as `Fruit::Apple`
      gives 15, whatever the `else` clause would have given. */
  lemma AppleAndIfElse(c: i32)
    ensures InnerMacro.If(Apple(15), AppleVariant()) == Returned(15)
    ensures InnerMacro.IfElse(Apple(15), AppleVariant(), c) == 15
  {
  }

  /** `own_enum`: through the user conversion, `Orange(15)` binds `e` to the
      `Err` payload 15 and `(e - 8) as i32` gives 7; with the selector
      `Fruit::Orange`, `Apple(15)` binds `e` to the whole item and the
      fallback's 9 is the result. */
  lemma OwnEnum(b: Fruit -> i16)
    ensures InnerMacro.ElseBind(Orange(15), FruitIntoResult, (e: i16) => (e as int - 8) as i32) == 7
    ensures InnerMacro.IfElseBind(Apple(15), OrangeVariant(), b) == b(Apple(15))
    ensures InnerMacro.IfElseBind(Apple(15), OrangeVariant(), (_: Fruit) => 9) == 9
  {
    assert FruitIntoResult(Orange(15)) == Err(15);
    assert !Matches(Apple(15), OrangeVariant());
  }

  /** `some`: a match is `Some(15)`, a mismatch `None`, and with `else |e|`
      the fallback, given `Orange(15)`, is the whole result. */
  lemma SomeTest(b: Fruit -> Option<i32>)
    ensures SomeMacro.If(Apple(15), AppleVariant()) == Some(15)
    ensures SomeMacro.If(Orange(15), AppleVariant()) == None
    ensures SomeMacro.IfElseBind(Orange(15), AppleVariant(), b) == b(Orange(15))
    ensures SomeMacro.IfElseBind(Orange(15), AppleVariant(), (_: Fruit) => Some(30)) == Some(30)
  {
  }

  /** `ok`: a match is `Ok(15)`; a mismatch is `Err` of the whole item, the
      `else` fallback's own `Result`, or `Err(67)` with `or 67`. */
  lemma OkTest(b: Fruit -> Result<i32, i32>)
    ensures OkMacro.If(Apple(15), AppleVariant()) == Ok(15)
    ensures OkMacro.If(Orange(15), AppleVariant()) == Err(Orange(15))
    ensures OkMacro.IfElseBind(Orange(15), AppleVariant(), b) == b(Orange(15))
    ensures OkMacro.IfElseBind(Orange(15), AppleVariant(), (_: Fruit) => Err(3)) == Err(3)
    ensures OkMacro.IfOr(Apple(15), OrangeVariant(), 67 as i32) == Err(67)
    ensures OkMacro.IfOr(Apple(15), AppleVariant(), 67 as i32) == Ok(15)
  {
  }
}
