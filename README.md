# try_utils (inner-rs): a verified model of `inner!`, `some!` and `ok!`

The crate provides three macros that take a value out of a sum type in one
expression, plus the `IntoResult` conversion trait:

- `inner!` returns a variant's payload. On a mismatch it panics or falls back to an `else` clause.
- `some!` turns one variant into an `Option`.
- `ok!` turns one variant into a `Result`.

Each macro arm expands to a single `match` on the target. So this model gives
every arm its own pure function, and the body of each function is that arm's
`match`, written as data:

- `rust.dfy` (module `Rust`): `Option`, `Result` and `i32`/`i16`. It also has `Outcome`, a value or a panic.
- `into_result.dfy` (module `IntoResult`): the two built-in `IntoResult` implementations. A user implementation is a function parameter `conv: V -> Result<T, E>`.
- `pattern.dfy` (module `Pattern`): this file defines the following.
  - A variant selector `$i:path`, as a `Variant` record. It holds the constructor `$i(q)` and the pattern `$i(q)`.
  - `IsPattern`: the pattern matches exactly the values the constructor builds, and binds the field they were built from.
  - The three kinds of arm: `$i(q) => …`, `$e @ _ => …` and `_ => …`.
  - `Match`, a Rust `match`: the first arm whose pattern matches is the one evaluated.
- `inner.dfy`, `some.dfy`, `ok.dfy` (modules `InnerMacro`, `SomeMacro`, `OkMacro`): one function per macro arm. An `else b` or `or b` clause is a value `b`. An `else |e| b` or `or |e| b` clause is a function `b` of whatever `e` is bound to. The table below writes these binder clauses as `else e: b` and `or e: b`.
- `laws.dfy` (module `Laws`): how the forms relate to one another.
- `fruits.dfy` (module `Fruits`): the `enum Fruit { Apple(i32), Orange(i16) }` that most tests and examples declare, with its two selectors.
- `unit_tests.dfy` and `doc_examples.dfy`: the crate's `#[test]` functions and its documentation examples, stated as lemmas.

Every macro with a selector requires `IsPattern(i)`. The Rust compiler accepts
`$i(q)` both as a pattern and as a constructor only when `$i` is a
single-field tuple variant or tuple struct, and for such a path the property
always holds. The selectors of the test enums discharge it in their own
contracts.

## Model

| member | source | states |
|---|---|---|
| Rust.OkOr | src/lib.rs:155 | `Option::ok_or`: `Some(t)` gives `Ok(t)`; `None` gives `Err(err)` |
| IntoResult.FromResult | src/lib.rs:145-150 | converting a `Result` gives it back unchanged |
| IntoResult.FromOption | src/lib.rs:152-157 | `Some(t)` gives `Ok(t)`; `None` gives `Err(())` |
| IntoResult.FromOptionLossless | src/lib.rs:152-157 | `Result::ok` undoes the conversion of an `Option` |
| IntoResult.FromOptionOnto | src/lib.rs:152-157 | every `Result<T, ()>` is the conversion of some `Option`, so the conversion is a bijection |
| Pattern.OkVariant | src/lib.rs:179 | the constructor is `Ok`, and it forms a well-formed selector with the pattern `Ok(q)`: the pattern matches exactly the values `Ok(q)` and binds `q` |
| Pattern.ErrVariant | src/lib.rs:180 | the constructor is `Err`, and it forms a well-formed selector with the pattern `Err($e)`: the pattern matches exactly the values `Err(e)` and binds `e` |
| Pattern.VariantArm | src/lib.rs:164 | for a well-formed selector, the arm `$i(q) => body` gives `body(q)` on every value built as `$i(q)`, and does not fire on any value not of that variant |
| Pattern.Match | src/lib.rs:163-166 | a `match` gives the value of the first arm whose pattern matches; it gives nothing exactly when no arm matches |
| Pattern.MatchTwo | src/lib.rs:163-166 | in a two-arm `match`, the second arm is used only when the first arm's pattern fails |
| InnerMacro.IfElseBind | src/lib.rs:162-167 | with `if i` and a binder clause `else e: b`, `inner!` is `q` when `x` is `i(q)`; otherwise it is `b` of the whole item `x` |
| InnerMacro.IfElse | src/lib.rs:169-174 | `inner!(x, if i, else b)` is `q` when `x` is `i(q)`; otherwise it is `b` |
| InnerMacro.ElseBind | src/lib.rs:176-182 | with the binder clause `else e: b`, `inner!` is the `Ok` payload of `into_result`; on `Err(p)` it is `b(p)` of the payload only |
| InnerMacro.Else | src/lib.rs:184-190 | `inner!(x, else b)` is the `Ok` payload of `into_result`; on `Err` it is `b` |
| InnerMacro.If | src/lib.rs:192-197 | `inner!(x, if i)` returns `q` exactly when `x` is `i(q)`, and panics exactly when `x` is not of variant `i` |
| InnerMacro.Plain | src/lib.rs:199-205 | `inner!(x)` returns `q` exactly when `into_result` gives `Ok(q)`, and panics exactly when it gives `Err` |
| SomeMacro.IfElseBind | src/lib.rs:218-223 | with `if i` and a binder clause `else e: b`, `some!` is `Some(q)` when `x` is `i(q)`; otherwise it is `b(x)`, the fallback's own `Option` |
| SomeMacro.IfElse | src/lib.rs:225-230 | `some!(x, if i, else b)` is `Some(q)` when `x` is `i(q)`; otherwise it is `b` |
| SomeMacro.If | src/lib.rs:232-237 | `some!(x, if i)` is `Some(q)` exactly when `x` is `i(q)`, and `None` exactly on a mismatch |
| OkMacro.IfElseBind | src/lib.rs:253-258 | with `if i` and a binder clause `else e: b`, `ok!` is `Ok(q)` when `x` is `i(q)`; otherwise it is `b(x)` as is, not wrapped again |
| OkMacro.IfElse | src/lib.rs:260-265 | `ok!(x, if i, else b)` is `Ok(q)` when `x` is `i(q)`; otherwise it is `b` as is |
| OkMacro.IfOrBind | src/lib.rs:267-272 | with `if i` and a binder clause `or e: b`, `ok!` is `Ok(q)` exactly when `x` is `i(q)`, and `Err(b(x))` exactly on a mismatch |
| OkMacro.IfOr | src/lib.rs:274-279 | `ok!(x, if i, or b)` is `Ok(q)` exactly when `x` is `i(q)`, and `Err(b)` exactly on a mismatch, whatever else `x` holds |
| OkMacro.If | src/lib.rs:281-286 | `ok!(x, if i)` is `Ok(q)` exactly when `x` is `i(q)`, and `Err(x)` of the entire item exactly on a mismatch |
| Laws.SelectorConversionIsOk | src/lib.rs:281-286 | the hand-written `IntoResult` for a selector, `i(q) => Ok(q), e => Err(e)`, is `ok!(_, if i)` |
| Laws.SelectorFormsAreConversionForms | src/lib.rs:162-205 | each selector form of `inner!` equals the matching conversion form run through that conversion; this is why the selector binder receives the whole item |
| Laws.OkIfLossless | src/lib.rs:281-286 | the original item can be rebuilt from the result of `ok!(x, if i)` |
| Laws.OkIfInjective | src/lib.rs:281-286 | `ok!(_, if i)` never maps two different items to the same result |
| Laws.SomeIsOkWithoutError | src/lib.rs:232-237 | `some!(x, if i)` is `ok!(x, if i).ok()`; it forgets the mismatched item |
| Laws.FallbackUnusedOnMatch | src/lib.rs:162-174 | on a matching value, any two fallbacks give the same result, the payload |
| Laws.ElseReplacesPanic | src/lib.rs:169-205 | an `else b` clause replaces exactly the panic of the clause-less form, with and without a selector |
| Laws.ElseIsConstantBinder | src/lib.rs:162-265 | each binder-less `else` form equals its binder form with a fallback that ignores its argument |
| Laws.OrIsWrappedElse | src/lib.rs:232-286 | `or b` is `else Err(b)`; `or b` is a binder `or` clause that ignores its argument; clause-less `ok!` is the binder `or` clause returning the item itself; clause-less `some!` is `else None` |
| Laws.InnerOnBuiltins | src/lib.rs:145-205 | `inner!` on an `Option` or `Result` returns the `Some`/`Ok` payload and panics exactly on `None`/`Err`; an `else` binder gets the `Err` payload, which is `()` for `None` |
| Fruits.AppleVariant | src/lib.rs:388-392 | the selector `Fruit::Apple` of the tests and examples builds `Apple(q)` and is well-formed, so its pattern matches exactly the values `Apple(q)` |
| Fruits.OrangeVariant | src/lib.rs:388-392 | the selector `Fruit::Orange` builds `Orange(q)` and is well-formed, so its pattern matches exactly the values `Orange(q)` |
| UnitTests.FruitIntoResult | src/lib.rs:346-353 | the test's `IntoResult` for `Fruit`: `Apple(i)` gives `Ok(i)`; `Orange(i)` gives `Err(i)` |
| UnitTests.SimpleOpt | src/lib.rs:289-299 | `inner!(Some(7))` is 7; `inner!(None)` panics |
| UnitTests.ElseClause2 | src/lib.rs:308-316 | on `Err(7)`, the `else` binder is 7 and the result is the fallback's value at 7 |
| UnitTests.AppleAndIfElse | src/lib.rs:318-336 | `Apple(15)` selected as `Apple` gives 15, with or without an `else` clause, whatever that clause would give |
| UnitTests.OwnEnum | src/lib.rs:338-365 | through the user impl, `Orange(15)` gives 7; selecting `Orange` on `Apple(15)` passes the whole item to the binder, and the result is 9 |
| UnitTests.SomeTest | src/lib.rs:367-384 | `Some(15)`, `None`, and with an `else` binder clause the binder gets `Orange(15)` and the result is `Some(30)` |
| UnitTests.OkTest | src/lib.rs:386-410 | `Ok(15)`, `Err(Orange(15))`, `else` gives `Err(3)`, `or 67` gives `Err(67)` on a mismatch and `Ok(15)` on a match |
| DocExamples.HelpfulUnwrap | src/lib.rs:9-31 | `inner!(Some(1))` is 1; `inner!(Ok(2))` is 2; `inner!(None)` panics |
| DocExamples.ErrorHandling | src/lib.rs:52-62 | on `Err(7)`, the `else` binder is 7 |
| DocExamples.OwnEnums | src/lib.rs:67-107 | `Apple(15)` gives 15 and not the `else` value 0; `Orange(15)` passes the whole item to the binder |
| DocExamples.SomeExamples | src/lib.rs:212-215 | `some!` gives `Some(15)` for `Apple(15)` and `None` for `Orange(5)` |
| DocExamples.OkExamples | src/lib.rs:244-250 | `ok!` gives `Ok(15)`, `Err(Orange(5))`, `Err(75)` with `or {75}` and `Err(75)` with `else {Err(75)}` |
| DocConversion.FruitIntoResult | src/lib.rs:115-130 | the documentation's `IntoResult`: `Apple` and `Orange` (widened to `i32`) are `Ok`; `Rotten` is `Err(())` |
| DocConversion.OwnConversion | src/lib.rs:110-133 | `inner!(Fruit::Apple(9))` is 9; both `Ok` variants yield their payload; only `Rotten` panics |

## Left out

- Macro token matching. Which `macro_rules!` arm a call selects, and in what order the arms are tried, is decided by the Rust compiler at compile time. Each arm is its own named function here.
- Panic messages. `stringify!($x)` puts the unparsed text of the target into the message. A panic is only the outcome `Panicked`, with no message.
- Non-local control flow in a fallback: `else return`, `break` and `continue` (src/lib.rs:40, src/lib.rs:304). The `else_clause` test depends on this and is not modelled. Fallbacks are ordinary values and functions.
- Fallbacks that panic. A panicking fallback, like `else panic!("Not an apple")` in the `if_else` test, cannot be a value. `Laws.FallbackUnusedOnMatch` and `UnitTests.AppleAndIfElse` instead state that no fallback affects the result on a match.
- Single evaluation and side effects of the target expression. These cannot be observed in a pure model.
- Trait dispatch for user `IntoResult` impls, and the `use $crate::IntoResult` hygiene. A user impl is a function parameter.
- `println!` output in the documentation examples. This is I/O.
- UnitTests.ElseClause2: `(e + 2).to_string()` is not modelled. The lemma states that the fallback is applied to 7, which makes the test's result `"9"`.
- DocExamples.ErrorHandling: same reason as `UnitTests.ElseClause2`.
- UnitTests.OwnEnum: `(e - 8) as i32` on an `i16` is computed on unbounded integers. This changes nothing for the test's value 15, but overflow ("attempt to subtract with overflow") near `i16::MIN` is not modelled.
