/** How the forms of `inner!`, `some!` and `ok!` relate to each other and to
    the `IntoResult` conversions. */
module Laws {
  import opened Rust
  import opened Pattern
  import opened IntoResult
  import InnerMacro
  import SomeMacro
  import OkMacro

  /** The `IntoResult` implementation one writes by hand for a selector:
      `match self { i(q) => Ok(q), e @ _ => Err(e) }`. */
  function SelectorConversion<T, V>(i: Variant<T, V>): V -> Result<T, V> {
    v => if i.proj(v).Some? then Ok(i.proj(v).value) else Err(v)
  }

  /** That conversion is `ok!(_, if i)`. */
  lemma SelectorConversionIsOk<T(!new), V(!new)>(x: V, i: Variant<T, V>)
    requires IsPattern(i)
    ensures SelectorConversion(i)(x) == OkMacro.If(x, i)
  {
  }

  /** The selector forms of `inner!` are the conversion forms run through
      `ok!(_, if i)`: this is why the binder of `inner!(x, if i, else |e| ..)`
      receives the whole item, while that of `inner!(x, else |e| ..)` receives
      only the `Err` payload of the conversion. */
  lemma SelectorFormsAreConversionForms<T(!new), V(!new)>(x: V, i: Variant<T, V>, b: V -> T, c: T)
    requires IsPattern(i)
    ensures InnerMacro.IfElseBind(x, i, b) == InnerMacro.ElseBind(x, SelectorConversion(i), b)
    ensures InnerMacro.IfElse(x, i, c) == InnerMacro.Else(x, SelectorConversion(i), c)
    ensures InnerMacro.If(x, i) == InnerMacro.Plain(x, SelectorConversion(i))
  {
  }

  /** The item an `ok!(_, if i)` result came from: `i(q)` for `Ok(q)`, the
      error itself for `Err`. */
  function Reassemble<T, V>(r: Result<T, V>, i: Variant<T, V>): V {
    match r
    case Ok(q) => i.make(q)
    case Err(n) => n
  }

  /** `ok!(x, if i)` loses nothing: the original item can be rebuilt from its
      result, from the payload on a match and from the error otherwise. */
  lemma OkIfLossless<T(!new), V(!new)>(x: V, i: Variant<T, V>)
    requires IsPattern(i)
    ensures Reassemble(OkMacro.If(x, i), i) == x
  {
  }

  /** Hence `ok!(_, if i)` tells all values apart. */
  lemma OkIfInjective<T(!new), V(!new)>(x: V, y: V, i: Variant<T, V>)
    requires IsPattern(i)
    ensures OkMacro.If(x, i) == OkMacro.If(y, i) ==> x == y
  {
  }

  /** `some!(x, if i)` is `ok!(x, if i).ok()`: it forgets the mismatched item. */
  lemma SomeIsOkWithoutError<T(!new), V(!new)>(x: V, i: Variant<T, V>)
    requires IsPattern(i)
    ensures SomeMacro.If(x, i) == ResultOk(OkMacro.If(x, i))
  {
  }

  /** On a matching value no fallback is used: any two fallbacks give the
      same result, the payload. */
  lemma FallbackUnusedOnMatch<T(!new), V(!new)>(q: T, i: Variant<T, V>, b1: V -> T, b2: V -> T, c1: T, c2: T)
    requires IsPattern(i)
    ensures InnerMacro.IfElseBind(i.make(q), i, b1) == InnerMacro.IfElseBind(i.make(q), i, b2) == q
    ensures InnerMacro.IfElse(i.make(q), i, c1) == InnerMacro.IfElse(i.make(q), i, c2) == q
  {
  }

  /** An `else` clause replaces exactly the panic of the clause-less form. */
  lemma ElseReplacesPanic<T(!new), E(!new), V(!new)>(x: V, i: Variant<T, V>, conv: V -> Result<T, E>, c: T)
    requires IsPattern(i)
    ensures InnerMacro.IfElse(x, i, c) == match InnerMacro.If(x, i) case Returned(q) => q case Panicked => c
    ensures InnerMacro.Else(x, conv, c) == match InnerMacro.Plain(x, conv) case Returned(q) => q case Panicked => c
  {
  }

  /** An `else` clause without a binder is the binder form whose fallback
      ignores its argument. */
  lemma ElseIsConstantBinder<T(!new), E(!new), V(!new)>(x: V, i: Variant<T, V>, conv: V -> Result<T, E>,
                                                       c: T, o: Option<T>, r: Result<T, E>)
    requires IsPattern(i)
    ensures InnerMacro.IfElse(x, i, c) == InnerMacro.IfElseBind(x, i, (_: V) => c)
    ensures InnerMacro.Else(x, conv, c) == InnerMacro.ElseBind(x, conv, (_: E) => c)
    ensures SomeMacro.IfElse(x, i, o) == SomeMacro.IfElseBind(x, i, (_: V) => o)
    ensures OkMacro.IfElse(x, i, r) == OkMacro.IfElseBind(x, i, (_: V) => r)
  {
  }

  /** `or` wraps its fallback in `Err` itself; `else` must produce the whole
      `Result`. Without a clause, `ok!` is `or |e| e`; without a clause,
      `some!` is `else None`. */
  lemma OrIsWrappedElse<T(!new), E, V(!new)>(x: V, i: Variant<T, V>, b: V -> E, e: E)
    requires IsPattern(i)
    ensures OkMacro.IfOrBind(x, i, b) == OkMacro.IfElseBind(x, i, (v: V) => Err(b(v)))
    ensures OkMacro.IfOr(x, i, e) == OkMacro.IfElse(x, i, Err(e))
    ensures OkMacro.IfOr(x, i, e) == OkMacro.IfOrBind(x, i, (_: V) => e)
    ensures OkMacro.If(x, i) == OkMacro.IfOrBind(x, i, (v: V) => v)
    ensures SomeMacro.If(x, i) == SomeMacro.IfElse(x, i, None)
  {
  }

  /** `inner!` on the built-in conversions: an `Option` yields its `Some`
      payload and panics exactly on `None`; a `Result` yields its `Ok`
      payload and panics exactly on `Err`, and an `else |e|` binder then gets
      the `Err` payload (`()` for an `Option`). */
  lemma InnerOnBuiltins<T(!new), E(!new)>(o: Option<T>, x: Result<T, E>, b: (()) -> T, d: E -> T)
    ensures forall t :: InnerMacro.Plain(o, FromOption) == Returned(t) <==> o == Some(t)
    ensures InnerMacro.Plain(o, FromOption) == Panicked <==> o == None
    ensures o == None ==> InnerMacro.ElseBind(o, FromOption, b) == b(())
    ensures forall t :: InnerMacro.Plain(x, FromResult) == Returned(t) <==> x == Ok(t)
    ensures InnerMacro.Plain(x, FromResult) == Panicked <==> x.Err?
    ensures forall e :: x == Err(e) ==> InnerMacro.ElseBind(x, FromResult, d) == d(e)
  {
  }
}
