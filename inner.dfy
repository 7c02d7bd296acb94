/** The value of each of the six arms of the `inner!` macro of src/lib.rs.
    The first two and the fifth match the target against a variant selector;
    the other three first convert the target through `IntoResult` (the
    parameter `conv`, which is `FromResult`, `FromOption` or a user
    implementation). An `else` expression is a value `b`; `else |e| b` is a
    function `b` of what `e` is bound to. */
module InnerMacro {
  import opened Rust
  import opened Pattern

  /** `inner!(x, if i, else |e| b)`, expanding to
      `match x { i(q) => q, e @ _ => b }`: the payload of a matching value,
      else the fallback applied to the whole non-matching item. */
  function IfElseBind<T(!new), V(!new)>(x: V, i: Variant<T, V>, b: V -> T): (r: T)
    requires IsPattern(i)
    ensures forall q :: x == i.make(q) ==> r == q
    ensures !Matches(x, i) ==> r == b(x)
  {
    var arms := [VariantArm(i, (q: T) => q), BindArm(b)];
    MatchTwo(x, arms[0], arms[1]);
    Match(x, arms).value
  }

  /** `inner!(x, if i, else b)`, expanding to `match x { i(q) => q, _ => b }`. */
  function IfElse<T(!new), V(!new)>(x: V, i: Variant<T, V>, b: T): (r: T)
    requires IsPattern(i)
    ensures forall q :: x == i.make(q) ==> r == q
    ensures !Matches(x, i) ==> r == b
  {
    var arms := [VariantArm(i, (q: T) => q), WildArm(b)];
    MatchTwo(x, arms[0], arms[1]);
    Match(x, arms).value
  }

  /** `inner!(x, else |e| b)`, expanding to
      `match x.into_result() { Ok(q) => q, Err(e) => b }`: the `Ok` payload,
      else the fallback applied to the `Err` payload only. */
  function ElseBind<T(!new), E(!new), V>(x: V, conv: V -> Result<T, E>, b: E -> T): (r: T)
    ensures conv(x).Ok? ==> r == conv(x).value
    ensures conv(x).Err? ==> r == b(conv(x).error)
  {
    var arms := [VariantArm(OkVariant(), (q: T) => q), VariantArm(ErrVariant(), b)];
    MatchTwo(conv(x), arms[0], arms[1]);
    Match(conv(x), arms).value
  }

  /** `inner!(x, else b)`, expanding to
      `match x.into_result() { Ok(q) => q, _ => b }`. */
  function Else<T(!new), E(!new), V>(x: V, conv: V -> Result<T, E>, b: T): (r: T)
    ensures conv(x).Ok? ==> r == conv(x).value
    ensures conv(x).Err? ==> r == b
  {
    var arms := [VariantArm(OkVariant(), (q: T) => q), WildArm(b)];
    MatchTwo(conv(x), arms[0], arms[1]);
    Match(conv(x), arms).value
  }

  /** `inner!(x, if i)`, expanding to `match x { i(q) => q, _ => panic!(..) }`:
      it returns `q` exactly when `x` is `i(q)`, and panics exactly when `x`
      is not of the variant. */
  function If<T(!new), V(!new)>(x: V, i: Variant<T, V>): (r: Outcome<T>)
    requires IsPattern(i)
    ensures forall q :: r == Returned(q) <==> x == i.make(q)
    ensures r == Panicked <==> !Matches(x, i)
  {
    var arms := [VariantArm(i, (q: T) => Returned(q)), WildArm(Panicked)];
    MatchTwo(x, arms[0], arms[1]);
    Match(x, arms).value
  }

  /** `inner!(x)`, expanding to
      `match x.into_result() { Ok(q) => q, _ => panic!(..) }`: it returns `q`
      exactly when the conversion gives `Ok(q)`, and panics exactly when it
      gives an `Err`. */
  function Plain<T(!new), E(!new), V>(x: V, conv: V -> Result<T, E>): (r: Outcome<T>)
    ensures forall q :: r == Returned(q) <==> conv(x) == Ok(q)
    ensures r == Panicked <==> conv(x).Err?
  {
    var arms := [VariantArm(OkVariant(), (q: T) => Returned(q)), WildArm(Panicked)];
    MatchTwo(conv(x), arms[0], arms[1]);
    Match(conv(x), arms).value
  }
}
