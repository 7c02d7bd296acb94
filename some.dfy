/** The value of each of the three arms of the `some!` macro of src/lib.rs,
    which turns a value of a user enum into an `Option` of one variant's
    payload. A selector is always required. */
module SomeMacro {
  import opened Rust
  import opened Pattern

  /** `some!(x, if i, else |e| b)`, expanding to
      `match x { i(q) => Some(q), e @ _ => b }`: on a mismatch the fallback,
      given the whole item, is the entire result. */
  function IfElseBind<T(!new), V(!new)>(x: V, i: Variant<T, V>, b: V -> Option<T>): (r: Option<T>)
    requires IsPattern(i)
    ensures forall q :: x == i.make(q) ==> r == Some(q)
    ensures !Matches(x, i) ==> r == b(x)
  {
    var arms := [VariantArm(i, (q: T) => Some(q)), BindArm(b)];
    MatchTwo(x, arms[0], arms[1]);
    Match(x, arms).value
  }

  /** `some!(x, if i, else b)`, expanding to
      `match x { i(q) => Some(q), _ => b }`. */
  function IfElse<T(!new), V(!new)>(x: V, i: Variant<T, V>, b: Option<T>): (r: Option<T>)
    requires IsPattern(i)
    ensures forall q :: x == i.make(q) ==> r == Some(q)
    ensures !Matches(x, i) ==> r == b
  {
    var arms := [VariantArm(i, (q: T) => Some(q)), WildArm(b)];
    MatchTwo(x, arms[0], arms[1]);
    Match(x, arms).value
  }

  /** `some!(x, if i)`, expanding to `match x { i(q) => Some(q), _ => None }`:
      `Some(q)` exactly when `x` is `i(q)`, `None` exactly on a mismatch. */
  function If<T(!new), V(!new)>(x: V, i: Variant<T, V>): (r: Option<T>)
    requires IsPattern(i)
    ensures forall q :: r == Some(q) <==> x == i.make(q)
    ensures r.None? <==> !Matches(x, i)
  {
    var arms := [VariantArm(i, (q: T) => Some(q)), WildArm(None)];
    MatchTwo(x, arms[0], arms[1]);
    Match(x, arms).value
  }
}
