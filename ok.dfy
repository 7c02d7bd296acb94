/** The value of each of the five arms of the `ok!` macro of src/lib.rs,
    which turns a value of a user enum into a `Result` whose `Ok` payload is
    one variant's field. A selector is always required. The `or` forms wrap
    the fallback in `Err` themselves; the `else` forms return the fallback's
    own `Result` as it is. */
module OkMacro {
  import opened Rust
  import opened Pattern

  /** `ok!(x, if i, else |e| b)`, expanding to
      `match x { i(q) => Ok(q), e @ _ => b }`. */
  function IfElseBind<T(!new), E, V(!new)>(x: V, i: Variant<T, V>, b: V -> Result<T, E>): (r: Result<T, E>)
    requires IsPattern(i)
    ensures forall q :: x == i.make(q) ==> r == Ok(q)
    ensures !Matches(x, i) ==> r == b(x)
  {
    var arms := [VariantArm(i, (q: T) => Ok(q)), BindArm(b)];
    MatchTwo(x, arms[0], arms[1]);
    Match(x, arms).value
  }

  /** `ok!(x, if i, else b)`, expanding to `match x { i(q) => Ok(q), _ => b }`. */
  function IfElse<T(!new), E, V(!new)>(x: V, i: Variant<T, V>, b: Result<T, E>): (r: Result<T, E>)
    requires IsPattern(i)
    ensures forall q :: x == i.make(q) ==> r == Ok(q)
    ensures !Matches(x, i) ==> r == b
  {
    var arms := [VariantArm(i, (q: T) => Ok(q)), WildArm(b)];
    MatchTwo(x, arms[0], arms[1]);
    Match(x, arms).value
  }

  /** `ok!(x, if i, or |e| b)`, expanding to
      `match x { i(q) => Ok(q), e @ _ => Err(b) }`: on a mismatch, `Err` of
      the fallback applied to the whole item. */
  function IfOrBind<T(!new), E, V(!new)>(x: V, i: Variant<T, V>, b: V -> E): (r: Result<T, E>)
    requires IsPattern(i)
    ensures forall q :: r == Ok(q) <==> x == i.make(q)
    ensures !Matches(x, i) <==> r == Err(b(x))
  {
    var arms := [VariantArm(i, (q: T) => Ok(q)), BindArm((e: V) => Err(b(e)))];
    MatchTwo(x, arms[0], arms[1]);
    Match(x, arms).value
  }

  /** `ok!(x, if i, or b)`, expanding to
      `match x { i(q) => Ok(q), _ => Err(b) }`: on a mismatch `Err(b)`,
      whatever the mismatched item holds. */
  function IfOr<T(!new), E, V(!new)>(x: V, i: Variant<T, V>, b: E): (r: Result<T, E>)
    requires IsPattern(i)
    ensures forall q :: r == Ok(q) <==> x == i.make(q)
    ensures !Matches(x, i) <==> r == Err(b)
  {
    var arms := [VariantArm(i, (q: T) => Ok(q)), WildArm(Err(b))];
    MatchTwo(x, arms[0], arms[1]);
    Match(x, arms).value
  }

  /** `ok!(x, if i)`, expanding to `match x { i(q) => Ok(q), n @ _ => Err(n) }`:
      on a mismatch the error is the entire original item, not a field of it. */
  function If<T(!new), V(!new)>(x: V, i: Variant<T, V>): (r: Result<T, V>)
    requires IsPattern(i)
    ensures forall q :: r == Ok(q) <==> x == i.make(q)
    ensures !Matches(x, i) <==> r == Err(x)
  {
    var arms := [VariantArm(i, (q: T) => Ok(q)), BindArm((n: V) => Err(n))];
    MatchTwo(x, arms[0], arms[1]);
    Match(x, arms).value
  }
}
