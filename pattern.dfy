/** The meaning of the `match` expression that every macro arm expands to:
    variant selectors, the three kinds of arm the crate writes, and Rust's
    rule that the first arm whose pattern matches is the one evaluated. */
module Pattern {
  import opened Rust

  /** A variant selector `$i:path`, such as `Fruit::Apple`: a tuple-like
      variant (or tuple struct) with one field of type `T` in a type `V`.
      `make` is the path used as a constructor, `$i(q)`; `proj` is the path
      used as the pattern `$i(q)`, giving `Some(q)` when a value matches it
      and `None` otherwise. */
  datatype Variant<!T, !V> = Variant(make: T -> V, proj: V -> Option<T>)

  /** What the Rust compiler guarantees of every path it accepts in both
      positions: the pattern `$i(q)` matches exactly the values built by
      `$i(q)`, and binds `q` to the field they were built from. */
  ghost predicate IsPattern<T(!new), V(!new)>(i: Variant<T, V>) {
    && (forall q :: i.proj(i.make(q)) == Some(q))
    && (forall v :: i.proj(v).Some? ==> i.make(i.proj(v).value) == v)
  }

  /** `x` is of the variant `i`: `x` is `$i(q)` for some `q`. */
  ghost predicate Matches<T(!new), V>(x: V, i: Variant<T, V>) {
    exists q :: x == i.make(q)
  }

  /** With a well-formed selector, testing the pattern is the same as asking
      whether the value was built by that variant. */
  lemma ProjMatches<T(!new), V(!new)>(x: V, i: Variant<T, V>)
    requires IsPattern(i)
    ensures i.proj(x).Some? <==> Matches(x, i)
    ensures forall q :: i.proj(x) == Some(q) <==> x == i.make(q)
  {
  }

  /** The `Ok` variant of `Result<T, E>`, as in the pattern `Ok(q)`. */
  function OkVariant<T(!new), E(!new)>(): (i: Variant<T, Result<T, E>>)
    ensures IsPattern(i)
    ensures forall q :: i.make(q) == Ok(q)
  {
    Variant((q: T) => Ok(q), (r: Result<T, E>) => if r.Ok? then Some(r.value) else None)
  }

  /** The `Err` variant of `Result<T, E>`, as in the pattern `Err($e)`. */
  function ErrVariant<T(!new), E(!new)>(): (i: Variant<E, Result<T, E>>)
    ensures IsPattern(i)
    ensures forall e :: i.make(e) == Err(e)
  {
    Variant((e: E) => Err(e), (r: Result<T, E>) => if r.Err? then Some(r.error) else None)
  }

  /** A match arm, pattern and body together: applied to the scrutinee it
      gives `Some` of the body's value when the pattern matches, else `None`. */
  type Arm<!V, R> = V -> Option<R>

  /** The arm `$i(q) => body(q)`: it fires on the values built as `$i(q)`,
      with `body` applied to the field they were built from, and on nothing
      else. */
  function VariantArm<T(!new), V(!new), R>(i: Variant<T, V>, body: T -> R): (a: Arm<V, R>)
    requires IsPattern(i)
    ensures forall q :: a(i.make(q)) == Some(body(q))
    ensures forall v :: !Matches(v, i) ==> a(v) == None
  {
    v => if i.proj(v).Some? then Some(body(i.proj(v).value)) else None
  }

  /** The arm `$e @ _ => body($e)`: matches anything and binds all of it. */
  function BindArm<V, R>(body: V -> R): Arm<V, R>
  {
    v => Some(body(v))
  }

  /** The arm `_ => body`: matches anything and binds nothing. */
  function WildArm<V, R>(body: R): Arm<V, R>
  {
    _ => Some(body)
  }

  /** Arm `k` is the one a `match` on `v` evaluates: its pattern matches and
      no earlier arm's does. */
  ghost predicate Chosen<V, R>(v: V, arms: seq<Arm<V, R>>, k: int) {
    && 0 <= k < |arms|
    && arms[k](v).Some?
    && forall j :: 0 <= j < k ==> arms[j](v).None?
  }

  /** A Rust `match v { arms }`: the value of the first arm whose pattern
      matches, or `None` when no arm does (which the compiler rules out for
      every match the crate writes, each of them being exhaustive). */
  function Match<V, R>(v: V, arms: seq<Arm<V, R>>): (r: Option<R>)
    ensures r.None? <==> forall k :: 0 <= k < |arms| ==> arms[k](v).None?
    ensures forall k :: Chosen(v, arms, k) ==> r == arms[k](v)
    decreases |arms|
  {
    if arms == [] then None
    else if arms[0](v).Some? then arms[0](v)
    else
      var rest := Match(v, arms[1..]);
      assert forall k :: Chosen(v, arms, k) ==> Chosen(v, arms[1..], k - 1);
      rest
  }

  /** A two-armed match: the second arm is evaluated only when the first
      one's pattern fails. */
  lemma MatchTwo<V, R>(v: V, first: Arm<V, R>, second: Arm<V, R>)
    ensures Match(v, [first, second]) == if first(v).Some? then first(v) else second(v)
  {
  }
}
