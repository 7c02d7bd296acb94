/** The enum `Fruit { Apple(i32), Orange(i16) }` that most of the crate's
    tests and documentation examples declare, with its two variant selectors.
    The `apple` and `if_else` tests spell the second variant `_Orange` (to
    silence the unused-variant lint); the documentation's own `IntoResult`
    example adds a third variant and is modelled by `DocConversion.Fruit`. */
module Fruits {
  import opened Rust
  import opened Pattern

  datatype Fruit = Apple(apple: i32) | Orange(orange: i16)

  /** The selector `Fruit::Apple`. */
  function AppleVariant(): (i: Variant<i32, Fruit>)
    ensures IsPattern(i)
    ensures forall q :: i.make(q) == Apple(q)
  {
    Variant((q: i32) => Apple(q), (f: Fruit) => if f.Apple? then Some(f.apple) else None)
  }

  /** The selector `Fruit::Orange`. */
  function OrangeVariant(): (i: Variant<i16, Fruit>)
    ensures IsPattern(i)
    ensures forall q :: i.make(q) == Orange(q)
  {
    Variant((q: i16) => Orange(q), (f: Fruit) => if f.Orange? then Some(f.orange) else None)
  }
}
