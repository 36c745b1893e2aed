/**
 * The shopping item record and the numeric checks an item must pass before
 * it may enter the working list.
 */
module ShoppingItems {
  import opened Optional

  /** One entry of a shopping list. All three fields hold the user's text
      verbatim; quantity and price are parsed only to validate them. */
  datatype Item = Item(name: string, quantity: string, price: string)

  /** The item a waterfall frame starts with. The source's fields start out
      null; each one is assigned before it is read, so any value does here. */
  const Blank := Item("", "", "")

  /** The values Int32.Parse can return. */
  type Int32 = x: int | -0x8000_0000 <= x < 0x8000_0000

  /** The values float.Parse can return: a finite single, a NaN or an infinity. */
  datatype Float = Finite(value: real) | NaN | PositiveInfinity | NegativeInfinity

  /** IEEE 754 `f < 0`: false for NaN and for negative zero. */
  predicate BelowZero(f: Float) {
    match f
    case Finite(r) => r < 0.0
    case NegativeInfinity => true
    case _ => false
  }

  /** The culture-dependent parsers the dialogs call. `None` stands for every
      exception the call can throw (format, overflow, null or argument). */
  datatype Parsers = Parsers(int32: string -> Option<Int32>, float: string -> Option<Float>)

  /** The quantity check: Int32.Parse succeeds and the value is at least 1. */
  predicate QuantityAccepted(env: Parsers, s: string) {
    match env.int32(s)
    case Some(q) => q >= 1
    case None => false
  }

  /** The price check: float.Parse succeeds and the value is not below 0. */
  predicate PriceAccepted(env: Parsers, s: string) {
    match env.float(s)
    case Some(f) => !BelowZero(f)
    case None => false
  }

  predicate ItemAccepted(env: Parsers, item: Item) {
    QuantityAccepted(env, item.quantity) && PriceAccepted(env, item.price)
  }

  /** Every item of a list passed both checks. */
  ghost predicate AllAccepted(env: Parsers, items: seq<Item>) {
    forall i :: 0 <= i < |items| ==> ItemAccepted(env, items[i])
  }
}
