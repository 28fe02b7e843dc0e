/** The price oracle, seen by the engine only through its outputs: the price
    of every asset at every moment, and whether that price is stale. How
    prices are sourced, bounded, inverted or frozen is the oracle's business. */
module Prices {
  import opened Types

  /** `price(a, t)` is the latest price of `a` published at or before `t`, in
      the common unit of account; `stale(a, t)` says whether it is too old (or
      missing) to trade on at `t`. */
  datatype Oracle = Oracle(price: (Asset, Time) -> Price, stale: (Asset, Time) -> bool)

  /** The exchange rate from `src` to `dest` at `t`: units of `dest` per unit
      of `src`. */
  function Rate(o: Oracle, src: Asset, dest: Asset, t: Time): (r: real)
    ensures r > 0.0
    ensures r * o.price(dest, t) == o.price(src, t)
  {
    o.price(src, t) / o.price(dest, t)
  }

  /** The value of `amount` of `src`, expressed in units of `dest`, at `t`. */
  function EffectiveValue(o: Oracle, src: Asset, amount: Amount, dest: Asset, t: Time): (v: Amount)
    // value is preserved: both sides are worth the same in the unit of account
    ensures v * o.price(dest, t) == amount * o.price(src, t)
    ensures amount > 0.0 ==> v > 0.0
  {
    amount * Rate(o, src, dest, t)
  }
}
