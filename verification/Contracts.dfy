/** What a book can hold: option contracts and the shares they turn into. */
module Contracts {
  import opened Payoff

  /** What options expire against: one underlying, one day. */
  datatype Series = Series(root: string, expiry: nat)

  type Strike = s: real | s > 0.0 witness 1.0

  /** A contract symbol, read. */
  datatype Contract = Contract(series: Series, call: bool, strike: Strike)

  /** A symbol: one that names a contract, or any other word. */
  datatype Symbol = Option(contract: Contract) | Ticker(word: string)

  /** A price at expiry for every series: the market owes nobody to move them together. */
  type Prices = Series -> real

  ghost predicate NonNegative(prices: Prices) {
    forall k :: prices(k) >= 0.0
  }

  function WorthAt(c: Contract, price: real): real {
    Intrinsic(c.call, c.strike, price)
  }

  /** The same prices with one of them changed. */
  ghost function With(prices: Prices, k: Series, price: real): Prices {
    s => if s == k then price else prices(s)
  }
}
