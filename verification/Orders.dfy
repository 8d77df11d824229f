/** Orders as the broker lists them to the execution ladder. Prices per set are in
    hundredths of a dollar, a credit negative. */
module Orders {
  import opened Contracts
  import opened Reservation

  datatype Side = Buy | Sell

  /** What a leg says it does; a leg may say nothing. */
  datatype Intent = ToOpen | ToClose | Unstated

  datatype OrderLeg = OrderLeg(symbol: Symbol, side: Side, quantity: real, ratio: real, intent: Intent)

  datatype Order = Order(
    id: string,
    name: string,
    multiLeg: bool,
    active: bool,
    submitted: Option<int>,
    quantity: real,
    filled: real,
    limit: int,
    legs: seq<OrderLeg>)

  /** One of our structures still waiting in the book. */
  predicate Working(order: Order) {
    order.multiLeg && order.legs != [] && order.submitted.Some? && order.active
  }

  function Remaining(order: Order): real {
    order.quantity - order.filled
  }
}
