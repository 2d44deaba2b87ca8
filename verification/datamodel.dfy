/**
 The fragment of the trading harness's data model that the round-one order
 rules read: order books keyed by price, signed positions keyed by product
 symbol, and the orders the rules emit.
 */
module DataModel {

  /** A value that may be absent, as Python's `None`. */
  datatype Option<+T> = None | Some(value: T)

  /** Products are identified by their symbol text. */
  type Symbol = string

  const RESIN: Symbol := "RAINFOREST_RESIN"
  const SQUID_INK: Symbol := "SQUID_INK"
  const KELP: Symbol := "KELP"

  /** The symmetric position limit every rule respects, per product. */
  const POSITION_LIMIT: int := 50

  /** An order to post: positive quantity buys, negative quantity sells. */
  datatype Order = Order(symbol: Symbol, price: int, quantity: int)

  /** Resting volume by price on each side of one product's book. In the
      harness convention sell-side volumes are negative, so no sign is
      assumed for either side. */
  datatype OrderDepth = OrderDepth(buyOrders: map<int, int>, sellOrders: map<int, int>)

  /** The per-tick snapshot, reduced to the fields the rules read, plus the
      opaque trader-state text, which is carried but never decoded here. */
  datatype TradingState = TradingState(
    traderData: string,
    orderDepths: map<Symbol, OrderDepth>,
    position: map<Symbol, int>)

  /** A position the limit allows. */
  predicate WithinLimit(p: int) {
    -POSITION_LIMIT <= p <= POSITION_LIMIT
  }

  /** The position held in `product`; a product never traded is flat. */
  function GetPosition(state: TradingState, product: Symbol): int
  {
    if product in state.position then state.position[product] else 0
  }
}
