/**
 One tick of the trader: which rules run, what they return, and the
 conversion request reported alongside.
 */
module Trader {
  import opened DataModel
  import opened Rules

  /** The orders per product and the conversion request of one tick. */
  datatype RunResult = RunResult(orders: map<Symbol, seq<Order>>, conversions: int)

  /** The conversion request reported every tick. */
  const CONVERSIONS: int := 1

  /** `Trader.run`, decision part: only the resin rule is enabled, and it runs
      only when the snapshot has a resin book. The squid-ink and kelp rules
      are switched off. */
  function Run(state: TradingState): (r: RunResult)
    ensures r.conversions == 1
    ensures r.orders.Keys == if RESIN in state.orderDepths then {RESIN} else {}
    ensures RESIN in state.orderDepths ==>
              r.orders[RESIN] == ResinRule(state.orderDepths[RESIN], GetPosition(state, RESIN))
    ensures SQUID_INK !in r.orders && KELP !in r.orders
    ensures forall p | p in r.orders :: forall i | 0 <= i < |r.orders[p]| :: r.orders[p][i].symbol == p
    ensures forall p | p in r.orders && WithinLimit(GetPosition(state, p)) ::
              forall i | 0 <= i < |r.orders[p]| :: WithinLimit(GetPosition(state, p) + r.orders[p][i].quantity)
  {
    var orders := if RESIN in state.orderDepths then map[RESIN := PlaceResinOrders(state)] else map[];
    RunResult(orders, CONVERSIONS)
  }
}
