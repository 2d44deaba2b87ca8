/**
 The per-product order rules of round one. Each rule reads one product's
 book and the position at the start of the tick and returns the orders to
 post, in the order they are appended.
 */
module Rules {
  import opened DataModel
  import opened Book

  /** The resin rule's fixed fair value and order size. */
  const FAIR_VALUE: int := 10000
  const RESIN_ORDER_SIZE: int := 15

  /** The imbalance rule's threshold and order size. */
  const IMBALANCE_THRESHOLD: real := 0.5
  const IMBALANCE_ORDER_SIZE: int := 10

  /** Both sides of the book have a resting order. */
  predicate TwoSided(d: OrderDepth) {
    d.buyOrders != map[] && d.sellOrders != map[]
  }

  /** Room to buy `size` more without passing the long limit. */
  predicate CanBuy(position: int, size: int) {
    position + size <= POSITION_LIMIT
  }

  /** Room to sell `size` more without passing the short limit. */
  predicate CanSell(position: int, size: int) {
    position - size >= -POSITION_LIMIT
  }

  // ---------------------------------------------------------------------
  // Fixed fair-value rule (RAINFOREST_RESIN)
  // ---------------------------------------------------------------------

  /** Buy 15 at the best bid when it is under fair value, sell 15 at the best
      ask when it is over fair value; each leg is checked on its own against
      the tick-start position. A one-sided or empty book yields nothing. */
  function ResinRule(d: OrderDepth, position: int): (r: seq<Order>)
    ensures !TwoSided(d) ==> r == []
    ensures |r| <= 2
    ensures TwoSided(d) ==>
              (Order(RESIN, BestBid(d), RESIN_ORDER_SIZE) in r
               <==> BestBid(d) < FAIR_VALUE && CanBuy(position, RESIN_ORDER_SIZE))
    ensures TwoSided(d) ==>
              (Order(RESIN, BestAsk(d), -RESIN_ORDER_SIZE) in r
               <==> BestAsk(d) > FAIR_VALUE && CanSell(position, RESIN_ORDER_SIZE))
    ensures forall i :: 0 <= i < |r| ==>
              TwoSided(d) &&
              (r[i] == Order(RESIN, BestBid(d), RESIN_ORDER_SIZE) ||
               r[i] == Order(RESIN, BestAsk(d), -RESIN_ORDER_SIZE))
    ensures |r| == 2 ==> r[0].quantity > 0 && r[1].quantity < 0
    ensures WithinLimit(position) ==>
              forall i :: 0 <= i < |r| ==> WithinLimit(position + r[i].quantity)
  {
    match GetBestPrices(d)
    case (Some(bid), Some(ask)) =>
      (if bid < FAIR_VALUE && CanBuy(position, RESIN_ORDER_SIZE)
       then [Order(RESIN, bid, RESIN_ORDER_SIZE)] else [])
      + (if ask > FAIR_VALUE && CanSell(position, RESIN_ORDER_SIZE)
         then [Order(RESIN, ask, -RESIN_ORDER_SIZE)] else [])
    case _ => []
  }

  /** A book bid at 9995 and offered at 10010 straddles fair value: from a
      flat position the rule buys 15 at the bid and sells 15 at the ask. */
  lemma ResinQuotesBothSides()
    ensures ResinRule(OrderDepth(map[9995 := 4], map[10010 := -6]), 0)
            == [Order(RESIN, 9995, 15), Order(RESIN, 10010, -15)]
  {
    var d := OrderDepth(map[9995 := 4], map[10010 := -6]);
    assert d.buyOrders.Keys == {9995} && d.sellOrders.Keys == {10010};
    assert BestBid(d) == 9995 && BestAsk(d) == 10010;
  }

  /** A bid at or above fair value suppresses the buy leg; an ask of 10020 is
      still sold into. */
  lemma ResinBidAboveFairOnlySells()
    ensures ResinRule(OrderDepth(map[10005 := 4], map[10020 := -6]), 0)
            == [Order(RESIN, 10020, -15)]
  {
    var d := OrderDepth(map[10005 := 4], map[10020 := -6]);
    assert d.buyOrders.Keys == {10005} && d.sellOrders.Keys == {10020};
    assert BestBid(d) == 10005 && BestAsk(d) == 10020;
  }

  /** The buy leg sits at the limit boundary: from 35 a buy of 15 reaches
      exactly 50 and is posted, from 45 it would reach 60 and is not. */
  lemma ResinBuyLegLimitBoundary(d: OrderDepth)
    requires TwoSided(d) && BestBid(d) < FAIR_VALUE
    ensures Order(RESIN, BestBid(d), RESIN_ORDER_SIZE) in ResinRule(d, 35)
    ensures Order(RESIN, BestBid(d), RESIN_ORDER_SIZE) !in ResinRule(d, 45)
  {
  }

  /** `place_resin_orders`: the resin rule on the snapshot's resin book, at
      the recorded resin position or 0 when none is recorded. */
  function PlaceResinOrders(state: TradingState): (r: seq<Order>)
    requires RESIN in state.orderDepths
    ensures RESIN !in state.position ==> r == ResinRule(state.orderDepths[RESIN], 0)
    ensures RESIN in state.position ==> r == ResinRule(state.orderDepths[RESIN], state.position[RESIN])
    ensures var book := state.orderDepths[RESIN];
            var pos := if RESIN in state.position then state.position[RESIN] else 0;
            TwoSided(book) ==>
              ((Order(RESIN, BestBid(book), RESIN_ORDER_SIZE) in r)
                 <==> BestBid(book) < FAIR_VALUE && CanBuy(pos, RESIN_ORDER_SIZE)) &&
              ((Order(RESIN, BestAsk(book), -RESIN_ORDER_SIZE) in r)
                 <==> BestAsk(book) > FAIR_VALUE && CanSell(pos, RESIN_ORDER_SIZE))
    ensures !TwoSided(state.orderDepths[RESIN]) ==> r == []
    ensures forall i :: 0 <= i < |r| ==> r[i].symbol == RESIN
    ensures var pos := if RESIN in state.position then state.position[RESIN] else 0;
            WithinLimit(pos) ==> forall i :: 0 <= i < |r| ==> WithinLimit(pos + r[i].quantity)
  {
    ResinRule(state.orderDepths[RESIN], GetPosition(state, RESIN))
  }

  // ---------------------------------------------------------------------
  // Imbalance rule (SQUID_INK and KELP, one rule parameterised by product)
  // ---------------------------------------------------------------------

  /** The legs the imbalance rule posts once both best prices exist: above
      the threshold it buys 10 at the ask and 10 at the bid, below minus the
      threshold it sells 10 at the bid and 10 at the ask, and in between it
      quotes a buy of 10 at the bid and a sell of 10 at the ask. */
  function ImbalanceLegs(product: Symbol, bid: int, ask: int, imbalance: real, position: int): (r: seq<Order>)
    ensures |r| <= 2
    ensures forall i :: 0 <= i < |r| ==>
              r[i].symbol == product &&
              (r[i].quantity == IMBALANCE_ORDER_SIZE || r[i].quantity == -IMBALANCE_ORDER_SIZE)
    ensures WithinLimit(position) ==>
              forall i :: 0 <= i < |r| ==> WithinLimit(position + r[i].quantity)
    // buy skew: both legs or neither, ask leg first
    ensures imbalance > IMBALANCE_THRESHOLD ==>
              (r != [] <==> CanBuy(position, IMBALANCE_ORDER_SIZE)) &&
              (r != [] ==> r == [Order(product, ask, IMBALANCE_ORDER_SIZE),
                                 Order(product, bid, IMBALANCE_ORDER_SIZE)])
    // sell skew: both legs or neither, bid leg first
    ensures imbalance < -IMBALANCE_THRESHOLD ==>
              (r != [] <==> CanSell(position, IMBALANCE_ORDER_SIZE)) &&
              (r != [] ==> r == [Order(product, bid, -IMBALANCE_ORDER_SIZE),
                                 Order(product, ask, -IMBALANCE_ORDER_SIZE)])
    // neutral band: two independent legs, buy before sell
    ensures -IMBALANCE_THRESHOLD <= imbalance <= IMBALANCE_THRESHOLD ==>
              ((Order(product, bid, IMBALANCE_ORDER_SIZE) in r)
                 <==> CanBuy(position, IMBALANCE_ORDER_SIZE)) &&
              ((Order(product, ask, -IMBALANCE_ORDER_SIZE) in r)
                 <==> CanSell(position, IMBALANCE_ORDER_SIZE)) &&
              (forall i :: 0 <= i < |r| ==>
                 r[i] == Order(product, bid, IMBALANCE_ORDER_SIZE) ||
                 r[i] == Order(product, ask, -IMBALANCE_ORDER_SIZE)) &&
              (|r| == 2 ==> r[0].quantity > 0 && r[1].quantity < 0)
  {
    if imbalance > IMBALANCE_THRESHOLD then
      (if CanBuy(position, IMBALANCE_ORDER_SIZE)
       then [Order(product, ask, IMBALANCE_ORDER_SIZE)] else [])
      + (if CanBuy(position, IMBALANCE_ORDER_SIZE)
         then [Order(product, bid, IMBALANCE_ORDER_SIZE)] else [])
    else if imbalance < -IMBALANCE_THRESHOLD then
      (if CanSell(position, IMBALANCE_ORDER_SIZE)
       then [Order(product, bid, -IMBALANCE_ORDER_SIZE)] else [])
      + (if CanSell(position, IMBALANCE_ORDER_SIZE)
         then [Order(product, ask, -IMBALANCE_ORDER_SIZE)] else [])
    else
      (if CanBuy(position, IMBALANCE_ORDER_SIZE)
       then [Order(product, bid, IMBALANCE_ORDER_SIZE)] else [])
      + (if CanSell(position, IMBALANCE_ORDER_SIZE)
         then [Order(product, ask, -IMBALANCE_ORDER_SIZE)] else [])
  }

  /** The imbalance rule shared by `place_squid_orders` and
      `place_kelp_orders`: a one-sided or empty book yields nothing, otherwise
      the legs for the book's best prices and best-level imbalance. */
  function ImbalanceRule(product: Symbol, d: OrderDepth, position: int): (r: seq<Order>)
    ensures !TwoSided(d) ==> r == []
    ensures TwoSided(d) ==> r == ImbalanceLegs(product, BestBid(d), BestAsk(d), ComputeImbalance(d), position)
    ensures |r| <= 2
    ensures forall i :: 0 <= i < |r| ==>
              r[i].symbol == product &&
              (r[i].quantity == IMBALANCE_ORDER_SIZE || r[i].quantity == -IMBALANCE_ORDER_SIZE)
    ensures WithinLimit(position) ==>
              forall i :: 0 <= i < |r| ==> WithinLimit(position + r[i].quantity)
  {
    match GetBestPrices(d)
    case (Some(bid), Some(ask)) =>
      ImbalanceLegs(product, bid, ask, ComputeImbalance(d), position)
    case _ => []
  }

  /** `place_squid_orders`: the imbalance rule on the squid-ink book, at the
      recorded squid-ink position or 0 when none is recorded. */
  function PlaceSquidOrders(state: TradingState): (r: seq<Order>)
    requires SQUID_INK in state.orderDepths
    ensures !TwoSided(state.orderDepths[SQUID_INK]) ==> r == []
    ensures |r| <= 2
    ensures forall i :: 0 <= i < |r| ==>
              r[i].symbol == SQUID_INK &&
              (r[i].quantity == IMBALANCE_ORDER_SIZE || r[i].quantity == -IMBALANCE_ORDER_SIZE)
    ensures var pos := if SQUID_INK in state.position then state.position[SQUID_INK] else 0;
            WithinLimit(pos) ==> forall i :: 0 <= i < |r| ==> WithinLimit(pos + r[i].quantity)
    ensures var book := state.orderDepths[SQUID_INK];
            var pos := if SQUID_INK in state.position then state.position[SQUID_INK] else 0;
            TwoSided(book) ==>
              r == ImbalanceLegs(SQUID_INK, BestBid(book), BestAsk(book), ComputeImbalance(book), pos)
  {
    ImbalanceRule(SQUID_INK, state.orderDepths[SQUID_INK], GetPosition(state, SQUID_INK))
  }

  /** `place_kelp_orders`: the imbalance rule on the kelp book, at the
      recorded kelp position or 0 when none is recorded. */
  function PlaceKelpOrders(state: TradingState): (r: seq<Order>)
    requires KELP in state.orderDepths
    ensures !TwoSided(state.orderDepths[KELP]) ==> r == []
    ensures |r| <= 2
    ensures forall i :: 0 <= i < |r| ==>
              r[i].symbol == KELP &&
              (r[i].quantity == IMBALANCE_ORDER_SIZE || r[i].quantity == -IMBALANCE_ORDER_SIZE)
    ensures var pos := if KELP in state.position then state.position[KELP] else 0;
            WithinLimit(pos) ==> forall i :: 0 <= i < |r| ==> WithinLimit(pos + r[i].quantity)
    ensures var book := state.orderDepths[KELP];
            var pos := if KELP in state.position then state.position[KELP] else 0;
            TwoSided(book) ==>
              r == ImbalanceLegs(KELP, BestBid(book), BestAsk(book), ComputeImbalance(book), pos)
  {
    ImbalanceRule(KELP, state.orderDepths[KELP], GetPosition(state, KELP))
  }

  /** The same orders under another product symbol. */
  function Relabel(orders: seq<Order>, product: Symbol): (r: seq<Order>)
    ensures |r| == |orders|
    ensures forall i :: 0 <= i < |r| ==>
              r[i] == Order(product, orders[i].price, orders[i].quantity)
  {
    if orders == [] then []
    else [orders[0].(symbol := product)] + Relabel(orders[1..], product)
  }

  /** The imbalance rule depends on its product only through the symbol it
      writes on the orders. */
  lemma ImbalanceRuleRelabel(p: Symbol, q: Symbol, d: OrderDepth, position: int)
    ensures ImbalanceRule(q, d, position) == Relabel(ImbalanceRule(p, d, position), q)
  {
    var k := ImbalanceRule(q, d, position);
    var s := Relabel(ImbalanceRule(p, d, position), q);
    assert |k| == |s|;
    forall i | 0 <= i < |k| ensures k[i] == s[i] {
    }
  }

  /** `place_kelp_orders` and `place_squid_orders` differ only in the
      product: on a snapshot whose kelp and squid-ink books and positions
      agree, the kelp orders are the squid-ink orders under the kelp symbol. */
  lemma KelpOrdersAreRelabelledSquid(state: TradingState)
    requires KELP in state.orderDepths && SQUID_INK in state.orderDepths
    requires state.orderDepths[KELP] == state.orderDepths[SQUID_INK]
    requires KELP in state.position <==> SQUID_INK in state.position
    requires KELP in state.position ==> state.position[KELP] == state.position[SQUID_INK]
    ensures PlaceKelpOrders(state) == Relabel(PlaceSquidOrders(state), KELP)
  {
    assert GetPosition(state, KELP) == GetPosition(state, SQUID_INK);
    ImbalanceRuleRelabel(SQUID_INK, KELP, state.orderDepths[KELP], GetPosition(state, KELP));
  }

  /** Under the harness's convention (positive bid volume, negative ask
      volume) a book whose best-level volumes do not cancel never reaches the
      passive two-sided branch: every order the rule posts goes the same way,
      buying when the bid volume outweighs and selling otherwise. */
  lemma HarnessBookPostsOneDirection(product: Symbol, d: OrderDepth, position: int)
    requires TwoSided(d)
    requires BestBidVolume(d) > 0 > BestAskVolume(d)
    requires BestBidVolume(d) + BestAskVolume(d) != 0
    ensures BestBidVolume(d) + BestAskVolume(d) > 0 ==>
              forall i :: 0 <= i < |ImbalanceRule(product, d, position)| ==>
                ImbalanceRule(product, d, position)[i].quantity == IMBALANCE_ORDER_SIZE
    ensures BestBidVolume(d) + BestAskVolume(d) < 0 ==>
              forall i :: 0 <= i < |ImbalanceRule(product, d, position)| ==>
                ImbalanceRule(product, d, position)[i].quantity == -IMBALANCE_ORDER_SIZE
  {
    OppositeSignVolumesNeverNeutral(BestBidVolume(d), BestAskVolume(d));
  }

  // ---------------------------------------------------------------------
  // Exposure: what the orders of one tick add up to if all of them fill
  // ---------------------------------------------------------------------

  /** Total quantity bought by the orders if all of them fill. */
  function BuyExposure(orders: seq<Order>): (e: int)
    ensures e >= 0
  {
    if orders == [] then 0
    else (if orders[0].quantity > 0 then orders[0].quantity else 0) + BuyExposure(orders[1..])
  }

  /** Total quantity sold by the orders if all of them fill, as a positive
      number. */
  function SellExposure(orders: seq<Order>): (e: int)
    ensures e >= 0
  {
    if orders == [] then 0
    else (if orders[0].quantity < 0 then -orders[0].quantity else 0) + SellExposure(orders[1..])
  }

  /** Exposure adds up over concatenation. */
  lemma {:induction false} ExposureAppend(a: seq<Order>, b: seq<Order>)
    ensures BuyExposure(a + b) == BuyExposure(a) + BuyExposure(b)
    ensures SellExposure(a + b) == SellExposure(a) + SellExposure(b)
  {
    if a != [] {
      assert (a + b)[1..] == a[1..] + b;
      ExposureAppend(a[1..], b);
    } else {
      assert a + b == b;
    }
  }

  /** The resin rule keeps the limit even cumulatively: buying everything it
      posts, or selling everything it posts, leaves the position inside
      [-50, 50], because it posts at most one leg per direction. */
  lemma ResinCumulativeWithinLimit(d: OrderDepth, position: int)
    requires WithinLimit(position)
    ensures WithinLimit(position + BuyExposure(ResinRule(d, position)))
    ensures WithinLimit(position - SellExposure(ResinRule(d, position)))
  {
    var r := ResinRule(d, position);
    if |r| == 2 {
      assert r == [r[0]] + [r[1]];
      ExposureAppend([r[0]], [r[1]]);
      assert BuyExposure([r[1]]) == 0;
      assert SellExposure([r[0]]) == 0;
    } else if |r| == 1 {
      assert r[1..] == [];
    }
  }

  /** The imbalance rule checks each leg against the tick-start position, so
      if both skewed legs fill the position can pass the limit by one order
      size, and no further. */
  lemma ImbalanceCumulativeBound(product: Symbol, d: OrderDepth, position: int)
    requires WithinLimit(position)
    ensures position + BuyExposure(ImbalanceRule(product, d, position))
            <= POSITION_LIMIT + IMBALANCE_ORDER_SIZE
    ensures position - SellExposure(ImbalanceRule(product, d, position))
            >= -POSITION_LIMIT - IMBALANCE_ORDER_SIZE
  {
    var r := ImbalanceRule(product, d, position);
    if |r| == 2 {
      assert r == [r[0]] + [r[1]];
      ExposureAppend([r[0]], [r[1]]);
    } else if |r| == 1 {
      assert r[1..] == [];
    }
  }

  /** A book where the cumulative bound of `ImbalanceCumulativeBound` is
      reached: 10 lots bid against 1 lot offered gives an imbalance of 9/11,
      and at position 40 both buy legs pass the per-leg check. */
  lemma ImbalanceSkewCanPassLimit()
    ensures var d := OrderDepth(map[99 := 10], map[101 := 1]);
            var r := ImbalanceRule(SQUID_INK, d, 40);
            WithinLimit(40) && 40 + BuyExposure(r) == 60
  {
    var d := OrderDepth(map[99 := 10], map[101 := 1]);
    assert d.buyOrders.Keys == {99};
    assert d.sellOrders.Keys == {101};
    assert BestBid(d) == 99;
    assert BestAsk(d) == 101;
    assert BestBidVolume(d) == 10 && BestAskVolume(d) == 1;
    VolumeImbalanceAboveHalf(10, 1);
    var r := ImbalanceRule(SQUID_INK, d, 40);
    assert r == [Order(SQUID_INK, 101, 10)] + [Order(SQUID_INK, 99, 10)];
    ExposureAppend([Order(SQUID_INK, 101, 10)], [Order(SQUID_INK, 99, 10)]);
  }

  /** The skew branches in integer terms (for a book whose best-level volumes
      have a positive total): the rule buys on both legs exactly when the bid
      volume is more than three times the ask volume, sells on both legs
      exactly when the ask volume is more than three times the bid volume,
      and otherwise quotes passively. */
  lemma ImbalanceBranchesByVolume(product: Symbol, d: OrderDepth, position: int)
    requires TwoSided(d)
    requires BestBidVolume(d) + BestAskVolume(d) > 0
    requires WithinLimit(position) && position + IMBALANCE_ORDER_SIZE <= POSITION_LIMIT
             && position - IMBALANCE_ORDER_SIZE >= -POSITION_LIMIT
    ensures BestBidVolume(d) > 3 * BestAskVolume(d) <==>
              ImbalanceRule(product, d, position)
              == [Order(product, BestAsk(d), IMBALANCE_ORDER_SIZE),
                  Order(product, BestBid(d), IMBALANCE_ORDER_SIZE)]
    ensures BestAskVolume(d) > 3 * BestBidVolume(d) <==>
              ImbalanceRule(product, d, position)
              == [Order(product, BestBid(d), -IMBALANCE_ORDER_SIZE),
                  Order(product, BestAsk(d), -IMBALANCE_ORDER_SIZE)]
  {
    var b, a := BestBidVolume(d), BestAskVolume(d);
    VolumeImbalanceAboveHalf(b, a);
    VolumeImbalanceBelowMinusHalf(b, a);
    var r := ImbalanceRule(product, d, position);
    var imb := ComputeImbalance(d);
    if imb > IMBALANCE_THRESHOLD {
      assert r[1].quantity > 0;
    } else if imb < -IMBALANCE_THRESHOLD {
      assert r[0].quantity < 0;
    } else {
      assert r[0].quantity > 0 && r[1].quantity < 0;
    }
  }
}
