# Round-one order rules

A model of the decision core of a round-one market-making trader. Each tick
the trading harness hands the trader a snapshot: for every product, the
resting buy and sell orders keyed by price, and the trader's signed
position. For each enabled product a rule reads the best bid (highest buy
price) and best ask (lowest sell price) and posts zero, one or two orders
`(product, price, quantity)`, positive quantity buying and negative selling,
keeping every single order inside the ±50 position limit measured from the
position at the start of the tick.

- `DataModel` (`datamodel.dfy`): order books as `map<int, int>` per side,
  orders, the snapshot reduced to the fields the rules read, the limit, and
  position lookup with a default of 0.
- `Book` (`book.dfy`): best prices as the maximum/minimum key of each side,
  best-level volumes, and the volume imbalance as an exact `real` quotient,
  with its threshold behaviour restated in integer terms.
- `Rules` (`rules.dfy`): the active fixed-fair-value rule for
  RAINFOREST_RESIN (fair value 10000, size 15) and the disabled imbalance
  rule shared by SQUID_INK and KELP (threshold 0.5, size 10), written once
  and parameterised by product; per-order and cumulative limit properties.
- `Logger` (`logger.dfy`): string truncation and the equal split of the
  3750-character log budget among the three free-text fields.
- `Trader` (`trader.dfy`): the product dispatch of one tick and the constant
  conversion request of 1.

Each leg of a rule is checked against the tick-start position on its own.
For the resin rule this is harmless: it posts at most one buy and at most
one sell, so even if every posted order fills the position stays in range
(`ResinCumulativeWithinLimit`). For the imbalance rule's skewed branches
both legs go the same way, so if both fill the position can exceed the limit
by one order size (`ImbalanceCumulativeBound`, `ImbalanceSkewCanPassLimit`).
The model keeps this behaviour as written; that rule is switched off in the
trader.

The harness records sell volumes as negative numbers, and the imbalance
divides by the sum of the two best-level volumes, so under that convention
the quotient is not confined to [-1, 1] (10 bid against -6 offered gives 4).
Whenever the bid volume is positive, the ask volume negative and the two do
not cancel, the imbalance lies outside [-0.5, 0.5]
(`OppositeSignVolumesNeverNeutral`): the imbalance rule then posts orders in
one direction only (`HarnessBookPostsOneDirection`), and its passive
two-sided branch is reached only when the volumes cancel exactly, where the
code treats the imbalance as 0. A resin book bid at 10005 and offered at
10020 yields exactly one order, a sell at 10020
(`ResinBidAboveFairOnlySells`).

## Model

| member | source | states |
|---|---|---|
| Book.MaxKey | round1/round1_v1.py:138 | the result is a key of the set and no key exceeds it |
| Book.MinKey | round1/round1_v1.py:139 | the result is a key of the set and no key is below it |
| Book.MaxExists | round1/round1_v1.py:138 | every non-empty set of prices has a highest one, so `max` is defined on a non-empty side |
| Book.MinExists | round1/round1_v1.py:139 | every non-empty set of prices has a lowest one, so `min` is defined on a non-empty side |
| Book.GetBestPrices | round1/round1_v1.py:137-140 | each side's price is absent exactly when that side is empty; a present bid is a buy price no buy price exceeds; a present ask is a sell price no sell price is below |
| Book.BestBidVolume | round1/round1_v1.py:130 | 0 for an empty buy side; otherwise the volume at a buy price that no buy price exceeds |
| Book.BestAskVolume | round1/round1_v1.py:131 | 0 for an empty sell side; otherwise the volume at a sell price that no sell price is below |
| Book.VolumeImbalance | round1/round1_v1.py:132-135 | 0 when the volumes sum to 0; otherwise the value that multiplied by the total gives bid volume minus ask volume |
| Book.ComputeImbalance | round1/round1_v1.py:129-135 | the same for the book's best-level volumes; a book with both sides empty has imbalance 0 |
| Book.VolumeImbalanceAntisymmetric | round1/round1_v1.py:132-135 | exchanging bid and ask volume negates the imbalance |
| Book.VolumeImbalanceBounded | round1/round1_v1.py:132-135 | with non-negative volumes on both sides and a positive total the imbalance lies in [-1, 1] (not the harness's sign convention) |
| Book.VolumeImbalanceUnboundedForNegativeAsk | round1/round1_v1.py:132-135 | with a negative ask volume the quotient leaves [-1, 1]: 10 against -6 gives 4 |
| Book.OppositeSignVolumesNeverNeutral | round1/round1_v1.py:132-135 | a positive bid volume and a negative ask volume that do not cancel give an imbalance above 0.5 (positive total) or below -0.5 (negative total), never in the neutral band |
| Book.VolumeImbalanceAboveHalf | round1/round1_v1.py:159 | with a positive total the imbalance exceeds 0.5 iff bid volume exceeds three times ask volume; with a negative total iff it is below; never with a zero total |
| Book.VolumeImbalanceBelowMinusHalf | round1/round1_v1.py:165 | the mirror: below -0.5 iff ask volume exceeds three times bid volume (positive total), iff it is below (negative total), never with a zero total |
| Rules.ResinRule | round1/round1_v1.py:216-234 | nothing for a one-sided book; the buy (RESIN, best bid, 15) is posted iff the bid is below 10000 and position + 15 ≤ 50; the sell (RESIN, best ask, -15) iff the ask is above 10000 and position - 15 ≥ -50; no other order; at most two, buy first; from a position in range every order keeps it in range |
| Rules.PlaceResinOrders | round1/round1_v1.py:216-234 | the resin rule on the snapshot's resin book at the recorded resin position, or at 0 when none is recorded: nothing for a one-sided book, each leg posted iff its price and limit test passes at that position, every order for resin and keeping an in-range position in range |
| Rules.ResinQuotesBothSides | round1/round1_v1.py:226-232 | bid 9995, ask 10010, flat: buy 15 at 9995 then sell 15 at 10010 |
| Rules.ResinBidAboveFairOnlySells | round1/round1_v1.py:229-232 | bid 10005, ask 10020, flat: only the sell of 15 at 10020 |
| Rules.ResinBuyLegLimitBoundary | round1/round1_v1.py:229-230 | with a bid under fair value the buy is posted from position 35 and not from 45 |
| Rules.ResinCumulativeWithinLimit | round1/round1_v1.py:229-232 | from a position in range, filling every buy the rule posts, or every sell, keeps the position in [-50, 50] |
| Rules.ImbalanceLegs | round1/round1_v1.py:156-177 | above 0.5: both buys of 10 (at the ask, then the bid) iff position + 10 ≤ 50, else none; below -0.5: both sells of 10 (at the bid, then the ask) iff position - 10 ≥ -50, else none; in between: buy 10 at the bid iff position + 10 ≤ 50 and sell 10 at the ask iff position - 10 ≥ -50, independently, nothing else, buy first |
| Rules.ImbalanceRule | round1/round1_v1.py:142-177 | nothing for a one-sided book; otherwise the legs for the best prices and best-level imbalance; at most two orders, all of size ±10 for the product, each keeping an in-range position in range |
| Rules.PlaceSquidOrders | round1/round1_v1.py:142-177 | on the squid-ink book at the recorded position (0 if none): nothing for a one-sided book; for a two-sided book exactly the imbalance legs for its best bid, best ask and best-level imbalance at that position; at most two orders, each for SQUID_INK of size ±10 and keeping an in-range position in range |
| Rules.PlaceKelpOrders | round1/round1_v1.py:179-214 | the same for KELP on the kelp book and kelp position, including the exact imbalance legs for a two-sided book |
| Rules.ImbalanceRuleRelabel | round1/round1_v1.py:142-177 | the rule's output for one product is its output for any other product with the symbol changed |
| Rules.KelpOrdersAreRelabelledSquid | round1/round1_v1.py:179-214 | on a snapshot whose kelp and squid-ink books and positions agree, `place_kelp_orders` returns the orders of `place_squid_orders` under the kelp symbol |
| Rules.HarnessBookPostsOneDirection | round1/round1_v1.py:159-169 | for a two-sided book with positive bid volume and negative ask volume that do not cancel, every order is a buy of 10 when the total is positive and a sell of 10 when it is negative |
| Rules.ImbalanceCumulativeBound | round1/round1_v1.py:159-169 | because legs are checked one by one, filling every posted buy can carry the position at most 10 past the limit, and likewise for sells |
| Rules.ImbalanceSkewCanPassLimit | round1/round1_v1.py:159-163 | a book with 10 bid against 1 offered at position 40 posts two buys of 10, reaching 60 if both fill |
| Rules.ImbalanceBranchesByVolume | round1/round1_v1.py:159-175 | for a two-sided book with positive best-level total and room both ways: the rule buys on both legs iff bid volume exceeds three times ask volume, and sells on both legs iff ask volume exceeds three times bid volume |
| Logger.Truncate | round1/round1_v1.py:114-118 | for a limit of at least 3: the length is the smaller of the input's length and the limit; the result equals the input iff it fits; a cut result ends with "..." and keeps the input's first limit - 3 characters |
| Logger.TruncateIdempotent | round1/round1_v1.py:114-118 | truncating a truncated string to the same limit changes nothing |
| Logger.ItemBudget | round1/round1_v1.py:28-29 | the largest equal share for the three free-text fields that fits with the fixed part in 3750 characters |
| Logger.TruncateAsWritten | round1/round1_v1.py:114-118 | for every limit: from 3 up it is `Truncate`; a string that fits is kept; one that does not is a prefix of the input followed by "..."; below 3 it comes back with length max(len + limit - 3, 0) + 3, longer than the limit |
| Logger.TruncateAsWrittenOverflowsShare | round1/round1_v1.py:28-38 | a fixed part of 3745 characters fits but leaves a share of 1; "hello" is cut to "hel..." and three such fields overflow 3750 |
| Logger.TruncateToShare | round1/round1_v1.py:28-38 | the intended cut: never longer than a non-negative share, the input kept iff it fits, equal to `truncate` for shares of 3 or more |
| Logger.FlushWithinBudget | round1/round1_v1.py:28-38 | with the intended cut, whenever the fixed part fits, the fixed part plus the three cut fields is at most 3750 characters |
| Logger.FlushAsWrittenWithinBudget | round1/round1_v1.py:28-38 | as written, the same bound holds when the share is at least 3 |
| Trader.Run | round1/round1_v1.py:237-251 | conversions are 1; the result has a resin entry iff the snapshot has a resin book and no other entry; that entry is the resin rule's output; every order is for its entry's product and keeps an in-range position in range |

## Left out

- Floating point: the imbalance is an exact rational quotient. With volumes beyond 2^53, or quotients within rounding distance of ±0.5, the float computation could land on the other side of the threshold.
- `Logger.flush`, the `compress_*` helpers and `to_json`: JSON serialisation through the harness's encoder and a print to standard output. Only the truncation and the budget arithmetic are modelled.
- Logger.FlushWithinBudget: counts characters before JSON escaping and quoting of the three fields, so it is weaker than a bound on the printed line.
- Logger.FlushAsWrittenWithinBudget: requires a share of at least 3, because for fixed parts of 3742 to 3750 characters the code as written can overflow the budget (see Findings); it also counts characters before JSON escaping.
- `Logger.print` and the global logger's accumulating buffer: mutable I/O state.
- Logger.Truncate: requires a limit of at least 3; below that Python's negative slice indices change the meaning. The budget split produces such limits for fixed parts of 3742 characters or more, including 3742 to 3750, where the fixed part still fits; `TruncateAsWritten` models those limits.
- Decoding and re-encoding the trader-state blob with `jsonpickle`: a foreign dynamic deserialiser over opaque text that no rule reads.
- The harness's `datamodel` classes: replaced by datatypes with only the fields the rules read.
- The unused locals `fair_price` and `spread` of the imbalance rule: they affect no output.
- Rules.PlaceResinOrders: requires the resin book in the snapshot, where Python would raise a KeyError; the trader only calls it when the book is present.
- Rules.PlaceSquidOrders: requires the squid-ink book in the snapshot, where Python would raise a KeyError; the commented-out call in the trader guards it the same way.
- Rules.PlaceKelpOrders: requires the kelp book in the snapshot, where Python would raise a KeyError; the commented-out call in the trader guards it the same way.

## Findings

| source | as written | input that shows it | evidently intended | confidence | as-written member | corrected member |
|---|---|---|---|---|---|---|
| round1/round1_v1.py:29-38 | the share `(3750 - base) // 3` can be 0, 1 or 2 while the fixed part still fits, and `truncate` (line 118) then slices with a negative index and appends "...", returning a string longer than the share | fixed part of 3745 characters: share 1, `truncate("hello", 1)` is "hel...", and the three fields carry the line to 3763 characters | every field at most its share, so the line stays within 3750 characters as the comment at line 28 says | not executed; medium | Logger.TruncateAsWrittenOverflowsShare | Logger.FlushWithinBudget |
