# gann trader — a verified Dafny model

gann is a small Bitcoin trading bot. Its decision engine is the `Trader` of
gann/trader.py. The trader holds a *depot*, a map from the price in cents a
coin was bought at to the quantity of coins held at that price (one *tier*
per price). It also holds an amount of money in cents and remembers three
prices:

- the last purchase price;
- the lowest price seen on the selling side;
- the highest price seen on the buying side.

Every market offer goes through `process_offer`:

- An offer for another trading pair is ignored.
- A BUY offer (someone wants to buy coins) is a chance to sell
  (`consider_sell`).
- A SELL offer (someone wants to sell coins) is a chance to buy
  (`consider_buy`).

Its policy, `TraderConditions` in gann/trader_conditions.py, gives:

- the spend target per purchase and its tolerance (`max_price`, `min_price`);
- the step the price must fall between two purchases;
- the turnaround the price must fall from its peak before buying again with
  an empty depot;
- the profit rule, parsed from a string: `'10%'` is a percentage markup, and
  `'1000'` is a number of cents;
- the `enough` profitability test.

The model has these modules:

- `Conditions` and `ConditionsProperties`: the policy, `int()` parsing of
  the profit string (`PyInt`), and what `enough` means under each rule.
- `Rounding`: `round(x, 4)`, half to even, on exact reals.
- `Money`: the value of a quantity at a price.
- `Depots`: the depot, its tiers in ascending order, its total and its
  cost.
- `Trading`: the engine.
  - The gates of `consider_buy` are the function `BuyVerdictOf`.
  - The walk of `consider_sell` over the tiers is the function `Scan`.
  - Whole decisions are the functions `BuyStep`, `SellStep` and
    `ProcessStep`.
  - The class `Trader` has the source's fields. Its methods `ConsiderBuy`,
    `ConsiderSell` and `ProcessOffer` update them in place and are proved
    equal to those functions. `ConsiderSell` runs the source's loop
    (`WalkCheapestFirst`, popping the cheapest price off a descending list)
    and deletion loop (`RemoveTiers`).
- `TraderProperties`: what the decisions guarantee.
  - A sale takes the cheapest tiers first and at most one tier in part.
  - A sale removes exactly the coins it sells.
  - A purchase adds exactly the coins delivered and never overdraws the
    money.
  - Purchases in a run step down by at least the step price.
- `TraderScenarios`: the situations of gann/tests/test_trader.py, worked
  through the model.

The broker is not modelled; its answer is a parameter of each operation:

- the coins a purchase delivered (0.0 for a failure);
- the cents a sale brought (0 for a failure).

Each step also reports the quantity the broker was asked to trade.

Where the documented intent and the code disagree, the model follows the
code:

- **The profit test of a sale.** The docstring of test_sell_only_profitalbe
  (gann/tests/test_trader.py lines 322-324) expects only the profitable
  tiers to be sold. The code makes one test after the walk
  (gann/trader.py line 155): the offer must pay the cost of all the coins
  gathered plus a flat number of cents. It never weighs one tier against
  another.
- **A walk that gathers nothing.** The code has no separate rejection for
  it. An offer with a minimum of 0 or less passes the minimum-amount test
  of line 145. When the profit test also passes, for instance with a
  minimum profit of 0 or less, the broker is asked to sell 0 coins
  (`TraderProperties.SellZeroWalk`).

## Model

| member | source | states |
|---|---|---|
| Conditions.ParseProfitRule | gann/trader_conditions.py:36-43 | a parsed rule is a percentage rule exactly when the string ends in '%', and an absolute rule otherwise |
| Conditions.NewConditions | gann/trader_conditions.py:26-43 | construction succeeds exactly when the profit string parses; the rule is the parsed one and every other field is the argument given |
| Conditions.TraderConditions.MaxPrice | gann/trader_conditions.py:45-46 | the largest notional is the top of a band around the spend target: it is at least the target exactly when the tolerance is not negative |
| Conditions.TraderConditions.MinPrice | gann/trader_conditions.py:48-49 | the smallest notional is the bottom of a band around the spend target: it is at most the target exactly when the tolerance is not negative |
| Conditions.DefaultProfitRule | gann/trader_conditions.py:28-43 | the default profit string '1000' parses to an absolute rule of 1000 cents |
| Conditions.DefaultConditions | gann/trader_conditions.py:26-32 | the defaults: spend 10000 cents with 2000 tolerance (band 8000-12000), profit string '1000' read as a well-formed absolute rule of 1000 cents, step and turnaround 1000, 4 decimals, BTC/EUR |
| Conditions.Enough | gann/trader_conditions.py:51-62 | `enough` has no answer exactly when the rule is absolute and the spend target is 0, where Python divides by zero |
| ConditionsProperties.ProfitRulePercentage | gann/trader_conditions.py:37-40 | any integer written out and followed by '%' is a percentage rule of that integer |
| ConditionsProperties.ProfitRuleAbsolute | gann/trader_conditions.py:41-43 | any integer written out is an absolute rule of that many cents |
| ConditionsProperties.ProfitRuleBarePercent | gann/trader_conditions.py:37-39 | '%' alone leaves nothing to parse and is rejected |
| ConditionsProperties.ProfitRuleWord | gann/trader_conditions.py:36-43 | a word is rejected, so constructing conditions with it fails |
| ConditionsProperties.ProfitRuleSeparator | gann/trader_conditions.py:41-43 | a leading 0x1c is not whitespace to `int`, so '\x1c5' is rejected and constructing conditions with it fails |
| ConditionsProperties.ProfitRuleDoubleUnderscore | gann/trader_conditions.py:37-39 | '1__0%' is rejected: `int` refuses two underscores in a row |
| ConditionsProperties.PriceBand | gann/trader_conditions.py:45-49 | with a non-negative tolerance the spend target lies inside the band, whose width is twice the tolerance |
| ConditionsProperties.EnoughPercentage | gann/trader_conditions.py:56-58 | percentage rule: the proceeds must reach the cost times (100 + p) per cent |
| ConditionsProperties.EnoughAbsolute | gann/trader_conditions.py:60-62 | absolute rule: the threshold is p cents per spend target spent, scaling with the cost, not a flat amount |
| ConditionsProperties.EnoughZeroProfit | gann/trader_conditions.py:56-62 | with no profit required, both rules say the proceeds cover the cost |
| ConditionsProperties.EnoughMonotoneInPrice | gann/trader_conditions.py:56-62 | a profitable sale stays profitable at any higher price |
| PyInt.ParseIntRoundTrip | gann/trader_conditions.py:39-42 | `int(str(n)) == n` for every integer n |
| PyInt.NatToStringValue | gann/trader_conditions.py:39-42 | the decimal digits of a natural number are well-formed and denote it |
| PyInt.ParseIntRejectsNonDigit | gann/trader_conditions.py:39-42 | a string whose first character is neither whitespace, a sign nor a digit raises ValueError, whatever follows it |
| PyInt.ParseIntRejectsSeparator | gann/trader_conditions.py:39-42 | the separators 0x1c-0x1f are no whitespace to `int`: '\x1c5' raises ValueError |
| PyInt.ParseIntRejectsDoubleUnderscore | gann/trader_conditions.py:39-42 | two adjacent underscores anywhere in the string raise ValueError, at the start or beside surrounding whitespace too |
| PyInt.ParseIntRejectsPairBeforeSpace | gann/trader_conditions.py:39-42 | '1__0 ' raises ValueError: stripping the blank does not hide the pair |
| PyInt.ParseIntRejectsLeadingPair | gann/trader_conditions.py:39-42 | '__1' raises ValueError |
| Rounding.RoundHalfEven | gann/trader.py:76 | the result is the nearest integer, and a tie goes to the even neighbour |
| Rounding.Round4 | gann/trader.py:76 | the result has four decimals, lies within half a ten-thousandth of the input, and is the input scaled by 10000, rounded half to even and scaled back |
| Rounding.Round4Idempotent | gann/trader.py:76 | rounding twice is rounding once |
| Money.ValueIsProduct | gann/trader.py:98 | the value of a quantity at a price is price times quantity |
| Money.ValueAdd | gann/trader.py:137-140 | value is additive in the quantity |
| Depots.AnyNonZeroSorted | gann/trader.py:29 | `any` over the depot's prices in ascending order holds exactly when the depot has a non-zero price |
| Depots.AnyRemaining | gann/trader.py:130 | `any(prices)` on the remaining prices holds exactly when a non-zero price remains in the walk order |
| Trading.BuyQuantity | gann/trader.py:73-84 | the quantity a purchase asks for; its bounds are TraderProperties.BuyQuantityBounds |
| Trading.HysteresisAllows | gann/trader.py:50-71 | the price gate: a step below the last purchase while coins are held, a turnaround below the peak otherwise; its use is characterised by TraderProperties.BuyVerdictAccepts, BuyVerdictRejects and BuyRunStepsDown |
| Trading.BuyVerdictOf | gann/trader.py:40-89 | the early-return gates of `consider_buy` in source order; characterised by TraderProperties.BuyVerdictAccepts and BuyVerdictRejects |
| Trading.BuyStep | gann/trader.py:32-108 | `consider_buy` on values; characterised by TraderProperties.BuyStepDecides, BuyStepBuys and BuyStepKeepsPositive, and implemented by Trading.Trader.ConsiderBuy |
| Trading.Scan | gann/trader.py:126-142 | the walk loop from a given position and locals; one round of it is Trading.ScanStep, and Trading.WalkCheapestFirst's loop is proved equal to it |
| Trading.SellWalk | gann/trader.py:119-142 | the whole walk, cheapest tier first; characterised by TraderProperties.SellWalkShape, SellCheapestFirst and SellWalkTakesAll |
| Trading.SellOutcome | gann/trader.py:144-168 | the minimum-amount gate, the profit gate and the broker's answer once the walk is known; characterised by TraderProperties.SellStepDecides |
| Trading.AfterSell | gann/trader.py:170-174 | the depot after a sale; characterised by TraderProperties.SellTiers and SellConservesCoins |
| Trading.SellStep | gann/trader.py:110-176 | `consider_sell` on values; characterised by TraderProperties.SellStepDecides, SellStepSells and SellWholeDepot, and implemented by Trading.Trader.ConsiderSell |
| Trading.AddCoins | gann/trader.py:103-106 | crediting coins adds the offer's price as a tier and leaves every other tier untouched |
| Trading.ProcessStep | gann/trader.py:178-188 | an offer for another pair changes nothing; a BUY offer is a sale decision, a SELL offer a purchase decision |
| Trading.SortDescending | gann/trader.py:119 | the keys, dearest first: the ascending order of the keys reversed |
| Trading.WalkCheapestFirst | gann/trader.py:126-142 | the loop's five locals end as the walk over the tiers in ascending order; a split tier is a tier of the depot |
| Trading.RemoveTiers | gann/trader.py:170-171 | the depot loses exactly the tiers sold whole |
| Trading.Trader.constructor | gann/trader.py:12-30 | a copy of the depot, the money and the conditions given; lowest selling price sys.maxsize, highest buying price 0; last purchase price the cheapest tier when `any` finds a non-zero price, else 0 |
| Trading.Trader.ConsiderBuy | gann/trader.py:32-108 | the new fields and the verdict are exactly those of the purchase decision on the old fields |
| Trading.Trader.ConsiderSell | gann/trader.py:110-176 | the new fields and the verdict are exactly those of the sale decision on the old fields |
| Trading.Trader.ProcessOffer | gann/trader.py:178-188 | the new fields and the verdict are those of the dispatch; an offer for another pair changes nothing |
| TraderProperties.SellWalkShape | gann/trader.py:119-142 | the walk sells a prefix of the ascending tiers whole and at most the next tier in part, keeping a positive rest; its amount and cost are those of the coins taken; it gathers less than asked only when no price is left, and never more than a non-negative offer asks |
| TraderProperties.SellTiers | gann/trader.py:170-174 | after a sale the tiers sold whole are gone, the tier sold in part holds a smaller positive rest, every other tier is untouched, and positive quantities stay positive |
| TraderProperties.SellCheapestFirst | gann/trader.py:119-142 | every tier sold whole was cheaper than every tier left, and the tier sold in part is the cheapest left |
| TraderProperties.SellConservesCoins | gann/trader.py:126-174 | the depot after a sale holds exactly its former coins less the quantity sold |
| TraderProperties.SellWalkTakesAll | gann/trader.py:130-142 | an offer for at least the whole depot takes every tier in ascending order and leaves the depot empty |
| TraderProperties.SellStepDecides | gann/trader.py:110-168 | the highest buying price becomes the maximum of the old one and the offer's; the broker is asked for the walk's amount exactly when the depot is not empty, the minimum is gathered and price times amount covers the cost plus the minimum profit; a sale happens exactly when the broker also pays; otherwise the depot and money stay |
| TraderProperties.SellStepSells | gann/trader.py:144-174 | a sale sells between the offer's minimum and amount, takes exactly that quantity out of the depot, creates no tier, credits the broker's payment and keeps quantities positive |
| TraderProperties.SellWholeDepot | gann/trader.py:110-176 | an offer for at least the whole depot that pays its whole cost plus the minimum profit sells every tier and empties the depot |
| TraderProperties.SellZeroWalk | gann/trader.py:126-168 | an offer for no coins with no minimum gathers nothing; with a minimum profit of 0 or less the broker is asked to sell 0 coins, and a non-zero payment is credited while the depot stays |
| TraderProperties.SellWalkOneTier | gann/trader.py:130-142 | with one tier, a smaller offer splits it and any other offer takes it whole |
| TraderProperties.SellWalkTwoTiers | gann/trader.py:130-142 | with two tiers, the cheaper one is split, taken alone, or taken whole with the dearer one split or also taken |
| TraderProperties.AddCoinsTotal | gann/trader.py:103-106 | crediting coins raises the depot's total by exactly them |
| TraderProperties.BuyQuantityBounds | gann/trader.py:73-84 | the quantity asked is never below the offer's minimum, never above its amount unless the minimum is, is one of the three candidates, and is the rounded target quantity whenever that lies between them |
| TraderProperties.BuyVerdictAccepts | gann/trader.py:40-89 | an offer is bought exactly when its minimum costs at most the maximum notional, its amount at least the minimum notional, the hysteresis allows its price, the price is not 0 and the money covers price times quantity; the quantity is that of lines 73-84 |
| TraderProperties.BuyVerdictRejects | gann/trader.py:50-73 | a price of 0 passing every gate is a division by zero; each hysteresis rejection names its gate |
| TraderProperties.BuyStepDecides | gann/trader.py:32-108 | the lowest selling price becomes the minimum of the old one and the offer's; the broker is asked exactly when the gates pass; a purchase happens exactly when the broker also delivers; otherwise depot, money and last purchase price stay |
| TraderProperties.BuyStepBuys | gann/trader.py:86-106 | a purchase pays price times the quantity asked and never overdraws; the coins delivered land in the offer's tier only, and its price becomes the last purchase price |
| TraderProperties.BuyStepKeepsPositive | gann/trader.py:92-106 | when the broker delivers no negative quantity, a purchase keeps every tier of the depot positive |
| TraderProperties.ProcessStepKeepsPositive | gann/trader.py:178-188 | the same holds for every decision of the dispatch, purchases and sales alike |
| TraderProperties.BuyRunBelow | gann/trader.py:50-99 | while coins are held, every purchase in a run of offers is at least one step below the starting last purchase price |
| TraderProperties.BuyRunStepsDown | gann/trader.py:50-99 | any two purchases of a run are at least one step apart, the later one lower |
| TraderScenarios.BuyFittingOffer | gann/tests/test_trader.py:83-90 | at 4500 EUR, 100 EUR buys 0.0222 coins and leaves 900.10 EUR |
| TraderScenarios.BuyMinimumAmount | gann/tests/test_trader.py:110-120 | a minimum of 0.026 above the target quantity is bought whole |
| TraderScenarios.FirstOfTwo | gann/tests/test_trader.py:92-108 | the first purchase of two in a row |
| TraderScenarios.SecondOfTwo | gann/tests/test_trader.py:92-108 | the second purchase of two in a row, one step lower |
| TraderScenarios.BuyTwoInARow | gann/tests/test_trader.py:92-108 | two purchases in a row build three tiers, leaving 800.102 EUR |
| TraderScenarios.Rejected | gann/trader.py:40-89 | a rejected purchase asks nothing of the broker and changes neither depot nor money |
| TraderScenarios.RejectsMinAmountTooHigh | gann/tests/test_trader.py:64-81 | an offer whose minimum alone costs more than the maximum notional is rejected by that gate |
| TraderScenarios.RejectsAmountTooSmall | gann/tests/test_trader.py:123-131 | an offer worth less than the minimum notional is rejected by that gate |
| TraderScenarios.RejectsNearLastPurchase | gann/tests/test_trader.py:296-311 | prices just below and just above the last purchase are rejected as too close and as higher |
| TraderScenarios.RejectsNotEnoughMoney | gann/tests/test_trader.py:313-320 | with 1 EUR left, a purchase of 100 EUR is rejected for lack of money |
| TraderScenarios.NoTurnaroundYet | gann/tests/test_trader.py:187-229 | with an empty depot, a price above the peak less the turnaround is not bought |
| TraderScenarios.NothingToSell | gann/trader.py:115-124 | an empty depot sells nothing and only records the buying price |
| TraderScenarios.TurnaroundReached | gann/tests/test_trader.py:180-184 | once the price falls a turnaround below the peak, 0.0167 coins are bought |
| TraderScenarios.StartBuyingOnTurnaround | gann/tests/test_trader.py:158-184 | the five offers of the test: nothing until the turnaround, then one purchase leaving 899.80 EUR |
| TraderScenarios.EnoughProfit | gann/tests/test_trader.py:239-244 | the whole tier is sold and the money becomes 1060 EUR |
| TraderScenarios.EnoughProfitSomethingLeft | gann/tests/test_trader.py:246-252 | half the tier is sold and 0.005 coins stay |
| TraderScenarios.TooLittleProfit | gann/tests/test_trader.py:231-237 | 5009 EUR does not pay the cost plus the minimum profit: nothing is sold |
| TraderScenarios.SellMinAmountTooHigh | gann/tests/test_trader.py:146-156 | a minimum larger than the depot is not sold to |
| TraderScenarios.RightAmountToSell | gann/tests/test_trader.py:276-280 | selling 0.02 of 1000 coins leaves 999.98 |
| TraderScenarios.SellTwoPositions | gann/tests/test_trader.py:254-262 | two whole tiers are sold and the money becomes 120 EUR |
| TraderScenarios.SellLowerPosition | gann/tests/test_trader.py:264-268 | the cheaper tier is sold and the dearer one stays |
| TraderScenarios.SellPartly | gann/tests/test_trader.py:270-274 | the cheaper tier is sold whole and the dearer one in part, leaving 0.1 |
| TraderScenarios.SellsEveryTier | gann/tests/test_trader.py:322-333 | the code sells all three tiers, because together they pay their cost plus the minimum profit; the test expects the two dearer tiers to stay |

## Left out

- The profit gate of line 155 reads `self.conditions.min_profit_price`. `TraderConditions` defines no such attribute, so in Python every sale that reaches that line raises AttributeError. The model takes that flat number of cents as the parameter `minProfit` of `SellStep`, `ConsiderSell` and `ProcessOffer`; the scenarios use 1000, the default `min_profit_str`.
- `enough` (gann/trader_conditions.py:51-62) is modelled and characterised, but `consider_sell` does not call it, so neither does the model.
- The tests' helper (gann/tests/test_trader.py lines 28-43) builds `Offer(offer_type=...)`, but the dataclass of gann/offer.py names that field `type`, so as written every test that builds an offer raises TypeError. The scenarios follow the tests' evident intent: an offer of the given type, pair, price, amount and minimum.
- test_profit_as_persentage_sell and test_profit_as_persentage_hold construct `TraderConditions(min_profit_price='10%')`, a keyword the dataclass does not accept; they are not worked through.
- test_sell_only_profitalbe expects only profitable tiers to be sold. The code does not choose tiers by profit, and the model follows the code: `TraderScenarios.SellsEveryTier` shows the code selling every tier.
- test_not_tobuy_when_there_is_no_turnaround is covered only by its general step, `TraderScenarios.NoTurnaroundYet`; its ten offers are not worked through one by one.
- test_ignore_other_currencies and test_expect_not_to_sell_if_price_is_outisde_delta are not worked through. The first is the first ensures of `Trading.ProcessStep`. The second uses a float price, and prices are integers here.
- The broker (`try_buy`, `try_sell`) is a parameter: the coins delivered (a real) and the cents paid (an integer), with zero meaning failure.
- Logging, `__str__` and `__repr__` are left out; they change no state.
- Floats are exact reals, so binary rounding error is not modelled. `round(x, 4)` rounds the exact real half to even.
- Trading.Trader.ConsiderBuy: a price of 0 that passes every gate raises ZeroDivisionError at line 73. The model returns "not bought" with only the lowest selling price updated (`BuyDividesByZero`). It does not model the exception propagating.
- Trading.ProcessStep: the final `return False` of line 188 is unreachable, because an offer type is either BUY or SELL.
- The Offer field `type` is called `offerType`, because `type` is a Dafny keyword.
- `int()` is modelled on ASCII text: base ten, an optional sign, surrounding ASCII whitespace (space, tab, newline, vertical tab, form feed, carriage return) and single underscores. Unicode digits and the non-ASCII whitespace that `int` also strips (such as U+2003) are not modelled; for those the model rejects what Python accepts.
- Conditions.NewConditions: the profit setting is always a string. The `isinstance` test of line 37 and a non-string setting are not modelled.
- `decimals` is carried but unused, as in the source, which rounds to 4 places at line 76.
- A quantity's worth at a price is `Money.Value`, defined by repeated halving. `Money.ValueIsProduct` proves it equal to price times quantity.
- The serialization, the runner, the bitcoin.de broker and the removal of offers are not part of this model.
