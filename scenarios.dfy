/**
 * The situations of gann/tests/test_trader.py, worked through the model.
 * The tests build their trader with the default conditions (a flat minimum
 * profit of 1000 cents) and a broker that delivers what it is asked for:
 * `try_buy` yields the quantity asked, `try_sell` the price times it.
 */
module TraderScenarios {
  import opened Wrappers
  import opened TradingPairs
  import opened Offers
  import opened Conditions
  import opened Rounding
  import opened Depots
  import opened Money
  import opened Trading
  import TraderProperties

  /** The minimum profit, in cents, of the default conditions. */
  const TestMinProfit: int := 1000

  /** Conditions that carry the numbers of the default ones. */
  predicate DefaultNumbers(c: TraderConditions) {
    && c.amountPrice == 10000 && c.MaxPrice() == 12000 && c.MinPrice() == 8000
    && c.stepPrice == 1000 && c.turnaroundPrice == 1000 && c.tradingPair == BTCEUR
  }

  /** An offer on BTC/EUR as the tests build one. */
  function TestOffer(offerType: OfferType, price: int, amount: real, minAmount: real): Offer {
    Offer("1", amount, minAmount, price, offerType, BTCEUR, 0, NA)
  }

  /**
   * A trader as its constructor leaves it, `last` being the cheapest price
   * of the depot (or 0 for an empty one).
   */
  function Start(depot: Depot, money: real, last: int): TraderState {
    TraderState(depot, money, last, MaxSize, 0)
  }

  /** The depot every test starts from. */
  function InitialDepot(): Depot { map[500000 := 0.01] }

  // ----------------------------------------------------------------------
  // Buying
  // ----------------------------------------------------------------------

  /** A quotient known by its product. */
  lemma Ratio(a: real, p: real, r: real)
    requires p != 0.0 && r * p == a
    ensures a / p == r
  {
  }

  /** `x` lies within half a ten-thousandth of `k` ten-thousandths, so it rounds to them. */
  lemma RoundsTo(x: real, k: int)
    requires -0.5 < x * 10000.0 - k as real < 0.5
    ensures Round4(x) == k as real / 10000.0
  {
    var n := RoundHalfEven(x * 10000.0);
    assert (n - k) as real < 1.0 && (k - n) as real < 1.0;
  }

  /** test_buy_fitting_offer (lines 83-90): 1/45 of a coin rounds to 0.0222. */
  lemma BuyFittingOffer(c: TraderConditions, s: TraderState, o: Offer)
    requires DefaultNumbers(c)
    requires s == Start(InitialDepot(), 100000.0, 500000)
    requires o == TestOffer(SELL, 450000, 10.0, 0.0)
    ensures var r := ProcessStep(c, TestMinProfit, s, o, 0.0222, 0);
            && r.ok && r.asked == Some(0.0222)
            && r.after.depot == map[500000 := 0.01, 450000 := 0.0222]
            && r.after.money == 90010.0 && r.after.lastPurchasePrice == 450000
  {
    assert BuyQuantity(c, o) == 0.0222 by {
      Ratio(c.amountPrice as real, o.price as real, 10000.0 / 450000.0);
      RoundsTo(c.amountPrice as real / o.price as real, 222);
    }
    assert 500000 in s.depot;
    assert o.price as real * BuyQuantity(c, o) == 9990.0;
    TraderProperties.BuyVerdictAccepts(c, s, o);
    TraderProperties.BuyStepBuys(c, s, o, 0.0222);
  }

  /**
   * test_buy_if_min_amount_gt_amount_price_allows (lines 110-120): the
   * spend target buys 0.025, below the offer's minimum, so the minimum is
   * bought.
   */
  lemma BuyMinimumAmount(c: TraderConditions, s: TraderState, o: Offer)
    requires DefaultNumbers(c)
    requires s == Start(InitialDepot(), 100000.0, 500000)
    requires o == TestOffer(SELL, 400000, 10.0, 0.026)
    ensures var r := ProcessStep(c, TestMinProfit, s, o, 0.026, 0);
            && r.ok && r.asked == Some(0.026)
            && r.after.depot == map[500000 := 0.01, 400000 := 0.026]
            && r.after.money == 89600.0
  {
    assert BuyQuantity(c, o) == 0.026 by {
      Ratio(c.amountPrice as real, o.price as real, 10000.0 / 400000.0);
      RoundsTo(c.amountPrice as real / o.price as real, 250);
    }
    assert 500000 in s.depot;
    assert o.price as real * o.minAmount == 10400.0;
    assert o.price as real * BuyQuantity(c, o) == 10400.0;
    TraderProperties.BuyVerdictAccepts(c, s, o);
    TraderProperties.BuyStepBuys(c, s, o, 0.026);
  }

  /** The first purchase of test_buy_another_fitting_offer. */
  lemma FirstOfTwo(c: TraderConditions, s: TraderState, o: Offer)
    requires DefaultNumbers(c)
    requires s == Start(InitialDepot(), 100000.0, 500000)
    requires o == TestOffer(SELL, 499000, 10.0, 0.0)
    ensures var r := ProcessStep(c, TestMinProfit, s, o, 0.02, 0);
            && r.ok && r.after.depot == map[500000 := 0.01, 499000 := 0.02]
            && r.after.money == 90020.0 && r.after.lastPurchasePrice == 499000
  {
    assert BuyQuantity(c, o) == 0.02 by {
      Ratio(c.amountPrice as real, o.price as real, 10000.0 / 499000.0);
      RoundsTo(c.amountPrice as real / o.price as real, 200);
    }
    assert 500000 in s.depot;
    assert o.price as real * BuyQuantity(c, o) == 9980.0;
    TraderProperties.BuyVerdictAccepts(c, s, o);
    TraderProperties.BuyStepBuys(c, s, o, 0.02);
  }

  /** The second purchase of test_buy_another_fitting_offer. */
  lemma SecondOfTwo(c: TraderConditions, s: TraderState, o: Offer)
    requires DefaultNumbers(c)
    requires s.depot == map[500000 := 0.01, 499000 := 0.02] && s.money == 90020.0 && s.lastPurchasePrice == 499000
    requires o == TestOffer(SELL, 498000, 10.0, 0.0)
    ensures var r := ProcessStep(c, TestMinProfit, s, o, 0.0201, 0);
            && r.ok && r.after.depot == map[500000 := 0.01, 499000 := 0.02, 498000 := 0.0201]
            && r.after.money == 80010.2
  {
    assert BuyQuantity(c, o) == 0.0201 by {
      Ratio(c.amountPrice as real, o.price as real, 10000.0 / 498000.0);
      RoundsTo(c.amountPrice as real / o.price as real, 201);
    }
    assert 500000 in s.depot;
    assert o.price as real * BuyQuantity(c, o) == 10009.8;
    TraderProperties.BuyVerdictAccepts(c, s, o);
    TraderProperties.BuyStepBuys(c, s, o, 0.0201);
  }

  /**
   * test_buy_another_fitting_offer (lines 92-108): after a purchase at
   * 499000 a second one at 498000, exactly one step lower, is bought too.
   */
  lemma BuyTwoInARow(c: TraderConditions, s: TraderState, o1: Offer, o2: Offer)
    requires DefaultNumbers(c)
    requires s == Start(InitialDepot(), 100000.0, 500000)
    requires o1 == TestOffer(SELL, 499000, 10.0, 0.0)
    requires o2 == TestOffer(SELL, 498000, 10.0, 0.0)
    ensures var r1 := ProcessStep(c, TestMinProfit, s, o1, 0.02, 0);
            var r2 := ProcessStep(c, TestMinProfit, r1.after, o2, 0.0201, 0);
            && r1.ok && r1.after.depot == map[500000 := 0.01, 499000 := 0.02]
            && r2.ok && r2.after.depot == map[500000 := 0.01, 499000 := 0.02, 498000 := 0.0201]
            && r2.after.money == 80010.2
  {
    FirstOfTwo(c, s, o1);
    SecondOfTwo(c, ProcessStep(c, TestMinProfit, s, o1, 0.02, 0).after, o2);
  }

  /** A rejected offer leaves depot and money alone, whatever the broker would do. */
  lemma Rejected(c: TraderConditions, s: TraderState, o: Offer, bought: real, sold: int)
    requires o.tradingPair == c.tradingPair && o.offerType == SELL
    requires BuyVerdictOf(c, s, o).BuyRejected?
    ensures var r := ProcessStep(c, TestMinProfit, s, o, bought, sold);
            !r.ok && r.asked.None? && r.after.depot == s.depot && r.after.money == s.money
  {
    TraderProperties.BuyStepDecides(c, s, o, bought);
  }

  /**
   * test_ignore_more_expensive_offers and test_irgnore_too_hight_min_amounts
   * (lines 64-81): the offer's minimum alone costs more than the maximum
   * spend.
   */
  lemma RejectsMinAmountTooHigh(c: TraderConditions, s: TraderState, o: Offer)
    requires DefaultNumbers(c)
    requires s == Start(InitialDepot(), 100000.0, 500000)
    requires o == TestOffer(SELL, 999900, 10.0, 1.0) || o == TestOffer(SELL, 400000, 100.0, 10.0)
    ensures BuyVerdictOf(c, s, o) == BuyRejected(MinAmountTooHigh)
  {
    ValueIsProduct(o.price, o.minAmount);
  }

  /** test_ignore_too_little_amouint (lines 123-131): the whole offer is below the minimum spend. */
  lemma RejectsAmountTooSmall(c: TraderConditions, s: TraderState, o: Offer)
    requires DefaultNumbers(c)
    requires s == Start(InitialDepot(), 100000.0, 500000)
    requires o == TestOffer(SELL, 10, 0.5, 0.01)
    ensures BuyVerdictOf(c, s, o) == BuyRejected(AmountTooSmall)
  {
    ValueIsProduct(o.price, o.minAmount);
    ValueIsProduct(o.price, o.amount);
  }

  /**
   * test_do_not_buy_when_price_is_too_close_to_last_purchase and
   * test_do_not_buy_when_price_is_higher_than_last_purchase (lines
   * 296-311): the hysteresis below the last purchase at 500000.
   */
  lemma RejectsNearLastPurchase(c: TraderConditions, s: TraderState, o: Offer)
    requires DefaultNumbers(c)
    requires s == Start(InitialDepot(), 100000.0, 500000)
    requires o == TestOffer(SELL, 499900, 0.1, 0.0) || o == TestOffer(SELL, 500100, 0.1, 0.0)
    ensures BuyVerdictOf(c, s, o) ==
              BuyRejected(if o.price == 499900 then PriceTooCloseToLastPurchase else PriceAboveLastPurchase)
  {
    assert 500000 in s.depot;
    ValueIsProduct(o.price, o.minAmount);
    ValueIsProduct(o.price, o.amount);
  }

  /** test_do_not_buy_when_there_is_not_enough_money (lines 313-320). */
  lemma RejectsNotEnoughMoney(c: TraderConditions, s: TraderState, o: Offer)
    requires DefaultNumbers(c)
    requires s == Start(InitialDepot(), 100.0, 500000)
    requires o == TestOffer(SELL, 10000, 1.0, 1.0)
    ensures BuyVerdictOf(c, s, o) == BuyRejected(NotEnoughMoney)
  {
    assert 500000 in s.depot;
    ValueIsProduct(o.price, o.minAmount);
    assert BuyQuantity(c, o) == 1.0 by {
      Ratio(c.amountPrice as real, o.price as real, 1.0);
      RoundsTo(c.amountPrice as real / o.price as real, 10000);
    }
    ValueIsProduct(o.price, o.amount);
    ValueIsProduct(o.price, BuyQuantity(c, o));
  }

  /** A SELL offer of the turnaround test meeting an empty depot above the turnaround. */
  lemma NoTurnaroundYet(c: TraderConditions, s: TraderState, o: Offer)
    requires DefaultNumbers(c)
    requires s.depot == map[] && s.money == 100000.0
    requires o.offerType == SELL && o.tradingPair == BTCEUR && o.amount == 1.0 && o.minAmount == 0.0
    requires 8000 <= o.price && o.price > s.highestPriceBuying - 1000
    ensures ProcessStep(c, TestMinProfit, s, o, 1.0, 0)
            == Step(false, None, s.(lowestPriceSelling := Min(s.lowestPriceSelling, o.price)))
  {
    ValueIsProduct(o.price, o.amount);
    ValueIsProduct(o.price, o.minAmount);
  }

  /** A BUY offer of the turnaround test meeting an empty depot: only the price is noted. */
  lemma NothingToSell(c: TraderConditions, s: TraderState, o: Offer, sold: int)
    requires DefaultNumbers(c)
    requires s.depot == map[]
    requires o.offerType == BUY && o.tradingPair == BTCEUR
    ensures ProcessStep(c, TestMinProfit, s, o, 0.0, sold)
            == Step(false, None, s.(highestPriceBuying := Max(s.highestPriceBuying, o.price)))
  {
  }

  /** The purchase that ends test_start_buying_on_turnaround. */
  lemma TurnaroundReached(c: TraderConditions, s: TraderState, o: Offer)
    requires DefaultNumbers(c)
    requires s == TraderState(map[], 100000.0, 0, 700000, 615000)
    requires o == TestOffer(SELL, 600000, 1.0, 0.0)
    ensures var r := ProcessStep(c, TestMinProfit, s, o, 0.0167, 0);
            && r.ok && r.after.depot == map[600000 := 0.0167] && r.after.money == 89980.0
  {
    assert BuyQuantity(c, o) == 0.0167 by {
      Ratio(c.amountPrice as real, o.price as real, 10000.0 / 600000.0);
      RoundsTo(c.amountPrice as real / o.price as real, 167);
    }
    assert !HasNonZeroKey(s.depot);
    assert o.price as real * BuyQuantity(c, o) == 10020.0;
    TraderProperties.BuyVerdictAccepts(c, s, o);
    TraderProperties.BuyStepBuys(c, s, o, 0.0167);
  }

  /**
   * test_start_buying_on_turnaround (lines 158-184): with an empty depot
   * nothing is bought until a price has fallen a turnaround below the
   * highest buying price seen.
   */
  lemma StartBuyingOnTurnaround(c: TraderConditions, o1: Offer, o2: Offer, o3: Offer, o4: Offer, o5: Offer)
    requires DefaultNumbers(c)
    requires o1 == TestOffer(SELL, 700000, 1.0, 0.0) && o2 == TestOffer(BUY, 605000, 1.0, 0.0)
    requires o3 == TestOffer(SELL, 710000, 1.0, 0.0) && o4 == TestOffer(BUY, 615000, 1.0, 0.0)
    requires o5 == TestOffer(SELL, 600000, 1.0, 0.0)
    ensures var s0 := Start(map[], 100000.0, 0);
            var r1 := ProcessStep(c, TestMinProfit, s0, o1, 1.0, 0);
            var r2 := ProcessStep(c, TestMinProfit, r1.after, o2, 0.0, 605000);
            var r3 := ProcessStep(c, TestMinProfit, r2.after, o3, 1.0, 0);
            var r4 := ProcessStep(c, TestMinProfit, r3.after, o4, 0.0, 615000);
            var r5 := ProcessStep(c, TestMinProfit, r4.after, o5, 0.0167, 0);
            && !r1.ok && !r2.ok && !r3.ok && !r4.ok
            && r4.after.depot == map[] && r4.after.money == 100000.0
            && r5.ok && r5.after.depot == map[600000 := 0.0167] && r5.after.money == 89980.0
  {
    var s0 := Start(map[], 100000.0, 0);
    NoTurnaroundYet(c, s0, o1);
    var s1 := TraderState(map[], 100000.0, 0, 700000, 0);
    NothingToSell(c, s1, o2, 605000);
    var s2 := TraderState(map[], 100000.0, 0, 700000, 605000);
    NoTurnaroundYet(c, s2, o3);
    NothingToSell(c, s2, o4, 615000);
    TurnaroundReached(c, TraderState(map[], 100000.0, 0, 700000, 615000), o5);
  }

  // ----------------------------------------------------------------------
  // Selling
  // ----------------------------------------------------------------------

  /** test_enough_profit (lines 239-244): the whole tier is sold. */
  lemma EnoughProfit(c: TraderConditions, s: TraderState, o: Offer)
    requires DefaultNumbers(c)
    requires s == Start(InitialDepot(), 100000.0, 500000)
    requires o == TestOffer(BUY, 600000, 0.01, 0.0)
    ensures var r := ProcessStep(c, TestMinProfit, s, o, 0.0, 6000);
            && r.ok && r.asked == Some(0.01)
            && r.after.depot == map[] && r.after.money == 106000.0
  {
    TraderProperties.SellWalkOneTier(s.depot, 500000, 0.01, o.amount);
    ValueIsProduct(500000, 0.01);
    ValueIsProduct(o.price, 0.01);
    assert s.depot.Keys == {500000};
    assert Elements([500000]) == {500000};
    TraderProperties.SellStepDecides(TestMinProfit, s, o, 6000);
  }

  /** test_enough_profit_but_something_left (lines 246-252): the tier is split. */
  lemma EnoughProfitSomethingLeft(c: TraderConditions, s: TraderState, o: Offer)
    requires DefaultNumbers(c)
    requires s == Start(InitialDepot(), 100000.0, 500000)
    requires o == TestOffer(BUY, 1000000, 0.005, 0.0)
    ensures var r := ProcessStep(c, TestMinProfit, s, o, 0.0, 5000);
            && r.ok && r.asked == Some(0.005)
            && r.after.depot == map[500000 := 0.005] && r.after.money == 105000.0
  {
    TraderProperties.SellWalkOneTier(s.depot, 500000, 0.01, o.amount);
    ValueIsProduct(500000, 0.005);
    ValueIsProduct(o.price, 0.005);
    assert s.depot.Keys == {500000};
    assert Elements([]) == {};
    TraderProperties.SellStepDecides(TestMinProfit, s, o, 5000);
  }

  /**
   * test_too_little_profit (lines 231-237): 5009 cents for coins that cost
   * 5000 miss the minimum profit of 1000.
   */
  lemma TooLittleProfit(c: TraderConditions, s: TraderState, o: Offer, sold: int)
    requires DefaultNumbers(c)
    requires s == Start(InitialDepot(), 100000.0, 500000)
    requires o == TestOffer(BUY, 500900, 0.02, 0.0)
    ensures var r := ProcessStep(c, TestMinProfit, s, o, 0.0, sold);
            && !r.ok && r.asked.None? && r.after.depot == s.depot && r.after.money == 100000.0
  {
    TraderProperties.SellWalkOneTier(s.depot, 500000, 0.01, o.amount);
    ValueIsProduct(500000, 0.01);
    ValueIsProduct(o.price, 0.01);
    assert s.depot.Keys == {500000};
    TraderProperties.SellStepDecides(TestMinProfit, s, o, sold);
  }

  /** test_sell_min_amount_too_high (lines 146-156): the depot cannot gather the minimum. */
  lemma SellMinAmountTooHigh(c: TraderConditions, s: TraderState, o: Offer, sold: int)
    requires DefaultNumbers(c)
    requires s == Start(InitialDepot(), 100000.0, 500000)
    requires o == TestOffer(BUY, 600000, 2.5, 2.5)
    ensures var r := ProcessStep(c, TestMinProfit, s, o, 0.0, sold);
            && !r.ok && r.asked.None? && r.after.depot == s.depot && r.after.money == 100000.0
  {
    TraderProperties.SellWalkOneTier(s.depot, 500000, 0.01, o.amount);
    assert s.depot.Keys == {500000};
    TraderProperties.SellStepDecides(TestMinProfit, s, o, sold);
  }

  /**
   * test_calculate_the_right_amount_to_sell (lines 276-280): a sale paying
   * exactly cost plus minimum profit goes through, and the tier keeps
   * its rest.
   */
  lemma RightAmountToSell(c: TraderConditions, s: TraderState, o: Offer)
    requires DefaultNumbers(c)
    requires s == Start(map[500000 := 1000.0], 100000.0, 500000)
    requires o == TestOffer(BUY, 550000, 0.02, 0.0)
    ensures var r := ProcessStep(c, TestMinProfit, s, o, 0.0, 11000);
            && r.ok && r.asked == Some(0.02)
            && r.after.depot == map[500000 := 999.98] && r.after.money == 111000.0
  {
    TraderProperties.SellWalkOneTier(s.depot, 500000, 1000.0, o.amount);
    ValueIsProduct(500000, 0.02);
    ValueIsProduct(o.price, 0.02);
    assert s.depot.Keys == {500000};
    assert Elements([]) == {};
    TraderProperties.SellStepDecides(TestMinProfit, s, o, 11000);
  }

  /**
   * test_enough_when_selling_two_positions (lines 254-262): two whole tiers
   * gather exactly the offer's minimum.
   */
  lemma SellTwoPositions(c: TraderConditions, s: TraderState, o: Offer)
    requires DefaultNumbers(c)
    requires s == Start(map[500000 := 0.01, 501000 := 0.01], 0.0, 500000)
    requires o == TestOffer(BUY, 600000, 0.02, 0.02)
    ensures var r := ProcessStep(c, TestMinProfit, s, o, 0.0, 12000);
            && r.ok && r.asked == Some(0.02)
            && r.after.depot == map[] && r.after.money == 12000.0
  {
    TraderProperties.TwoTiersSorted(s.depot, 500000, 0.01, 501000, 0.01);
    TraderProperties.TwoTiersPastFirst(s.depot, 500000, 0.01, 501000, 0.01, o.amount);
    ValueIsProduct(500000, 0.01);
    ValueIsProduct(501000, 0.01);
    ValueIsProduct(o.price, 0.02);
    assert s.depot.Keys == {500000, 501000} == Elements([500000, 501000]);
    TraderProperties.SellStepDecides(TestMinProfit, s, o, 12000);
  }

  /**
   * test_sell_lower_position_when_highter_brings_no_profit (lines 264-268):
   * the cheaper tier alone fills the offer and is sold; the tier of the
   * last purchase stays.
   */
  lemma SellLowerPosition(c: TraderConditions, s: TraderState, o: Offer)
    requires DefaultNumbers(c)
    requires s == Start(map[500000 := 0.01, 430000 := 0.01], 100000.0, 500000)
    requires o == TestOffer(BUY, 550000, 0.01, 0.0)
    ensures var r := ProcessStep(c, TestMinProfit, s, o, 0.0, 5500);
            && r.ok && r.asked == Some(0.01)
            && r.after.depot == InitialDepot() && r.after.money == 105500.0
  {
    assert s.depot == map[430000 := 0.01, 500000 := 0.01];
    TraderProperties.TwoTiersSorted(s.depot, 430000, 0.01, 500000, 0.01);
    TraderProperties.TwoTiersFirstExactly(s.depot, 430000, 0.01, 500000, 0.01, o.amount);
    ValueIsProduct(430000, 0.01);
    ValueIsProduct(o.price, 0.01);
    assert s.depot.Keys == {430000, 500000};
    assert Elements([430000]) == {430000};
    TraderProperties.SellStepDecides(TestMinProfit, s, o, 5500);
  }

  /**
   * test_sell_partly_if_to_much_in_depot (lines 270-274): the cheaper tier
   * goes whole, the dearer one keeps what the offer does not take.
   */
  lemma SellPartly(c: TraderConditions, s: TraderState, o: Offer)
    requires DefaultNumbers(c)
    requires s == Start(map[500000 := 0.01, 505000 := 0.2], 100000.0, 500000)
    requires o == TestOffer(BUY, 560000, 0.11, 0.0)
    ensures var r := ProcessStep(c, TestMinProfit, s, o, 0.0, 61600);
            && r.ok && r.asked == Some(0.11)
            && r.after.depot == map[505000 := 0.1] && r.after.money == 161600.0
  {
    TraderProperties.TwoTiersSorted(s.depot, 500000, 0.01, 505000, 0.2);
    TraderProperties.TwoTiersPastFirst(s.depot, 500000, 0.01, 505000, 0.2, o.amount);
    ValueIsProduct(500000, 0.01);
    ValueIsProduct(505000, 0.1);
    ValueIsProduct(o.price, 0.11);
    assert s.depot.Keys == {500000, 505000};
    assert Elements([500000]) == {500000};
    TraderProperties.SellStepDecides(TestMinProfit, s, o, 61600);
  }

  /** Three prices in ascending order are the sorted keys of a depot holding just them. */
  lemma ThreeSorted(d: Depot, p1: int, p2: int, p3: int)
    requires d.Keys == {p1, p2, p3} && p1 < p2 < p3
    ensures SortedKeys(d) == [p1, p2, p3]
  {
    var asc := [p1, p2, p3];
    assert Elements(asc) == d.Keys;
    SortedKeysOfUnique(d.Keys, asc);
  }

  /** The last tier of `ks` taken off its quantity and its cost. */
  lemma LastTier(d: Depot, ks: seq<int>)
    requires InDepot(d, ks) && |ks| > 0
    ensures InDepot(d, ks[..|ks| - 1])
    ensures SumOf(d, ks) == SumOf(d, ks[..|ks| - 1]) + d[ks[|ks| - 1]]
    ensures CostOf(d, ks) == CostOf(d, ks[..|ks| - 1]) + Value(ks[|ks| - 1], d[ks[|ks| - 1]])
  {
  }

  /** Quantities and cost over three tiers, written out. */
  lemma ThreeSums(d: Depot, asc: seq<int>)
    requires |asc| == 3 && InDepot(d, asc)
    ensures SumOf(d, asc) == d[asc[0]] + d[asc[1]] + d[asc[2]]
    ensures CostOf(d, asc) == Value(asc[0], d[asc[0]]) + Value(asc[1], d[asc[1]]) + Value(asc[2], d[asc[2]])
  {
    var two := asc[..2];
    LastTier(d, asc);
    assert two[1] == asc[1];
    LastTier(d, two);
    var one := two[..1];
    assert one[0] == asc[0];
    LastTier(d, one);
    assert one[..0] == [];
  }

  /** A depot of three tiers of the same quantity: what it holds and what it cost. */
  lemma ThreeEqualTiers(d: Depot, p1: int, p2: int, p3: int, x: real)
    requires d == map[p1 := x, p2 := x, p3 := x] && 0 < p1 < p2 < p3 && x > 0.0
    ensures QuantitiesPositive(d) && 0 !in d && d != map[]
    ensures Total(d) == x + x + x
    ensures Spent(d) == Value(p1, x) + Value(p2, x) + Value(p3, x)
  {
    ThreeSorted(d, p1, p2, p3);
    TotalIsSumOfSorted(d);
    ThreeSums(d, [p1, p2, p3]);
    assert p1 in d;
  }

  /**
   * test_sell_only_profitalbe (lines 322-333) as the code decides it: the
   * three tiers together cost 24086.188 cents and fetch 26400, enough for
   * the minimum profit, so `consider_sell` sells all of them, where the
   * test expects it to keep the two dearer ones. The trader was built over
   * the initial depot, so its last purchase price is 500000.
   */
  lemma SellsEveryTier(c: TraderConditions, s: TraderState, o: Offer)
    requires DefaultNumbers(c)
    requires s == Start(map[4024994 := 0.002, 4018100 := 0.002, 4000000 := 0.002], 100000.0, 500000)
    requires o == TestOffer(BUY, 4400000, 0.1, 0.0)
    ensures var r := ProcessStep(c, TestMinProfit, s, o, 0.0, 26400);
            && r.ok && r.asked == Some(0.006)
            && r.after.depot == map[] && r.after.money == 126400.0
  {
    assert s.depot == map[4000000 := 0.002, 4018100 := 0.002, 4024994 := 0.002];
    ThreeEqualTiers(s.depot, 4000000, 4018100, 4024994, 0.002);
    ValueIsProduct(4000000, 0.002);
    ValueIsProduct(4018100, 0.002);
    ValueIsProduct(4024994, 0.002);
    ValueIsProduct(4400000, 0.006);
    TraderProperties.SellWholeDepot(TestMinProfit, s, o, 26400);
  }
}
