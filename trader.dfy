/**
 * The decision engine (gann/trader.py): a trader that holds coins in price
 * tiers, buys when an offer is cheap enough and sells its cheapest tiers
 * when an offer pays enough.
 *
 * The broker is not modelled; what it answers is a parameter of each
 * operation: the coins a purchase yielded (0.0 when it failed) and the
 * cents a sale brought (0 when it failed). Every operation reports, besides
 * its verdict, the quantity the broker was asked to trade (None when the
 * broker was not called).
 */
module Trading {
  import opened Wrappers
  import opened TradingPairs
  import opened Offers
  import opened Conditions
  import opened Rounding
  import opened Depots
  import opened Money

  /** `sys.maxsize` on a 64-bit platform: the initial lowest selling price. */
  const MaxSize: int := 0x7FFF_FFFF_FFFF_FFFF

  /** The trader's mutable fields, as a value. */
  datatype TraderState = TraderState(
    depot: Depot,
    money: real,
    lastPurchasePrice: int,
    lowestPriceSelling: int,
    highestPriceBuying: int)

  /** One decision: did it trade, what was the broker asked for, and the state after. */
  datatype Step = Step(ok: bool, asked: Option<real>, after: TraderState)

  function Min(a: int, b: int): int { if a < b then a else b }
  function Max(a: int, b: int): int { if a > b then a else b }

  // ----------------------------------------------------------------------
  // Buying (an offer of type SELL)
  // ----------------------------------------------------------------------

  datatype BuyRejection =
    | MinAmountTooHigh
    | AmountTooSmall
    | PriceAboveLastPurchase
    | PriceTooCloseToLastPurchase
    | NoTurnaround
    | NotEnoughMoney

  /**
   * What the gates decide. An offer at price 0 that passes every gate makes
   * the division at line 73 raise ZeroDivisionError.
   */
  datatype BuyVerdict = BuyRejected(reason: BuyRejection) | BuyAccepted(quantity: real) | BuyDividesByZero

  /**
   * The quantity to request: the spend target divided by the price, rounded
   * to four decimals, lowered to the offered amount and then raised to the
   * offer's minimum.
   */
  function BuyQuantity(c: TraderConditions, offer: Offer): real
    requires offer.price != 0
  {
    var amount := Round4(c.amountPrice as real / offer.price as real);
    var amount := if amount > offer.amount then offer.amount else amount;
    if amount < offer.minAmount then offer.minAmount else amount
  }

  /**
   * Hysteresis: while coins are held the price must be a step below the last
   * purchase; with an empty depot it must have turned around from the
   * highest price seen on the buying side.
   */
  predicate HysteresisAllows(c: TraderConditions, s: TraderState, offer: Offer) {
    if HasNonZeroKey(s.depot) then offer.price <= s.lastPurchasePrice - c.stepPrice
    else offer.price <= s.highestPriceBuying - c.turnaroundPrice
  }

  /** The gates of `consider_buy`, in the order the source applies them. */
  function BuyVerdictOf(c: TraderConditions, s: TraderState, offer: Offer): BuyVerdict {
    if Value(offer.price, offer.minAmount) > c.MaxPrice() as real then BuyRejected(MinAmountTooHigh)
    else if Value(offer.price, offer.amount) < c.MinPrice() as real then BuyRejected(AmountTooSmall)
    else if HasNonZeroKey(s.depot) && offer.price > s.lastPurchasePrice - c.stepPrice then
      BuyRejected(if offer.price > s.lastPurchasePrice then PriceAboveLastPurchase else PriceTooCloseToLastPurchase)
    else if !HasNonZeroKey(s.depot) && offer.price > s.highestPriceBuying - c.turnaroundPrice then
      BuyRejected(NoTurnaround)
    else if offer.price == 0 then BuyDividesByZero
    else
      var q := BuyQuantity(c, offer);
      if Value(offer.price, q) > s.money then BuyRejected(NotEnoughMoney)
      else BuyAccepted(q)
  }

  /** Credit `coins` to the tier at `price`, creating it when absent. */
  function AddCoins(d: Depot, price: int, coins: real): (r: Depot)
    ensures r.Keys == d.Keys + {price}
    ensures forall p :: p in d && p != price ==> r[p] == d[p]
  {
    if price in d then d[price := d[price] + coins] else d[price := coins]
  }

  /** `consider_buy` on values. */
  function BuyStep(c: TraderConditions, s: TraderState, offer: Offer, gainedCoins: real): Step {
    var seen := s.(lowestPriceSelling := if offer.price < s.lowestPriceSelling then offer.price
                                         else s.lowestPriceSelling);
    match BuyVerdictOf(c, s, offer)
    case BuyRejected(_) => Step(false, None, seen)
    case BuyDividesByZero => Step(false, None, seen)
    case BuyAccepted(q) =>
      if gainedCoins == 0.0 then Step(false, Some(q), seen)
      else Step(true, Some(q), seen.(money := s.money - Value(offer.price, q),
                                     lastPurchasePrice := offer.price,
                                     depot := AddCoins(s.depot, offer.price, gainedCoins)))
  }

  /** BuyStep when the gates let the offer through. */
  lemma BuyStepAccepted(c: TraderConditions, s: TraderState, offer: Offer, gainedCoins: real)
    requires BuyVerdictOf(c, s, offer).BuyAccepted?
    ensures var q := BuyVerdictOf(c, s, offer).quantity;
            var seen := s.(lowestPriceSelling := Min(s.lowestPriceSelling, offer.price));
            BuyStep(c, s, offer, gainedCoins)
            == if gainedCoins == 0.0 then Step(false, Some(q), seen)
               else Step(true, Some(q), seen.(money := s.money - Value(offer.price, q),
                                              lastPurchasePrice := offer.price,
                                              depot := AddCoins(s.depot, offer.price, gainedCoins)))
  {
  }

  // ----------------------------------------------------------------------
  // Selling (an offer of type BUY)
  // ----------------------------------------------------------------------

  /** A tier of which only part is sold, and the quantity left in it. */
  datatype Split = Split(price: int, left: real)

  /**
   * What the walk over the tiers has gathered: the quantity, what it cost
   * when it was bought, the tiers sold entirely and the tier sold in part.
   */
  datatype Walk = Walk(amount: real, initialSpent: real, consumed: seq<int>, split: Option<Split>)

  /** The walk as the locals of `consider_sell` hold it. */
  function Gathered(amount: real, initialSpent: real, consumed: seq<int>, leftPrice: int, leftAmount: real): Walk {
    Walk(amount, initialSpent, consumed, if leftAmount > 0.0 then Some(Split(leftPrice, leftAmount)) else None)
  }

  /**
   * The loop of `consider_sell` over the ascending prices `asc` from position
   * `n`, its locals holding the values given: whole tiers while they fit
   * under `target`, then the part of the next tier still needed. It stops
   * when `any` finds no price left or `target` coins are gathered.
   */
  function Scan(d: Depot, asc: seq<int>, target: real, n: nat,
                amount: real, initialSpent: real, consumed: seq<int>, leftPrice: int, leftAmount: real): Walk
    requires InDepot(d, asc)
    decreases |asc| - n
  {
    if Exhausted(asc, n) || amount >= target then Gathered(amount, initialSpent, consumed, leftPrice, leftAmount)
    else
      var p := asc[n];
      if amount + d[p] > target then
        var left := d[p] - (target - amount);
        Scan(d, asc, target, n + 1, target, initialSpent + Value(p, d[p] - left), consumed, p, left)
      else
        Scan(d, asc, target, n + 1, amount + d[p], initialSpent + Value(p, d[p]), consumed + [p], leftPrice, leftAmount)
  }

  /**
   * One round of the loop: from locals `amount`… to locals `amount'`… as the
   * body of the loop at lines 131-142 updates them.
   */
  lemma ScanStep(d: Depot, asc: seq<int>, target: real, n: nat,
                 amount: real, initialSpent: real, consumed: seq<int>, leftPrice: int, leftAmount: real,
                 amount': real, initialSpent': real, consumed': seq<int>, leftPrice': int, leftAmount': real)
    requires InDepot(d, asc) && !Exhausted(asc, n) && amount < target
    requires var p := asc[n];
             if amount + d[p] > target then
               && leftPrice' == p && leftAmount' == d[p] - (target - amount) && amount' == target
               && initialSpent' == initialSpent + Value(p, d[p] - leftAmount') && consumed' == consumed
             else
               && initialSpent' == initialSpent + Value(p, d[p]) && amount' == amount + d[p]
               && consumed' == consumed + [p] && leftPrice' == leftPrice && leftAmount' == leftAmount
    ensures Scan(d, asc, target, n, amount, initialSpent, consumed, leftPrice, leftAmount)
            == Scan(d, asc, target, n + 1, amount', initialSpent', consumed', leftPrice', leftAmount')
  {
  }

  /** A round of the loop that takes part of the tier at `asc[n]` and ends the walk. */
  lemma ScanSplitStep(d: Depot, asc: seq<int>, target: real, n: nat,
                      amount: real, initialSpent: real, consumed: seq<int>, leftPrice: int, leftAmount: real,
                      p: int, left: real, initialSpent': real)
    requires InDepot(d, asc) && !Exhausted(asc, n) && amount < target
    requires p == asc[n] && amount + d[p] > target
    requires left == d[p] - (target - amount) && initialSpent' == initialSpent + Value(p, d[p] - left)
    ensures Scan(d, asc, target, n, amount, initialSpent, consumed, leftPrice, leftAmount)
            == Scan(d, asc, target, n + 1, target, initialSpent', consumed, p, left)
  {
    ScanStep(d, asc, target, n, amount, initialSpent, consumed, leftPrice, leftAmount,
             target, initialSpent', consumed, p, left);
  }

  /** A round of the loop that takes the whole tier at `asc[n]`. */
  lemma ScanWholeStep(d: Depot, asc: seq<int>, target: real, n: nat,
                      amount: real, initialSpent: real, consumed: seq<int>, leftPrice: int, leftAmount: real,
                      p: int, amount': real, initialSpent': real, consumed': seq<int>)
    requires InDepot(d, asc) && !Exhausted(asc, n) && amount < target
    requires p == asc[n] && amount + d[p] <= target
    requires amount' == amount + d[p] && initialSpent' == initialSpent + Value(p, d[p]) && consumed' == consumed + [p]
    ensures Scan(d, asc, target, n, amount, initialSpent, consumed, leftPrice, leftAmount)
            == Scan(d, asc, target, n + 1, amount', initialSpent', consumed', leftPrice, leftAmount)
  {
    ScanStep(d, asc, target, n, amount, initialSpent, consumed, leftPrice, leftAmount,
             amount', initialSpent', consumed', leftPrice, leftAmount);
  }

  /** The walk `consider_sell` makes over the whole depot, cheapest tier first. */
  ghost function SellWalk(d: Depot, target: real): Walk {
    SortedKeysInDepot(d);
    Scan(d, SortedKeys(d), target, 0, 0.0, 0.0, [], 0, 0.0)
  }

  /** The depot after a sale: sold tiers removed, the split tier holding its rest. */
  function AfterSell(d: Depot, w: Walk): Depot {
    var rest := d - Elements(w.consumed);
    match w.split
    case Some(Split(p, left)) => if left > 0.0 then rest[p := left] else rest
    case None => rest
  }

  /**
   * The gates of `consider_sell` once the walk `w` over `seen.depot` is
   * known. `minProfit` is the flat number of cents the source reads at
   * line 155.
   */
  function SellOutcome(minProfit: int, seen: TraderState, offer: Offer, w: Walk, gainedMoney: int): Step {
    if offer.minAmount > w.amount then Step(false, None, seen)
    else if w.initialSpent + minProfit as real > Value(offer.price, w.amount) then Step(false, None, seen)
    else if gainedMoney == 0 then Step(false, Some(w.amount), seen)
    else Step(true, Some(w.amount), seen.(money := seen.money + gainedMoney as real,
                                          depot := AfterSell(seen.depot, w)))
  }

  /** `consider_sell` on values. */
  ghost function SellStep(minProfit: int, s: TraderState, offer: Offer, gainedMoney: int): Step {
    var seen := s.(highestPriceBuying := Max(s.highestPriceBuying, offer.price));
    if |s.depot| < 1 then Step(false, None, seen)
    else SellOutcome(minProfit, seen, offer, SellWalk(s.depot, offer.amount), gainedMoney)
  }

  // ----------------------------------------------------------------------
  // Dispatch
  // ----------------------------------------------------------------------

  /** `process_offer` on values. */
  ghost function ProcessStep(c: TraderConditions, minProfit: int, s: TraderState, offer: Offer,
                             boughtCoins: real, soldMoney: int): (r: Step)
    ensures offer.tradingPair != c.tradingPair ==> !r.ok && r.asked.None? && r.after == s
    ensures offer.tradingPair == c.tradingPair && offer.offerType == BUY ==>
              r == SellStep(minProfit, s, offer, soldMoney)
    ensures offer.tradingPair == c.tradingPair && offer.offerType == SELL ==>
              r == BuyStep(c, s, offer, boughtCoins)
  {
    if offer.tradingPair != c.tradingPair then Step(false, None, s)
    else
      match offer.offerType
      case BUY => SellStep(minProfit, s, offer, soldMoney)
      case SELL => BuyStep(c, s, offer, boughtCoins)
  }

  // ----------------------------------------------------------------------
  // The trader object
  // ----------------------------------------------------------------------

  /** `sorted(keys, reverse=True)`: the keys, dearest first. */
  method SortDescending(keys: set<int>) returns (prices: seq<int>)
    ensures prices == Reversed(SortedKeysOf(keys))
  {
    prices := [];
    var rest := keys;
    while rest != {}
      invariant DescendingSplit(prices, rest, keys)
      decreases |rest|
    {
      MaxExists(rest);
      var m :| m in rest && forall k :: k in rest ==> k <= m;
      DescendingSplitStep(prices, rest, keys, m);
      prices := prices + [m];
      rest := rest - {m};
    }
    DescendingIsReversedSorted(prices, keys);
  }

  /** Popping the last of `prices` (`asc[n..]` back to front) yields `asc[n]` and leaves `asc[n + 1..]` back to front. */
  lemma PopCheapest(prices: seq<int>, asc: seq<int>, n: nat)
    requires n + |prices| == |asc| && |prices| > 0
    requires forall i :: 0 <= i < |prices| ==> prices[i] == asc[|asc| - 1 - i]
    ensures prices[|prices| - 1] == asc[n]
    ensures var rest := prices[..|prices| - 1];
            forall i :: 0 <= i < |rest| ==> rest[i] == asc[|asc| - 1 - i]
  {
  }

  /**
   * The loop of `consider_sell` (lines 130-142): pop the cheapest remaining
   * price off `prices` (held dearest first) until `target` coins are gathered.
   */
  method WalkCheapestFirst(d: Depot, prices0: seq<int>, target: real)
    returns (amount: real, initialSpent: real, consumed: seq<int>, leftInDepotPrice: int, leftInDepotAmount: real)
    requires prices0 == Reversed(SortedKeys(d))
    ensures Gathered(amount, initialSpent, consumed, leftInDepotPrice, leftInDepotAmount) == SellWalk(d, target)
    ensures leftInDepotAmount > 0.0 ==> leftInDepotPrice in d
  {
    ghost var asc := SortedKeys(d);
    ghost var w := SellWalk(d, target);
    SortedKeysInDepot(d);
    var prices := prices0;
    ghost var n := 0;
    AnyRemaining(d, prices, n);
    amount := 0.0;
    consumed := [];
    leftInDepotAmount := 0.0;
    leftInDepotPrice := 0;
    initialSpent := 0.0;
    while AnyNonZero(prices) && amount < target
      invariant n + |prices| == |asc|
      invariant forall i :: 0 <= i < |prices| ==> prices[i] == asc[|asc| - 1 - i]
      invariant AnyNonZero(prices) <==> !Exhausted(asc, n)
      invariant leftInDepotAmount > 0.0 ==> leftInDepotPrice in d
      invariant Scan(d, asc, target, n, amount, initialSpent, consumed, leftInDepotPrice, leftInDepotAmount) == w
      decreases |prices|
    {
      ghost var amount0, initialSpent0, consumed0, leftPrice0, leftAmount0 :=
        amount, initialSpent, consumed, leftInDepotPrice, leftInDepotAmount;
      PopCheapest(prices, asc, n);
      var currentPrice := prices[|prices| - 1];
      prices := prices[..|prices| - 1];
      if amount + d[currentPrice] > target {
        leftInDepotPrice := currentPrice;
        leftInDepotAmount := d[leftInDepotPrice] - (target - amount);
        amount := target;
        initialSpent := initialSpent + Value(leftInDepotPrice, d[leftInDepotPrice] - leftInDepotAmount);
        ScanSplitStep(d, asc, target, n, amount0, initialSpent0, consumed0, leftPrice0, leftAmount0,
                      leftInDepotPrice, leftInDepotAmount, initialSpent);
      } else {
        initialSpent := initialSpent + Value(currentPrice, d[currentPrice]);
        amount := amount + d[currentPrice];
        consumed := consumed + [currentPrice];
        ScanWholeStep(d, asc, target, n, amount0, initialSpent0, consumed0, leftPrice0, leftAmount0,
                      currentPrice, amount, initialSpent, consumed);
      }
      n := n + 1;
      AnyRemaining(d, prices, n);
    }
  }

  /** The deletion loop of `consider_sell` (lines 170-174). */
  method RemoveTiers(d0: Depot, consumed: seq<int>) returns (d: Depot)
    ensures d == d0 - Elements(consumed)
  {
    d := d0;
    var i := 0;
    while i < |consumed|
      invariant 0 <= i <= |consumed|
      invariant d == d0 - Elements(consumed[..i])
    {
      assert Elements(consumed[..i + 1]) == Elements(consumed[..i]) + {consumed[i]};
      d := d - {consumed[i]};
      i := i + 1;
    }
    assert consumed[..i] == consumed;
  }

  class Trader {
    const conditions: TraderConditions
    var depot: Depot
    var money: real
    var lastPurchasePrice: int
    var lowestPriceSelling: int
    var highestPriceBuying: int

    function State(): TraderState
      reads this
    {
      TraderState(depot, money, lastPurchasePrice, lowestPriceSelling, highestPriceBuying)
    }

    /**
     * A trader over a copy of `depot` (None in Python is the empty map). The
     * last purchase price starts at the cheapest tier, or 0 without coins.
     */
    constructor (depot: Depot, money: real, conditions: TraderConditions)
      ensures this.conditions == conditions && this.depot == depot && this.money == money
      ensures lowestPriceSelling == MaxSize && highestPriceBuying == 0
      ensures !HasNonZeroKey(depot) ==> lastPurchasePrice == 0
      ensures HasNonZeroKey(depot) ==>
                lastPurchasePrice in depot && forall p :: p in depot ==> lastPurchasePrice <= p
    {
      this.conditions := conditions;
      lastPurchasePrice := 0;
      this.money := money;
      lowestPriceSelling := MaxSize;
      highestPriceBuying := 0;
      this.depot := depot;
      var prices := SortDescending(depot.Keys);
      ghost var asc := SortedKeysOf(depot.Keys);
      AnyNonZeroReversedSuffix(prices, asc, 0);
      assert asc[0..] == asc;
      AnyNonZeroSorted(depot.Keys);
      if AnyNonZero(prices) {
        SortedKeysOfIncreasing(depot.Keys);
        assert prices[|prices| - 1] == asc[0];
        forall p | p in depot
          ensures asc[0] <= p
        {
          IncreasingHead(asc, p);
        }
        assert asc[0] in depot;
        lastPurchasePrice := prices[|prices| - 1];
      }
    }

    /**
     * The gates of the source's early-return chain are the pure function
     * BuyVerdictOf; the method performs the updates around them.
     */
    method ConsiderBuy(offer: Offer, gainedCoins: real) returns (ok: bool, asked: Option<real>)
      modifies this
      ensures Step(ok, asked, State()) == BuyStep(conditions, old(State()), offer, gainedCoins)
    {
      ghost var s0 := State();
      var verdict := BuyVerdictOf(conditions, State(), offer);
      if offer.price < lowestPriceSelling {
        lowestPriceSelling := offer.price;
      }
      if !verdict.BuyAccepted? {
        // a rejection, or the ZeroDivisionError of line 73
        return false, None;
      }
      var amount := verdict.quantity;
      // broker.try_buy(offer, amount) answered gainedCoins
      asked := Some(amount);
      if gainedCoins == 0.0 {
        return false, asked;
      }
      BuyStepAccepted(conditions, s0, offer, gainedCoins);
      money := money - Value(offer.price, amount);
      lastPurchasePrice := offer.price;
      depot := AddCoins(depot, offer.price, gainedCoins);
      return true, asked;
    }

    method ConsiderSell(offer: Offer, minProfit: int, gainedMoney: int) returns (ok: bool, asked: Option<real>)
      modifies this
      ensures Step(ok, asked, State()) == SellStep(minProfit, old(State()), offer, gainedMoney)
    {
      if offer.price > highestPriceBuying {
        highestPriceBuying := offer.price;
      }
      var prices := SortDescending(depot.Keys);
      if |prices| < 1 {
        assert SortedKeys(depot) == [];
        return false, None;
      }
      var amount, initialSpent, consumed, leftInDepotPrice, leftInDepotAmount :=
        WalkCheapestFirst(depot, prices, offer.amount);
      HeadInElements(SortedKeys(depot));
      assert |depot| >= 1;
      ghost var seen := State();
      ghost var w := Gathered(amount, initialSpent, consumed, leftInDepotPrice, leftInDepotAmount);
      assert SellStep(minProfit, old(State()), offer, gainedMoney) == SellOutcome(minProfit, seen, offer, w, gainedMoney);
      if offer.minAmount > amount {
        return false, None;
      }
      if initialSpent + minProfit as real > Value(offer.price, amount) {
        return false, None;
      }
      // broker.try_sell(offer, amount) answered gainedMoney
      asked := Some(amount);
      if gainedMoney == 0 {
        return false, asked;
      }
      money := money + gainedMoney as real;
      var d := RemoveTiers(depot, consumed);
      if leftInDepotAmount > 0.0 {
        d := d[leftInDepotPrice := leftInDepotAmount];
      }
      assert d == AfterSell(seen.depot, w);
      depot := d;
      return true, asked;
    }

    /**
     * Route an offer: other markets are ignored, a BUY offer is a chance to
     * sell and a SELL offer a chance to buy.
     */
    method ProcessOffer(offer: Offer, minProfit: int, boughtCoins: real, soldMoney: int) returns (ok: bool)
      modifies this
      ensures var r := ProcessStep(conditions, minProfit, old(State()), offer, boughtCoins, soldMoney);
              ok == r.ok && State() == r.after
      ensures offer.tradingPair != conditions.tradingPair ==> !ok && State() == old(State())
    {
      if offer.tradingPair != conditions.tradingPair {
        return false;
      }
      var asked: Option<real>;
      match offer.offerType
      case BUY =>
        ok, asked := ConsiderSell(offer, minProfit, soldMoney);
      case SELL =>
        ok, asked := ConsiderBuy(offer, boughtCoins);
    }
  }
}
