/**
 * What the decisions of gann/trader.py guarantee: a sale takes the cheapest
 * tiers first, sells at most one tier in part and removes from the depot
 * exactly the coins it sells; a purchase adds exactly the coins bought and
 * never spends more money than there is; purchases in a row step down by at
 * least the configured step price.
 */
module TraderProperties {
  import opened Wrappers
  import opened TradingPairs
  import opened Offers
  import opened Conditions
  import opened Rounding
  import opened Depots
  import opened Money
  import opened Trading

  // ----------------------------------------------------------------------
  // The walk over the tiers
  // ----------------------------------------------------------------------

  lemma PrefixInDepot(d: Depot, asc: seq<int>, k: nat)
    requires InDepot(d, asc) && k <= |asc|
    ensures InDepot(d, asc[..k])
  {
    assert forall i :: 0 <= i < k ==> asc[..k][i] == asc[i];
  }

  /**
   * The shape of a walk over the ascending prices `asc` of `d`: it sold a
   * prefix of `asc` entirely and at most the next tier in part, keeping a
   * positive rest of it; its quantity and its cost are those of the coins
   * taken.
   */
  ghost predicate WalkShape(d: Depot, asc: seq<int>, target: real, w: Walk)
    requires InDepot(d, asc)
  {
    var k := |w.consumed|;
    if k > |asc| || w.consumed != asc[..k] then false
    else
      PrefixInDepot(d, asc, k);
      match w.split
      case None =>
        w.amount == SumOf(d, w.consumed) && w.initialSpent == CostOf(d, w.consumed)
      case Some(Split(p, left)) =>
        && k < |asc| && p == asc[k]
        && 0.0 < left < d[p]
        && w.amount == target
        && w.amount == SumOf(d, w.consumed) + (d[p] - left)
        && w.initialSpent == CostOf(d, w.consumed) + Value(p, d[p] - left)
  }

  /** ScanShape where the loop stops before the tier at `asc[n]`. */
  lemma ScanShapeStop(d: Depot, asc: seq<int>, target: real, n: nat,
                      amount: real, initialSpent: real, consumed: seq<int>, leftPrice: int)
    requires InDepot(d, asc) && n <= |asc| && consumed == asc[..n]
    requires InDepot(d, consumed) && amount == SumOf(d, consumed) && initialSpent == CostOf(d, consumed)
    requires Exhausted(asc, n) || amount >= target
    ensures var w := Scan(d, asc, target, n, amount, initialSpent, consumed, leftPrice, 0.0);
            && WalkShape(d, asc, target, w)
            && (w.amount < target ==> w.split.None? && Exhausted(asc, |w.consumed|))
            && (amount <= target ==> w.amount <= target)
  {
  }

  /** ScanShape where the tier at `asc[n]` is taken in part and the loop ends. */
  lemma ScanShapeSplit(d: Depot, asc: seq<int>, target: real, n: nat,
                       amount: real, initialSpent: real, consumed: seq<int>, leftPrice: int)
    requires InDepot(d, asc) && n <= |asc| && consumed == asc[..n]
    requires InDepot(d, consumed) && amount == SumOf(d, consumed) && initialSpent == CostOf(d, consumed)
    requires !Exhausted(asc, n) && amount < target && amount + d[asc[n]] > target
    ensures var w := Scan(d, asc, target, n, amount, initialSpent, consumed, leftPrice, 0.0);
            && WalkShape(d, asc, target, w)
            && (w.amount < target ==> w.split.None? && Exhausted(asc, |w.consumed|))
            && (amount <= target ==> w.amount <= target)
  {
  }

  /** Scan from a state in which the first `n` tiers were sold entirely. */
  lemma {:induction false} ScanShape(d: Depot, asc: seq<int>, target: real, n: nat,
                                     amount: real, initialSpent: real, consumed: seq<int>, leftPrice: int)
    requires InDepot(d, asc) && n <= |asc| && consumed == asc[..n]
    requires InDepot(d, consumed) && amount == SumOf(d, consumed) && initialSpent == CostOf(d, consumed)
    ensures var w := Scan(d, asc, target, n, amount, initialSpent, consumed, leftPrice, 0.0);
            && WalkShape(d, asc, target, w)
            && (w.amount < target ==> w.split.None? && Exhausted(asc, |w.consumed|))
            && (amount <= target ==> w.amount <= target)
    decreases |asc| - n
  {
    if Exhausted(asc, n) || amount >= target {
      ScanShapeStop(d, asc, target, n, amount, initialSpent, consumed, leftPrice);
    } else {
      var p := asc[n];
      if amount + d[p] > target {
        ScanShapeSplit(d, asc, target, n, amount, initialSpent, consumed, leftPrice);
      } else {
        var next := consumed + [p];
        assert next == asc[..n + 1];
        assert next[..|next| - 1] == consumed;
        PrefixInDepot(d, asc, n + 1);
        ScanShape(d, asc, target, n + 1, amount + d[p], initialSpent + Value(p, d[p]), next, leftPrice);
      }
    }
  }

  /**
   * The walk of `consider_sell` (lines 119-142): the cheapest tiers entirely,
   * then the part still needed of the next one. It gathers less than the
   * offer asks only when `any` finds no price left, and never more than a
   * non-negative offer asks.
   */
  lemma SellWalkShape(d: Depot, target: real)
    ensures InDepot(d, SortedKeys(d))
    ensures WalkShape(d, SortedKeys(d), target, SellWalk(d, target))
    ensures SellWalk(d, target).amount < target ==>
              SellWalk(d, target).split.None? && Exhausted(SortedKeys(d), |SellWalk(d, target).consumed|)
    ensures target >= 0.0 ==> SellWalk(d, target).amount <= target
  {
    SortedKeysInDepot(d);
    ScanShape(d, SortedKeys(d), target, 0, 0.0, 0.0, [], 0);
  }

  /** A price of `asc` beyond the prefix `asc[..k]` lies above all of the prefix. */
  lemma BeyondPrefix(asc: seq<int>, k: nat, q: int)
    requires StrictlyIncreasing(asc) && k <= |asc|
    requires q in Elements(asc) && q !in Elements(asc[..k])
    ensures forall i :: 0 <= i < k ==> asc[i] < q
    ensures k < |asc| ==> asc[k] <= q
  {
    assert forall i :: 0 <= i < k ==> asc[..k][i] == asc[i];
    var j :| 0 <= j < |asc| && asc[j] == q;
  }

  /** The tier sold in part is none of those sold entirely. */
  lemma SplitNotConsumed(asc: seq<int>, k: nat)
    requires StrictlyIncreasing(asc) && k < |asc|
    ensures asc[k] !in Elements(asc[..k])
  {
    forall i | 0 <= i < k
      ensures asc[..k][i] != asc[k]
    {
      assert asc[i] < asc[k];
    }
  }

  /**
   * What a sale leaves (lines 170-174): the tiers sold entirely are gone,
   * the tier sold in part holds a positive rest smaller than before, and
   * every other tier is untouched; so positive quantities stay positive.
   */
  lemma SellTiers(d: Depot, target: real)
    ensures var w := SellWalk(d, target);
            var after := AfterSell(d, w);
            && after.Keys == d.Keys - Elements(w.consumed)
            && (forall q :: q in after && (w.split.None? || q != w.split.value.price) ==> after[q] == d[q])
            && (w.split.Some? ==> var p := w.split.value.price;
                                 p in d && p in after && 0.0 < after[p] < d[p])
            && (QuantitiesPositive(d) ==> QuantitiesPositive(after))
  {
    var asc := SortedKeys(d);
    var w := SellWalk(d, target);
    SellWalkShape(d, target);
    SortedKeysOfIncreasing(d.Keys);
    var k := |w.consumed|;
    if w.split.Some? {
      SplitNotConsumed(asc, k);
    }
  }

  /**
   * Cheapest first: every tier sold entirely was bought for less than every
   * tier left in the depot, and the tier sold in part is the cheapest left.
   */
  lemma SellCheapestFirst(d: Depot, target: real)
    ensures var w := SellWalk(d, target);
            var after := AfterSell(d, w);
            && (forall p, q :: p in Elements(w.consumed) && q in after ==> p < q)
            && (w.split.Some? ==> forall q :: q in after ==> w.split.value.price <= q)
  {
    var asc := SortedKeys(d);
    var w := SellWalk(d, target);
    var after := AfterSell(d, w);
    SellWalkShape(d, target);
    SellTiers(d, target);
    SortedKeysOfIncreasing(d.Keys);
    var k := |w.consumed|;
    forall q | q in after
      ensures forall i :: 0 <= i < k ==> asc[i] < q
      ensures k < |asc| ==> asc[k] <= q
    {
      BeyondPrefix(asc, k, q);
    }
    forall p, q | p in Elements(w.consumed) && q in after
      ensures p < q
    {
      var i :| 0 <= i < k && w.consumed[i] == p;
      assert asc[i] == p;
    }
  }

  /**
   * Conservation: the depot after a sale holds exactly the coins it held
   * before less the quantity sold.
   */
  lemma SellConservesCoins(d: Depot, target: real)
    ensures Total(AfterSell(d, SellWalk(d, target))) + SellWalk(d, target).amount == Total(d)
  {
    var asc := SortedKeys(d);
    var w := SellWalk(d, target);
    SellWalkShape(d, target);
    ConsumedIncreasing(d, target);
    TotalRemoveAll(d, w.consumed);
    var rest := d - Elements(w.consumed);
    match w.split
    case None =>
    case Some(Split(p, left)) =>
      SortedKeysOfIncreasing(d.Keys);
      SplitNotConsumed(asc, |w.consumed|);
      assert p in rest;
      TotalUpdate(rest, p, left);
  }

  /** The tiers a walk sells whole are distinct tiers of the depot, in ascending order. */
  lemma ConsumedIncreasing(d: Depot, target: real)
    ensures InDepot(d, SellWalk(d, target).consumed) && StrictlyIncreasing(SellWalk(d, target).consumed)
  {
    var asc := SortedKeys(d);
    var w := SellWalk(d, target);
    SellWalkShape(d, target);
    SortedKeysOfIncreasing(d.Keys);
    var k := |w.consumed|;
    PrefixInDepot(d, asc, k);
    forall i, j | 0 <= i < j < k
      ensures w.consumed[i] < w.consumed[j]
    {
      assert w.consumed[i] == asc[i] && w.consumed[j] == asc[j];
    }
  }

  /** Setting one tier's quantity moves the total by the difference. */
  lemma TotalUpdate(d: Depot, p: int, x: real)
    requires p in d
    ensures Total(d[p := x]) == Total(d) - d[p] + x
  {
    TotalRemove(d, p);
    TotalRemove(d[p := x], p);
    assert d[p := x] - {p} == d - {p};
  }

  /** The element after a prefix of an increasing sequence is not in the prefix. */
  lemma NextBeyondPrefix(asc: seq<int>, k: nat)
    requires StrictlyIncreasing(asc) && k <= |asc|
    ensures k < |asc| ==> asc[k] in Elements(asc) && asc[k] !in Elements(asc[..k])
  {
    if k < |asc| {
      SplitNotConsumed(asc, k);
    }
  }

  /** A prefix of an increasing sequence that holds all of its elements is the whole of it. */
  lemma PrefixCoversAll(asc: seq<int>, k: nat)
    requires StrictlyIncreasing(asc) && k <= |asc|
    requires Elements(asc) <= Elements(asc[..k])
    ensures asc[..k] == asc
  {
    NextBeyondPrefix(asc, k);
  }

  /**
   * An offer for at least the whole depot takes every tier, cheapest
   * first, and leaves the depot empty; nothing in the walk weighs the
   * profit of one tier against another.
   */
  lemma SellWalkTakesAll(d: Depot, target: real)
    requires QuantitiesPositive(d) && 0 !in d && Total(d) <= target
    ensures var w := SellWalk(d, target);
            && InDepot(d, SortedKeys(d))
            && w.split.None?
            && w.consumed == SortedKeys(d)
            && w.amount == Total(d)
            && w.initialSpent == CostOf(d, SortedKeys(d))
            && AfterSell(d, w) == map[]
  {
    var asc := SortedKeys(d);
    var w := SellWalk(d, target);
    var after := AfterSell(d, w);
    SellWalkShape(d, target);
    SellTiers(d, target);
    SellConservesCoins(d, target);
    TotalPositive(after);
    SortedKeysOfIncreasing(d.Keys);
    var k := |w.consumed|;
    assert after == map[] by {
      if w.amount < target {
        assert k == |asc|;
        assert after.Keys == {};
      }
    }
    assert Elements(asc) <= Elements(asc[..k]) by {
      assert w.consumed == asc[..k];
      forall q | q in Elements(asc)
        ensures q in Elements(w.consumed)
      {
        assert q in d.Keys && q !in after.Keys;
      }
    }
    PrefixCoversAll(asc, k);
  }

  // ----------------------------------------------------------------------
  // consider_sell
  // ----------------------------------------------------------------------

  /**
   * When `consider_sell` sells (lines 110-176): the highest buying price
   * seen is recorded; the broker is asked for the whole walk; a sale
   * happens exactly when there are coins, the offer's minimum is gathered,
   * the offer pays their cost plus `minProfit` and the broker pays; a
   * rejection leaves the depot and the money as they were.
   */
  lemma SellStepDecides(minProfit: int, s: TraderState, offer: Offer, gainedMoney: int)
    ensures var r := SellStep(minProfit, s, offer, gainedMoney);
            var w := SellWalk(s.depot, offer.amount);
            && r.after.highestPriceBuying >= s.highestPriceBuying
            && r.after.highestPriceBuying >= offer.price
            && (r.after.highestPriceBuying == s.highestPriceBuying || r.after.highestPriceBuying == offer.price)
            && r.after.lastPurchasePrice == s.lastPurchasePrice
            && r.after.lowestPriceSelling == s.lowestPriceSelling
            && (r.asked.Some? <==> |s.depot| > 0 && offer.minAmount <= w.amount
                                   && offer.price as real * w.amount >= w.initialSpent + minProfit as real)
            && (r.asked.Some? ==> r.asked.value == w.amount)
            && (r.ok <==> r.asked.Some? && gainedMoney != 0)
            && (!r.ok ==> r.after.depot == s.depot && r.after.money == s.money)
  {
    ValueIsProduct(offer.price, SellWalk(s.depot, offer.amount).amount);
  }

  /**
   * A sale sells between the offer's minimum and its amount, takes exactly
   * that quantity out of the depot, removes no tier it did not sell and
   * credits the money the broker paid.
   */
  lemma SellStepSells(minProfit: int, s: TraderState, offer: Offer, gainedMoney: int)
    requires SellStep(minProfit, s, offer, gainedMoney).ok
    ensures var r := SellStep(minProfit, s, offer, gainedMoney);
            && r.asked.Some?
            && offer.minAmount <= r.asked.value
            && (offer.amount >= 0.0 ==> r.asked.value <= offer.amount)
            && Total(r.after.depot) + r.asked.value == Total(s.depot)
            && r.after.depot.Keys <= s.depot.Keys
            && r.after.money == s.money + gainedMoney as real
            && (QuantitiesPositive(s.depot) ==> QuantitiesPositive(r.after.depot))
  {
    SellStepDecides(minProfit, s, offer, gainedMoney);
    SellWalkShape(s.depot, offer.amount);
    SellConservesCoins(s.depot, offer.amount);
    SellTiers(s.depot, offer.amount);
  }

  /**
   * An offer for at least the whole depot that pays its cost plus
   * `minProfit` sells every tier, however the tiers compare one by one.
   */
  lemma SellWholeDepot(minProfit: int, s: TraderState, offer: Offer, gainedMoney: int)
    requires QuantitiesPositive(s.depot) && 0 !in s.depot && s.depot != map[]
    requires offer.minAmount <= Total(s.depot) <= offer.amount
    requires Value(offer.price, Total(s.depot)) >= Spent(s.depot) + minProfit as real
    requires gainedMoney != 0
    ensures var r := SellStep(minProfit, s, offer, gainedMoney);
            && r.ok && r.asked == Some(Total(s.depot))
            && r.after.depot == map[]
            && r.after.money == s.money + gainedMoney as real
  {
    var w := SellWalk(s.depot, offer.amount);
    assert w.amount == Total(s.depot) && w.initialSpent == Spent(s.depot) && AfterSell(s.depot, w) == map[] by {
      SellWalkTakesAll(s.depot, offer.amount);
    }
    assert |s.depot| > 0 by {
      MapHasKey(s.depot);
    }
  }

  /**
   * An offer for no coins, with no minimum, gathers nothing. When the minimum
   * profit is not positive, the profit test passes, the broker is asked to
   * sell 0 coins, and a non-zero answer is credited while the depot stays
   * as it was.
   */
  lemma SellZeroWalk(minProfit: int, s: TraderState, offer: Offer, gainedMoney: int)
    requires |s.depot| > 0 && offer.amount <= 0.0 && offer.minAmount <= 0.0 && minProfit <= 0
    ensures var r := SellStep(minProfit, s, offer, gainedMoney);
            && r.asked == Some(0.0)
            && (r.ok <==> gainedMoney != 0)
            && r.after.depot == s.depot
            && r.after.money == s.money + (if gainedMoney != 0 then gainedMoney as real else 0.0)
  {
    SortedKeysInDepot(s.depot);
    var w := SellWalk(s.depot, offer.amount);
    assert w == Walk(0.0, 0.0, [], None);
    assert s.depot - Elements(w.consumed) == s.depot;
    ValueIsProduct(offer.price, 0.0);
  }

  /**
   * The walk over a depot of one tier: an offer smaller than the tier
   * splits it, any other offer takes it whole.
   */
  lemma SellWalkOneTier(d: Depot, p: int, x: real, target: real)
    requires d == map[p := x] && p != 0 && target > 0.0
    ensures SellWalk(d, target) ==
              if x > target then Walk(target, Value(p, target), [], Some(Split(p, x - target)))
              else Walk(x, Value(p, x), [p], None)
  {
    var asc := [p];
    assert Elements(asc) == d.Keys;
    SortedKeysOfUnique(d.Keys, asc);
    assert InDepot(d, asc);
    if x > target {
      assert x - (x - target) == target;
      ScanStep(d, asc, target, 0, 0.0, 0.0, [], 0, 0.0, target, 0.0 + Value(p, target), [], p, x - target);
    } else {
      ScanStep(d, asc, target, 0, 0.0, 0.0, [], 0, 0.0, x, 0.0 + Value(p, x), [p], 0, 0.0);
    }
  }

  /**
   * The walk over a depot of two tiers, cheaper first: the first tier is
   * split, taken alone, or taken whole with the second split or also taken.
   */
  lemma SellWalkTwoTiers(d: Depot, p1: int, x1: real, p2: int, x2: real, target: real)
    requires d == map[p1 := x1, p2 := x2] && 0 < p1 < p2 && target > 0.0
    ensures SellWalk(d, target) ==
              if x1 > target then Walk(target, Value(p1, target), [], Some(Split(p1, x1 - target)))
              else if x1 == target then Walk(x1, Value(p1, x1), [p1], None)
              else if x1 + x2 > target then
                Walk(target, Value(p1, x1) + Value(p2, target - x1), [p1], Some(Split(p2, x1 + x2 - target)))
              else Walk(x1 + x2, Value(p1, x1) + Value(p2, x2), [p1, p2], None)
  {
    TwoTiersSorted(d, p1, x1, p2, x2);
    if x1 > target {
      TwoTiersSplitFirst(d, p1, x1, p2, x2, target);
    } else if x1 == target {
      TwoTiersFirstExactly(d, p1, x1, p2, x2, target);
    } else {
      TwoTiersPastFirst(d, p1, x1, p2, x2, target);
    }
  }

  /** The walk order of a two-tier depot. */
  lemma TwoTiersSorted(d: Depot, p1: int, x1: real, p2: int, x2: real)
    requires d == map[p1 := x1, p2 := x2] && p1 < p2
    ensures SortedKeys(d) == [p1, p2] && InDepot(d, [p1, p2])
  {
    assert Elements([p1, p2]) == d.Keys;
    SortedKeysOfUnique(d.Keys, [p1, p2]);
  }

  lemma TwoTiersSplitFirst(d: Depot, p1: int, x1: real, p2: int, x2: real, target: real)
    requires d == map[p1 := x1, p2 := x2] && p1 < p2 && SortedKeys(d) == [p1, p2]
    requires 0.0 < target < x1
    ensures SellWalk(d, target) == Walk(target, Value(p1, target), [], Some(Split(p1, x1 - target)))
  {
    assert x1 - (x1 - target) == target;
    ScanStep(d, [p1, p2], target, 0, 0.0, 0.0, [], 0, 0.0, target, 0.0 + Value(p1, target), [], p1, x1 - target);
  }

  lemma TwoTiersFirstExactly(d: Depot, p1: int, x1: real, p2: int, x2: real, target: real)
    requires d == map[p1 := x1, p2 := x2] && p1 < p2 && SortedKeys(d) == [p1, p2]
    requires 0.0 < target == x1
    ensures SellWalk(d, target) == Walk(x1, Value(p1, x1), [p1], None)
  {
    ScanStep(d, [p1, p2], target, 0, 0.0, 0.0, [], 0, 0.0, x1, 0.0 + Value(p1, x1), [p1], 0, 0.0);
  }

  lemma TwoTiersPastFirst(d: Depot, p1: int, x1: real, p2: int, x2: real, target: real)
    requires d == map[p1 := x1, p2 := x2] && 0 < p1 < p2 && SortedKeys(d) == [p1, p2]
    requires 0.0 < target && x1 < target
    ensures SellWalk(d, target) ==
              if x1 + x2 > target then
                Walk(target, Value(p1, x1) + Value(p2, target - x1), [p1], Some(Split(p2, x1 + x2 - target)))
              else Walk(x1 + x2, Value(p1, x1) + Value(p2, x2), [p1, p2], None)
  {
    var asc := [p1, p2];
    var spent := 0.0 + Value(p1, x1);
    ScanStep(d, asc, target, 0, 0.0, 0.0, [], 0, 0.0, x1, spent, [p1], 0, 0.0);
    assert [p1] + [p2] == asc;
    if x1 + x2 > target {
      assert x2 - (x1 + x2 - target) == target - x1;
      ScanStep(d, asc, target, 1, x1, spent, [p1], 0, 0.0,
               target, spent + Value(p2, target - x1), [p1], p2, x1 + x2 - target);
    } else {
      ScanStep(d, asc, target, 1, x1, spent, [p1], 0, 0.0, x1 + x2, spent + Value(p2, x2), asc, 0, 0.0);
    }
  }

  // ----------------------------------------------------------------------
  // consider_buy
  // ----------------------------------------------------------------------

  /** Crediting coins to a tier adds exactly them to the total. */
  lemma AddCoinsTotal(d: Depot, price: int, coins: real)
    ensures Total(AddCoins(d, price, coins)) == Total(d) + coins
  {
    var r := AddCoins(d, price, coins);
    TotalRemove(r, price);
    assert r - {price} == d - {price};
    if price in d {
      TotalRemove(d, price);
    } else {
      assert d - {price} == d;
    }
  }

  /**
   * The quantity asked for (lines 73-84): never below the offer's minimum,
   * not above the offer's amount unless the minimum is, one of the three
   * candidates, and within half a ten-thousandth of the spend target's
   * quantity whenever the rounding lands between minimum and amount.
   */
  lemma BuyQuantityBounds(c: TraderConditions, offer: Offer)
    requires offer.price != 0
    ensures var q := BuyQuantity(c, offer);
            var ideal := c.amountPrice as real / offer.price as real;
            && q >= offer.minAmount
            && (offer.minAmount <= offer.amount ==> q <= offer.amount)
            && (q == Round4(ideal) || q == offer.amount || q == offer.minAmount)
            && (offer.minAmount <= Round4(ideal) <= offer.amount ==>
                  q == Round4(ideal) && OnGrid(q) && -1.0 / 20000.0 <= q - ideal <= 1.0 / 20000.0)
            && (OnGrid(offer.amount) && OnGrid(offer.minAmount) ==> OnGrid(q))
  {
  }

  /**
   * The gates of `consider_buy` (lines 40-89), as products the way Python
   * computes them: an offer is bought exactly when its minimum stays within
   * the maximum spend, its amount reaches the minimum spend, the hysteresis
   * allows the price, the price is not zero and the money covers the
   * quantity, and then the quantity is the one of lines 73-84.
   */
  lemma BuyVerdictAccepts(c: TraderConditions, s: TraderState, offer: Offer)
    ensures var v := BuyVerdictOf(c, s, offer);
            && (v.BuyAccepted? <==>
                  && offer.price as real * offer.minAmount <= c.MaxPrice() as real
                  && offer.price as real * offer.amount >= c.MinPrice() as real
                  && HysteresisAllows(c, s, offer)
                  && offer.price != 0
                  && offer.price as real * BuyQuantity(c, offer) <= s.money)
            && (v.BuyAccepted? ==> v.quantity == BuyQuantity(c, offer))
  {
    BuyVerdictGates(c, s, offer);
    SpendGates(c, offer);
    if offer.price != 0 {
      MoneyGate(c, s, offer);
    }
  }

  /** The money gate, worth written as `Value` or as the product. */
  lemma MoneyGate(c: TraderConditions, s: TraderState, offer: Offer)
    requires offer.price != 0
    ensures Value(offer.price, BuyQuantity(c, offer)) <= s.money
        <==> offer.price as real * BuyQuantity(c, offer) <= s.money
  {
    ValueIsProduct(offer.price, BuyQuantity(c, offer));
  }

  /** The two spend gates, worth written as `Value` or as the product. */
  lemma SpendGates(c: TraderConditions, offer: Offer)
    ensures (Value(offer.price, offer.minAmount) <= c.MaxPrice() as real
             && Value(offer.price, offer.amount) >= c.MinPrice() as real)
        <==> (offer.price as real * offer.minAmount <= c.MaxPrice() as real
              && offer.price as real * offer.amount >= c.MinPrice() as real)
  {
    ValueIsProduct(offer.price, offer.minAmount);
    ValueIsProduct(offer.price, offer.amount);
  }

  /** The gates of `consider_buy` folded into one condition, worth written as `Value`. */
  lemma BuyVerdictGates(c: TraderConditions, s: TraderState, offer: Offer)
    ensures var v := BuyVerdictOf(c, s, offer);
            && (v.BuyAccepted? <==>
                  && Value(offer.price, offer.minAmount) <= c.MaxPrice() as real
                  && Value(offer.price, offer.amount) >= c.MinPrice() as real
                  && HysteresisAllows(c, s, offer)
                  && offer.price != 0
                  && Value(offer.price, BuyQuantity(c, offer)) <= s.money)
            && (v.BuyAccepted? ==> v.quantity == BuyQuantity(c, offer))
  {
  }

  /**
   * An offer at price zero that passes every gate reaches the division of
   * line 73; each hysteresis rejection names the gate that failed.
   */
  lemma BuyVerdictRejects(c: TraderConditions, s: TraderState, offer: Offer)
    ensures var v := BuyVerdictOf(c, s, offer);
            && (v.BuyDividesByZero? <==>
                  offer.price == 0 && 0 <= c.MaxPrice() && c.MinPrice() <= 0 && HysteresisAllows(c, s, offer))
            && (v == BuyRejected(PriceAboveLastPurchase) ==>
                  HasNonZeroKey(s.depot) && offer.price > s.lastPurchasePrice)
            && (v == BuyRejected(PriceTooCloseToLastPurchase) ==>
                  HasNonZeroKey(s.depot) && s.lastPurchasePrice - c.stepPrice < offer.price <= s.lastPurchasePrice)
            && (v == BuyRejected(NoTurnaround) ==>
                  !HasNonZeroKey(s.depot) && offer.price > s.highestPriceBuying - c.turnaroundPrice)
  {
    ValueIsProduct(0, offer.minAmount);
    ValueIsProduct(0, offer.amount);
  }

  /**
   * `consider_buy` (lines 32-108) on values: it always records the lowest
   * selling price; the broker is asked exactly when the gates let the offer
   * through; it buys exactly when the broker also delivers; and without a
   * purchase the depot, the money and the last purchase price stay.
   */
  lemma BuyStepDecides(c: TraderConditions, s: TraderState, offer: Offer, gainedCoins: real)
    ensures var r := BuyStep(c, s, offer, gainedCoins);
            var v := BuyVerdictOf(c, s, offer);
            && r.after.lowestPriceSelling <= s.lowestPriceSelling
            && r.after.lowestPriceSelling <= offer.price
            && (r.after.lowestPriceSelling == s.lowestPriceSelling || r.after.lowestPriceSelling == offer.price)
            && r.after.highestPriceBuying == s.highestPriceBuying
            && (r.asked.Some? <==> v.BuyAccepted?)
            && (r.asked.Some? ==> r.asked.value == v.quantity)
            && (r.ok <==> v.BuyAccepted? && gainedCoins != 0.0)
            && (!r.ok ==> r.after.depot == s.depot && r.after.money == s.money
                          && r.after.lastPurchasePrice == s.lastPurchasePrice)
  {
  }

  /**
   * A purchase pays price times quantity, which never overdraws the money;
   * the coins delivered land in the tier of the offer's price and nowhere
   * else, and that price becomes the last purchase price.
   */
  lemma BuyStepBuys(c: TraderConditions, s: TraderState, offer: Offer, gainedCoins: real)
    requires BuyStep(c, s, offer, gainedCoins).ok
    ensures var r := BuyStep(c, s, offer, gainedCoins);
            && offer.price != 0
            && r.after.money == s.money - offer.price as real * BuyQuantity(c, offer)
            && r.after.money >= 0.0
            && r.after.lastPurchasePrice == offer.price
            && Total(r.after.depot) == Total(s.depot) + gainedCoins
            && r.after.depot.Keys == s.depot.Keys + {offer.price}
            && r.after.depot[offer.price] == (if offer.price in s.depot then s.depot[offer.price] else 0.0) + gainedCoins
            && (forall p :: p in s.depot && p != offer.price ==> r.after.depot[p] == s.depot[p])
            && HasNonZeroKey(r.after.depot)
  {
    BuyStepAfter(c, s, offer, gainedCoins);
    ValueIsProduct(offer.price, BuyQuantity(c, offer));
    AddCoinsTotal(s.depot, offer.price, gainedCoins);
    assert offer.price in BuyStep(c, s, offer, gainedCoins).after.depot;
  }

  /** The fields a purchase sets, and the gates it passed. */
  lemma BuyStepAfter(c: TraderConditions, s: TraderState, offer: Offer, gainedCoins: real)
    requires BuyStep(c, s, offer, gainedCoins).ok
    ensures offer.price != 0 && Value(offer.price, BuyQuantity(c, offer)) <= s.money
    ensures var r := BuyStep(c, s, offer, gainedCoins);
            && r.after.money == s.money - Value(offer.price, BuyQuantity(c, offer))
            && r.after.lastPurchasePrice == offer.price
            && r.after.depot == AddCoins(s.depot, offer.price, gainedCoins)
  {
    AcceptedPays(c, s, offer);
    BuyStepAccepted(c, s, offer, gainedCoins);
  }

  /** An accepted offer has a non-zero price and a quantity the money covers. */
  lemma AcceptedPays(c: TraderConditions, s: TraderState, offer: Offer)
    requires BuyVerdictOf(c, s, offer).BuyAccepted?
    ensures offer.price != 0
    ensures BuyVerdictOf(c, s, offer).quantity == BuyQuantity(c, offer)
    ensures Value(offer.price, BuyQuantity(c, offer)) <= s.money
  {
    BuyVerdictGates(c, s, offer);
  }

  /** A purchase of a positive quantity keeps every tier of the depot positive. */
  lemma BuyStepKeepsPositive(c: TraderConditions, s: TraderState, offer: Offer, gainedCoins: real)
    requires QuantitiesPositive(s.depot) && gainedCoins >= 0.0
    ensures QuantitiesPositive(BuyStep(c, s, offer, gainedCoins).after.depot)
  {
    BuyStepDecides(c, s, offer, gainedCoins);
    if BuyStep(c, s, offer, gainedCoins).ok {
      BuyStepBuys(c, s, offer, gainedCoins);
    }
  }

  /**
   * The depot invariant over the whole dispatch: when the broker never
   * delivers a negative quantity, every tier stays positive.
   */
  lemma ProcessStepKeepsPositive(c: TraderConditions, minProfit: int, s: TraderState, offer: Offer,
                                 boughtCoins: real, soldMoney: int)
    requires QuantitiesPositive(s.depot) && boughtCoins >= 0.0
    ensures QuantitiesPositive(ProcessStep(c, minProfit, s, offer, boughtCoins, soldMoney).after.depot)
  {
    if offer.tradingPair == c.tradingPair {
      match offer.offerType
      case BUY =>
        SellStepDecides(minProfit, s, offer, soldMoney);
        if SellStep(minProfit, s, offer, soldMoney).ok {
          SellStepSells(minProfit, s, offer, soldMoney);
        }
      case SELL =>
        BuyStepKeepsPositive(c, s, offer, boughtCoins);
    }
  }

  // ----------------------------------------------------------------------
  // Hysteresis over a run of offers
  // ----------------------------------------------------------------------

  /**
   * Successive `consider_buy` calls on the offers given, the broker
   * delivering the coins given for each: the steps, in order.
   */
  function BuyRun(c: TraderConditions, s: TraderState, offers: seq<Offer>, gains: seq<real>): (steps: seq<Step>)
    requires |gains| == |offers|
    ensures |steps| == |offers|
    decreases |offers|
  {
    if offers == [] then []
    else
      var first := BuyStep(c, s, offers[0], gains[0]);
      [first] + BuyRun(c, first.after, offers[1..], gains[1..])
  }

  /**
   * While coins are held, no purchase of a run is above the last purchase
   * price less one step: buying never drives that price up again.
   */
  lemma {:induction false} BuyRunBelow(c: TraderConditions, s: TraderState, offers: seq<Offer>, gains: seq<real>)
    requires |gains| == |offers|
    requires HasNonZeroKey(s.depot) && c.stepPrice >= 0
    ensures forall j :: 0 <= j < |offers| && BuyRun(c, s, offers, gains)[j].ok ==>
              offers[j].price <= s.lastPurchasePrice - c.stepPrice
    decreases |offers|
  {
    if offers != [] {
      var first := BuyStep(c, s, offers[0], gains[0]);
      var rest := BuyRun(c, first.after, offers[1..], gains[1..]);
      assert BuyRun(c, s, offers, gains) == [first] + rest;
      BuyStepDecides(c, s, offers[0], gains[0]);
      BuyVerdictAccepts(c, s, offers[0]);
      if first.ok {
        BuyStepBuys(c, s, offers[0], gains[0]);
      }
      BuyRunBelow(c, first.after, offers[1..], gains[1..]);
      forall j | 1 <= j < |offers| && BuyRun(c, s, offers, gains)[j].ok
        ensures offers[j].price <= s.lastPurchasePrice - c.stepPrice
      {
        assert rest[j - 1] == BuyRun(c, s, offers, gains)[j];
        assert offers[1..][j - 1] == offers[j];
      }
    }
  }

  /**
   * Any two purchases of a run are at least one step apart, the later one
   * below the earlier: the bot buys into a falling market only.
   */
  lemma {:induction false} BuyRunStepsDown(c: TraderConditions, s: TraderState, offers: seq<Offer>, gains: seq<real>)
    requires |gains| == |offers|
    requires c.stepPrice >= 0
    ensures forall i, j :: 0 <= i < j < |offers| && BuyRun(c, s, offers, gains)[i].ok && BuyRun(c, s, offers, gains)[j].ok ==>
              offers[j].price <= offers[i].price - c.stepPrice
    decreases |offers|
  {
    if offers != [] {
      var first := BuyStep(c, s, offers[0], gains[0]);
      var rest := BuyRun(c, first.after, offers[1..], gains[1..]);
      var run := BuyRun(c, s, offers, gains);
      assert run == [first] + rest;
      BuyRunStepsDown(c, first.after, offers[1..], gains[1..]);
      if first.ok {
        BuyStepBuys(c, s, offers[0], gains[0]);
        BuyRunBelow(c, first.after, offers[1..], gains[1..]);
      }
      forall i, j | 0 <= i < j < |offers| && run[i].ok && run[j].ok
        ensures offers[j].price <= offers[i].price - c.stepPrice
      {
        assert rest[j - 1] == run[j];
        assert offers[1..][j - 1] == offers[j];
        if i > 0 {
          assert rest[i - 1] == run[i];
          assert offers[1..][i - 1] == offers[i];
        }
      }
    }
  }
}
