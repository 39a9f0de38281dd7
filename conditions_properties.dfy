/** Properties of the trading policy: profit-rule parsing, the notional band and `enough`. */
module ConditionsProperties {
  import opened Wrappers
  import opened PyInt
  import opened Offers
  import opened Conditions

  /** A number followed by '%' is a percentage rule with that number. */
  lemma ProfitRulePercentage(n: int)
    ensures ParseProfitRule(IntToString(n) + "%") == Some(Percentage(n))
  {
    var s := IntToString(n) + "%";
    assert s[..|s| - 1] == IntToString(n);
    ParseIntRoundTrip(n);
  }

  /** A number alone is an absolute rule of that many cents. */
  lemma ProfitRuleAbsolute(n: int)
    ensures ParseProfitRule(IntToString(n)) == Some(Absolute(n))
  {
    ParseIntRoundTrip(n);
  }

  /** A lone '%' leaves nothing for `int` to parse. */
  lemma ProfitRuleBarePercent()
    ensures ParseProfitRule("%") == None
  {
    assert "%"[..0] == "";
    assert Strip("") == "";
  }

  /** A word is no number, so construction fails. */
  lemma ProfitRuleWord()
    ensures ParseProfitRule("ten") == None
    ensures NewConditions(100_00, 20_00, "ten", 10_00, 10_00, 4, TradingPairs.BTCEUR) == None
  {
    ParseIntRejectsNonDigit("ten");
  }

  /** A leading file separator is no whitespace to `int`, so construction fails. */
  lemma ProfitRuleSeparator()
    ensures ParseProfitRule("\U{1c}5") == None
    ensures NewConditions(100_00, 20_00, "\U{1c}5", 10_00, 10_00, 4, TradingPairs.BTCEUR) == None
  {
    ParseIntRejectsSeparator();
  }

  /** Two underscores in a row are rejected by `int`. */
  lemma ProfitRuleDoubleUnderscore()
    ensures ParseProfitRule("1__0%") == None
  {
    var d := "1__0%"[..4];
    assert d == "1__0";
    ParseIntRejectsDoubleUnderscore(d, 1);
  }

  /** A non-negative tolerance gives a band around the spend target. */
  lemma PriceBand(c: TraderConditions)
    requires c.amountPriceTolerance >= 0
    ensures c.MinPrice() <= c.amountPrice <= c.MaxPrice()
    ensures c.MaxPrice() - c.MinPrice() == 2 * c.amountPriceTolerance
  {
  }

  /** Percentage rule: the proceeds must cover the cost plus `p` per cent of it. */
  lemma EnoughPercentage(c: TraderConditions, amount: real, offer: Offer, initialSpent: real)
    requires c.rule.Percentage?
    ensures Enough(c, amount, offer, initialSpent)
            == Some(100.0 * (offer.price as real * amount) >= initialSpent * (100.0 + c.rule.minProfit as real))
  {
    var p := c.rule.minProfit as real;
    calc {
      initialSpent * (1.0 + p / 100.0) * 100.0;
      initialSpent * (100.0 + p);
    }
  }

  /**
   * Absolute rule: the profit threshold is `p` cents per `amount_price` cents
   * spent, so it scales with the cost of the coins sold.
   */
  lemma EnoughAbsolute(c: TraderConditions, amount: real, offer: Offer, initialSpent: real)
    requires c.rule.Absolute? && c.amountPrice > 0
    ensures Enough(c, amount, offer, initialSpent)
            == Some(c.amountPrice as real * (offer.price as real * amount)
                    >= initialSpent * (c.amountPrice as real + c.rule.minProfit as real))
  {
    var a := c.amountPrice as real;
    var p := c.rule.minProfit as real;
    var lhs := amount * offer.price as real;
    var rhs := initialSpent / a * p + initialSpent;
    assert rhs * a == initialSpent * (a + p);
    MultiplyPositive(lhs, rhs, a);
  }

  lemma MultiplyPositive(x: real, y: real, a: real)
    requires a > 0.0
    ensures x >= y <==> x * a >= y * a
  {
    if x >= y {
      assert (x - y) * a >= 0.0;
    } else {
      assert (y - x) * a > 0.0;
    }
  }

  /** With no profit required, both rules say: proceeds cover the cost. */
  lemma EnoughZeroProfit(c: TraderConditions, amount: real, offer: Offer, initialSpent: real)
    requires c.rule.minProfit == 0
    requires c.rule.Percentage? || c.amountPrice != 0
    ensures Enough(c, amount, offer, initialSpent) == Some(offer.price as real * amount >= initialSpent)
  {
  }

  /** If selling is profitable at one price it is at every higher price. */
  lemma EnoughMonotoneInPrice(c: TraderConditions, amount: real, offer: Offer, initialSpent: real, higher: int)
    requires amount >= 0.0 && higher >= offer.price
    requires Enough(c, amount, offer, initialSpent) == Some(true)
    ensures Enough(c, amount, offer.(price := higher), initialSpent) == Some(true)
  {
    assert (higher - offer.price) as real * amount >= 0.0;
    assert higher as real * amount >= offer.price as real * amount;
  }
}
