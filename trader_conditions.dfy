/**
 * The trading policy (gann/trader_conditions.py): how much to spend per
 * purchase and with which tolerance, the price steps that gate repeated
 * purchases, the rounding precision, the market, and the profit rule.
 */
module Conditions {
  import opened Wrappers
  import opened PyInt
  import opened TradingPairs
  import opened Offers

  /**
   * The profit rule derived from the configured string once, at
   * construction: a string ending in '%' is a percentage markup, any other
   * string a number of cents.
   */
  datatype ProfitRule = Absolute(minProfit: int) | Percentage(minProfit: int)

  datatype TraderConditions = TraderConditions(
    amountPrice: int,
    amountPriceTolerance: int,
    minProfitStr: string,
    stepPrice: int,
    turnaroundPrice: int,
    decimals: int,
    tradingPair: TradingPair,
    rule: ProfitRule)
  {
    /** `min_profit` of the Python object. */
    function MinProfit(): int { rule.minProfit }

    /** `percentage` of the Python object. */
    predicate IsPercentage() { rule.Percentage? }

    /** The largest notional a single purchase may cost: the top of the band around the spend target. */
    function MaxPrice(): (r: int)
      ensures amountPriceTolerance >= 0 <==> amountPrice <= r
    {
      amountPrice + amountPriceTolerance
    }

    /** The smallest notional worth a purchase: the bottom of the band around the spend target. */
    function MinPrice(): (r: int)
      ensures amountPriceTolerance >= 0 <==> r <= amountPrice
    {
      amountPrice - amountPriceTolerance
    }
  }

  /** `__post_init__`: None where `int(...)` raises ValueError. */
  function ParseProfitRule(s: string): (r: Option<ProfitRule>)
    ensures r.Some? ==> (r.value.Percentage? <==> |s| > 0 && s[|s| - 1] == '%')
  {
    if |s| > 0 && s[|s| - 1] == '%' then
      match ParseInt(s[..|s| - 1])
      case Some(n) => Some(Percentage(n))
      case None => None
    else
      match ParseInt(s)
      case Some(n) => Some(Absolute(n))
      case None => None
  }

  /** The dataclass constructor; None is the construction-time ValueError. */
  function NewConditions(amountPrice: int, amountPriceTolerance: int, minProfitStr: string,
                         stepPrice: int, turnaroundPrice: int, decimals: int,
                         tradingPair: TradingPair): (r: Option<TraderConditions>)
    ensures r.Some? <==> ParseProfitRule(minProfitStr).Some?
    ensures r.Some? ==> r.value.rule == ParseProfitRule(minProfitStr).value
    ensures r.Some? ==> r.value.minProfitStr == minProfitStr && r.value.amountPrice == amountPrice
                        && r.value.amountPriceTolerance == amountPriceTolerance
                        && r.value.stepPrice == stepPrice && r.value.turnaroundPrice == turnaroundPrice
                        && r.value.decimals == decimals && r.value.tradingPair == tradingPair
  {
    match ParseProfitRule(minProfitStr)
    case Some(rule) =>
      Some(TraderConditions(amountPrice, amountPriceTolerance, minProfitStr, stepPrice,
                            turnaroundPrice, decimals, tradingPair, rule))
    case None => None
  }

  /** Conditions whose profit rule is the one their string describes. */
  predicate WellFormed(c: TraderConditions) {
    ParseProfitRule(c.minProfitStr) == Some(c.rule)
  }

  lemma ThousandDigits()
    ensures IntToString(1000) == "1000"
  {
    assert NatToString(1) == "1";
    assert NatToString(10) == NatToString(1) + "0";
    assert NatToString(100) == NatToString(10) + "0";
    assert NatToString(1000) == NatToString(100) + "0";
  }

  /** The default profit string '1000' is an absolute rule of 1000 cents. */
  lemma DefaultProfitRule()
    ensures ParseProfitRule("1000") == Some(Absolute(1000))
  {
    ThousandDigits();
    ParseIntRoundTrip(1000);
    assert "1000"[3] != '%';
  }

  /** `TraderConditions()` with every default. */
  function DefaultConditions(): (c: TraderConditions)
    ensures WellFormed(c) && c.minProfitStr == "1000"
    ensures c.amountPrice == 100_00 && c.amountPriceTolerance == 20_00
    ensures c.MaxPrice() == 120_00 && c.MinPrice() == 80_00
    ensures c.rule == Absolute(1000)
    ensures c.stepPrice == 10_00 && c.turnaroundPrice == 10_00
    ensures c.decimals == 4 && c.tradingPair == BTCEUR
  {
    DefaultProfitRule();
    TraderConditions(100_00, 20_00, "1000", 10_00, 10_00, 4, BTCEUR, Absolute(1000))
  }

  /**
   * `enough`: would selling `amount` coins at the offer's price, for coins
   * that cost `initialSpent`, make the configured profit? None where Python
   * raises ZeroDivisionError (absolute rule with `amount_price == 0`).
   */
  function Enough(c: TraderConditions, amount: real, offer: Offer, initialSpent: real): (r: Option<bool>)
    ensures r.None? <==> c.rule.Absolute? && c.amountPrice == 0
  {
    var p := c.MinProfit() as real;
    if c.IsPercentage() then Some(offer.price as real * amount >= initialSpent * (1.0 + p / 100.0))
    else if c.amountPrice == 0 then None
    else Some(amount * offer.price as real >= initialSpent / c.amountPrice as real * p + initialSpent)
  }
}
