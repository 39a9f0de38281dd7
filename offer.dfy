/** Offers as the decision engine receives them (gann/offer.py). */
module Offers {
  import opened TradingPairs

  datatype PaymentOption = NA | EXPRESS_ONLY | SEPA_ONLY | EXPRESS_SEPA

  /** BUY: the counterparty wants to buy coins; SELL: it wants to sell coins. */
  datatype OfferType = BUY | SELL

  /**
   * An immutable market offer. `price` is per coin in cents; `amount` and
   * `minAmount` are coin quantities. The Python field `type` is called
   * `offerType` here, because `type` is a Dafny keyword. The timestamp is
   * kept as seconds since the epoch.
   */
  datatype Offer = Offer(
    orderId: string,
    amount: real,
    minAmount: real,
    price: int,
    offerType: OfferType,
    tradingPair: TradingPair,
    date: int,
    paymentOption: PaymentOption)
}
