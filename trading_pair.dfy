/** The markets a trader can be configured for (gann/trading_pair.py). */
module TradingPairs {
  datatype TradingPair =
    | BTCEUR | ETHEUR | BSVEUR | BCHEUR | BTGEUR | LTCEUR | XRPEUR | DOGEEUR | UNKNOWN
}
