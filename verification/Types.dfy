// Values shared by the strategy, the policy engine and the live loop, and the committed config.
module Types {

  datatype Option<+T> = None | Some(value: T)

  /** Upper-case token symbol. */
  type Token = string

  /** Last quoted price of each symbol in the market views. */
  type Prices = map<Token, real>

  datatype Side = Buy | Sell | Hold

  datatype Decision = Decision(side: Side, chain: string, fromToken: Token, toToken: Token, amountUsd: real) {
    predicate IsTrade() {
      side != Hold && amountUsd > 0.0
    }
  }

  datatype TokenView = TokenView(symbol: Token, price: real, pct1h: Option<real>, pct4h: Option<real>,
                                 vol24h: Option<real>)

  datatype Rung = Full | HalveSize | NoNewRisk | StablecoinMode

  datatype LadderStep = LadderStep(atPct: real, action: Rung)

  datatype Risk = Risk(minSinglePct: real, maxSinglePct: real, maxSingleUsd: real, maxRisky: real,
                       maxTradesPerHour: int, minInterval: real,
                       stopLossPct: real, takeProfitPct: real, maxHoldHours: real)

  datatype MinTrades = MinTrades(targetRatio: real, band: real, microUsd: real, complianceGap: real)

  datatype ConfigData = ConfigData(universe: seq<Token>, quotes: seq<Token>,
                                   allowedTokens: set<Token>, allowedPairs: set<(string, Token, Token)>,
                                   volEnterMax: real, risk: Risk, ladder: seq<LadderStep>,
                                   minTrades: MinTrades, maxDataAge: real)

  /** The strategy indexes the first quote token and divides by the volatility ceiling. */
  type Config = c: ConfigData | |c.quotes| > 0 && c.volEnterMax != 0.0 witness COMMITTED

  const LADDER := [LadderStep(1.0, HalveSize), LadderStep(2.0, NoNewRisk), LadderStep(3.0, StablecoinMode)]

  /** The committed policy of config/strategy.json. */
  const COMMITTED := ConfigData(
    ["WBNB", "BTCB", "ETH", "CAKE"],
    ["USDT", "USDC"],
    {"USDT", "USDC", "WBNB", "BTCB", "ETH", "CAKE"},
    {("bsc", "USDT", "WBNB"), ("bsc", "WBNB", "USDT"), ("bsc", "USDT", "BTCB"), ("bsc", "BTCB", "USDT"),
     ("bsc", "USDT", "ETH"), ("bsc", "ETH", "USDT"), ("bsc", "USDT", "CAKE"), ("bsc", "CAKE", "USDT")},
    4.0,
    Risk(0.01, 0.025, 100.0, 0.12, 4, 900.0, 2.0, 4.0, 48.0),
    LADDER,
    MinTrades(0.10, 0.04, 12.0, 3600.0),
    600.0)

  const LIVE: Config := COMMITTED

  /** The symbol-to-price dictionary built from the views; a later view of a symbol replaces an earlier one. */
  function PriceMap(views: seq<TokenView>): Prices {
    if views == [] then map[]
    else
      var v := views[|views| - 1];
      PriceMap(views[..|views| - 1])[v.symbol := v.price]
  }

  /** price.get(sym) or 0.0 */
  function PriceOrZero(price: Prices, sym: Token): real {
    if sym in price then price[sym] else 0.0
  }
}
