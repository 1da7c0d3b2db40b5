/** The strategy's tuning constants, read-only to the decision engine. Credentials,
    the polling interval and file names are not part of the decision logic. */
module Settings {
  import Symbols

  datatype Config = Config(
    symbols: seq<string>,      // canonical symbols traded
    gainThreshold: real,       // momentum needed to buy
    positionSize: real,        // dollars spent per buy
    maxInvestment: real,       // cap on cost basis held per symbol
    feePercent: real,          // fee rate charged against entry value
    minTradeCooldown: real,    // seconds between buys of one symbol
    atrMin: real,              // volatility floor
    lossThreshold: real,       // stop-loss, as a positive fraction
    takeProfit: real,          // take-profit, as a fraction
    dailyLossLimit: real)      // negative accumulated-PnL limit that halts trading

  /** The values the bot ships with. */
  const Default: Config := Config(
    Symbols.Configured, 0.001, 150.0, 900.0, 0.002, 30.0, 0.00005, 0.03, 0.05, -200.0)
}
