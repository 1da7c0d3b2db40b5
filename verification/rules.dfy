/** The per-symbol buy rule and the per-position sell rule, as pure decisions. */
module Rules {
  import opened Settings
  import opened Ledger

  /** An open position as the broker reports it: compact symbol, quantity and the
      total amount paid. */
  datatype Position = Position(symbol: string, qty: real, costBasis: real)

  /** The cost basis held in positions whose compact symbol is the given one. */
  function Investment(ps: seq<Position>, compact: string): (r: real)
    ensures (forall i :: 0 <= i < |ps| ==> ps[i].symbol != compact) ==> r == 0.0
    ensures (forall i :: 0 <= i < |ps| ==> ps[i].costBasis >= 0.0) ==> r >= 0.0
    ensures |ps| == 1 ==> r == (if ps[0].symbol == compact then ps[0].costBasis else 0.0)
  {
    if |ps| == 0 then 0.0
    else
      var last := ps[|ps| - 1];
      Investment(ps[..|ps| - 1], compact) + (if last.symbol == compact then last.costBasis else 0.0)
  }

  /** The sum is taken position by position: splitting the broker's list anywhere
      splits the investment into the two parts' investments. */
  lemma {:induction false} InvestmentSplit(a: seq<Position>, b: seq<Position>, compact: string)
    decreases |b|
    ensures Investment(a + b, compact) == Investment(a, compact) + Investment(b, compact)
  {
    if |b| == 0 {
      assert a + b == a;
    } else {
      var init := b[..|b| - 1];
      InvestmentSplit(a, init, compact);
      assert (a + b)[..|a + b| - 1] == a + init;
    }
  }

  /** The five conditions that must all hold for a buy. */
  predicate BuyGuards(cfg: Config, price: real, gain: real, cooldown: real, atr: real, investment: real)
  {
    && price > 0.0
    && cooldown > cfg.minTradeCooldown
    && atr > cfg.atrMin
    && investment < cfg.maxInvestment
    && gain >= cfg.gainThreshold
  }

  datatype BuyDecision = BuyQty(qty: real) | Reject(reasons: seq<Reason>) | Pass

  /** The buy rule for one priced tick. A buy spends the position size; when
      momentum alone would have qualified but another guard failed, the rejection
      carries the failing guards. */
  function DecideBuy(cfg: Config, price: real, gain: real, cooldown: real, atr: real, investment: real): (d: BuyDecision)
    ensures d.BuyQty? <==> BuyGuards(cfg, price, gain, cooldown, atr, investment)
    ensures d.BuyQty? ==> d.qty > 0.0 || cfg.positionSize <= 0.0
    ensures d.BuyQty? ==> d.qty * price == cfg.positionSize
    ensures d.Reject? <==> price > 0.0 && gain >= cfg.gainThreshold && !BuyGuards(cfg, price, gain, cooldown, atr, investment)
    ensures d.Reject? ==> |d.reasons| > 0 && InReportingOrder(d.reasons)
    ensures d.Reject? ==> (CooldownActive in d.reasons <==> cooldown <= cfg.minTradeCooldown)
    ensures d.Reject? ==> (LowVolatility in d.reasons <==> atr <= cfg.atrMin)
    ensures d.Reject? ==> (MaxInvestmentReached in d.reasons <==> investment >= cfg.maxInvestment)
  {
    if price > 0.0 then
      if cooldown > cfg.minTradeCooldown && atr > cfg.atrMin && investment < cfg.maxInvestment && gain >= cfg.gainThreshold then
        BuyQty(cfg.positionSize / price)
      else if gain >= cfg.gainThreshold then
        var reasons :=
          (if cooldown <= cfg.minTradeCooldown then [CooldownActive] else [])
          + (if atr <= cfg.atrMin then [LowVolatility] else [])
          + (if investment >= cfg.maxInvestment then [MaxInvestmentReached] else []);
        if |reasons| > 0 then Reject(reasons) else Pass
      else Pass
    else Pass
  }

  /** The profit of a position as a fraction of its entry price, net of fees. */
  function ProfitPercent(cfg: Config, current: real, entry: real): real
    requires entry != 0.0
  {
    (current - entry) / entry - cfg.feePercent
  }

  /** The profit realised by selling qty at current after entering at entry. */
  function RealizedPnl(cfg: Config, current: real, entry: real, qty: real): real
  {
    (current - entry) * qty - cfg.feePercent * entry * qty
  }

  /** The realised profit of a sale is its net profit fraction times the cost
      basis. */
  lemma RealizedIsProfitOnCost(cfg: Config, current: real, qty: real, cost: real)
    requires qty != 0.0 && cost != 0.0
    ensures cost / qty != 0.0
    ensures RealizedPnl(cfg, current, cost / qty, qty) == ProfitPercent(cfg, current, cost / qty) * cost
  {
    var entry := cost / qty;
    assert entry * qty == cost;
    var g := (current - entry) / entry;
    assert g * entry == current - entry;
    calc {
      ProfitPercent(cfg, current, entry) * cost;
      (g - cfg.feePercent) * (entry * qty);
      (g * entry) * qty - cfg.feePercent * entry * qty;
      (current - entry) * qty - cfg.feePercent * entry * qty;
    }
  }

  /** The exit rule, inclusive at both thresholds. */
  predicate SellTriggered(cfg: Config, profit: real)
  {
    profit >= cfg.takeProfit || profit <= -cfg.lossThreshold
  }

  /** What the sell loop does with one position. Fault stands for a division by a
      zero quantity or a zero entry price, which raises and ends the tick. */
  datatype SellDecision =
    | Untracked
    | Unpriced
    | Fault
    | Hold
    | SellAt(symbol: string, price: real, qty: real, realized: real)

  function DecideSell(cfg: Config, assets: map<string, string>, prices: map<string, real>, pos: Position): (d: SellDecision)
    ensures d.Untracked? <==> pos.symbol !in assets
    ensures d.Unpriced? <==> pos.symbol in assets && assets[pos.symbol] !in prices
    ensures d.Fault? <==> pos.symbol in assets && assets[pos.symbol] in prices && (pos.qty == 0.0 || pos.costBasis == 0.0)
    ensures d.SellAt? <==>
      && pos.symbol in assets && assets[pos.symbol] in prices
      && pos.qty != 0.0 && pos.costBasis != 0.0
      && SellTriggered(cfg, ProfitPercent(cfg, prices[assets[pos.symbol]], pos.costBasis / pos.qty))
    ensures d.SellAt? ==> d.symbol == assets[pos.symbol] && d.price == prices[d.symbol] && d.qty == pos.qty
  {
    if pos.symbol !in assets then Untracked
    else
      var tradeSymbol := assets[pos.symbol];
      if tradeSymbol !in prices then Unpriced
      else if pos.qty == 0.0 then Fault
      else
        var entry := pos.costBasis / pos.qty;
        if entry == 0.0 then Fault
        else
          var current := prices[tradeSymbol];
          if SellTriggered(cfg, ProfitPercent(cfg, current, entry)) then
            SellAt(tradeSymbol, current, pos.qty, RealizedPnl(cfg, current, entry, pos.qty))
          else Hold
  }

  /** A tracked, priced, well-formed position is held exactly while its net profit
      lies strictly between the stop-loss and the take-profit. */
  lemma HoldBand(cfg: Config, assets: map<string, string>, prices: map<string, real>, pos: Position)
    ensures DecideSell(cfg, assets, prices, pos).Hold? <==>
      && pos.symbol in assets && assets[pos.symbol] in prices
      && pos.qty != 0.0 && pos.costBasis != 0.0
      && -cfg.lossThreshold < ProfitPercent(cfg, prices[assets[pos.symbol]], pos.costBasis / pos.qty) < cfg.takeProfit
  {
  }

  /** What a sale realises is its net profit fraction times the position's cost
      basis: a take-profit sale of a position bought for a positive amount gains
      money, a stop-loss sale loses it. */
  lemma SaleRealizesProfitOnCost(cfg: Config, assets: map<string, string>, prices: map<string, real>, pos: Position)
    requires DecideSell(cfg, assets, prices, pos).SellAt?
    ensures pos.qty != 0.0 && pos.costBasis != 0.0
    ensures var d := DecideSell(cfg, assets, prices, pos);
      d.realized == ProfitPercent(cfg, d.price, pos.costBasis / pos.qty) * pos.costBasis
  {
    RealizedIsProfitOnCost(cfg, prices[assets[pos.symbol]], pos.qty, pos.costBasis);
  }

  /** A position bought at 100 and now at 106 is up 5.8% after the 0.2% fee, which
      clears the 5% take-profit; the sale realises 5.8. */
  lemma TakeProfitExample()
    ensures ProfitPercent(Default, 106.0, 100.0) == 0.058
    ensures DecideSell(Default, map["BTCUSD" := "BTC/USD"], map["BTC/USD" := 106.0], Position("BTCUSD", 1.0, 100.0))
         == SellAt("BTC/USD", 106.0, 1.0, 5.8)
  {
    assert RealizedPnl(Default, 106.0, 100.0, 1.0) == 5.8;
  }

  /** Both thresholds are inclusive: a position bought at 100 sells at 105.2, where
      its net profit is exactly the 5% take-profit, and at 97.2, where it is exactly
      the 3% stop-loss. */
  lemma ThresholdsSell()
    ensures DecideSell(Default, map["BTCUSD" := "BTC/USD"], map["BTC/USD" := 105.2], Position("BTCUSD", 1.0, 100.0))
         == SellAt("BTC/USD", 105.2, 1.0, 5.0)
    ensures DecideSell(Default, map["BTCUSD" := "BTC/USD"], map["BTC/USD" := 97.2], Position("BTCUSD", 1.0, 100.0))
         == SellAt("BTC/USD", 97.2, 1.0, -3.0)
  {
    assert ProfitPercent(Default, 105.2, 100.0) == 0.05;
    assert ProfitPercent(Default, 97.2, 100.0) == -0.03;
  }
}
