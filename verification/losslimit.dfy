/** The daily loss limit on the path where a tick is cut short. The loop's risk
    check sits after the sell loop inside the same try block, so an exception raised
    by a later position, here a rejected sell order, skips it even when earlier
    sales have already pushed the accumulator below the limit. Two concrete ticks
    from start-up show the loop trading on; the checked loop body halts on the
    first of them. */
module LossLimit {
  import opened Options
  import opened Symbols
  import opened PriceHistory
  import opened Settings
  import opened Ledger
  import opened Rules
  import opened Engine
  import opened Trace

  /** A position bought at 100 a coin, now quoted at 50. */
  const Losing: Position := Position("BTCUSD", 10.0, 1000.0)

  /** One more coin bought at 100. */
  const Lot: Position := Position("BTCUSD", 1.0, 100.0)

  /** Bitcoin at 50, with the broker reporting the same two lots to both position
      calls: the first sells at a loss of 502, then the broker rejects the sell
      order for the second, the position numbered 1. */
  const AbortTick: Tick :=
    Tick(Quote("BTC/USD", Some(50.0)), Env(100.0, None, Some([Losing, Lot]), true, Some([Losing, Lot]), Some(1)))

  /** Bitcoin still at 50, with the lot still open and its order accepted. */
  const LaterTick: Tick :=
    Tick(Quote("BTC/USD", Some(50.0)), Env(200.0, None, Some([Lot]), true, Some([Lot]), None))

  /** What start-up knows about bitcoin. */
  lemma StartUp()
    ensures var s := Init(Default);
      && "BTC/USD" in s.histories && s.histories["BTC/USD"] == []
      && "BTC/USD" in s.lastTrade
      && "BTCUSD" in s.assets && s.assets["BTCUSD"] == "BTC/USD"
      && s.phase == Running && s.dailyPnl == 0.0
  {
    assert Default.symbols[0] == "BTC/USD";
    ConfiguredRoundTrip();
    CompactBtc();
  }

  /** A priced tick whose gain is zero buys nothing, writes no buy-block line and
      hands the state, with the price recorded, straight to the sell loop. */
  lemma FlatTick(cfg: Config, s: State, sym: string, price: real, env: Env)
    requires s.phase == Running && sym in s.histories && sym in s.lastTrade
    requires PercentGain(Push(s.histories[sym], price)) == Some(0.0)
    requires cfg.gainThreshold > 0.0 && env.buyPositions.Some?
    ensures var s1 := s.(prices := s.prices[sym := price], histories := s.histories[sym := Push(s.histories[sym], price)]);
      Step(cfg, s, Tick(Quote(sym, Some(price)), env)) == Settle(cfg, s1, [], env)
  {
    var s1 := s.(prices := s.prices[sym := price], histories := s.histories[sym := Push(s.histories[sym], price)]);
    var atr := Volatility.Atr(env.bars, cfg.atrMin);
    PricedTickTrades(cfg, s, sym, price, env);
    BuyStepLines(cfg, s1, sym, price, 0.0, atr, env);
    var b := BuyStep(cfg, s1, sym, price, 0.0, atr, env);
    assert b.records == [] && !b.faulted && b.lastTrade == s1.lastTrade;
    assert s1.(lastTrade := b.lastTrade) == s1;
  }

  /** As written: the first tick sells at a loss of 502 and then raises on the
      rejected order, so the
      risk check never runs and the loop stays running far below the -200 limit;
      the next tick goes on to sell. */
  lemma AbortSkipsRiskCheck()
    ensures var o1 := Step(Default, Init(Default), AbortTick);
      && o1.exit == Faulted
      && o1.next.phase == Running
      && o1.next.dailyPnl == -502.0 && o1.next.dailyPnl < Default.dailyLossLimit
      && Wrote(Step(Default, o1.next, LaterTick).Records(), Sell)
  {
    StartUp();
    var s0 := Init(Default);
    AbortFrom(s0);
    LaterSells(AfterAbort(s0));
  }

  /** The state the first tick leaves: the price recorded and pushed, the loss
      booked, still running. */
  function AfterAbort(s0: State): State
  {
    s0.(prices := s0.prices["BTC/USD" := 50.0], histories := s0.histories["BTC/USD" := [50.0]], dailyPnl := -502.0)
  }

  /** The first tick from any running state that knows bitcoin, holds no history
      for it yet and has realised nothing. */
  lemma AbortFrom(s0: State)
    requires s0.phase == Running && s0.dailyPnl == 0.0
    requires "BTC/USD" in s0.histories && s0.histories["BTC/USD"] == [] && "BTC/USD" in s0.lastTrade
    requires "BTCUSD" in s0.assets && s0.assets["BTCUSD"] == "BTC/USD"
    ensures Step(Default, s0, AbortTick)
         == Outcome(AfterAbort(s0), [], [TradeRecord(100.0, Sell, "BTC/USD", 50.0, 10.0, -502.0, [])], Faulted)
  {
    var env := AbortTick.env;
    assert Push([], 50.0) == [50.0];
    FlatTick(Default, s0, "BTC/USD", 50.0, env);
    var s1 := s0.(prices := s0.prices["BTC/USD" := 50.0], histories := s0.histories["BTC/USD" := [50.0]]);
    var line := AbortSells(s1.assets, s1.prices);
    assert Settle(Default, s1, [], env) == Outcome(s1.(dailyPnl := -502.0), [], [line], Faulted);
  }

  /** The sell loop of the first tick: one sale realising -502, then the rejected
      order. */
  lemma AbortSells(assets: map<string, string>, prices: map<string, real>) returns (line: TradeRecord)
    requires "BTCUSD" in assets && assets["BTCUSD"] == "BTC/USD"
    requires "BTC/USD" in prices && prices["BTC/USD"] == 50.0
    ensures line == TradeRecord(100.0, Sell, "BTC/USD", 50.0, 10.0, -502.0, [])
    ensures SellLoop(Default, assets, prices, [Losing, Lot], 0, 0.0, 100.0, Some(1)) == SellPass(-502.0, [line], true)
  {
    line := TradeRecord(100.0, Sell, "BTC/USD", 50.0, 10.0, -502.0, []);
    assert ProfitPercent(Default, 50.0, 100.0) == -0.502;
    assert DecideSell(Default, assets, prices, Losing) == SellAt("BTC/USD", 50.0, 10.0, -502.0);
    assert DecideSell(Default, assets, prices, Lot).SellAt?;
    assert [Losing, Lot][1..] == [Lot];
    assert SellLoop(Default, assets, prices, [Lot], 1, -502.0, 100.0, Some(1)) == SellPass(-502.0, [], true);
  }

  /** The second tick from the state the first left. */
  lemma LaterSells(s: State)
    requires s.phase == Running && "BTC/USD" in s.histories && s.histories["BTC/USD"] == [50.0]
    requires "BTC/USD" in s.lastTrade && "BTCUSD" in s.assets && s.assets["BTCUSD"] == "BTC/USD"
    ensures Wrote(Step(Default, s, LaterTick).Records(), Sell)
  {
    var env := LaterTick.env;
    assert Push([50.0], 50.0) == [50.0, 50.0];
    assert PercentGain([50.0, 50.0]).value * 50.0 == 0.0;
    FlatTick(Default, s, "BTC/USD", 50.0, env);
    var s1 := s.(prices := s.prices["BTC/USD" := 50.0], histories := s.histories["BTC/USD" := [50.0, 50.0]]);
    LotSells(s1.assets, s1.prices, s1.dailyPnl);
    var o := Step(Default, s, LaterTick);
    assert o.saleLines != [];
    TickLines(Default, s, LaterTick, Sell);
  }

  /** The sell loop of the second tick: the lot sells. */
  lemma LotSells(assets: map<string, string>, prices: map<string, real>, pnl: real)
    requires "BTCUSD" in assets && assets["BTCUSD"] == "BTC/USD"
    requires "BTC/USD" in prices && prices["BTC/USD"] == 50.0
    ensures |SellLoop(Default, assets, prices, [Lot], 0, pnl, 200.0, None).records| == 1
  {
    assert ProfitPercent(Default, 50.0, 100.0) == -0.502;
    assert DecideSell(Default, assets, prices, Lot).SellAt?;
    assert [Lot][1..] == [];
  }

  /** Corrected: with the risk check on every exit, the same first tick halts the
      loop, and the second tick writes nothing. */
  lemma CheckedAbortHalts()
    ensures CheckedStep(Default, Init(Default), AbortTick).next.phase == Halted
    ensures Run(Default, Init(Default), [AbortTick, LaterTick]).ledger
         == Run(Default, Init(Default), [AbortTick]).ledger
  {
    StartUp();
    CheckedAbortFrom(Init(Default));
  }

  /** The checked loop from any state the first tick can start in. */
  lemma CheckedAbortFrom(s0: State)
    requires s0.phase == Running && s0.dailyPnl == 0.0
    requires "BTC/USD" in s0.histories && s0.histories["BTC/USD"] == [] && "BTC/USD" in s0.lastTrade
    requires "BTCUSD" in s0.assets && s0.assets["BTCUSD"] == "BTC/USD"
    ensures CheckedStep(Default, s0, AbortTick).next.phase == Halted
    ensures Run(Default, s0, [AbortTick, LaterTick]).ledger == Run(Default, s0, [AbortTick]).ledger
  {
    AbortFrom(s0);
    var o := CheckedStep(Default, s0, AbortTick);
    assert o.next.dailyPnl == -502.0 && o.exit == Faulted;
    RunOne(Default, s0, AbortTick);
    HaltIsFinal(Default, o.next, [LaterTick]);
    RunSplit(Default, s0, [AbortTick], [LaterTick]);
    assert [AbortTick] + [LaterTick] == [AbortTick, LaterTick];
    assert o.Records() + [] == o.Records();
  }
}
