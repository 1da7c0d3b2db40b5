/** The decision engine: one pure step per consumed price event, over a state the
    engine owns alone. Everything impure arrives in the tick's environment. */
module Engine {
  import opened Options
  import opened Symbols
  import opened PriceHistory
  import opened Volatility
  import opened Settings
  import opened Ledger
  import opened Rules

  /** Running until the loss limit is breached; Halted is the loop having exited. */
  datatype Phase = Running | Halted

  datatype State = State(
    histories: map<string, seq<real>>,  // recent prices per canonical symbol
    lastTrade: map<string, real>,       // time of the last buy per symbol
    prices: map<string, real>,          // latest price; a missing key is an unknown price
    dailyPnl: real,                     // realised profit accumulated over the process
    assets: map<string, string>,        // compact to canonical symbol, built once at start-up
    phase: Phase)

  /** A consumed channel item: nothing within the polling interval, or a quote whose
      price may be missing. */
  datatype Event = Timeout | Quote(symbol: string, price: Option<real>)

  /** What the outside world answers during one tick. A missing position list is a
      broker call that raised; sellRejectedAt names the position whose sell order
      raises, if any. */
  datatype Env = Env(
    now: real,
    bars: Option<seq<Bar>>,
    buyPositions: Option<seq<Position>>,
    buyOrderAccepted: bool,
    sellPositions: Option<seq<Position>>,
    sellRejectedAt: Option<nat>)

  datatype Tick = Tick(event: Event, env: Env)

  /** How a tick ended: without doing anything, cut short by an exception, or
      through the risk check. */
  datatype Exit = Idle | Faulted | Completed

  /** The result of a tick: the next state, the line the buy block wrote (a buy or
      a no-buy, if any), the sale lines that followed, and how the tick ended. */
  datatype Outcome = Outcome(next: State, buyLines: seq<TradeRecord>, saleLines: seq<TradeRecord>, exit: Exit)
  {
    /** Every line the tick appends to the ledger, in order. */
    function Records(): seq<TradeRecord>
    {
      buyLines + saleLines
    }
  }

  function SymbolSet(cfg: Config): set<string>
  {
    set sym | sym in cfg.symbols
  }

  /** What holds of every state the engine reaches from its initial state. */
  predicate Inv(cfg: Config, s: State)
  {
    && s.histories.Keys == SymbolSet(cfg)
    && s.lastTrade.Keys == SymbolSet(cfg)
    && (forall sym :: sym in s.histories ==> |s.histories[sym]| <= Capacity)
    && (s.phase == Halted ==> s.dailyPnl < cfg.dailyLossLimit)
    && s.assets == AssetMap(cfg.symbols)
  }

  /** Empty histories, no trade yet (time zero), no known price, nothing realised. */
  function Init(cfg: Config): (s: State)
    ensures Inv(cfg, s)
    ensures s.phase == Running && s.dailyPnl == 0.0
    ensures forall sym :: sym in cfg.symbols ==> s.histories[sym] == [] && s.lastTrade[sym] == 0.0 && sym !in s.prices
  {
    State(map sym | sym in cfg.symbols :: [], map sym | sym in cfg.symbols :: 0.0, map[], 0.0, AssetMap(cfg.symbols), Running)
  }

  /** Some line of rs records the action a. */
  predicate Wrote(rs: seq<TradeRecord>, a: Action)
  {
    exists i :: 0 <= i < |rs| && rs[i].action == a
  }

  // ---------------------------------------------------------------- buying

  datatype BuyPass = BuyPass(lastTrade: map<string, real>, records: seq<TradeRecord>, faulted: bool)

  /** The buy block of a priced tick. A failed broker call (positions or the order)
      raises, leaving the cooldown clock as it was. */
  function BuyStep(cfg: Config, s: State, sym: string, price: real, gain: real, atr: real, env: Env): (b: BuyPass)
    ensures |b.records| <= 1
    ensures b.faulted ==> b.records == [] && b.lastTrade == s.lastTrade
    ensures b.lastTrade != s.lastTrade ==> b.lastTrade == s.lastTrade[sym := env.now] && |b.records| == 1 && b.records[0].action == Buy
    ensures Wrote(b.records, Buy) ==> b.lastTrade == s.lastTrade[sym := env.now]
    ensures forall r :: r in b.records ==> r.symbol == sym && r.price == price && r.dailyPnl == s.dailyPnl && r.action != Sell
  {
    if price <= 0.0 then BuyPass(s.lastTrade, [], false)
    else if sym !in s.lastTrade || env.buyPositions.None? then BuyPass(s.lastTrade, [], true)
    else
      var cooldown := env.now - s.lastTrade[sym];
      var investment := Investment(env.buyPositions.value, Normalize(sym));
      match DecideBuy(cfg, price, gain, cooldown, atr, investment)
      case BuyQty(qty) =>
        if !env.buyOrderAccepted then BuyPass(s.lastTrade, [], true)
        else
          var r := TradeRecord(env.now, Buy, sym, price, qty, s.dailyPnl, []);
          BuyPass(s.lastTrade[sym := env.now], [r], false)
      case Reject(reasons) =>
        BuyPass(s.lastTrade, [TradeRecord(env.now, NoBuy, sym, price, 0.0, s.dailyPnl, reasons)], false)
      case Pass => BuyPass(s.lastTrade, [], false)
  }

  // ---------------------------------------------------------------- selling

  /** The sales the sell loop would make if no order failed, in position order. */
  function Sales(cfg: Config, assets: map<string, string>, prices: map<string, real>, ps: seq<Position>): (r: seq<SellDecision>)
    ensures forall i :: 0 <= i < |r| ==> r[i].SellAt?
    ensures |r| <= |ps|
  {
    if |ps| == 0 then []
    else
      var d := DecideSell(cfg, assets, prices, ps[0]);
      (if d.SellAt? then [d] else []) + Sales(cfg, assets, prices, ps[1..])
  }

  /** The total realised by a run of sales. */
  function Realized(ds: seq<SellDecision>): real
    requires forall i :: 0 <= i < |ds| ==> ds[i].SellAt?
  {
    if |ds| == 0 then 0.0 else ds[0].realized + Realized(ds[1..])
  }

  /** The ledger line written for a sale. */
  predicate SaleRecord(r: TradeRecord, d: SellDecision, now: real)
    requires d.SellAt?
  {
    r == TradeRecord(now, Sell, d.symbol, d.price, d.qty, r.dailyPnl, [])
  }

  datatype SellPass = SellPass(pnl: real, records: seq<TradeRecord>, faulted: bool)

  /** The sell loop over the broker's positions, from position number index on.
      Each sale adds its realised profit to the accumulator and writes a line
      carrying the new total; a fault or a failed order stops the loop. */
  function SellLoop(cfg: Config, assets: map<string, string>, prices: map<string, real>, ps: seq<Position>,
                    index: nat, pnl: real, now: real, rejectAt: Option<nat>): (s: SellPass)
    decreases |ps|
    ensures forall r :: r in s.records ==> r.action == Sell && r.timestamp == now && r.reasons == []
    ensures |s.records| == 0 ==> s.pnl == pnl
    ensures |s.records| > 0 ==> s.pnl == s.records[|s.records| - 1].dailyPnl
  {
    if |ps| == 0 then SellPass(pnl, [], false)
    else
      match DecideSell(cfg, assets, prices, ps[0])
      case Fault => SellPass(pnl, [], true)
      case SellAt(sym, price, qty, realized) =>
        if rejectAt == Some(index) then SellPass(pnl, [], true)
        else
          var total := pnl + realized;
          var rest := SellLoop(cfg, assets, prices, ps[1..], index + 1, total, now, rejectAt);
          SellPass(rest.pnl, [TradeRecord(now, Sell, sym, price, qty, total, [])] + rest.records, rest.faulted)
      case _ => SellLoop(cfg, assets, prices, ps[1..], index + 1, pnl, now, rejectAt)
  }

  /** Ledger lines that are the given sales, in order, each carrying the
      accumulator after its own sale. */
  predicate LedgerOfSales(recs: seq<TradeRecord>, sales: seq<SellDecision>, pnl: real, now: real)
    requires forall i :: 0 <= i < |sales| ==> sales[i].SellAt?
  {
    && |recs| <= |sales|
    && forall j :: 0 <= j < |recs| ==>
         && SaleRecord(recs[j], sales[j], now)
         && recs[j].dailyPnl == pnl + Realized(sales[..j + 1])
  }

  /** The position at loop position number at stops the sell loop: dividing by its
      zero quantity or entry price raises, or it sells and its order is rejected. */
  predicate Stops(cfg: Config, assets: map<string, string>, prices: map<string, real>, p: Position,
                  at: nat, rejectAt: Option<nat>)
  {
    var d := DecideSell(cfg, assets, prices, p);
    d.Fault? || (d.SellAt? && rejectAt == Some(at))
  }

  /** Some position from number index on stops the sell loop. */
  predicate SellStops(cfg: Config, assets: map<string, string>, prices: map<string, real>, ps: seq<Position>,
                      index: nat, rejectAt: Option<nat>)
  {
    exists i :: 0 <= i < |ps| && Stops(cfg, assets, prices, ps[i], index + i, rejectAt)
  }

  /** Whether the loop stops is decided by the first position or by the rest. */
  lemma SellStopsFirst(cfg: Config, assets: map<string, string>, prices: map<string, real>, ps: seq<Position>,
                       index: nat, rejectAt: Option<nat>)
    requires |ps| > 0
    ensures SellStops(cfg, assets, prices, ps, index, rejectAt) <==>
      Stops(cfg, assets, prices, ps[0], index, rejectAt) || SellStops(cfg, assets, prices, ps[1..], index + 1, rejectAt)
  {
    if Stops(cfg, assets, prices, ps[0], index, rejectAt) {
      assert Stops(cfg, assets, prices, ps[0], index + 0, rejectAt);
    }
    if SellStops(cfg, assets, prices, ps[1..], index + 1, rejectAt) {
      var i :| 0 <= i < |ps| - 1 && Stops(cfg, assets, prices, ps[1..][i], index + 1 + i, rejectAt);
      assert ps[1..][i] == ps[i + 1];
      assert Stops(cfg, assets, prices, ps[i + 1], index + (i + 1), rejectAt);
    }
    if SellStops(cfg, assets, prices, ps, index, rejectAt) && !Stops(cfg, assets, prices, ps[0], index, rejectAt) {
      var i :| 0 <= i < |ps| && Stops(cfg, assets, prices, ps[i], index + i, rejectAt);
      assert i != 0;
      assert ps[1..][i - 1] == ps[i];
      assert Stops(cfg, assets, prices, ps[1..][i - 1], index + 1 + (i - 1), rejectAt);
    }
  }

  /** The sell loop's lines are the would-be sales in position order, cut short
      only by a fault or a failed order, and the accumulator ends at the starting
      value plus everything realised by the lines written. */
  predicate SellLoopFaithful(cfg: Config, assets: map<string, string>, prices: map<string, real>, ps: seq<Position>,
                             index: nat, pnl: real, now: real, rejectAt: Option<nat>)
  {
    var s := SellLoop(cfg, assets, prices, ps, index, pnl, now, rejectAt);
    var sales := Sales(cfg, assets, prices, ps);
    && LedgerOfSales(s.records, sales, pnl, now)
    && (!s.faulted ==> |s.records| == |sales|)
    && s.pnl == pnl + Realized(sales[..|s.records|])
  }

  lemma {:induction false} SellLoopLedger(cfg: Config, assets: map<string, string>, prices: map<string, real>, ps: seq<Position>,
                                          index: nat, pnl: real, now: real, rejectAt: Option<nat>)
    decreases |ps|
    ensures SellLoopFaithful(cfg, assets, prices, ps, index, pnl, now, rejectAt)
  {
    if |ps| == 0 {
      assert SellLoop(cfg, assets, prices, ps, index, pnl, now, rejectAt) == SellPass(pnl, [], false);
    } else {
      var d := DecideSell(cfg, assets, prices, ps[0]);
      if d.SellAt? && rejectAt != Some(index) {
        SellLoopLedger(cfg, assets, prices, ps[1..], index + 1, pnl + d.realized, now, rejectAt);
        SaleCase(cfg, assets, prices, ps, index, pnl, now, rejectAt);
      } else if d.SellAt? || d.Fault? {
        assert SellLoop(cfg, assets, prices, ps, index, pnl, now, rejectAt) == SellPass(pnl, [], true);
      } else {
        SellLoopLedger(cfg, assets, prices, ps[1..], index + 1, pnl, now, rejectAt);
        SkipCase(cfg, assets, prices, ps, index, pnl, now, rejectAt);
      }
    }
  }

  lemma SaleCase(cfg: Config, assets: map<string, string>, prices: map<string, real>, ps: seq<Position>,
                 index: nat, pnl: real, now: real, rejectAt: Option<nat>)
    requires |ps| > 0
    requires DecideSell(cfg, assets, prices, ps[0]).SellAt? && rejectAt != Some(index)
    requires SellLoopFaithful(cfg, assets, prices, ps[1..], index + 1, pnl + DecideSell(cfg, assets, prices, ps[0]).realized, now, rejectAt)
    ensures SellLoopFaithful(cfg, assets, prices, ps, index, pnl, now, rejectAt)
  {
    var d := DecideSell(cfg, assets, prices, ps[0]);
    var later := Sales(cfg, assets, prices, ps[1..]);
    var rest := SellLoop(cfg, assets, prices, ps[1..], index + 1, pnl + d.realized, now, rejectAt);
    SaleUnfolds(cfg, assets, prices, ps, index, pnl, now, rejectAt);
    SaleStep(d, later, rest, pnl, now);
  }

  /** The first position sells: the loop writes its line in front of the rest. */
  lemma SaleUnfolds(cfg: Config, assets: map<string, string>, prices: map<string, real>, ps: seq<Position>,
                    index: nat, pnl: real, now: real, rejectAt: Option<nat>)
    requires |ps| > 0
    requires DecideSell(cfg, assets, prices, ps[0]).SellAt? && rejectAt != Some(index)
    ensures var d := DecideSell(cfg, assets, prices, ps[0]);
      var rest := SellLoop(cfg, assets, prices, ps[1..], index + 1, pnl + d.realized, now, rejectAt);
      && Sales(cfg, assets, prices, ps) == [d] + Sales(cfg, assets, prices, ps[1..])
      && SellLoop(cfg, assets, prices, ps, index, pnl, now, rejectAt)
         == SellPass(rest.pnl, [TradeRecord(now, Sell, d.symbol, d.price, d.qty, pnl + d.realized, [])] + rest.records, rest.faulted)
  {
  }

  lemma SkipCase(cfg: Config, assets: map<string, string>, prices: map<string, real>, ps: seq<Position>,
                 index: nat, pnl: real, now: real, rejectAt: Option<nat>)
    requires |ps| > 0
    requires var d := DecideSell(cfg, assets, prices, ps[0]); !d.SellAt? && !d.Fault?
    requires SellLoopFaithful(cfg, assets, prices, ps[1..], index + 1, pnl, now, rejectAt)
    ensures SellLoopFaithful(cfg, assets, prices, ps, index, pnl, now, rejectAt)
  {
    assert Sales(cfg, assets, prices, ps) == Sales(cfg, assets, prices, ps[1..]);
    assert SellLoop(cfg, assets, prices, ps, index, pnl, now, rejectAt) == SellLoop(cfg, assets, prices, ps[1..], index + 1, pnl, now, rejectAt);
  }

  /** The sell loop is cut short exactly when some position stops it: one that
      divides by a zero quantity or entry price, or one that sells and whose order
      is rejected. Otherwise it runs over every position. */
  lemma {:induction false} SellLoopStops(cfg: Config, assets: map<string, string>, prices: map<string, real>, ps: seq<Position>,
                                         index: nat, pnl: real, now: real, rejectAt: Option<nat>)
    decreases |ps|
    ensures SellLoop(cfg, assets, prices, ps, index, pnl, now, rejectAt).faulted <==> SellStops(cfg, assets, prices, ps, index, rejectAt)
  {
    if |ps| == 0 {
      assert SellLoop(cfg, assets, prices, ps, index, pnl, now, rejectAt) == SellPass(pnl, [], false);
    } else {
      SellStopsFirst(cfg, assets, prices, ps, index, rejectAt);
      var next := SellLoopHead(cfg, assets, prices, ps, index, pnl, now, rejectAt);
      SellLoopStops(cfg, assets, prices, ps[1..], index + 1, next, now, rejectAt);
    }
  }

  /** The first position of the sell loop: a stopping one ends the loop faulted;
      any other hands over to the rest, with the accumulator after its sale. */
  lemma SellLoopHead(cfg: Config, assets: map<string, string>, prices: map<string, real>, ps: seq<Position>,
                     index: nat, pnl: real, now: real, rejectAt: Option<nat>) returns (next: real)
    requires |ps| > 0
    ensures var here := SellLoop(cfg, assets, prices, ps, index, pnl, now, rejectAt);
      && (Stops(cfg, assets, prices, ps[0], index, rejectAt) ==> here.faulted)
      && (!Stops(cfg, assets, prices, ps[0], index, rejectAt) ==>
            here.faulted == SellLoop(cfg, assets, prices, ps[1..], index + 1, next, now, rejectAt).faulted)
  {
    var d := DecideSell(cfg, assets, prices, ps[0]);
    next := if d.SellAt? then pnl + d.realized else pnl;
  }

  /** The number of the first position that stops the sell loop, counted from the
      start of the list; the list's length when none does. */
  function FirstStop(cfg: Config, assets: map<string, string>, prices: map<string, real>, ps: seq<Position>,
                     index: nat, rejectAt: Option<nat>): (k: nat)
    decreases |ps|
    ensures k <= |ps|
  {
    if |ps| == 0 then 0
    else if Stops(cfg, assets, prices, ps[0], index, rejectAt) then 0
    else 1 + FirstStop(cfg, assets, prices, ps[1..], index + 1, rejectAt)
  }

  /** FirstStop finds the first stopping position: none before it stops the loop,
      and it does unless it is past the end of the list. */
  lemma {:induction false} FirstStopIsFirst(cfg: Config, assets: map<string, string>, prices: map<string, real>, ps: seq<Position>,
                                            index: nat, rejectAt: Option<nat>)
    decreases |ps|
    ensures var k := FirstStop(cfg, assets, prices, ps, index, rejectAt);
      && (k < |ps| ==> Stops(cfg, assets, prices, ps[k], index + k, rejectAt))
      && (forall i :: 0 <= i < k ==> !Stops(cfg, assets, prices, ps[i], index + i, rejectAt))
  {
    if |ps| > 0 && !Stops(cfg, assets, prices, ps[0], index, rejectAt) {
      FirstStopIsFirst(cfg, assets, prices, ps[1..], index + 1, rejectAt);
      var k := FirstStop(cfg, assets, prices, ps[1..], index + 1, rejectAt);
      forall i | 0 < i < 1 + k
        ensures !Stops(cfg, assets, prices, ps[i], index + i, rejectAt)
      {
        assert ps[i] == ps[1..][i - 1];
      }
      if 1 + k < |ps| {
        assert ps[1 + k] == ps[1..][k];
      }
    }
  }

  /** The sell loop writes exactly the sales of the positions before the first
      one that stops it: an exception leaves the loop at once, so nothing after
      that position is sold. */
  lemma {:induction false} SellLoopStopsAt(cfg: Config, assets: map<string, string>, prices: map<string, real>, ps: seq<Position>,
                                           index: nat, pnl: real, now: real, rejectAt: Option<nat>)
    decreases |ps|
    ensures |SellLoop(cfg, assets, prices, ps, index, pnl, now, rejectAt).records|
         == |Sales(cfg, assets, prices, ps[..FirstStop(cfg, assets, prices, ps, index, rejectAt)])|
  {
    if |ps| == 0 {
      assert SellLoop(cfg, assets, prices, ps, index, pnl, now, rejectAt) == SellPass(pnl, [], false);
      assert ps[..0] == [];
    } else if Stops(cfg, assets, prices, ps[0], index, rejectAt) {
      StopHead(cfg, assets, prices, ps, index, pnl, now, rejectAt);
    } else {
      var next := PassHead(cfg, assets, prices, ps, index, pnl, now, rejectAt);
      SellLoopStopsAt(cfg, assets, prices, ps[1..], index + 1, next, now, rejectAt);
      SalesOfHead(cfg, assets, prices, ps, FirstStop(cfg, assets, prices, ps[1..], index + 1, rejectAt));
    }
  }

  /** A first position that stops the loop: nothing is written. */
  lemma StopHead(cfg: Config, assets: map<string, string>, prices: map<string, real>, ps: seq<Position>,
                 index: nat, pnl: real, now: real, rejectAt: Option<nat>)
    requires |ps| > 0 && Stops(cfg, assets, prices, ps[0], index, rejectAt)
    ensures SellLoop(cfg, assets, prices, ps, index, pnl, now, rejectAt).records == []
    ensures ps[..FirstStop(cfg, assets, prices, ps, index, rejectAt)] == []
  {
  }

  /** A first position that does not stop the loop: its sale line, if any, goes in
      front of what the rest of the loop writes, and the first stop is one further on. */
  lemma PassHead(cfg: Config, assets: map<string, string>, prices: map<string, real>, ps: seq<Position>,
                 index: nat, pnl: real, now: real, rejectAt: Option<nat>) returns (next: real)
    requires |ps| > 0 && !Stops(cfg, assets, prices, ps[0], index, rejectAt)
    ensures |SellLoop(cfg, assets, prices, ps, index, pnl, now, rejectAt).records|
         == (if DecideSell(cfg, assets, prices, ps[0]).SellAt? then 1 else 0)
            + |SellLoop(cfg, assets, prices, ps[1..], index + 1, next, now, rejectAt).records|
    ensures FirstStop(cfg, assets, prices, ps, index, rejectAt) == 1 + FirstStop(cfg, assets, prices, ps[1..], index + 1, rejectAt)
  {
    var d := DecideSell(cfg, assets, prices, ps[0]);
    if d.SellAt? {
      next := pnl + d.realized;
      SaleUnfolds(cfg, assets, prices, ps, index, pnl, now, rejectAt);
    } else {
      next := pnl;
      assert SellLoop(cfg, assets, prices, ps, index, pnl, now, rejectAt)
          == SellLoop(cfg, assets, prices, ps[1..], index + 1, pnl, now, rejectAt);
    }
  }

  /** The sales of the first 1 + k positions: the first one's sale, if any, then
      the sales of the next k. */
  lemma SalesOfHead(cfg: Config, assets: map<string, string>, prices: map<string, real>, ps: seq<Position>, k: nat)
    requires k < |ps|
    ensures |Sales(cfg, assets, prices, ps[..1 + k])|
         == (if DecideSell(cfg, assets, prices, ps[0]).SellAt? then 1 else 0) + |Sales(cfg, assets, prices, ps[1..][..k])|
  {
    var head := ps[..1 + k];
    assert head[0] == ps[0] && head[1..] == ps[1..][..k];
  }

  /** One sale in front of a correct ledger of later sales gives a correct ledger. */
  lemma SaleStep(d: SellDecision, later: seq<SellDecision>, rest: SellPass, pnl: real, now: real)
    requires d.SellAt? && forall i :: 0 <= i < |later| ==> later[i].SellAt?
    requires LedgerOfSales(rest.records, later, pnl + d.realized, now)
    requires rest.pnl == pnl + d.realized + Realized(later[..|rest.records|])
    ensures var recs := [TradeRecord(now, Sell, d.symbol, d.price, d.qty, pnl + d.realized, [])] + rest.records;
      && LedgerOfSales(recs, [d] + later, pnl, now)
      && rest.pnl == pnl + Realized(([d] + later)[..|recs|])
  {
    var recs := [TradeRecord(now, Sell, d.symbol, d.price, d.qty, pnl + d.realized, [])] + rest.records;
    var sales := [d] + later;
    forall j | 0 <= j < |recs|
      ensures SaleRecord(recs[j], sales[j], now) && recs[j].dailyPnl == pnl + Realized(sales[..j + 1])
    {
      PrefixRealized(d, later, j);
      if j > 0 {
        assert recs[j] == rest.records[j - 1];
      }
    }
    PrefixRealized(d, later, |rest.records|);
  }

  lemma PrefixRealized(d: SellDecision, later: seq<SellDecision>, n: nat)
    requires d.SellAt? && forall i :: 0 <= i < |later| ==> later[i].SellAt?
    requires n <= |later|
    ensures Realized(([d] + later)[..n + 1]) == d.realized + Realized(later[..n])
  {
    assert ([d] + later)[..n + 1][1..] == later[..n];
  }

  // ---------------------------------------------------------------- one tick

  /** The sell loop and the risk check that close a tick, starting from the state
      the buy block left and the line it wrote. */
  function Settle(cfg: Config, s: State, buyLines: seq<TradeRecord>, env: Env): (o: Outcome)
    requires s.phase == Running
    ensures o.exit != Idle && o.buyLines == buyLines
    ensures o.next.(dailyPnl := s.dailyPnl, phase := s.phase) == s
    ensures o.exit == Faulted ==> o.next.phase == Running
    ensures o.exit == Completed ==> (o.next.phase == Halted <==> o.next.dailyPnl < cfg.dailyLossLimit)
    ensures forall r :: r in o.saleLines ==> r.action == Sell && r.timestamp == env.now
    ensures |o.saleLines| == 0 ==> o.next.dailyPnl == s.dailyPnl
    ensures |o.saleLines| > 0 ==> o.next.dailyPnl == o.saleLines[|o.saleLines| - 1].dailyPnl
    ensures env.sellPositions.None? ==> o.exit == Faulted && o.saleLines == [] && o.next == s
  {
    if env.sellPositions.None? then Outcome(s, buyLines, [], Faulted)
    else
      var sp := SellLoop(cfg, s.assets, s.prices, env.sellPositions.value, 0, s.dailyPnl, env.now, env.sellRejectedAt);
      var settled := s.(dailyPnl := sp.pnl);
      if sp.faulted then Outcome(settled, buyLines, sp.records, Faulted)
      else if sp.pnl < cfg.dailyLossLimit then Outcome(settled.(phase := Halted), buyLines, sp.records, Completed)
      else Outcome(settled, buyLines, sp.records, Completed)
  }

  /** The rest of a priced tick once the gain is known: the buy block, then (unless
      it raised) the sell loop and the risk check. */
  function Trade(cfg: Config, s: State, sym: string, price: real, gain: real, env: Env): (o: Outcome)
    requires s.phase == Running
    ensures o.exit != Idle
    ensures o.exit == Faulted ==> o.next.phase == Running
    ensures o.exit == Completed ==> (o.next.phase == Halted <==> o.next.dailyPnl < cfg.dailyLossLimit)
    ensures var b := BuyStep(cfg, s, sym, price, gain, Atr(env.bars, cfg.atrMin), env);
      && o.buyLines == b.records && o.next.lastTrade == b.lastTrade
      && (b.faulted ==> o.saleLines == [] && o.exit == Faulted)
    ensures o.next.histories == s.histories && o.next.prices == s.prices && o.next.assets == s.assets
    ensures forall r :: r in o.saleLines ==> r.action == Sell
    ensures |o.saleLines| == 0 ==> o.next.dailyPnl == s.dailyPnl
    ensures |o.saleLines| > 0 ==> o.next.dailyPnl == o.saleLines[|o.saleLines| - 1].dailyPnl
  {
    var b := BuyStep(cfg, s, sym, price, gain, Atr(env.bars, cfg.atrMin), env);
    var s2 := s.(lastTrade := b.lastTrade);
    if b.faulted then Outcome(s2, b.records, [], Faulted)
    else Settle(cfg, s2, b.records, env)
  }

  /** What every tick writes: at most one buy-block line, never a sell; only sell
      lines from the sell loop; and the accumulator moves only through sales,
      ending where the last sale line puts it. */
  predicate Accounted(s: State, o: Outcome)
  {
    && |o.buyLines| <= 1 && (forall r :: r in o.buyLines ==> r.action != Sell)
    && (forall r :: r in o.saleLines ==> r.action == Sell)
    && (|o.saleLines| == 0 ==> o.next.dailyPnl == s.dailyPnl)
    && (|o.saleLines| > 0 ==> o.next.dailyPnl == o.saleLines[|o.saleLines| - 1].dailyPnl)
  }

  /** A tick with a price: record it, compute momentum and volatility, then run
      the buy block, the sell loop and the risk check. An unknown symbol or a zero
      previous price raises before any trading. */
  function PricedTick(cfg: Config, s: State, sym: string, price: real, env: Env): (o: Outcome)
    requires s.phase == Running
    ensures o.exit != Idle
    ensures o.exit != Completed ==> o.next.phase == s.phase
    ensures o.exit == Completed ==> (o.next.phase == Halted <==> o.next.dailyPnl < cfg.dailyLossLimit)
    ensures Accounted(s, o)
  {
    var prices := s.prices[sym := price];
    if sym !in s.histories then Outcome(s.(prices := prices), [], [], Faulted)
    else
      var h := Push(s.histories[sym], price);
      var s1 := s.(prices := prices, histories := s.histories[sym := h]);
      var gain := PercentGain(h);
      if gain.None? then Outcome(s1, [], [], Faulted)
      else Trade(cfg, s1, sym, price, gain.value, env)
  }

  /** One pass of the engine loop. A halted engine, a timeout and a missing price
      change nothing; a completed tick halts exactly when the accumulator ends
      below the loss limit; only a completed tick can halt; the accumulator moves
      only through sales and ends where the last sale line puts it. */
  function Step(cfg: Config, s: State, t: Tick): (o: Outcome)
    ensures s.phase == Halted ==> o == Outcome(s, [], [], Idle)
    ensures t.event.Timeout? || t.event.price.None? ==> o == Outcome(s, [], [], Idle)
    ensures o.exit != Completed ==> o.next.phase == s.phase
    ensures s.phase == Running && o.exit == Completed ==>
      (o.next.phase == Halted <==> o.next.dailyPnl < cfg.dailyLossLimit)
    ensures Accounted(s, o)
  {
    if s.phase == Running && t.event.Quote? && t.event.price.Some? then
      PricedTick(cfg, s, t.event.symbol, t.event.price.value, t.env)
    else Outcome(s, [], [], Idle)
  }

  // ---------------------------------------------------------------- the risk check on every exit

  /** The loop body with the risk check run however the tick ended, as if it sat in
      a finally clause: a tick cut short by an exception after some sales still
      halts the loop when the accumulator is below the limit. Everything but the
      phase is as Step leaves it. */
  function CheckedStep(cfg: Config, s: State, t: Tick): (o: Outcome)
    ensures var raw := Step(cfg, s, t);
      && o.buyLines == raw.buyLines && o.saleLines == raw.saleLines && o.exit == raw.exit
      && o.next.dailyPnl == raw.next.dailyPnl
      && o.next == raw.next.(phase := o.next.phase)
    ensures o.exit == Idle ==> o == Outcome(s, [], [], Idle)
    ensures s.phase == Halted ==> o.exit == Idle
    ensures s.phase == Running && o.exit != Idle ==>
      (o.next.phase == Halted <==> o.next.dailyPnl < cfg.dailyLossLimit)
  {
    StepIdle(cfg, s, t);
    var raw := Step(cfg, s, t);
    if raw.exit == Faulted && raw.next.dailyPnl < cfg.dailyLossLimit then raw.(next := raw.next.(phase := Halted))
    else raw
  }

  /** A tick that ends idle did nothing at all. */
  lemma StepIdle(cfg: Config, s: State, t: Tick)
    ensures Step(cfg, s, t).exit == Idle ==> Step(cfg, s, t) == Outcome(s, [], [], Idle)
  {
    if s.phase == Running && t.event.Quote? && t.event.price.Some? {
      assert Step(cfg, s, t) == PricedTick(cfg, s, t.event.symbol, t.event.price.value, t.env);
    }
  }

  /** The invariant of the checked loop: besides Inv, a running loop is never below
      the limit, so the loop is halted exactly when the accumulator is below it. */
  predicate Guarded(cfg: Config, s: State)
  {
    Inv(cfg, s) && (s.phase == Running ==> s.dailyPnl >= cfg.dailyLossLimit)
  }

  /** The checked loop starts guarded whenever the limit is a loss, as shipped. */
  lemma InitGuarded(cfg: Config)
    requires cfg.dailyLossLimit <= 0.0
    ensures Guarded(cfg, Init(cfg))
  {
  }

  /** Every checked tick keeps the invariant and the guard. */
  lemma CheckedStepPreservesGuard(cfg: Config, s: State, t: Tick)
    requires Inv(cfg, s)
    ensures Inv(cfg, CheckedStep(cfg, s, t).next)
    ensures Guarded(cfg, s) ==> Guarded(cfg, CheckedStep(cfg, s, t).next)
  {
    StepPreservesInv(cfg, s, t);
    var o := CheckedStep(cfg, s, t);
    var raw := Step(cfg, s, t);
    assert o.next.histories == raw.next.histories && o.next.lastTrade == raw.next.lastTrade;
    assert o.next.assets == raw.next.assets;
  }

  // ---------------------------------------------------------------- properties of one tick

  lemma WroteConcat(a: seq<TradeRecord>, b: seq<TradeRecord>, x: Action)
    ensures Wrote(a + b, x) <==> Wrote(a, x) || Wrote(b, x)
  {
    if Wrote(a + b, x) {
      var i :| 0 <= i < |a + b| && (a + b)[i].action == x;
      if i >= |a| {
        assert b[i - |a|] == (a + b)[i];
      }
    }
    if Wrote(a, x) {
      var i :| 0 <= i < |a| && a[i].action == x;
      assert (a + b)[i] == a[i];
    }
    if Wrote(b, x) {
      var i :| 0 <= i < |b| && b[i].action == x;
      assert (a + b)[|a| + i] == b[i];
    }
  }

  /** Reading a tick's ledger lines: a tick wrote a sale exactly when it has sale
      lines, and any other action only on its buy-block line. */
  lemma TickLines(cfg: Config, s: State, t: Tick, a: Action)
    ensures var o := Step(cfg, s, t);
      && (Wrote(o.Records(), Sell) <==> |o.saleLines| > 0)
      && (a != Sell ==> (Wrote(o.Records(), a) <==> Wrote(o.buyLines, a)))
  {
    var o := Step(cfg, s, t);
    WroteConcat(o.buyLines, o.saleLines, a);
    WroteConcat(o.buyLines, o.saleLines, Sell);
    if |o.saleLines| > 0 {
      assert o.saleLines[0] in o.saleLines;
    }
    if Wrote(o.saleLines, a) {
      var i :| 0 <= i < |o.saleLines| && o.saleLines[i].action == a;
      assert o.saleLines[i] in o.saleLines;
    }
  }

  /** The accumulator changes only in ticks that write a sale, and then it equals
      the figure on the last line written. */
  lemma StepPnlOnlyOnSells(cfg: Config, s: State, t: Tick)
    ensures var o := Step(cfg, s, t);
      && (!Wrote(o.Records(), Sell) ==> o.next.dailyPnl == s.dailyPnl)
      && (Wrote(o.Records(), Sell) ==> o.next.dailyPnl == o.Records()[|o.Records()| - 1].dailyPnl)
  {
    var o := Step(cfg, s, t);
    TickLines(cfg, s, t, Sell);
    if |o.saleLines| > 0 {
      assert o.Records()[|o.Records()| - 1] == o.saleLines[|o.saleLines| - 1];
    }
  }

  /** The priced part of a tick, unfolded down to the buy block. */
  lemma PricedTickTrades(cfg: Config, s: State, sym: string, price: real, env: Env)
    requires s.phase == Running && sym in s.histories
    requires PercentGain(Push(s.histories[sym], price)).Some?
    ensures var s1 := s.(prices := s.prices[sym := price], histories := s.histories[sym := Push(s.histories[sym], price)]);
      Step(cfg, s, Tick(Quote(sym, Some(price)), env)) == Trade(cfg, s1, sym, price, PercentGain(Push(s.histories[sym], price)).value, env)
  {
    assert Step(cfg, s, Tick(Quote(sym, Some(price)), env)) == PricedTick(cfg, s, sym, price, env);
  }

  /** Only a buy moves a symbol's cooldown clock, and a buy always moves it to the
      tick's time; sales and rejections never touch it. */
  lemma StepLastTradeOnlyOnBuy(cfg: Config, s: State, t: Tick)
    ensures var o := Step(cfg, s, t);
      && (o.next.lastTrade != s.lastTrade ==>
            t.event.Quote? && o.buyLines == [o.buyLines[0]] && o.buyLines[0].action == Buy
            && o.next.lastTrade == s.lastTrade[t.event.symbol := t.env.now])
      && (Wrote(o.buyLines, Buy) ==> t.event.Quote? && o.next.lastTrade == s.lastTrade[t.event.symbol := t.env.now])
  {
    if s.phase == Running && t.event.Quote? && t.event.price.Some? {
      var sym, price, env := t.event.symbol, t.event.price.value, t.env;
      if sym in s.histories && PercentGain(Push(s.histories[sym], price)).Some? {
        PricedTickTrades(cfg, s, sym, price, env);
      } else {
        assert Step(cfg, s, t) == PricedTick(cfg, s, sym, price, env);
      }
    }
  }

  /** A quote updates that symbol's last price and pushes it onto that symbol's
      history; no other symbol's history changes, and the cooldown clocks keep their
      symbols. */
  lemma QuoteUpdatesHistory(cfg: Config, s: State, sym: string, price: real, env: Env)
    requires s.phase == Running
    ensures var o := Step(cfg, s, Tick(Quote(sym, Some(price)), env));
      && o.next.prices == s.prices[sym := price]
      && (sym in s.histories ==> o.next.histories == s.histories[sym := Push(s.histories[sym], price)])
      && (sym !in s.histories ==> o.next.histories == s.histories && o.Records() == [] && o.exit == Faulted)
      && o.next.lastTrade.Keys == s.lastTrade.Keys
      && o.next.assets == s.assets
  {
    var o := Step(cfg, s, Tick(Quote(sym, Some(price)), env));
    if sym in s.histories && PercentGain(Push(s.histories[sym], price)).Some? {
      var s1 := s.(prices := s.prices[sym := price], histories := s.histories[sym := Push(s.histories[sym], price)]);
      var gain := PercentGain(Push(s.histories[sym], price)).value;
      var b := BuyStep(cfg, s1, sym, price, gain, Atr(env.bars, cfg.atrMin), env);
      PricedTickTrades(cfg, s, sym, price, env);
      assert b.lastTrade == s.lastTrade || b.lastTrade == s.lastTrade[sym := env.now];
      if b.lastTrade != s.lastTrade {
        assert sym in s.lastTrade;
      }
    } else {
      assert o == PricedTick(cfg, s, sym, price, env);
    }
  }

  /** Every tick keeps the invariant: the tracked symbols, the history bound, and a
      halt only below the daily loss limit. */
  lemma StepPreservesInv(cfg: Config, s: State, t: Tick)
    requires Inv(cfg, s)
    ensures Inv(cfg, Step(cfg, s, t).next)
  {
    var o := Step(cfg, s, t);
    if s.phase == Running && t.event.Quote? && t.event.price.Some? {
      var sym, price := t.event.symbol, t.event.price.value;
      QuoteUpdatesHistory(cfg, s, sym, price, t.env);
      forall x | x in o.next.histories
        ensures |o.next.histories[x]| <= Capacity
      {
        if sym in s.histories && x == sym {
          assert o.next.histories[x] == Push(s.histories[sym], price);
        } else {
          assert o.next.histories[x] == s.histories[x];
        }
      }
    } else {
      assert o.next == s;
    }
  }

  /** What the broker's answers do to the buy block: a buy exactly when every guard
      holds and the order goes through, a no-buy line exactly when the gain is
      there but another guard fails, naming exactly the failing guards. */
  lemma BuyStepLines(cfg: Config, s: State, sym: string, price: real, gain: real, atr: real, env: Env)
    requires sym in s.lastTrade
    ensures var b := BuyStep(cfg, s, sym, price, gain, atr, env);
      var cooldown := env.now - s.lastTrade[sym];
      var invested := if env.buyPositions.Some? then Investment(env.buyPositions.value, Normalize(sym)) else 0.0;
      && (Wrote(b.records, Buy) <==>
            env.buyPositions.Some? && env.buyOrderAccepted && BuyGuards(cfg, price, gain, cooldown, atr, invested))
      && (Wrote(b.records, NoBuy) <==>
            env.buyPositions.Some? && price > 0.0 && gain >= cfg.gainThreshold && !BuyGuards(cfg, price, gain, cooldown, atr, invested))
      && (b.faulted <==>
            price > 0.0 && (env.buyPositions.None? || (BuyGuards(cfg, price, gain, cooldown, atr, invested) && !env.buyOrderAccepted)))
      && (Wrote(b.records, Buy) ==>
            b.records == [TradeRecord(env.now, Buy, sym, price, cfg.positionSize / price, s.dailyPnl, [])])
      && (Wrote(b.records, NoBuy) ==>
            && |b.records| == 1
            && b.records[0] == TradeRecord(env.now, NoBuy, sym, price, 0.0, s.dailyPnl, b.records[0].reasons)
            && |b.records[0].reasons| > 0 && InReportingOrder(b.records[0].reasons)
            && (CooldownActive in b.records[0].reasons <==> cooldown <= cfg.minTradeCooldown)
            && (LowVolatility in b.records[0].reasons <==> atr <= cfg.atrMin)
            && (MaxInvestmentReached in b.records[0].reasons <==> invested >= cfg.maxInvestment))
  {
    var b := BuyStep(cfg, s, sym, price, gain, atr, env);
    if price > 0.0 && env.buyPositions.Some? {
      var d := DecideBuy(cfg, price, gain, env.now - s.lastTrade[sym], atr, Investment(env.buyPositions.value, Normalize(sym)));
      match d
      case BuyQty(qty) =>
        if env.buyOrderAccepted {
          assert b.records[0].action == Buy;
        } else {
          assert b.records == [];
        }
      case Reject(reasons) =>
        assert b.records[0].action == NoBuy;
      case Pass =>
        assert b.records == [];
    } else {
      assert b.records == [];
    }
  }

  /** The buy block seen from a whole tick of a configured symbol whose gain is
      defined. */
  lemma TickBuyLines(cfg: Config, s: State, sym: string, price: real, env: Env)
    requires Inv(cfg, s) && s.phase == Running && sym in cfg.symbols
    requires PercentGain(Push(s.histories[sym], price)).Some?
    ensures var o := Step(cfg, s, Tick(Quote(sym, Some(price)), env));
      var gain := PercentGain(Push(s.histories[sym], price)).value;
      var cooldown := env.now - s.lastTrade[sym];
      var atr := Atr(env.bars, cfg.atrMin);
      var invested := if env.buyPositions.Some? then Investment(env.buyPositions.value, Normalize(sym)) else 0.0;
      && (Wrote(o.buyLines, Buy) <==>
            env.buyPositions.Some? && env.buyOrderAccepted && BuyGuards(cfg, price, gain, cooldown, atr, invested))
      && (Wrote(o.buyLines, NoBuy) <==>
            env.buyPositions.Some? && price > 0.0 && gain >= cfg.gainThreshold && !BuyGuards(cfg, price, gain, cooldown, atr, invested))
      && (Wrote(o.buyLines, Buy) ==>
            o.buyLines == [TradeRecord(env.now, Buy, sym, price, cfg.positionSize / price, s.dailyPnl, [])])
      && (Wrote(o.buyLines, NoBuy) ==>
            && |o.buyLines| == 1
            && o.buyLines[0] == TradeRecord(env.now, NoBuy, sym, price, 0.0, s.dailyPnl, o.buyLines[0].reasons)
            && |o.buyLines[0].reasons| > 0 && InReportingOrder(o.buyLines[0].reasons)
            && (CooldownActive in o.buyLines[0].reasons <==> cooldown <= cfg.minTradeCooldown)
            && (LowVolatility in o.buyLines[0].reasons <==> atr <= cfg.atrMin)
            && (MaxInvestmentReached in o.buyLines[0].reasons <==> invested >= cfg.maxInvestment))
  {
    var s1 := s.(prices := s.prices[sym := price], histories := s.histories[sym := Push(s.histories[sym], price)]);
    var gain := PercentGain(Push(s.histories[sym], price)).value;
    PricedTickTrades(cfg, s, sym, price, env);
    BuyStepLines(cfg, s1, sym, price, gain, Atr(env.bars, cfg.atrMin), env);
  }

  /** A previous price of zero makes the gain a division by zero: the tick aborts
      after recording the price, with no line written and nothing realised. */
  lemma ZeroPreviousPriceFaults(cfg: Config, s: State, sym: string, price: real, env: Env)
    requires s.phase == Running && sym in s.histories
    requires |Push(s.histories[sym], price)| >= 2
    requires Push(s.histories[sym], price)[|Push(s.histories[sym], price)| - 2] == 0.0
    ensures var o := Step(cfg, s, Tick(Quote(sym, Some(price)), env));
      && o.Records() == [] && o.exit == Faulted
      && o.next.dailyPnl == s.dailyPnl && o.next.phase == Running && o.next.lastTrade == s.lastTrade
  {
    assert PercentGain(Push(s.histories[sym], price)).None?;
    assert Step(cfg, s, Tick(Quote(sym, Some(price)), env)) == PricedTick(cfg, s, sym, price, env);
  }

  /** The positions the sell loop walks: none when the broker call raised. */
  function SellSide(env: Env): seq<Position>
  {
    if env.sellPositions.Some? then env.sellPositions.value else []
  }

  /** The sell loop as run at the end of a tick: its lines are the would-be sales in
      position order with their running totals, all of them when the tick
      completes, and the accumulator ends at the start figure plus what they
      realised. */
  lemma SettleLedger(cfg: Config, s: State, buyLines: seq<TradeRecord>, env: Env)
    requires s.phase == Running
    ensures var o := Settle(cfg, s, buyLines, env);
      var sales := Sales(cfg, s.assets, s.prices, SellSide(env));
      && LedgerOfSales(o.saleLines, sales, s.dailyPnl, env.now)
      && (o.exit == Completed ==> |o.saleLines| == |sales|)
      && o.next.dailyPnl == s.dailyPnl + Realized(sales[..|o.saleLines|])
  {
    if env.sellPositions.Some? {
      SettleAnswered(cfg, s, buyLines, env);
    } else {
      SettleUnanswered(cfg, s, buyLines, env);
    }
  }

  /** The end of a tick whose positions call answers: the sell loop's ledger. */
  lemma SettleAnswered(cfg: Config, s: State, buyLines: seq<TradeRecord>, env: Env)
    requires s.phase == Running && env.sellPositions.Some?
    ensures var o := Settle(cfg, s, buyLines, env);
      var sales := Sales(cfg, s.assets, s.prices, env.sellPositions.value);
      && LedgerOfSales(o.saleLines, sales, s.dailyPnl, env.now)
      && (o.exit == Completed ==> |o.saleLines| == |sales|)
      && o.next.dailyPnl == s.dailyPnl + Realized(sales[..|o.saleLines|])
  {
    SellLoopLedger(cfg, s.assets, s.prices, env.sellPositions.value, 0, s.dailyPnl, env.now, env.sellRejectedAt);
  }

  /** The end of a tick whose positions call raises: no sales and no completion. */
  lemma SettleUnanswered(cfg: Config, s: State, buyLines: seq<TradeRecord>, env: Env)
    requires s.phase == Running && env.sellPositions.None?
    ensures var o := Settle(cfg, s, buyLines, env);
      && Sales(cfg, s.assets, s.prices, SellSide(env)) == []
      && o.saleLines == [] && o.exit == Faulted && o.next.dailyPnl == s.dailyPnl
  {
  }

  /** Where the end of a tick stops: it completes exactly when the positions call
      answers and no position stops the sell loop, and it writes the sales of the
      positions before the first one that stops the loop, none when the
      positions call raises. */
  lemma SettleStopsAt(cfg: Config, s: State, buyLines: seq<TradeRecord>, env: Env)
    requires s.phase == Running
    ensures var o := Settle(cfg, s, buyLines, env);
      && (o.exit == Completed <==>
            env.sellPositions.Some? && !SellStops(cfg, s.assets, s.prices, SellSide(env), 0, env.sellRejectedAt))
      && |o.saleLines| == SoldBeforeStop(cfg, s.assets, s.prices, SellSide(env), env.sellRejectedAt)
  {
    if env.sellPositions.Some? {
      SellLoopStops(cfg, s.assets, s.prices, env.sellPositions.value, 0, s.dailyPnl, env.now, env.sellRejectedAt);
      SellLoopStopsAt(cfg, s.assets, s.prices, env.sellPositions.value, 0, s.dailyPnl, env.now, env.sellRejectedAt);
    } else {
      assert SellSide(env)[..0] == [];
    }
  }

  /** The sales of a whole tick: whatever the buy block did, the sale lines are a
      prefix of the sales the latest prices call for, each carrying the running
      total, and a tick that completes wrote all of them. */
  lemma TickSales(cfg: Config, s: State, t: Tick)
    requires s.phase == Running && t.event.Quote? && t.event.price.Some?
    ensures var o := Step(cfg, s, t);
      var sales := Sales(cfg, s.assets, o.next.prices, SellSide(t.env));
      && LedgerOfSales(o.saleLines, sales, s.dailyPnl, t.env.now)
      && (o.exit == Completed ==> |o.saleLines| == |sales|)
      && o.next.dailyPnl == s.dailyPnl + Realized(sales[..|o.saleLines|])
  {
    var sym, price, env := t.event.symbol, t.event.price.value, t.env;
    var o := Step(cfg, s, t);
    var sales := Sales(cfg, s.assets, o.next.prices, SellSide(env));
    assert o == PricedTick(cfg, s, sym, price, env);
    if sym in s.histories && PercentGain(Push(s.histories[sym], price)).Some? {
      var s1 := s.(prices := s.prices[sym := price], histories := s.histories[sym := Push(s.histories[sym], price)]);
      var gain := PercentGain(Push(s.histories[sym], price)).value;
      assert o == Trade(cfg, s1, sym, price, gain, env);
      TradeSales(cfg, s1, sym, price, gain, env);
    } else {
      assert o.saleLines == [] && sales[..0] == [];
    }
  }

  /** Where a whole tick stops. It completes exactly when the symbol is tracked,
      the gain is defined, the buy block does not raise, the sell side's positions
      call answers and no position stops the sell loop. A tick that reaches the
      sell loop writes the sales of the positions before the first one that stops
      it; any other writes none. */
  lemma TickStops(cfg: Config, s: State, t: Tick)
    requires s.phase == Running && t.event.Quote? && t.event.price.Some?
    ensures var o := Step(cfg, s, t);
      var sym, price := t.event.symbol, t.event.price.value;
      && (o.exit == Completed <==>
            && ReachesSellLoop(cfg, s, sym, price, t.env)
            && t.env.sellPositions.Some?
            && !SellStops(cfg, s.assets, o.next.prices, SellSide(t.env), 0, t.env.sellRejectedAt))
      && |o.saleLines|
         == (if ReachesSellLoop(cfg, s, sym, price, t.env)
             then SoldBeforeStop(cfg, s.assets, o.next.prices, SellSide(t.env), t.env.sellRejectedAt)
             else 0)
  {
    var sym, price, env := t.event.symbol, t.event.price.value, t.env;
    var o := Step(cfg, s, t);
    assert o == PricedTick(cfg, s, sym, price, env);
    if sym in s.histories && PercentGain(Push(s.histories[sym], price)).Some? {
      var s1 := s.(prices := s.prices[sym := price], histories := s.histories[sym := Push(s.histories[sym], price)]);
      var gain := PercentGain(Push(s.histories[sym], price)).value;
      assert o == Trade(cfg, s1, sym, price, gain, env);
      TradeStops(cfg, s1, sym, price, gain, env);
      BuyStepIgnoresMarket(cfg, s, s1, sym, price, gain, Atr(env.bars, cfg.atrMin), env);
    } else {
      assert o.saleLines == [] && o.exit == Faulted;
    }
  }

  /** A quote tick whose sell-side positions call raises aborts with no sale line,
      the loop still running and nothing realised, whatever the buy block did. */
  lemma SellPositionsRaise(cfg: Config, s: State, t: Tick)
    requires s.phase == Running && t.event.Quote? && t.event.price.Some? && t.env.sellPositions.None?
    ensures var o := Step(cfg, s, t);
      && o.exit == Faulted && o.saleLines == []
      && o.next.phase == Running && o.next.dailyPnl == s.dailyPnl
  {
    TickSales(cfg, s, t);
    TickStops(cfg, s, t);
    assert SellSide(t.env) == [] && SellSide(t.env)[..0] == [];
  }

  /** A quote tick gets as far as the sell loop: its symbol is tracked, the gain
      is defined and the buy block does not raise. */
  predicate ReachesSellLoop(cfg: Config, s: State, sym: string, price: real, env: Env)
  {
    && sym in s.histories
    && PercentGain(Push(s.histories[sym], price)).Some?
    && !BuyStep(cfg, s, sym, price, PercentGain(Push(s.histories[sym], price)).value, Atr(env.bars, cfg.atrMin), env).faulted
  }

  /** The sales the sell loop would make over the positions before the first one
      that stops it. */
  function SoldBeforeStop(cfg: Config, assets: map<string, string>, prices: map<string, real>, ps: seq<Position>,
                          rejectAt: Option<nat>): nat
  {
    |Sales(cfg, assets, prices, ps[..FirstStop(cfg, assets, prices, ps, 0, rejectAt)])|
  }

  /** The sales once the gain is known: the buy block either raises, and nothing
      is sold, or hands over to the sell loop. */
  lemma TradeSales(cfg: Config, s: State, sym: string, price: real, gain: real, env: Env)
    requires s.phase == Running
    ensures var o := Trade(cfg, s, sym, price, gain, env);
      var sales := Sales(cfg, s.assets, s.prices, SellSide(env));
      && LedgerOfSales(o.saleLines, sales, s.dailyPnl, env.now)
      && (o.exit == Completed ==> |o.saleLines| == |sales|)
      && o.next.dailyPnl == s.dailyPnl + Realized(sales[..|o.saleLines|])
  {
    var o := Trade(cfg, s, sym, price, gain, env);
    var sales := Sales(cfg, s.assets, s.prices, SellSide(env));
    var b := BuyStep(cfg, s, sym, price, gain, Atr(env.bars, cfg.atrMin), env);
    if b.faulted {
      assert o.saleLines == [] && sales[..0] == [];
    } else {
      var s2 := TradeSettles(cfg, s, sym, price, gain, env);
      SettleLedger(cfg, s2, b.records, env);
    }
  }

  /** Where the tick stops once the gain is known: it completes exactly when the
      buy block does not raise, the positions call answers and no position stops
      the sell loop; a raising buy block sells nothing, and otherwise the sales
      before the first stopping position are written. */
  lemma TradeStops(cfg: Config, s: State, sym: string, price: real, gain: real, env: Env)
    requires s.phase == Running
    ensures var o := Trade(cfg, s, sym, price, gain, env);
      var b := BuyStep(cfg, s, sym, price, gain, Atr(env.bars, cfg.atrMin), env);
      && (o.exit == Completed <==>
            && !b.faulted
            && env.sellPositions.Some?
            && !SellStops(cfg, s.assets, s.prices, SellSide(env), 0, env.sellRejectedAt))
      && |o.saleLines|
         == (if b.faulted then 0 else SoldBeforeStop(cfg, s.assets, s.prices, SellSide(env), env.sellRejectedAt))
  {
    var o := Trade(cfg, s, sym, price, gain, env);
    var b := BuyStep(cfg, s, sym, price, gain, Atr(env.bars, cfg.atrMin), env);
    if b.faulted {
      assert o.saleLines == [] && o.exit == Faulted;
    } else {
      var s2 := TradeSettles(cfg, s, sym, price, gain, env);
      SettleStopsAt(cfg, s2, b.records, env);
    }
  }

  /** A buy block that does not raise hands its lines, and the state with its
      clocks, to the end of the tick. */
  lemma TradeSettles(cfg: Config, s: State, sym: string, price: real, gain: real, env: Env) returns (s2: State)
    requires s.phase == Running
    requires !BuyStep(cfg, s, sym, price, gain, Atr(env.bars, cfg.atrMin), env).faulted
    ensures s2.phase == Running && s2.assets == s.assets && s2.prices == s.prices && s2.dailyPnl == s.dailyPnl
    ensures Trade(cfg, s, sym, price, gain, env)
         == Settle(cfg, s2, BuyStep(cfg, s, sym, price, gain, Atr(env.bars, cfg.atrMin), env).records, env)
  {
    s2 := s.(lastTrade := BuyStep(cfg, s, sym, price, gain, Atr(env.bars, cfg.atrMin), env).lastTrade);
  }

  /** The buy block reads only the cooldown clocks and the accumulator of the state. */
  lemma BuyStepIgnoresMarket(cfg: Config, s: State, s': State, sym: string, price: real, gain: real, atr: real, env: Env)
    requires s'.lastTrade == s.lastTrade && s'.dailyPnl == s.dailyPnl
    ensures BuyStep(cfg, s', sym, price, gain, atr, env) == BuyStep(cfg, s, sym, price, gain, atr, env)
  {
  }
}
