/** The trading loop as a whole: the ticks it consumes in order, the state it
    carries from one to the next, and the ledger file it appends to. */
module Trace {
  import opened Settings
  import opened Ledger
  import opened Engine

  datatype RunResult = RunResult(final: State, ledger: seq<TradeRecord>)

  /** Feed the ticks to a loop body one by one; the ledger is every line written,
      in order. */
  function RunWith(step: (State, Tick) -> Outcome, s: State, ticks: seq<Tick>): RunResult
    decreases |ticks|
  {
    if |ticks| == 0 then RunResult(s, [])
    else
      var o := step(s, ticks[0]);
      var rest := RunWith(step, o.next, ticks[1..]);
      RunResult(rest.final, o.Records() + rest.ledger)
  }

  /** The trading loop's body under a given configuration, with the risk check run
      on every exit of a tick. */
  function Body(cfg: Config): (State, Tick) -> Outcome
  {
    (s: State, t: Tick) => CheckedStep(cfg, s, t)
  }

  function Run(cfg: Config, s: State, ticks: seq<Tick>): RunResult
  {
    RunWith(Body(cfg), s, ticks)
  }

  /** A single tick is one checked step and its lines. */
  lemma RunOne(cfg: Config, s: State, t: Tick)
    ensures Run(cfg, s, [t]) == RunResult(CheckedStep(cfg, s, t).next, CheckedStep(cfg, s, t).Records())
  {
    var o := CheckedStep(cfg, s, t);
    assert Body(cfg)(s, t) == o;
    assert [t][0] == t && [t][1..] == [];
    assert RunWith(Body(cfg), o.next, []) == RunResult(o.next, []);
    assert o.Records() + [] == o.Records();
  }

  /** Running two batches of ticks one after the other is running them together:
      the ledger is only ever appended to. */
  lemma {:induction false} RunWithSplit(step: (State, Tick) -> Outcome, s: State, a: seq<Tick>, b: seq<Tick>)
    decreases |a|
    ensures var first := RunWith(step, s, a);
      var second := RunWith(step, first.final, b);
      RunWith(step, s, a + b) == RunResult(second.final, first.ledger + second.ledger)
  {
    if |a| > 0 {
      var o := step(s, a[0]);
      assert (a + b)[0] == a[0] && (a + b)[1..] == a[1..] + b;
      RunWithSplit(step, o.next, a[1..], b);
      var first := RunWith(step, o.next, a[1..]);
      assert o.Records() + (first.ledger + RunWith(step, first.final, b).ledger)
          == (o.Records() + first.ledger) + RunWith(step, first.final, b).ledger;
    } else {
      assert a + b == b;
    }
  }

  lemma RunSplit(cfg: Config, s: State, a: seq<Tick>, b: seq<Tick>)
    ensures var first := Run(cfg, s, a);
      var second := Run(cfg, first.final, b);
      Run(cfg, s, a + b) == RunResult(second.final, first.ledger + second.ledger)
  {
    RunWithSplit(Body(cfg), s, a, b);
  }

  /** Every state the loop reaches keeps the invariant, and the guard when it
      starts guarded. */
  lemma {:induction false} RunPreservesInv(cfg: Config, s: State, ticks: seq<Tick>)
    decreases |ticks|
    requires Inv(cfg, s)
    ensures Inv(cfg, Run(cfg, s, ticks).final)
    ensures Guarded(cfg, s) ==> Guarded(cfg, Run(cfg, s, ticks).final)
  {
    if |ticks| > 0 {
      CheckedStepPreservesGuard(cfg, s, ticks[0]);
      RunPreservesInv(cfg, CheckedStep(cfg, s, ticks[0]).next, ticks[1..]);
    }
  }

  /** From the initial state the loop only ever halts below the daily loss limit,
      and every history stays within its capacity. */
  lemma ReachableStates(cfg: Config, ticks: seq<Tick>)
    ensures var f := Run(cfg, Init(cfg), ticks).final;
      && (f.phase == Halted ==> f.dailyPnl < cfg.dailyLossLimit)
      && (forall sym :: sym in f.histories ==> |f.histories[sym]| <= PriceHistory.Capacity)
      && f.histories.Keys == SymbolSet(cfg)
  {
    RunPreservesInv(cfg, Init(cfg), ticks);
  }

  /** Once halted, the loop has exited: no further tick changes anything or writes
      a line. */
  lemma {:induction false} HaltIsFinal(cfg: Config, s: State, ticks: seq<Tick>)
    decreases |ticks|
    requires s.phase == Halted
    ensures Run(cfg, s, ticks) == RunResult(s, [])
  {
    if |ticks| > 0 {
      HaltIsFinal(cfg, s, ticks[1..]);
    }
  }

  /** The accumulator moves only through sales: a stretch of ticks that writes no
      sale line ends with the figure it started with. */
  lemma {:induction false} RunPnlOnlyOnSells(cfg: Config, s: State, ticks: seq<Tick>)
    decreases |ticks|
    ensures var r := Run(cfg, s, ticks);
      !Wrote(r.ledger, Sell) ==> r.final.dailyPnl == s.dailyPnl
  {
    if |ticks| > 0 {
      var o := CheckedStep(cfg, s, ticks[0]);
      var rest := Run(cfg, o.next, ticks[1..]);
      WroteConcat(o.Records(), rest.ledger, Sell);
      StepPnlOnlyOnSells(cfg, s, ticks[0]);
      RunPnlOnlyOnSells(cfg, o.next, ticks[1..]);
    }
  }

  /** A run that starts running and ends halted has a first tick that halts it. */
  lemma {:induction false} FirstHalt(step: (State, Tick) -> Outcome, s: State, ticks: seq<Tick>)
    decreases |ticks|
    requires s.phase == Running && RunWith(step, s, ticks).final.phase == Halted
    ensures exists k :: 0 <= k < |ticks| && HaltsAt(step, RunWith(step, s, ticks[..k]).final, ticks[k])
  {
    var o := step(s, ticks[0]);
    assert ticks[..0] == [];
    if o.next.phase == Halted {
      assert HaltsAt(step, RunWith(step, s, ticks[..0]).final, ticks[0]);
    } else {
      FirstHalt(step, o.next, ticks[1..]);
      var k :| 0 <= k < |ticks| - 1 && HaltsAt(step, RunWith(step, o.next, ticks[1..][..k]).final, ticks[1..][k]);
      assert ticks[..k + 1] == [ticks[0]] + ticks[1..][..k];
      RunWithSplit(step, s, [ticks[0]], ticks[1..][..k]);
      assert RunWith(step, s, [ticks[0]]).final == o.next;
      assert HaltsAt(step, RunWith(step, s, ticks[..k + 1]).final, ticks[k + 1]);
    }
  }

  /** The tick moves a running loop to halted. */
  predicate HaltsAt(step: (State, Tick) -> Outcome, s: State, t: Tick)
  {
    s.phase == Running && step(s, t).next.phase == Halted
  }

  /** The loop halts only through the risk check: a run that ends halted had a tick
      that acted from a running state and left the accumulator below the daily
      loss limit. */
  lemma HaltNeedsRiskCheck(cfg: Config, s: State, ticks: seq<Tick>)
    requires s.phase == Running && Run(cfg, s, ticks).final.phase == Halted
    ensures exists k :: 0 <= k < |ticks| && RiskCheckHalts(cfg, Run(cfg, s, ticks[..k]).final, ticks[k])
  {
    FirstHalt(Body(cfg), s, ticks);
    var k :| 0 <= k < |ticks| && HaltsAt(Body(cfg), Run(cfg, s, ticks[..k]).final, ticks[k]);
    var before := Run(cfg, s, ticks[..k]).final;
    assert Body(cfg)(before, ticks[k]) == CheckedStep(cfg, before, ticks[k]);
    assert RiskCheckHalts(cfg, before, ticks[k]);
  }

  /** The tick halts the loop: it acted from a running state, completed or cut
      short, and the risk check found the accumulator below the limit. */
  predicate RiskCheckHalts(cfg: Config, s: State, t: Tick)
  {
    var o := CheckedStep(cfg, s, t);
    && s.phase == Running && o.exit != Idle && o.next.phase == Halted
    && o.next.dailyPnl < cfg.dailyLossLimit
  }

  /** Once a stretch of ticks leaves the accumulator below the limit, the loop has
      stopped: no later tick changes anything or writes a line, so no buy or sale
      follows. */
  lemma BreachIsFinal(cfg: Config, s: State, a: seq<Tick>, b: seq<Tick>)
    requires Guarded(cfg, s)
    requires Run(cfg, s, a).final.dailyPnl < cfg.dailyLossLimit
    ensures Run(cfg, s, a).final.phase == Halted
    ensures Run(cfg, Run(cfg, s, a).final, b) == RunResult(Run(cfg, s, a).final, [])
    ensures Run(cfg, s, a + b) == Run(cfg, s, a)
  {
    RunPreservesInv(cfg, s, a);
    HaltIsFinal(cfg, Run(cfg, s, a).final, b);
    RunSplit(cfg, s, a, b);
    assert Run(cfg, s, a).ledger + [] == Run(cfg, s, a).ledger;
  }

  /** From start-up with a loss limit, as shipped, the ledger never grows after the
      accumulator first ends a tick below the limit. */
  lemma NoTradeAfterBreach(cfg: Config, a: seq<Tick>, b: seq<Tick>)
    requires cfg.dailyLossLimit <= 0.0
    requires Run(cfg, Init(cfg), a).final.dailyPnl < cfg.dailyLossLimit
    ensures Run(cfg, Init(cfg), a + b).ledger == Run(cfg, Init(cfg), a).ledger
  {
    InitGuarded(cfg);
    BreachIsFinal(cfg, Init(cfg), a, b);
  }
}
