# Momentum crypto trading bot: decision core in Dafny

This project models the decision core of a small paper-trading bot. The bot
watches a fixed set of crypto pairs ("BTC/USD", "ETH/USD", "XRP/USD", "SOL/USD").
A producer thread pushes mid-prices into a queue. The trading loop consumes one
`(symbol, price)` item at a time. For each priced item it:

1. records the price and appends it to a 50-entry history;
2. fetches a 14-period average true range (ATR) from one-minute bars;
3. computes the momentum `percent_gain` against the previous price;
4. runs the buy block. A buy happens when five guards hold. When only momentum
   qualified, the block writes a `no_buy` line naming the failing guards;
5. runs the sell loop over every open broker position. A position sells at the
   take-profit or the stop-loss, both inclusive. Each sale adds its realised PnL
   to the daily accumulator;
6. runs the risk check. When a tick runs to its end with the accumulator below
   the daily loss limit, the check stops the loop for good. A tick cut short by an
   exception skips the check (see "## Findings").

Every buy, `no_buy` and sell is appended as a line to a CSV ledger.

The model is pure and functional:

- prices and money are `real`;
- a Python exception that aborts a tick is an explicit `Faulted` exit;
- the broker, the clock and the bar feed are inputs of each tick (`Env`);
- `Engine.Step` is one pass of the loop body as written;
- the loop is a fold over a sequence of ticks (`Trace.Run`) of `Engine.CheckedStep`. That is `Engine.Step` with the risk check also run when a tick is cut short.

Modules, one file each:

| file | module | what it holds |
|---|---|---|
| options.dfy | `Options` | `Option` |
| symbols.dfy | `Symbols` | `Normalize` (`normalize_symbol`), the asset map, the configured symbols |
| history.dfy | `PriceHistory` | the bounded history, `PercentGain` |
| volatility.dfy | `Volatility` | true range, `Atr`, the row-by-row `CalculateAtr` |
| settings.dfy | `Settings` | the tuning constants (`Config`, `Default`) |
| ledger.dfy | `Ledger` | actions, no-buy reasons, the reason text, the ledger line |
| rules.dfy | `Rules` | the buy rule and the per-position sell rule |
| engine.dfy | `Engine` | the state, one tick (`Step`) and its sub-steps |
| trace.dfy | `Trace` | the loop over many ticks and its ledger |
| losslimit.dfy | `LossLimit` | the two-tick counterexample on the abort path, and the checked body on the same ticks |

## Model

| member | source | states |
|---|---|---|
| Symbols.NormalizeRemovesSlashes | main.py:41-42 | The compact form has no '/' and is never longer than the symbol. A symbol without '/' is left as it is. |
| Symbols.NormalizeConcat | main.py:41-42 | Removing slashes works piece by piece: normalising a concatenation concatenates the normalised parts. |
| Symbols.NormalizeIdempotent | main.py:41-42 | Normalising an already compact symbol changes nothing. |
| Symbols.NormalizeCanonical | main.py:41-42 | A "BASE/QUOTE" symbol becomes BASE followed by QUOTE, the form the broker reports positions under. |
| Symbols.AssetMap | main.py:89 | The map's keys are exactly the compact forms. Each key maps to a configured symbol whose compact form it is. The list's last symbol is always the value of its key. |
| Symbols.AssetMapLastWins | main.py:89 | Every symbol that no later symbol shares a compact form with is the value of its key. So on a collision the last symbol wins, as in a Python dict comprehension. |
| Symbols.AssetMapRoundTrip | main.py:89 | If no two symbols share a compact form, the map sends every symbol's compact form back to that symbol, and its values are exactly the symbols. |
| Symbols.ConfiguredCompactForms | config.py:17 | The four configured pairs normalise to "BTCUSD", "ETHUSD", "XRPUSD" and "SOLUSD". |
| Symbols.ConfiguredDistinct | config.py:17 | The configured pairs have pairwise distinct compact forms. |
| Symbols.ConfiguredRoundTrip | config.py:17 | With the shipped symbol list, every broker position of a configured pair resolves to its own canonical symbol. |
| Symbols.CollidingSymbolsLoseRoundTrip | main.py:89 | With colliding symbols ("BT/CUSD" and "BTC/USD") the earlier symbol is lost from the map. |
| PriceHistory.Push | main.py:97-100 | After a push the newest entry is the new price and the history stays within 50 entries. Below capacity the old history is kept as a prefix. At capacity exactly the oldest entry is dropped. |
| PriceHistory.PushWindow | main.py:98-100 | Pushing onto the trailing 50-window of a stream gives the trailing 50-window of the extended stream. |
| PriceHistory.PushAllIsWindow | main.py:98-100 | From any history within capacity, the history after a stream of pushes is the last 50 prices of history-then-stream. |
| PriceHistory.PercentGain | main.py:105 | The gain is 0 with fewer than two prices. It is undefined (a division by zero) exactly when the previous price is 0. Otherwise gain × previous = current − previous. |
| PriceHistory.GainThreshold | main.py:105 | With a positive previous price, the gain clears a threshold exactly when the current price is at least previous × (1 + threshold). |
| PriceHistory.GainExample | main.py:105 | A rise from 100 to 100.2 is a 0.2% gain and clears the shipped 0.1% threshold. |
| Volatility.WindowIsColumnTail | main.py:78-81 | The averaging window is the last 14 entries of the whole true-range column (`df['tr'].tail(14)`). |
| Volatility.Atr | main.py:69-70 | Missing bars, a failed fetch, or fewer than 14 bars give the floor `ATR_MIN`. |
| Volatility.CalculateAtr | main.py:59-84 | The row-by-row loop computes the whole-window definition `Atr`. Each row's high-low range is widened to reach the previous close, and the first row has no previous close. |
| Volatility.TrueRangeNonNegative | main.py:78-80 | A true range is never negative, provided the first bar's high is not below its low. |
| Volatility.SumAtLeast | main.py:81 | A sum of values each at least `low` is at least the count times `low`. |
| Volatility.SumAtMost | main.py:81 | A sum of values each at most `high` is at most the count times `high`. |
| Volatility.AtrWithinWindowRanges | main.py:78-81 | The estimate lies between the smallest and largest true range of the last 14 bars. |
| Volatility.AtrNonNegative | main.py:69-84 | With well-formed bars and a non-negative floor, the estimate is never negative. |
| Volatility.AtrIgnoresOlderBars | main.py:81 | Bars older than the one before the 14-bar window do not affect the estimate. |
| Volatility.TooFewBarsGiveFloor | main.py:69-70 | Ten bars are too few, and the estimate is the shipped floor 0.00005. |
| Ledger.ReasonText | main.py:130-134 | The reason column is empty exactly when there are no reasons. Otherwise it starts with the first reason's label. |
| Ledger.ReasonTextJoin | main.py:134 | The column is the labels joined by ", ": the column for two non-empty runs of reasons is the first run's column, ", ", then the second's. |
| Ledger.AllReasonsText | main.py:124-134 | With all three guards failing, the column is the three labels in reporting order, separated by ", ". |
| Rules.Investment | main.py:110 | The investment is 0 when no position has the symbol's compact form, and non-negative when every cost basis is. A single position counts its cost basis exactly when its symbol is the compact form. With `Rules.InvestmentSplit` this fixes the sum over any list. |
| Rules.InvestmentSplit | main.py:110 | The sum is additive: splitting the broker's position list splits the investment into the investments of the two parts. |
| Rules.DecideBuy | main.py:108-134 | It buys exactly when all five guards hold: price > 0, cooldown > 30 s, ATR > floor, investment < cap, and gain ≥ threshold. A buy spends exactly the position size. It rejects exactly when the price is positive and the gain qualifies but another guard fails. The reasons are non-empty and in reporting order, and each one is present exactly when its guard failed. |
| Rules.RealizedIsProfitOnCost | main.py:143-147 | The realised PnL of a sale equals the net profit fraction times the position's cost basis. |
| Rules.DecideSell | main.py:137-147 | Each outcome happens exactly when its condition holds. A position whose symbol is not in the asset map is skipped, as is one whose pair has no price yet. A zero quantity or cost basis aborts the tick. A sale happens exactly when the net profit reaches the take-profit or falls to the stop-loss. A sale is of the whole quantity, at the latest price, under the canonical symbol. |
| Rules.HoldBand | main.py:145 | A tracked, priced, well-formed position is held exactly while its net profit lies strictly between −stop-loss and take-profit. |
| Rules.SaleRealizesProfitOnCost | main.py:143-148 | What a sale adds to the daily PnL is its net profit fraction times its cost basis. A take-profit sale of a position bought for a positive amount therefore gains, and a stop-loss sale loses. |
| Rules.TakeProfitExample | main.py:143-147 | Bought at 100 and now at 106, a position is up 5.8% net of the 0.2% fee. It sells and realises 5.8. |
| Rules.ThresholdsSell | main.py:145 | In real arithmetic both thresholds sell. At 105.2 the net profit is exactly +5% and the sale realises 5.0. At 97.2 it is exactly −3% and the sale realises −3.0. |
| Engine.Init | main.py:35-38 | At start-up every configured symbol has an empty history and a last trade at time 0. No price is known, the accumulator is 0, and the state satisfies the invariant. |
| Engine.BuyStep | main.py:108-134 | The buy block writes at most one line, for the tick's symbol, price and current PnL, and never a sale. A failed broker call writes nothing and leaves the cooldown clocks alone. A changed clock means a buy at the tick's time. |
| Engine.BuyStepLines | main.py:108-134 | A buy line is written exactly when the positions call succeeds, every guard holds, and the order goes through. A `no_buy` line is written exactly when the gain qualifies but another guard fails. The block aborts exactly on a failed positions call or a rejected qualifying order. The buy line's quantity is position size / price. The `no_buy` line carries the tick's time, symbol, price, quantity 0 and current PnL, and names exactly the failing guards, in reporting order. |
| Engine.SellLoop | main.py:137-152 | Every sale line is a sell at the tick's time with no reason. The accumulator ends at the figure on the last sale line, or unchanged when there is none. |
| Engine.SellStopsFirst | main.py:137-146 | Some position stops the sell loop exactly when the first one does or one of the rest does. |
| Engine.SellLoopLedger | main.py:137-152 | The sale lines are the would-be sales in position order, each carrying the running total after it. All of them are written unless the loop is cut short. The accumulator ends at its start value plus what the written sales realised. |
| Engine.SellLoopStops | main.py:137-146 | The loop is cut short exactly when some position divides by a zero quantity or entry price, or sells and has its order rejected. |
| Engine.FirstStopIsFirst | main.py:137-146 | `FirstStop` finds the first position that stops the loop: every position before it lets the loop go on, and it stops the loop unless it is past the end of the list. |
| Engine.SellLoopStopsAt | main.py:137-159 | An exception leaves the loop at once: the lines written are exactly the sales of the positions before the first one that stops it. |
| Engine.Settle | main.py:137-159 | Closing a tick changes only the accumulator and the phase. An abort keeps the loop running. A raising positions call aborts with no sale line and the state unchanged. A completed tick halts exactly when the accumulator is below the daily loss limit. |
| Engine.SettleLedger | main.py:137-159 | The sell loop as the tick runs it writes the would-be sales in order with running totals, and all of them when the tick completes. The accumulator gains what was sold. A raising positions call sells nothing. |
| Engine.SettleStopsAt | main.py:137-159 | The tick completes exactly when the positions call answers and no position stops the loop. The end of a tick writes exactly the sales of the positions before the first one that stops the sell loop, and none when the positions call raises. |
| Engine.TradeSales | main.py:108-159 | Once the gain is known, the sale lines are a prefix of the sales the prices call for, with running totals, all of them on completion. An aborted buy block means no sales. The accumulator gains what was sold. |
| Engine.TradeStops | main.py:108-159 | Once the gain is known, the tick completes exactly when the buy block does not raise, the sell side's positions call answers, and no position stops the sell loop. An aborted buy block means no sales. Otherwise the sales written are those before the first stopping position. |
| Engine.Trade | main.py:108-157 | After the gain is known, a tick writes the buy block's line and moves the cooldown clock as the buy block says. An aborted buy block skips selling. The histories, the prices and the asset map do not change. |
| Engine.PricedTick | main.py:96-157 | A priced tick writes at most one buy-block line and then only sale lines. The accumulator moves only with sale lines. |
| Engine.Step | main.py:90-160 | A halted loop, a queue timeout or a missing price does nothing. Only a completed tick changes the phase, and it halts exactly when the accumulator is below the limit. |
| Engine.TickLines | main.py:119-152 | A tick wrote a sale exactly when it has sale lines. Any other action can only come from its buy-block line. |
| Engine.StepPnlOnlyOnSells | main.py:147-148 | The accumulator changes only in ticks that write a sale, and it then equals the figure on the tick's last ledger line. |
| Engine.PricedTickTrades | main.py:96-105 | A priced tick of a tracked symbol with a defined gain records the price, pushes it, and trades on the gain of the new history. |
| Engine.StepLastTradeOnlyOnBuy | main.py:117 | Only a buy moves a cooldown clock, and a buy moves its symbol's clock to the tick's time. Sales and rejections never touch it. |
| Engine.QuoteUpdatesHistory | main.py:96-100 | A quote records the symbol's price and pushes it onto that symbol's history only. An unconfigured symbol aborts the tick with nothing written. |
| Engine.StepPreservesInv | main.py:35-38 | Every tick keeps the tracked symbols and the 50-entry history bound. A halt happens only below the daily loss limit, and the asset map stays the one built at start-up. |
| Engine.TickBuyLines | main.py:108-134 | For a configured symbol, the whole tick writes buy and `no_buy` lines exactly as the buy block decides, with the tick's time, symbol, price and current PnL. |
| Engine.ZeroPreviousPriceFaults | main.py:105 | A previous price of 0 aborts the tick after the price is recorded. Nothing is written, nothing is realised, and no clock moves. |
| Engine.TickSales | main.py:96-159 | A tick's sale lines are the sales the latest prices call for, in order and with running totals, all of them when it completes. The accumulator gains what was sold. |
| Engine.TickStops | main.py:96-159 | A quote tick completes exactly when its symbol is tracked, the gain is defined, the buy block does not raise, the sell side's positions call answers, and no position stops the sell loop. A tick that reaches the sell loop writes exactly the sales before the first stopping position; one that aborts earlier writes none. |
| Engine.SellPositionsRaise | main.py:137-159 | A quote tick whose sell-side `get_all_positions` raises aborts with no sale line. The loop keeps running and the accumulator is unchanged. |
| Engine.BuyStepIgnoresMarket | main.py:108-117 | The buy block reads only the cooldown clocks and the accumulator, not the histories or prices. |
| Engine.CheckedStep | main.py:155-160 | The corrected loop body. It writes the same lines and leaves the same state as `Step`, except the phase. A tick that does anything from a running state ends halted exactly when the accumulator is below the limit, however it ended. |
| Engine.InitGuarded | main.py:35-38 | With a loss limit (a limit of at most 0, as shipped), the start-up state satisfies the checked loop's invariant. |
| Engine.CheckedStepPreservesGuard | main.py:155-160 | Every checked tick keeps the invariant. It also keeps the guard that a running loop is never below the limit. |
| Engine.WroteConcat | main.py:119-152 | A ledger built by appending contains an action exactly when one of its parts does. |
| Trace.RunWithSplit | main.py:90-161 | Consuming two batches of ticks one after the other is consuming them together. The ledger is only ever appended to. |
| Trace.RunSplit | main.py:90-161 | The same for the bot's own loop body. |
| Trace.RunOne | main.py:90-161 | Consuming a single tick is one checked step and the lines it writes. |
| Trace.RunPreservesInv | main.py:90-161 | Every state the loop reaches from a state satisfying the invariant satisfies it, and likewise for the guard. |
| Trace.ReachableStates | main.py:33-38 | From start-up, the loop halts only below the daily loss limit and every history stays within 50 entries. |
| Trace.HaltIsFinal | main.py:155-157 | Once halted, the loop has exited: no further tick changes anything or writes a line. |
| Trace.RunPnlOnlyOnSells | main.py:147-148 | A stretch of ticks that writes no sale line leaves the accumulator where it was. |
| Trace.FirstHalt | main.py:155-157 | A run that starts running and ends halted has a first tick that halts it. |
| Trace.HaltNeedsRiskCheck | main.py:155-157 | The loop halts only through the risk check: a run that ends halted had a tick that acted from a running state and left the accumulator below the limit. |
| Trace.BreachIsFinal | main.py:155-157 | From a guarded state, once a stretch of ticks leaves the accumulator below the limit, the loop is halted. No later tick changes anything or writes a line. |
| Trace.NoTradeAfterBreach | main.py:155-157 | From start-up with a loss limit, the ledger never grows after the accumulator first ends a tick below the limit. No buy or sale line follows. |
| LossLimit.AbortFrom | main.py:137-160 | From a fresh running state, the first concrete tick sells one position at a loss of 502. The broker rejects the sell order for the next position, so the tick aborts with the loop still running. |
| LossLimit.AbortSkipsRiskCheck | main.py:143-160 | As written, from start-up: after the first tick the accumulator is at −502, below −200, yet the loop keeps running, and the next tick writes a sale line. |
| LossLimit.CheckedAbortHalts | main.py:155-157 | Corrected: on the same ticks, the checked body halts after the first tick, and the second tick adds nothing to the ledger. |

## Left out

- The producer thread, the queue and its 45-second timeout, the one-second sleep, and the thread start-up (main.py:44-57, 92, 161-169). A tick's event is an input: `Timeout` (an empty queue) or a `Quote` whose price may be missing.
- The mid-price `(ask + bid) / 2` (main.py:52). It belongs to the producer, and prices arrive as given.
- The broker and market-data calls. These are `get_all_positions` (at most twice per priced tick: once in the buy block when the price is positive, and once for the sell loop), `submit_order`, and `get_crypto_bars`. Their answers are fields of `Env`: position lists that may be missing (the call raised), an order that may be rejected (the call raised), and bars that may be missing.
- The pandas data frame in `calculate_atr`. `CalculateAtr` computes the same column row by row. `Atr` assumes the bar list is ordered oldest first and ignores the 20-minute/15-bar request window.
- Logging and the exact CSV text. The ledger is a sequence of `TradeRecord`s with the same columns. `Ledger.Label` and `Ledger.ReasonText` give the reason column's text. Number formatting is not modelled.
- Floating point. Prices and money are mathematical reals, so rounding in `qty * price`, the fee and the running PnL is not modelled. A guard compared at a threshold boundary can also go the other way in doubles: at 97.2 the net profit computes to just above −0.03, so the program holds the position that `Rules.ThresholdsSell` sells.
- The wall clock. Each tick has one `now`, used for the cooldown, the `last_trade` stamp and the ledger timestamps. `datetime.now()` and `time.time()` are treated as the same clock read once.
- dashboard.py, the `.env` loading, the API key check, the log file name and `BASE_URL` (config.py:1-14, 31-38). None of them takes part in a decision.
- The unused `positions` global (main.py:33).
- The asset map is built once before the loop (main.py:89). The model builds it in `Init` and keeps it in the state; `Engine.StepPreservesInv` shows it never changes.
- Engine.Step and the lemmas about it model the loop body as written, including the skipped risk check on the abort path. The loop over many ticks (`Trace.Run`) uses the corrected `Engine.CheckedStep`, so the Trace lemmas describe the intended loop, not the source's.
- Trace.NoTradeAfterBreach: stated for a limit of at most 0, as config.py:29 ships it. With a positive limit, the start-up state is already below it, and the first ticks can still trade before any risk check has run.

## Findings

| source | as written | input that shows it | evidently intended | confidence | as-written member | corrected member |
|---|---|---|---|---|---|---|
| main.py:143-160 | The risk check (main.py:155-157) sits inside the same `try` as the sell loop. An exception raised while selling jumps to the `except` at main.py:159. Examples are a rejected `submit_order` at main.py:146 and the division by `pos.qty` at main.py:143. The check is skipped even though earlier sales have already added to `daily_pnl`. The loop trades on below the limit until a later tick completes and reaches the check. | From start-up, quote BTC/USD at 50 with positions `BTCUSD` qty 10 cost 1000 and `BTCUSD` qty 1 cost 100. The broker rejects the second sell order. The first position sells for −502, and the rejected order raises. The loop stays running at −502 < −200. The next quote at 50, with the qty-1 lot still open and its order accepted, writes a sell line. | Once a tick leaves the accumulator below the daily loss limit, trading stops: no later buy or sell line is written. | not executed; high that the as-written path exists (it is proved), medium that it is unintended | LossLimit.AbortSkipsRiskCheck | Trace.NoTradeAfterBreach |

