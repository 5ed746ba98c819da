# Trading engine, execution layer and data pipeline

This project models the deterministic core of the trading server: the batch broker that backtests a strategy spec, the
paper broker and runtime that run the same spec bar by bar, the rule language and the interpreter that feed both, and
the pipeline that downloads, caches, repairs and resamples the bars. Money and prices are `real`, times are integer
milliseconds, and a dataset is a map from timestamp to bar.

The central promise of the system is that a live session and a backtest of the same bars give the same trades and the
same equity. Both brokers refine one reference ledger, so the promise becomes a statement about decisions: when the
runtime's folded, gated intents decide what the batch broker decides. `RuleParity`, `ParityConditions`, `Fillability`
and `Solvency` say exactly when that is so. `EndToEnd` states it from a spec's rules and bars, the batch broker reading
its prices from the prepared frame; `PriceParity` says exactly which prices of that frame must be the bars'.
`ParityFailures` and `SpecFailures` give, for each condition, inputs on which dropping it breaks parity.

Reference and implementation share their leaf expressions, so what those compute is stated a second time on its own:
`RuleArithmetic` and `SignalForms` say in plain arithmetic what rules and signals read, and `TradeForms`, `GridForms`
and `DcaForms` account for every trade and equity point of a run in the prices of its bars.

How the files are arranged:

- Values and arithmetic: `Domain`, `RealArithmetic`, `Sorting`, `FillModel`, `Fills`.
- Reference ledgers: `RuleEngine`, `GridEngine`, `DcaEngine`.
- The brokers and the runtime as mutable objects: `Positions`, `SimulatedBroker`, `PaperModel`, `PaperBroker`,
  `StrategyRuntime`, `LiveSession`.
- Parity: `DecisionTrace`, `RuleParity`, `ParityConditions`, `ParityFailures`, `Fillability`, `SolventSessions`,
  `GridDcaParity`.
- Parity from a spec and the bars: `FramePrices`, `PriceParity`, `EndToEnd`, `FiniteBuffers`, `SpecFailures`.
- Runs in plain arithmetic: `TradeForms`, `GridForms`, `DcaForms`, `SessionLog`.
- Whole-run properties: `Ledger`, `SessionSafety`, `GridLedger`, `GridSessionLedger`, `DcaLedger`, `Funding`,
  `RiskInvariants`, `Solvency`, `FundedLongs`, `ShortSolvency`, `Drawdown`, `RunDrawdown`.
- Rules: `RuleSyntax`, `RuleEvaluator`, `RuleSemantics`, `RuleArithmetic`, `RuleLocality`, `RuleScalars`,
  `UndefinedRules`, `Interpreter`, `SpecInterpreter`, `SignalForms`.
- Data: `Timeline`, `Quality`, `OhlcvStore`, `SyncModel`, `SyncProofs`, `GapRepair`, `GapCounts`, `Backfill`,
  `CacheRewrites`, `CrashResume`, `SyncHistory`, `SyncStatus`, `Resample`, `ResampleProofs`.

`dafny verify dfyconfig.toml` checks the whole project.

What comes from outside is a parameter: the bars of a feed, the indicator columns (arbitrary functions of the bars,
causal where a result needs it), and the exchange, a function from the request number and the start time to a page, a
handled error or an escaping exception. An honest exchange answers every page truthfully about one unchanging series;
without that hypothesis the results hold for arbitrary pages.

## Where the code departs from its documentation

The model follows the code; the members named here prove the difference.

- The warm-up gate is documented never to suppress a bar that the backtest signals on. An indicator of length L is
  defined from bar L-1, and the gate also suppresses that bar (`SpecFailures.GatedSpecDiverges`,
  `SpecFailures.AverageDiverges`; exactly when this matters: `EndToEnd.OneSidedSpecParity`).
- A lone exit for the side not held closes a session's position (`ParityFailures.LoneOppositeExitDiverges`,
  `SpecFailures.OppositeExitSpecDiverges`), and a bar with both entries is read differently by the two brokers
  (`ParityFailures.BothEntriesDiverge`, `SpecFailures.BothEntriesSpecDiverges`).
- An exit that cannot be booked as a fill raises in a session: one that slips to zero
  (`ParityFailures.FullSlippageExitRaises`), and at ordinary slippage one of a position entered without cash (exactly
  when: `Fillability.PercentSessionRaisesIff`, `SolventSessions.LongSessionsCompleteIff`). The trade is booked before
  the fill event is built, so the raise leaves the trade recorded and the position open, and stopping the session books
  the entry again (`SessionSafety.EntryBookedTwice`; what the books then say: `Ledger.PnlMatchesPortfolio`).
- Two rows are documented as the minimum live window. Nested crossings need more
  (`RuleLocality.LiveWindowSufficesIff`, `RuleLocality.RowsSufficeIff`).
- An undefined value is documented to give no signal. It gives one under `!=` and under `not`: `close / 0 != 1` and
  `not (close / 0 > 1)` fire on every bar (`UndefinedRules.UndefinedRatioFires`), as does the bare number `1 / 0`;
  exactly which rules do says `UndefinedRules.UndefinedFiresIff`. Warm-up rows are documented to score no signal in the
  backtest; `ma != 0` enters there and the gate drops it (`SpecFailures.AverageNotZeroDiverges`; exactly when:
  `SpecFailures.WarmupParityIff`).
- An indicator whose id is a bar column's name replaces that column. The batch broker then trades on it and the session
  on the bars (`SpecFailures.ReplacedCloseDiverges`, `SpecFailures.MiddleDiverges`; exactly when this matters:
  `PriceParity.PricesMatterExactly`).
- `min` and `max` are documented as the same in scalar and column mode. With exactly one NaN operand they differ
  (`RuleScalars.ExtremeAgreesIff`).
- A sync is documented to backfill its range fully. Bars of the range older than everything cached there are not
  fetched (`Backfill.OlderBarStaysMissing`), nor, when the cache reaches past the range, newer ones; exactly when the
  range is complete says `Backfill.HistoryCompleteIff`. Bars between cached ones are fetched, by the repair
  (`Backfill.BarBetweenIsFetched`).
- The main pass is documented to keep page bars from the cursor on. It keeps all up to `until`, so a page bar from
  before the cursor rewrites a cached one (`CacheRewrites.PageRewritesCached`, `CacheRewrites.CachedKeptIff`).
- `gaps_repaired` is documented as the gaps closed, and can be negative (`Backfill.SplitGapReportsMinusOne`; exactly
  when: `GapCounts.GapsRepairedIs`).

## Model

| member | source | states |
|---|---|---|
| `RuleParity.SessionTradesMatchExactly` | src/trader_mcp/execution/paper_broker.py:176-225 | A rule session completes with the batch broker's trades if and only if both decide alike on every bar and every batch trade has a positive size and exit price; the whole account and the equity curve then agree too. |
| `ParityConditions.SessionMatchesBacktest` | src/trader_mcp/execution/runtime.py:253-286 | The same equivalence with the decision half spelled out per bar: folding both exits into one reduce-only intent, the if/elif over entries and the warm-up gate must not have mattered to the side held. |
| `ParityConditions.OneSidedParity` | src/trader_mcp/execution/runtime.py:253-286 | When signals are long-only or short-only and the gate suppresses the first decisions, the session reproduces the backtest if and only if every backtest trade is fillable and no entry falls on a gated bar with a bar after it: the side conditions are derived, and account and curve then agree too. |
| `DecisionTrace.TradesDetermineDecisions` | src/trader_mcp/engine/broker.py:133-216 | Over ascending bars, two rule runs record the same trades exactly when they decide alike on every bar; account and curve are then equal. |
| `DecisionTrace.FinalShowsDecision` | src/trader_mcp/engine/broker.py:187-216 | The final trade list alone reveals what was decided at each bar: a close shows as a signal exit at that bar, an open as the next trade's entry. |
| `RuleParity.RunFollows` | src/trader_mcp/execution/paper_broker.py:176-225 | By induction over any feed: the session has not raised if and only if every trade so far is fillable, and then its ledger equals that of the engine deciding on the intents. |
| `RuleParity.PaperBarFollows` | src/trader_mcp/execution/paper_broker.py:176-225 | One on_bar carries out the pending intents, risk exits and funding of the reference engine, or raises exactly when a close is not fillable. |
| `RuleParity.CurveFollows` | src/trader_mcp/execution/paper_broker.py:452-466 | The portfolio equity read after each bar, and again after force_close on the last, is the reference equity curve. |
| `ParityFailures.LoneOppositeExitDiverges` | src/trader_mcp/execution/runtime.py:261-273 | A family of inputs on which a short exit alone closes the session's long and not the backtest's, so the trades differ. |
| `ParityFailures.BothEntriesDiverge` | src/trader_mcp/execution/runtime.py:273-286 | A family of inputs on which both entries on one bar reverse the backtest's long and leave the session's alone. |
| `SpecFailures.OppositeExitSpecDiverges` | src/trader_mcp/execution/runtime.py:261-273 | From the spec: with close > 0 as long entry and as short exit, no other rule, and no stop or target, session and backtest differ on any three or more bars of positive prices. |
| `SpecFailures.BothEntriesSpecDiverges` | src/trader_mcp/execution/runtime.py:273-286 | From the spec: with close > 0 as both entries they differ too. |
| `ParityFailures.GatedEntryDiverges` | src/trader_mcp/execution/runtime.py:135-163 | If the first entry falls on a gated bar with a bar after it, the session cannot match the backtest, on any signal streams. |
| `SpecFailures.GatedSpecDiverges` | src/trader_mcp/execution/runtime.py:135-163 | From the spec: for every indicator of declared length L whose column is defined and positive at bar L-1, the rule that enters on it, and any ascending bars beyond L, the session does not match the backtest. |
| `SpecFailures.AverageDiverges` | src/trader_mcp/execution/runtime.py:135-163 | So a two-bar average above zero, on any three or more bars of positive prices and for every fill, sizing and risk setting, trades live as no backtest does. |
| `SpecFailures.UndefinedEntryDiverges` | src/trader_mcp/execution/runtime.py:146-150 | A long entry rule that is undefined on a gated bar with a bar after it, and true by its syntax, is an entry that the backtest takes and the session does not. |
| `SpecFailures.WarmupParityIff` | src/trader_mcp/execution/runtime.py:146-150 | The skipped warm-up rows are documented to be parity-equal. For a long-only spec whose entry is undefined on all of them, session and backtest match if and only if every trade is fillable and the entry is not true by its syntax. |
| `SpecFailures.AverageNotZeroDiverges` | src/trader_mcp/execution/runtime.py:146-150 | So ma != 0 over a two-bar average enters on the first bar in the backtest, and the gate drops it. |
| `ParityFailures.FullSlippageExitRaises` | src/trader_mcp/execution/models.py:129-146 | At 100 percent slippage a signal sell fills at zero: the backtest books it, the session raises on the fill event. |
| `GridDcaParity.GridSessionMatchesBacktest` | src/trader_mcp/execution/paper_broker.py:228-272 | For every grid spec and signal stream, the streamed session plus force_close ends with the batch run's lots, trades, fees, cash and per-bar equity, and never raises. |
| `GridDcaParity.DcaSessionMatchesBacktest` | src/trader_mcp/execution/paper_broker.py:275-293 | The same for every DCA spec over bars with positive opens: purchase cap, cost basis, the single terminal trade and the curve. |
| `LiveSession.LiveRunPending` | src/trader_mcp/execution/paper_broker.py:131-174 | Between bars the pending flags are exactly those of the last decision's intents, and the mark, time and bar index are the last bar's. |
| `EndToEnd.RuleSpecParity` | src/trader_mcp/engine/backtest.py:102-110 | Any well-typed rule spec whose frame keeps the prices a run can tell apart: the session over the bars and the backtest over the prepared frame record the same trades if and only if folding and gating were harmless and every trade is fillable. |
| `EndToEnd.OneSidedSpecParity` | src/trader_mcp/engine/backtest.py:102-110 | A spec without rules for one side, against the backtest over the prepared frame: parity holds exactly when every backtest trade is fillable and no entry fires on a gated bar with a bar after it; that the signals are one-sided follows from the rules. |
| `EndToEnd.SolventSpecParity` | src/trader_mcp/engine/backtest.py:102-110 | A long-only percent-of-equity spec that pays no funding and never outspends its cash: the session never raises, and it equals the backtest over the prepared frame in every trade, every equity point and the final cash exactly when no entry is lost to the gate, whatever the price path. |
| `EndToEnd.FixedSizeSpecParity` | src/trader_mcp/engine/backtest.py:102-110 | The same for every one-sided spec that trades a fixed quote or base amount, long or short, spot or swap, leveraged or not. |
| `EndToEnd.FixedSizeSpecMatches` | src/trader_mcp/engine/backtest.py:102-110 | Every spec that trades a fixed quote or base amount, whatever its rules: the session never raises, and it records the trades of the backtest over the prepared frame exactly when folding and gating were harmless. |
| `EndToEnd.GridSpecParity` | src/trader_mcp/engine/backtest.py:102-110 | A grid spec without indicators: the prepared frame holds the bars' prices, the live decisions equal the vectorized ones on every bar, and the session equals the backtest over the frame. |
| `EndToEnd.DcaSpecParity` | src/trader_mcp/engine/backtest.py:102-110 | The same for a DCA spec without indicators. |
| `EndToEnd.LiveSignalsAreGated` | src/trader_mcp/execution/runtime.py:187-205 | Deciding bar by bar over the unbounded buffer gives the vectorized signals, except NO_SIGNAL on the first bars, as many as the longest declared lookback. |
| `FiniteBuffers.FiniteBufferSuffices` | src/trader_mcp/execution/runtime.py:85-100 | With outputs that depend on the last m bars, a capped buffer of m bars more than the spec looks back, and no shorter than the gate, decides at every bar what the unbounded buffer decides. |
| `FiniteBuffers.AveragesFinite` | src/trader_mcp/execution/runtime.py:97-100 | A two-bar moving average is such an output, with m of two. |
| `FiniteBuffers.BareBufferSuffices` | src/trader_mcp/execution/runtime.py:97-100 | Without indicators a buffer of one more bar than the spec looks back gives the full-history signals. |
| `EndToEnd.SmallBufferNeverDecides` | src/trader_mcp/execution/runtime.py:191-201 | A buffer size below the gate never lets a decision through. |
| `EndToEnd.GridSpecBooks` | src/trader_mcp/engine/broker.py:219-316 | Whatever the interpreter of a grid spec asks for stays on the grid, so over whatever prices the frame holds the inventory bound and the conservation of cash hold without a condition on signals. |
| `FramePrices.PreparedBarsKept` | src/trader_mcp/engine/broker.py:144-147 | The batch broker reads the bars themselves from the prepared frame exactly when no output changed a price. |
| `FramePrices.OutputReplacesClose` | src/trader_mcp/indicators/registry.py:460-464 | With an output named close, the close that the batch broker reads at every bar is that output. |
| `PriceParity.PricesMatterExactly` | src/trader_mcp/engine/backtest.py:105-110 | On every signal stream on which a session reports the backtest over its own bars it reports the one over the prepared frame too, if and only if the frame keeps every open from the second bar on and, for each entry on either side that could be open at a bar, whether and how that bar exits it and otherwise its close. Funding, stops, targets and all sizings included. |
| `PriceParity.SamePricesWithoutLevels` | src/trader_mcp/engine/backtest.py:105-110 | For a spec without stop and target those prices are the opens and closes from the second bar on. |
| `SpecFailures.ReplacedCloseDiverges` | src/trader_mcp/engine/backtest.py:105-110 | For every indicator whose output takes the name close, a spec that buys while it is positive parts from its backtest as soon as the replaced column ends on another price. |
| `SpecFailures.MiddleDiverges` | src/trader_mcp/engine/backtest.py:105-110 | So with the middle of each bar under that name the two part on all positive bars, unless the last one closes in its middle. |
| `SimulatedBrokers.SimulatedBroker.Run` | src/trader_mcp/engine/broker.py:113-129 | Dispatches on the strategy type; trades and time-stamped curve are those of the matching reference run. |
| `SimulatedBrokers.SimulatedBroker.RunRule` | src/trader_mcp/engine/broker.py:133-185 | The bar loop with its local cash, position object and trade list returns the reference engine's trades and curve, the force-close included. |
| `SimulatedBrokers.SimulatedBroker.ApplyRuleIntent` | src/trader_mcp/engine/broker.py:187-216 | Cash, position and trades after a signal are those after the reference decision. |
| `SimulatedBrokers.SimulatedBroker.CheckRiskExits` | src/trader_mcp/engine/broker.py:458-488 | Stop before target at the level price, on either side; cash, position and trades after it. |
| `SimulatedBrokers.SimulatedBroker.RunGrid` | src/trader_mcp/engine/broker.py:219-316 | The grid loop over its two dictionaries returns the reference grid run's trades and curve, inventory liquidated in level order. |
| `SimulatedBrokers.SimulatedBroker.RunDca` | src/trader_mcp/engine/broker.py:334-411 | The DCA loop over its counters returns the reference run's trades and curve. |
| `PaperBrokers.PaperBroker.Submit` | src/trader_mcp/execution/paper_broker.py:131-174 | Sets the one pending flag that the intent maps to and appends an open record with the next id; nothing else changes. |
| `PaperBrokers.PaperBroker.OnBar` | src/trader_mcp/execution/paper_broker.py:176-206 | The whole new state after a bar, in each strategy type, including how far a raising bar got. |
| `PaperBrokers.PaperBroker.Close` | src/trader_mcp/execution/paper_broker.py:353-401 | Books the trade, then builds the fill event: on an invalid fill it raises with the trade booked and the position kept. |
| `PaperBrokers.PaperBroker.ApplyPendingGrid` | src/trader_mcp/execution/paper_broker.py:228-272 | Pending buys one lot per unfilled level, then take-profits at the close in level order; the whole new state. |
| `PaperBrokers.PaperBroker.ApplyPendingDca` | src/trader_mcp/execution/paper_broker.py:275-293 | The capped purchase at the open with the fee taken out of the spend; the whole new state. |
| `PaperBrokers.PaperBroker.ForceClose` | src/trader_mcp/execution/paper_broker.py:492-559 | Closes the position, the lots in level order, or the accumulated base at the last mark; nothing without a mark. |
| `PaperBrokers.PaperBroker.Cancel` | src/trader_mcp/execution/paper_broker.py:658-664 | Relabels the first resting record with the id and changes nothing else; true exactly when there was one. |
| `PaperBrokers.PaperBroker.ApplyFills` | src/trader_mcp/execution/paper_broker.py:666-699 | Folds the cumulative fills into the first record with the id; none exactly when no record has it. |
| `PaperModel.RelabeledAt` | src/trader_mcp/execution/paper_broker.py:658-664 | Only the first resting record changes, and only its status. |
| `PaperModel.ReconciledAt` | src/trader_mcp/execution/paper_broker.py:666-699 | Only the first record with the id changes, to the aggregate of the whole fill list. |
| `PaperModel.ReconcileIdempotent` | src/trader_mcp/execution/paper_broker.py:666-699 | Reporting the same cumulative fill list again changes nothing. |
| `StrategyRuntimes.StrategyRuntime.OnBar` | src/trader_mcp/execution/runtime.py:166-210 | Broker first, then the buffer, then the gated decision, then its intents; a raising broker leaves buffer and counter as they were. |
| `StrategyRuntimes.StrategyRuntime.SlowestIndicatorLen` | src/trader_mcp/execution/runtime.py:125-133 | The nested loops over indicators and lookback keys compute the longest declared lookback, at least zero. |
| `StrategyRuntimes.StrategyRuntime.Session` | src/trader_mcp/execution/runtime.py:166-210 | Driving a feed bar by bar and then finalizing leaves the broker in the reference session's state and reads off its equity curve. |
| `Positions.OpenPosition.AccrueFunding` | src/trader_mcp/engine/broker.py:530-540 | The inner loop on the position object: hours accumulate, and each whole interval is charged at the mark. |
| `FillModel.SizeBuysNotional` | src/trader_mcp/engine/broker.py:430-445 | The size bought is worth the sizing rule's notional times the leverage; an explicit base amount is not leveraged, and a spot symbol never is. |
| `Ledger.CloseRealizesMark` | src/trader_mcp/engine/broker.py:490-550 | Closing at a price yields the equity marked at that price less the exit fee, on either side. |
| `Ledger.RunBalanced` | src/trader_mcp/engine/broker.py:133-185 | On every bar cash, realized pnl, fees and funding are the initial cash and the sums over the recorded trades, plus the open entry fee. |
| `Ledger.RuleConservation` | src/trader_mcp/engine/broker.py:133-185 | The last equity point is the initial cash plus the pnl of all trades. |
| `Ledger.PnlMatchesPortfolio` | src/trader_mcp/execution/paper_broker.py:616-652 | After any sequence of submit, on_bar, cancel, apply_fills and force_close on a rule session, calls that raised included: cash, realized pnl and funding are the sums over trades, pnl().total is the portfolio equity minus the initial cash, and the fees are those of the trades and of the open entry less the entry fees of closes that raised; so they are the plain sums exactly when those fees come to nothing. |
| `SessionSafety.EntryBookedTwice` | src/trader_mcp/execution/session.py:126-160 | The input that tells them apart: at full slippage an exit raises, stopping the session then books the same entry a second time, and the fees reported fall short of the two trades by one entry fee. |
| `SessionSafety.FixedSizeNeverRaises` | src/trader_mcp/execution/paper_broker.py:353-401 | With fixed sizes, positive prices and slippage below 100 percent no call raises, in whatever order the broker is called, and no fee is lost. |
| `SessionSafety.SolventNeverRaises` | src/trader_mcp/execution/paper_broker.py:353-401 | Nor with percent-of-equity sizing that pays no funding, never outspends its cash and is never asked to enter short. |
| `GridSessionLedger.GridSessionBooks` | src/trader_mcp/execution/paper_broker.py:228-272 | After any such sequence on a grid session, which never raises: realized and fees agree with trades and open lots, and cash plus lot costs is initial cash plus realized. |
| `GridLedger.GridConservation` | src/trader_mcp/engine/broker.py:243-316 | Final grid cash is the initial cash plus the pnl of all trades; realized and fees are the sums. |
| `GridLedger.GridRunKeeps` | src/trader_mcp/engine/broker.py:243-316 | In every reachable state: books balanced, every lot on its level at that level's slipped price with its share of the allocation, every trade a take-profit at its target. |
| `GridLedger.GridInventoryBound` | src/trader_mcp/engine/broker.py:231-331 | Both dictionaries hold the same levels, all of them grid levels, and the open lots cost at most the allocation with its entry fees. |
| `GridLedger.ProfitIff` | src/trader_mcp/engine/broker.py:275-300 | A lot bought at a level and sold at its target earns money if and only if the spread covers slippage and both fees. |
| `GridLedger.GridProfits` | src/trader_mcp/engine/broker.py:243-316 | If every level's spread covers its costs, every trade so far earned money and cash never falls below what the allocation leaves. |
| `GridLedger.FrictionlessGridProfits` | src/trader_mcp/engine/broker.py:243-316 | Without fees and slippage that holds for every grid: cash never falls below the unallocated share. |
| `DcaLedger.RunAccumulates` | src/trader_mcp/engine/broker.py:366-388 | Until liquidation cash plus cost basis is the initial cash, the cap holds, and base, counters and first entry agree with it. |
| `DcaLedger.DcaConservation` | src/trader_mcp/engine/broker.py:334-411 | Final cash is initial cash plus the trades' pnl if and only if the taker fee is below one or nothing was bought. |
| `DcaLedger.DcaEntryBetween` | src/trader_mcp/engine/broker.py:389-411 | The reported average entry lies between the lowest and highest slipped purchase price. |
| `Solvency.RunNeverNegative` | src/trader_mcp/engine/broker.py:430-550 | A long-only percent-of-equity run that pays no funding and whose outlay, the leveraged fraction times (1+taker), is at most one never has negative cash or a negative reported equity point, for all prices, signals, slippage, stops and targets. |
| `Solvency.SolvencyExact` | src/trader_mcp/engine/broker.py:430-550 | For every long-only percent-of-equity spec without funding, on spot or a leveraged swap, stops and targets included, all such runs are solvent if and only if the outlay is at most one, or the stop closes every entry on its own bar and leaves something. |
| `FundedLongs.FundedSolvencyExact` | src/trader_mcp/engine/broker.py:530-550 | For a swap that charges a positive funding rate all long-only runs are solvent if and only if the stop closes every entry on its own bar and leaves something: held at a flat price, any long pays more than the cash in the end. |
| `ShortSolvency.ShortSolvencyExact` | src/trader_mcp/engine/broker.py:430-550 | For short-only runs, in every sizing mode, on spot and swaps, funded or not: all are solvent if and only if sizing is by percentage of equity and the stop closes every entry on its own bar and leaves something. Whatever else the spec says, some positive prices take a run below zero. |
| `Solvency.SolventParity` | src/trader_mcp/execution/paper_broker.py:176-225 | With the outlay below one, or exactly one while fee and slippage stay below 100 percent, parity needs no condition on the run, at any stop and target. |
| `Fillability.FixedSizeParity` | src/trader_mcp/execution/paper_broker.py:176-225 | With fixed quote or base sizing, on either side and on swaps, every trade is fillable and one-sided parity needs no condition on the run. |
| `Fillability.FixedSizeMatches` | src/trader_mcp/execution/paper_broker.py:176-225 | With fixed sizing and any signals the session never raises, and matches the backtest exactly when folding and gating were harmless. |
| `Fillability.PercentSessionRaisesIff` | src/trader_mcp/execution/paper_broker.py:353-401 | With percent-of-equity sizing, at any slippage below 100 percent, a session raises if and only if it enters a position with no cash left, or less. |
| `SolventSessions.LongSessionsCompleteIff` | src/trader_mcp/execution/paper_broker.py:353-401 | For every long-only percent-of-equity spec without funding: no session raises, whatever prices and signals it is fed, if and only if the outlay is below one, or exactly one with a taker fee below 100 percent, or the stop closes every entry on its own bar with something left. Otherwise a crash and a second entry make it raise at ordinary slippage. |
| `Solvency.EquityOfBought` | src/trader_mcp/engine/broker.py:542-550 | The equity of a bought position is the uncommitted share of the cash plus its market value. |
| `RiskInvariants.OpenPositionUntouched` | src/trader_mcp/engine/broker.py:152-177 | In any run, no bar since a still-open position's entry reached its stop or target: each bar's whole range lies strictly between them. |
| `RiskInvariants.SessionPositionUntouched` | src/trader_mcp/execution/paper_broker.py:324-351 | The same of a live session. |
| `RiskInvariants.MarksInside` | src/trader_mcp/engine/broker.py:447-488 | Every mark since entry lies strictly between stop and target. |
| `RiskInvariants.TriggeredExitsKnown` | src/trader_mcp/engine/broker.py:447-528 | Every stop-loss or take-profit trade exits exactly its percentage from entry, and its pnl is that share of the notional less both fees and funding. |
| `RiskInvariants.SessionExitsKnown` | src/trader_mcp/execution/paper_broker.py:324-401 | The same of every triggered exit of a live session. |
| `RiskInvariants.RiskExitIff` | src/trader_mcp/engine/broker.py:458-488 | The intrabar check fires exactly when the bar's range is not strictly inside the levels. |
| `Funding.FundingClosedForm` | src/trader_mcp/engine/broker.py:530-540 | After n bars a position has been charged floor(n * bar hours / interval) times, each time at that bar's mark, with less than one interval left over. |
| `Funding.RunOnSchedule` | src/trader_mcp/engine/broker.py:166-169 | Every position open in any run was entered bars_held bars ago and has paid exactly the charges that fell due at the closes since, each at its own close; less than one interval is uncharged. |
| `Funding.FundingMirrors` | src/trader_mcp/execution/paper_broker.py:440-450 | A long and a short of the same size accrue exactly opposite funding over the same marks. |
| `Funding.PayerOfCharge` | src/trader_mcp/engine/broker.py:530-540 | A charge costs the long exactly when the rate is positive, and the short exactly when it is negative. |
| `Fills.FilledPlusRemaining` | src/trader_mcp/execution/models.py:183-226 | Filled plus remaining is the amount, filled never exceeds it and reaches it exactly when the raw quantity does; open means no fills, and filled means that the fills leave at most 1e-12 of the amount. |
| `Fills.AverageBetween` | src/trader_mcp/execution/models.py:183-226 | The average lies between the lowest and highest fill price. |
| `Fills.AggregateIgnoresOrder` | src/trader_mcp/execution/models.py:183-226 | The aggregate does not depend on the order of the fills. |
| `Fills.AppendingFillsProgresses` | src/trader_mcp/execution/models.py:183-226 | Further fills never lower filled nor move the status backwards. |
| `RuleSyntax.AcceptedIffWhitelisted` | src/trader_mcp/strategy/evaluator.py:126-310 | Default deny: the validator accepts a rule if and only if every node that evaluation would visit is one of the permitted constructs. |
| `RuleEvaluator.EvaluationOutcomes` | src/trader_mcp/strategy/evaluator.py:423-476 | Evaluating any rule in any context gives a value, the validator's problem or an operand type clash: no unbound name, wrong arity or defensive raise. |
| `RuleEvaluator.ModSign` | src/trader_mcp/strategy/evaluator.py:514-530 | The remainder lies between zero and the divisor, on the divisor's side. |
| `RuleSemantics.ColumnsMean` | src/trader_mcp/strategy/evaluator.py:423-476 | Evaluating a well-typed rule over columns succeeds, and its value in each row is the meaning of the rule there: crossings compare the previous and the current row, chains conjoin neighbours, NaN propagates. |
| `RuleSemantics.CrossingAgrees` | src/trader_mcp/strategy/evaluator.py:349-401 | Shifting, comparing and conjoining columns, scalars broadcast, is true in a row exactly when the previous row compared one way and this one the other; never in the first. |
| `RuleLocality.MeaningLocal` | src/trader_mcp/strategy/evaluator.py:349-401 | A rule's value at a row depends only on that row and as many rows before it as its crossings nest. |
| `RuleLocality.WindowSuffices` | src/trader_mcp/strategy/evaluator.py:423-476 | Over a trailing window of more than that many rows, or the whole prefix, the last value is the full run's at that row. |
| `RuleLocality.RowsSufficeIff` | src/trader_mcp/engine/interpreter.py:85-88 | Windows of w rows are enough for all typed rules whose crossings nest d deep, on all frames and rows, if and only if d is less than w. |
| `RuleLocality.LiveWindowSufficesIff` | src/trader_mcp/engine/interpreter.py:85-88 | The documented two rows are enough exactly for rules whose crossings do not nest. |
| `RuleScalars.ScalarAgreesWithColumn` | src/trader_mcp/strategy/evaluator.py:404-570 | For a rule without crossings, one bar's scalars give the column's value in that row, unless a min/max with a column on the left has exactly one NaN operand there. |
| `RuleScalars.ExtremeAgreesIff` | src/trader_mcp/strategy/evaluator.py:547-570 | That exception is exact for min and for max, of any two numeric operands. |
| `SpecInterpreters.SpecInterpreter.Signals` | src/trader_mcp/engine/interpreter.py:107-123 | The three per-strategy loops return the specified signal list. |
| `SpecInterpreters.SpecInterpreter.SignalAt` | src/trader_mcp/engine/interpreter.py:169-187 | The last element of the vectorized result over the window, NO_SIGNAL on an empty one. |
| `Interpreters.SignalAtMatchesSignals` | src/trader_mcp/engine/interpreter.py:107-187 | Over a window reaching back the spec's lookback (crossing depth; one row for grid; none for DCA), or over the whole prefix, signal_at equals the full run's signal for that bar. |
| `Interpreters.PrefixDecides` | src/trader_mcp/engine/interpreter.py:94-187 | No look-ahead: with causal indicators, deciding on the bars so far equals deciding on the full run at that bar. |
| `Interpreters.PrepareCausal` | src/trader_mcp/indicators/registry.py:433-464 | Preparing a prefix of the bars gives the prefix of the prepared frame. |
| `Interpreters.DisjointKeepsPrices` | src/trader_mcp/indicators/registry.py:433-464 | If no indicator output is named like a bar column, the prepared prices are the bars' prices. |
| `UndefinedRules.UndefinedFiresIff` | src/trader_mcp/strategy/evaluator.py:488-511 | An undefined value is promised to be no signal. For every well-typed rule and every row at which each comparison has an undefined operand, the rule fires there if and only if its syntax alone makes it true: a chain when all its links are !=, crossings never, not, and, or as usual, a bare number when it mentions no column. |
| `UndefinedRules.TouchedFiresIff` | src/trader_mcp/strategy/evaluator.py:488-511 | The same read from the syntax alone: when the undefined columns, or a division by zero, reach every comparison and crossing of the rule, it fires exactly when that truth says so. |
| `UndefinedRules.ComparisonFiresIff` | src/trader_mcp/strategy/evaluator.py:488-511 | So a single comparison with an undefined operand fires if and only if its operator is !=, and its negation if and only if it is not. |
| `UndefinedRules.UndefinedRatioFires` | src/trader_mcp/strategy/evaluator.py:488-511 | The rules close / 0 != 1 and not (close / 0 > 1) are accepted and well typed, and fire on every row of every frame. |
| `UndefinedRules.ConstantDivisionByZeroFires` | src/trader_mcp/strategy/evaluator.py:488-511 | The rule 1 / 0 fires on every bar as well. |
| `SpecInterpreters.TriggeredIff` | src/trader_mcp/engine/interpreter.py:196-216 | A level is triggered exactly when the low reaches it and the previous low, if any, was above it. |
| `SpecInterpreters.OneRowGridWindow` | src/trader_mcp/engine/interpreter.py:196-216 | A one-row window agrees with the full run at a level exactly when a reached level was not already reached on the bar before. |
| `Quality.Normalize` | src/trader_mcp/data/quality.py:35-62 | Refuses an unknown timeframe; otherwise returns the normal form and the number of bars dropped, by one pass over a dictionary. |
| `Quality.NormalizedKeepsLast` | src/trader_mcp/data/quality.py:35-62 | The normal form is strictly ascending and holds, for exactly the timestamps given, the last bar given. |
| `Quality.NormalizedIdempotent` | src/trader_mcp/data/quality.py:35-62 | Normalizing twice is normalizing once. |
| `Quality.MonotonicIffAscending` | src/trader_mcp/data/quality.py:65-67 | Comparing neighbours is enough: the check holds exactly when all timestamps ascend. |
| `Quality.DetectGaps` | src/trader_mcp/data/quality.py:70-107 | The pairwise loop returns the specified gaps, or refuses an unknown timeframe. |
| `Quality.GapsSumToMissing` | src/trader_mcp/data/quality.py:70-121 | On an aligned series the gap counts sum to expected minus actual bars. |
| `Quality.GapsCoverMissing` | src/trader_mcp/data/quality.py:70-107 | On an aligned series a grid timestamp between first and last lies in a gap if and only if it has no bar. |
| `Quality.GapsAvoidBars` | src/trader_mcp/data/quality.py:70-107 | On any ascending series no bar lies in a gap, and gaps lie strictly between first and last. |
| `OhlcvStores.OHLCVStore.UpsertBars` | src/trader_mcp/data/store.py:209-240 | The dataset becomes the old one overlaid with the incoming bars, the last of each timestamp winning, and the rows added are counted. |
| `OhlcvStores.OHLCVStore.ReadBars` | src/trader_mcp/data/store.py:242-279 | The ascending bars inside the window, limited as a Python slice limits. |
| `OhlcvStores.ReadIs` | src/trader_mcp/data/store.py:242-279 | A read holds exactly the cached bars of the window, both ends included, in ascending order; a limit keeps the earliest of them, a negative one drops as many from the end. |
| `OhlcvStores.WindowedRead` | src/trader_mcp/data/store.py:242-279 | A windowed read is exactly the window of the dataset, in order. |
| `OhlcvStores.BatchingIndependent` | src/trader_mcp/data/store.py:209-240 | However a stream is cut into batches, the dataset and the total of rows added are the same. |
| `OhlcvStores.UpsertIdempotent` | src/trader_mcp/data/store.py:209-240 | Upserting the same bars again changes nothing and adds no row. |
| `Timeline.OverlayListed` | src/trader_mcp/data/store.py:132-207 | Writing a dataset out in order and reading it back gives the dataset. |
| `HistorySync.SyncHistory` | src/trader_mcp/data/sync.py:62-284 | Validates in the source's order before touching anything; then the store and every field of the report (rows, first and last stamp, gaps, pages, status, note) are those of the specified run, an unhandled exception leaving what was flushed; the sync time is recorded exactly when the run is not partial. |
| `HistorySync.FetchPages` | src/trader_mcp/data/sync.py:135-190 | The pagination loop terminates on until minus cursor for arbitrary pages, and leaves the store and page count of the specified pass. |
| `HistorySync.RepairGaps` | src/trader_mcp/data/sync.py:202-249 | The repair loops leave the store of the specified repair and stop at the first error. |
| `SyncProofs.CompletePassStoresAll` | src/trader_mcp/data/sync.py:135-190 | Against an honest, step-aligned exchange a pass that completes within the page cap leaves the old store overlaid with all its bars from the resume cursor through until; one cut short, up to some point. |
| `SyncProofs.BackfilledIff` | src/trader_mcp/data/sync.py:135-190 | After the main pass alone the whole requested range is present if and only if the old store already held the exchange's bars before the cursor. |
| `Backfill.HistoryCompleteIff` | src/trader_mcp/data/sync.py:135-258 | After a sync with repair that no error or cap cut short, the range is complete if and only if each of the exchange's bars in it lies between two bars that were cached in it or downloaded by the main pass. |
| `Backfill.RunFillsWindow` | src/trader_mcp/data/sync.py:135-258 | Such a sync caches, of the range, exactly the exchange's bars between the first and the last one it then holds, each with the exchange's values. |
| `Backfill.OlderBarStaysMissing` | src/trader_mcp/data/sync.py:135-142 | Whatever the exchange answers, a sync from before the only cached bar leaves the cache as it is. |
| `Backfill.BarBetweenIsFetched` | src/trader_mcp/data/sync.py:192-258 | A bar missing between cached ones is fetched, although the main pass resumes after it. |
| `CacheRewrites.CachedKeptIff` | src/trader_mcp/data/sync.py:161-258 | A run that returns leaves every cached bar as it was if and only if, of each cached timestamp, the last page bar its main pass kept, if any, is the cached one. |
| `CacheRewrites.PageRewritesCached` | src/trader_mcp/data/sync.py:176-177 | A page bar from before the cursor rewrites a cached bar. |
| `CrashResume.InterruptedRunsConverge` | src/trader_mcp/data/sync.py:62-190 | Starting empty, after any number of runs that failed or were killed at any request, a run that completes leaves exactly the exchange's bars of the range, as one uninterrupted run does. |
| `CrashResume.RunKeepsPrefix` | src/trader_mcp/data/sync.py:135-258 | Every run, however it ends, keeps the store a prefix of the exchange's bars of the range; repair does not disturb it. |
| `SyncProofs.RepairKeepsCached` | src/trader_mcp/data/sync.py:192-258 | A repair pass never changes or drops a bar cached before it, whatever pages arrive. |
| `GapRepairs.RepairAccountsForRows` | src/trader_mcp/data/sync.py:192-258 | When the cached window and the pages lie on the grid, a repair leaves the window on it and lowers the missing bars by exactly the rows it adds. |
| `GapRepairs.RepairLeavesNoHole` | src/trader_mcp/data/sync.py:192-258 | A completed repair of at most 500 gaps against an honest exchange leaves no hole between the first and last cached bar of the window. |
| `GapCounts.GapsRepairedIs` | src/trader_mcp/data/sync.py:192-258 | On a grid, gaps_repaired is the number of gaps whose first bar was filled less the number of added bars left without a successor, for every run that returns; so it is negative exactly when the latter outnumber the former. |
| `Backfill.HonestGapsRepaired` | src/trader_mcp/data/sync.py:192-258 | Against an honest exchange both numbers can be read from its bars and the cache before the run. |
| `Backfill.SplitGapReportsMinusOne` | src/trader_mcp/data/sync.py:251-258 | A run against an honest exchange that has only the middle bar of a three-bar gap reports minus one. |
| `Resampling.Resample` | src/trader_mcp/data/resample.py:60-130 | The pass over mutable buckets returns the specified candles, or refuses unknown, finer and misaligned timeframes. |
| `Resampling.Bucket.Add` | src/trader_mcp/data/resample.py:48-57 | Earliest and latest timestamp choose open and close; extremes and volume accumulate. |
| `ResampleProofs.ResampleComposes` | src/trader_mcp/data/resample.py:97-130 | For bars at distinct times, resampling through an intermediate timeframe equals resampling directly, in every field. |
| `ResampleProofs.OrderIndependent` | src/trader_mcp/data/resample.py:97-130 | Two orders of the same bars resample alike. |
| `ResampleProofs.ResampleShape` | src/trader_mcp/data/resample.py:97-130 | The stamps are strictly ascending and epoch-aligned, and the total volume is conserved. |
| `ResampleProofs.ResampleStreams` | src/trader_mcp/data/resample.py:97-130 | On ascending bars the bucket dictionary gives the candles of a one-bar-at-a-time stream. |
| `Drawdown.MaxDrawdownIsWorstPair` | src/trader_mcp/engine/metrics.py:192-203 | On a curve that starts positive and never goes below zero the running-peak result is the worst fall over all pairs of points, and lies in 0 to 100. |
| `Drawdown.ZeroIffNeverFalls` | src/trader_mcp/engine/metrics.py:192-203 | It is zero if and only if the curve never falls. |
| `Drawdown.MaxDrawdownScales` | src/trader_mcp/engine/metrics.py:192-203 | Scaling the curve leaves it unchanged. |
| `RunDrawdown.SolventRunDrawdown` | src/trader_mcp/engine/metrics.py:192-203 | It is that worst fall for the equity curve of every solvent long-only run without funding. |
| `TradeForms.RuleTradesAccounted` | src/trader_mcp/engine/broker.py:414-540 | Every trade of a rule run in the bars' own numbers: filled at its entry bar's open slipped against it, sized on initial cash plus the pnl before it, left at a slipped open, at its percentage level or at the last close, with the funding of each interval that ended while it was held; fees, pnl and pnl percent follow. |
| `TradeForms.SessionTradesAccounted` | src/trader_mcp/execution/paper_broker.py:296-450 | The same of every trade of a completed live session. |
| `TradeForms.PaidIsOwed` | src/trader_mcp/engine/broker.py:530-540 | The funding paid by the position open after any bar: over the bars held, the intervals that ended in each, times its close, the size and the rate; plus for a long, minus for a short, nothing off a swap. A bar's length in hours is tabled by timeframe. |
| `TradeForms.CurveAccounted` | src/trader_mcp/engine/broker.py:542-550 | Each equity point is initial cash plus the pnl so far plus the open position's gain at the close less its entry fee and funding; the last is what all trades earned. |
| `TradeForms.DecisionOnRecord` | src/trader_mcp/engine/broker.py:187-216 | Over ascending bars some trade enters at a bar on a side exactly when the decision there opens that side, and one leaves there on a signal exactly when it closes. |
| `TradeForms.BacktestFollowsSignals` | src/trader_mcp/engine/broker.py:187-216 | So a backtest's trades show, bar for bar, the flags of the signal before: left on the side's own exit or an opposite entry, entered when flat or just left, long before short. |
| `TradeForms.SessionFollowsSignals` | src/trader_mcp/execution/runtime.py:253-286 | A completed session's trades show them folded: any exit leaves, and the short entry counts only without a long one. |
| `SessionLog.SessionLogsTrades` | src/trader_mcp/execution/paper_broker.py:353-438 | In a completed rule session the order ids count up from one, and the executed records are the closes of the trades, one for each in order: the other side, the whole size, the exit price as average, the taker fee, and the reason. |
| `GridForms.GridLevelsAre` | src/trader_mcp/engine/broker.py:318-322 | The levels: as many as configured, the first the lower bound, the last the upper, ascending and equally spaced. |
| `GridForms.TargetIs` | src/trader_mcp/engine/broker.py:325-328 | The target of a level is the next one up; the top level has none. |
| `GridForms.GridHoldsIff` | src/trader_mcp/engine/broker.py:243-300 | After every bar a level is held if and only if it was held before or triggered on the previous bar, and the close has not reached the level above; otherwise its sale at that level is on record. |
| `GridForms.GridTradesAccounted` | src/trader_mcp/engine/broker.py:243-316 | Every grid trade: one level's equal share of the allocation, bought at the level slipped up on a bar after the level was triggered, sold at the next level slipped down on a bar that closed there, or at the last close; fees, pnl and percent follow. |
| `GridForms.GridCurveAccounted` | src/trader_mcp/engine/broker.py:302-332 | Each grid equity point is initial cash plus the pnl so far plus the lots at the close less their costs; the last is what all trades earned. |
| `GridForms.ValueSplits` | src/trader_mcp/engine/broker.py:330-331 | The inventory's value is the sum over its lots of size times mark. |
| `DcaForms.PurchasesAre` | src/trader_mcp/engine/broker.py:366-388 | After n bars the cost basis is the purchases allowed, the scheduled ones up to the cap, times the amount, or all the cash if that is less; while the cash covers them all of them are counted, and when it runs short the last one spends what was left. |
| `DcaForms.HoldingsAre` | src/trader_mcp/engine/broker.py:372-376 | The units held are the sum, over the bars, of what that bar's share of the spending buys at its open slipped up once the fee is taken out. |
| `DcaForms.DcaTradeIs` | src/trader_mcp/engine/broker.py:385-410 | The run records one trade exactly when something was scheduled and the fee leaves something to buy with: entered on the bar of the first scheduled purchase, sized and priced by these sums, sold at the last close slipped down; fees, pnl and percent are spelled out. |
| `DcaForms.DcaCurveIs` | src/trader_mcp/engine/broker.py:382-384 | Each equity point before the last is the cash not spent plus the units at the close. |
| `Fills.OneMoreFill` | src/trader_mcp/execution/models.py:207-219 | One more fill adds its quantity, its fee, and its price times quantity to what was paid: the average is volume weighted. |
| `Fills.AveragePays` | src/trader_mcp/execution/models.py:213-217 | The average times the raw quantity is what the fills cost, clamped or not. |
| `Fills.AtomicFill` | src/trader_mcp/execution/models.py:200-204 | A single fill of the whole amount is booked as it is. |
| `RuleArithmetic.ArithmeticReads` | src/trader_mcp/strategy/evaluator.py:444-455 | Wherever two operands read numbers, the rule reads their sum, difference, product, quotient, or the remainder a whole number of divisors below; undefined when the divisor is zero. |
| `RuleArithmetic.SignReads` | src/trader_mcp/strategy/evaluator.py:437-443 | Negation, plus and abs of an operand that reads a number. |
| `RuleArithmetic.ComparisonReads` | src/trader_mcp/strategy/evaluator.py:533-544 | Each of the six comparisons reads true exactly when it holds of the numbers read; a truth value counts as 0 or 1. |
| `RuleArithmetic.ChainReads` | src/trader_mcp/strategy/evaluator.py:456-464 | A chain reads the conjunction of its links. |
| `RuleArithmetic.LogicReads` | src/trader_mcp/strategy/evaluator.py:431-436 | And, or over operands that read truth values. |
| `RuleArithmetic.CrossingReads` | src/trader_mcp/strategy/evaluator.py:364-401 | A crossing reads true exactly when the previous row was at most (at least) and this row is above (below). |
| `RuleArithmetic.ExtremeReads` | src/trader_mcp/strategy/evaluator.py:547-570 | Min and max of two numbers read. |
| `RuleArithmetic.ArithmeticUndefined` | src/trader_mcp/strategy/evaluator.py:488-530 | Any operation with an undefined operand reads undefined. |
| `RuleArithmetic.ComparisonUndefined` | src/trader_mcp/strategy/evaluator.py:533-544 | A comparison with an undefined operand reads true exactly for !=. |
| `RuleArithmetic.NotReads` | src/trader_mcp/strategy/evaluator.py:404-420 | Not reads the negation. |
| `RuleArithmetic.FirstRowReads` | src/trader_mcp/strategy/evaluator.py:349-401 | No crossing is true in the first row. |
| `RuleArithmetic.ConstantFiringReads` | src/trader_mcp/engine/interpreter.py:160-167 | A rule without columns signals on every bar unless it reads false, zero or none; an undefined value signals. |
| `RuleArithmetic.FiringReads` | src/trader_mcp/engine/interpreter.py:144-167 | A rule that mentions a column signals on exactly the bars where it reads true or a number other than zero. |
| `RuleArithmetic.SignalsCarryRules` | src/trader_mcp/engine/interpreter.py:125-142 | Each of the four flags of a bar's signal is its own rule's; a missing rule gives none. |
| `RuleArithmetic.RisingFires` | src/trader_mcp/engine/interpreter.py:125-167 | So close - open > 0 signals on exactly the bars that close above their open. |
| `SignalForms.GridSignalIs` | src/trader_mcp/engine/interpreter.py:190-216 | A grid signal names exactly the values that divide the range evenly, that the bar's low reached and the low before, if any, had not. |
| `SignalForms.DcaCadence` | src/trader_mcp/engine/interpreter.py:246-253 | Of any interval_bars consecutive timeframe buckets exactly one asks for a purchase, and the epoch's bucket does. |
| `StrategyRuntimes.GateIs` | src/trader_mcp/execution/runtime.py:125-163 | The gate waits for one bar more than the longest whole lookback that any indicator declares under the five keys, or for one bar. |
| `SyncStatus.StatusIs` | src/trader_mcp/data/sync.py:161-268 | A returned run is partial, with a note, exactly when a fault stopped it: an adapter error that answered a chain of requests from the resume cursor, after as many pages as the note says, or else one in the repair. Otherwise it is empty exactly when the cache is. |
| `SyncStatus.ResumesAfterCached` | src/trader_mcp/data/sync.py:135-141 | The run resumes at the requested start or one step past the last cached bar, whichever is later. |
| `ResampleProofs.BucketBounds` | src/trader_mcp/data/resample.py:97-101 | A bar's bucket starts at the multiple of the timeframe at or just before it. |

## Left out

- Float rounding: money is `real`. Both brokers do the same operations in the same order, so parity does not turn on it.
  Infinities, which need overflow or an overflowing literal, are not part of the rule values.
- Rule operands outside the well-typed fragment: bitwise operators between Python integers and arithmetic on booleans
  compute something in Python, and are a type clash here. Every result about values is for well-typed rules.
- Fills.FilledPlusRemaining: does not equate the `filled` status with nothing remaining, because the code calls an
  order filled once the remainder is at most 1e-12; that condition is stated.
- EndToEnd.RuleSpecParity: like the other parity results from a spec, takes frames that keep the prices a run can tell
  apart, because the code departs otherwise (`PriceParity.PricesMatterExactly`). A NaN that replaces a price has no
  meaning in the ledger, so `FramePrices.PreparedBars` takes price columns that hold numbers.
- PriceParity.PricesMatterExactly: at 100 percent slippage takes a spec without stop and target, because a short then
  sells at zero and which of its exits a session can book turns on the sizing mode.
- Solvency.RunNeverNegative: does not cover specs that pay funding, short positions, or fixed sizes. For shorts
  `ShortSolvency.ShortSolvencyExact` is exact, and for swaps that charge longs `FundedLongs.FundedSolvencyExact`; longs
  of a fixed size, and longs that receive funding, carry no solvency bound.
- RuleScalars.ScalarAgreesWithColumn: states its NaN condition in one direction for whole rules, because an operator
  further out can absorb the difference; it is exact for a single `min` or `max`.
- SyncProofs.CompletePassStoresAll: assumes bars a whole number of steps apart, as the cursor itself does.
- ResampleProofs.ResampleComposes: assumes distinct timestamps, because on equal ones the first bar of the list gives
  the open.
- Parsing of rule strings and of timestamps, time zones, and the UTC coercion of naive datetimes.
- The pandas-ta formulas, and an indicator that raises on a window too short for it.
- Client order ids, order timestamps, pending reasons, and the immediate fill at a reference price that `submit`
  documents and does not do.
- `set_bar_hours`: bar hours are derived from the spec's timeframe, which is what the runtime always passes.
- The asynchronous loop around the runtime, its stop flag, and session storage.
- `positions()`, `balance()` and the rest of the query surface; `pnl()` reports no unrealized part for grid and DCA.
- DuckDB, Parquet, manifests and paths behind the store; the redacted error text inside the note of a sync report.
- Backfill.HistoryCompleteIff: takes runs that reach neither the page cap nor the cap of 500 repaired gaps.
- The page limit, which the exchange function already reflects; it is only validated.
- The exchange adapters, safety gate, prompts and tools of the server, the parameter sweep, the tear sheet and the
  remaining metrics, which are wrappers or direct formulas.
