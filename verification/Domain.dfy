/** The value types shared by the engine and the execution layer: bars, specs, configs, signals, trades. */
module Domain {
  datatype Option<+T> = None | Some(value: T)

  function Max(a: int, b: int): int {
    if a >= b then a else b
  }

  function Min(a: int, b: int): int {
    if a <= b then a else b
  }

  /** One candle. `time` is the open time in integer milliseconds since the epoch. */
  datatype OHLCVBar = OHLCVBar(time: int, open: real, high: real, low: real, close: real, volume: real)

  /** Prices as an exchange quotes them: positive, with open and close inside the bar's range. */
  ghost predicate PositivePrices(b: OHLCVBar) {
    && 0.0 < b.low
    && b.low <= b.open <= b.high
    && b.low <= b.close <= b.high
  }

  ghost predicate AllPositive(bars: seq<OHLCVBar>) {
    forall i | 0 <= i < |bars| :: PositivePrices(bars[i])
  }

  /** A feed yields its bars in ascending time order, one per timestamp. */
  ghost predicate Ascending(bars: seq<OHLCVBar>) {
    forall i, j | 0 <= i < j < |bars| :: bars[i].time < bars[j].time
  }

  const MINUTE_MS := 60_000

  const TIMEFRAME_MS: map<string, int> := map[
    "1m" := MINUTE_MS,
    "5m" := 5 * MINUTE_MS,
    "15m" := 15 * MINUTE_MS,
    "30m" := 30 * MINUTE_MS,
    "1h" := 60 * MINUTE_MS,
    "4h" := 4 * 60 * MINUTE_MS,
    "1d" := 24 * 60 * MINUTE_MS,
    "1w" := 7 * 24 * 60 * MINUTE_MS
  ]

  datatype Side = Long | Short

  datatype ExitReason = Signal | StopLoss | TakeProfit | EndOfData

  /** The interpreter's decision for one bar: an intent, not a fill. */
  datatype BarSignal = BarSignal(
    enterLong: bool, enterShort: bool, exitLong: bool, exitShort: bool,
    gridBuyLevels: seq<real>, dcaBuy: bool)

  const NO_SIGNAL := BarSignal(false, false, false, false, [], false)

  datatype SizingMode = PercentEquity | FixedQuote | FixedBase

  datatype GridConfig = GridConfig(lower: real, upper: real, levels: int, allocationPct: real)

  datatype DCAConfig = DCAConfig(amountQuote: real, intervalBars: int, maxPurchases: Option<int>)

  /** The `strategy_type` discriminator together with the block it requires. */
  datatype StrategyKind = Rule | Grid(grid: GridConfig) | Dca(dca: DCAConfig)

  datatype StrategySpec = StrategySpec(
    kind: StrategyKind,
    symbol: string,
    timeframe: string,
    /** The declared parameter overrides of each indicator, by parameter name. */
    indicatorParams: seq<map<string, real>>,
    sizingMode: SizingMode,
    sizingValue: real,
    stopLossPct: Option<real>,
    takeProfitPct: Option<real>,
    maxLeverage: Option<real>,
    taker: real)
  {
    /** The field constraints every spec passes at construction. */
    predicate Valid() {
      && timeframe in TIMEFRAME_MS
      && 0.0 < sizingValue
      && (sizingMode.PercentEquity? ==> sizingValue <= 100.0)
      && (stopLossPct.Some? ==> 0.0 < stopLossPct.value <= 100.0)
      && (takeProfitPct.Some? ==> 0.0 < takeProfitPct.value)
      && (maxLeverage.Some? ==> 1.0 <= maxLeverage.value <= 125.0)
      && 0.0 <= taker <= 1.0
      && match kind {
        case Rule => true
        case Grid(g) => 0.0 < g.lower < g.upper && 2 <= g.levels <= 200 && 0.0 < g.allocationPct <= 100.0
        case Dca(d) => 0.0 < d.amountQuote && 1 <= d.intervalBars
          && (d.maxPurchases.Some? ==> 1 <= d.maxPurchases.value)
      }
    }

    /** A unified symbol with a settle part (`BASE/QUOTE:SETTLE`) is a perpetual swap. */
    predicate IsPerp() {
      ':' in symbol
    }
  }

  type Spec = s: StrategySpec | s.Valid()
    witness StrategySpec(Rule, "BTC/USD", "1h", [], PercentEquity, 5.0, None, None, None, 0.0006)

  /** `BacktestConfig` and `ExecutionConfig` have the same fields and constraints. */
  datatype SimConfig = SimConfig(
    initialCash: real, slippagePct: real, fundingEnabled: bool, fundingRate: real, fundingIntervalHours: real)
  {
    predicate Valid() {
      && 0.0 < initialCash
      && 0.0 <= slippagePct <= 100.0
      && -1.0 <= fundingRate <= 1.0
      && 0.0 < fundingIntervalHours
    }
  }

  type Config = c: SimConfig | c.Valid() witness SimConfig(10_000.0, 0.0, true, 0.0001, 8.0)

  /** What one session or backtest is run with. */
  datatype Env = Env(spec: Spec, config: Config) {
    /** The spec timeframe's bar duration in hours. */
    function BarHours(): real {
      TIMEFRAME_MS[spec.timeframe] as real / 3_600_000.0
    }
  }

  /** The single open position of a rule strategy. */
  datatype Position = Position(
    side: Side, entryTime: int, entryPrice: real, size: real, entryFee: real,
    barsHeld: int, fundingPaid: real, hoursSinceFunding: real,
    stopPrice: Option<real>, takePrice: Option<real>)

  /** A closed round trip: a backtest's `SimulatedTrade` and a session's `TradeRecord`. */
  datatype Trade = Trade(
    side: Side, entryTime: int, exitTime: int, entryPrice: real, exitPrice: real, size: real,
    pnl: real, pnlPct: real, feesPaid: real, fundingPaid: real, barsHeld: int, exitReason: ExitReason)

  function SumPnl(ts: seq<Trade>): real {
    if ts == [] then 0.0 else SumPnl(ts[..|ts| - 1]) + ts[|ts| - 1].pnl
  }

  function SumFees(ts: seq<Trade>): real {
    if ts == [] then 0.0 else SumFees(ts[..|ts| - 1]) + ts[|ts| - 1].feesPaid
  }

  function SumFunding(ts: seq<Trade>): real {
    if ts == [] then 0.0 else SumFunding(ts[..|ts| - 1]) + ts[|ts| - 1].fundingPaid
  }

  lemma SumsSnoc(ts: seq<Trade>, t: Trade)
    ensures SumPnl(ts + [t]) == SumPnl(ts) + t.pnl
    ensures SumFees(ts + [t]) == SumFees(ts) + t.feesPaid
    ensures SumFunding(ts + [t]) == SumFunding(ts) + t.fundingPaid
  {
    assert (ts + [t])[..|ts|] == ts;
  }
}
