/**
 The account of a rule strategy as a pure state machine. On each bar a decision is carried out at the open,
 then the risk exits are checked, then funding accrues. What a broker decides from a signal is its policy.
 */
module RuleEngine {
  import opened Domain
  import opened FillModel

  datatype Account = Account(
    cash: real, pos: Option<Position>, trades: seq<Trade>,
    realized: real, feesPaid: real, fundingPaid: real)

  function NewAccount(env: Env): Account {
    Account(env.config.initialCash, None, [], 0.0, 0.0, 0.0)
  }

  function SideOf(pos: Option<Position>): Option<Side> {
    if pos.Some? then Some(pos.value.side) else None
  }

  function OpenAt(env: Env, a: Account, side: Side, fillOpen: real, now: int): Account {
    var p := Opened(env, side, a.cash, fillOpen, now);
    a.(pos := Some(p), feesPaid := a.feesPaid + p.entryFee)
  }

  function CloseAt(env: Env, a: Account, px: real, now: int, reason: ExitReason): Account
    requires a.pos.Some?
  {
    var p := a.pos.value;
    var t := Closed(env, p, px, now, reason);
    Account(a.cash + t.pnl, None, a.trades + [t], a.realized + t.pnl,
            a.feesPaid + px * p.size * env.spec.taker, a.fundingPaid + p.fundingPaid)
  }

  /** What happens to the position at a bar's open. */
  datatype Decision = Decision(close: bool, open: Option<Side>)

  const IDLE := Decision(false, None)

  /** Only a held position can be closed, and only a flat account opens. */
  predicate Applicable(d: Decision, held: Option<Side>) {
    && (d.close ==> held.Some?)
    && (d.open.Some? ==> held.None? || d.close)
  }

  function AfterClose(env: Env, a: Account, d: Decision, bar: OHLCVBar): Account
    requires Applicable(d, SideOf(a.pos))
  {
    if d.close then CloseAt(env, a, Slip(env.config, bar.open, a.pos.value.side.Long?), bar.time, Signal) else a
  }

  function AfterDecision(env: Env, a: Account, d: Decision, bar: OHLCVBar): Account
    requires Applicable(d, SideOf(a.pos))
  {
    var b := AfterClose(env, a, d, bar);
    if d.open.Some? then OpenAt(env, b, d.open.value, bar.open, bar.time) else b
  }

  function AfterRisk(env: Env, a: Account, bar: OHLCVBar): Account {
    if a.pos.None? then a else
      match RiskExit(a.pos.value, bar.high, bar.low)
      case None => a
      case Some(fill) => CloseAt(env, a, fill.price, bar.time, fill.reason)
  }

  function AfterHold(env: Env, a: Account, bar: OHLCVBar): Account {
    if a.pos.None? then a else a.(pos := Some(Held(env, a.pos.value, bar.close)))
  }

  function AfterBar(env: Env, a: Account, d: Decision, bar: OHLCVBar): Account
    requires Applicable(d, SideOf(a.pos))
  {
    AfterHold(env, AfterRisk(env, AfterDecision(env, a, d, bar), bar), bar)
  }

  /** The batch broker reads a signal directly; the live one reads the intents it was folded into. */
  datatype Policy = Backtest | Live

  predicate WantsClose(policy: Policy, held: Side, s: BarSignal) {
    match policy
    case Backtest =>
      || (held.Long? && s.exitLong) || (held.Short? && s.exitShort)
      || (held.Long? && s.enterShort) || (held.Short? && s.enterLong)
    case Live =>
      || s.exitLong || s.exitShort
      || (held.Long? && s.enterShort && !s.enterLong) || (held.Short? && s.enterLong)
  }

  function Decide(policy: Policy, held: Option<Side>, s: BarSignal): (d: Decision)
    ensures Applicable(d, held)
  {
    var close := held.Some? && WantsClose(policy, held.value, s);
    var open :=
      if held.Some? && !close then None
      else if s.enterLong then Some(Long)
      else if s.enterShort then Some(Short)
      else None;
    Decision(close, open)
  }

  /** Who trades, and on which per-bar signals. */
  datatype Driver = Driver(policy: Policy, signals: seq<BarSignal>) {
    /** The signal carried out at bar `i`'s open: the previous bar's. */
    function Pending(i: nat): BarSignal
      requires i <= |signals|
    {
      if i == 0 then NO_SIGNAL else signals[i - 1]
    }
  }

  /** The account after the first `n` bars. */
  function Run(env: Env, bars: seq<OHLCVBar>, drv: Driver, n: nat): Account
    requires n <= |bars| == |drv.signals|
  {
    if n == 0 then NewAccount(env)
    else
      var a := Run(env, bars, drv, n - 1);
      AfterBar(env, a, Decide(drv.policy, SideOf(a.pos), drv.Pending(n - 1)), bars[n - 1])
  }

  function DecisionAt(env: Env, bars: seq<OHLCVBar>, drv: Driver, i: nat): (d: Decision)
    requires i < |bars| == |drv.signals|
    ensures Applicable(d, SideOf(Run(env, bars, drv, i).pos))
  {
    Decide(drv.policy, SideOf(Run(env, bars, drv, i).pos), drv.Pending(i))
  }

  lemma RunStep(env: Env, bars: seq<OHLCVBar>, drv: Driver, n: nat)
    requires n < |bars| == |drv.signals|
    ensures Run(env, bars, drv, n + 1) == AfterBar(env, Run(env, bars, drv, n), DecisionAt(env, bars, drv, n), bars[n])
  {
  }

  /** The equity point marked at bar `i`'s close. */
  function EquityAt(env: Env, bars: seq<OHLCVBar>, drv: Driver, i: nat): real
    requires i < |bars| == |drv.signals|
  {
    var a := Run(env, bars, drv, i + 1);
    Equity(a.cash, a.pos, bars[i].close)
  }

  /** The terminal force-close at the last bar's close. */
  function Liquidated(env: Env, a: Account, last: OHLCVBar): Account {
    if a.pos.Some? then CloseAt(env, a, last.close, last.time, EndOfData) else a
  }

  function Final(env: Env, bars: seq<OHLCVBar>, drv: Driver): Account
    requires |bars| == |drv.signals|
  {
    if bars == [] then NewAccount(env)
    else Liquidated(env, Run(env, bars, drv, |bars|), bars[|bars| - 1])
  }

  /** The reported curve's point at bar `i`: its mark, or the cash after the force-close on the last bar. */
  function CurvePoint(env: Env, bars: seq<OHLCVBar>, drv: Driver, i: nat): real
    requires i < |bars| == |drv.signals|
  {
    if i == |bars| - 1 then Final(env, bars, drv).cash else EquityAt(env, bars, drv, i)
  }

  function Curve(env: Env, bars: seq<OHLCVBar>, drv: Driver): seq<real>
    requires |bars| == |drv.signals|
  {
    seq(|bars|, i requires 0 <= i < |bars| => CurvePoint(env, bars, drv, i))
  }
}
