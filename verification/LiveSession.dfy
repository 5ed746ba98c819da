/** A session: the runtime advancing the paper broker bar by bar, then force-closing it. */
module LiveSession {
  import opened Domain
  import opened Fills
  import opened FillModel
  import opened RuleEngine
  import opened GridEngine
  import opened DcaEngine
  import opened PaperModel

  /** What a session of this kind may be fed. */
  ghost predicate Feed(env: Env, bars: seq<OHLCVBar>, live: seq<BarSignal>) {
    && |bars| == |live|
    && PositiveBuys(live)
    && (env.spec.kind.Dca? ==> OpensPositive(bars))
  }

  /** The flags that a signal's intents leave behind. */
  function PendingOf(spec: Spec, s: BarSignal): Pending {
    match spec.kind
    case Grid(_) => NOTHING_PENDING.(gridBuys := s.gridBuyLevels)
    case Dca(_) => NOTHING_PENDING.(dcaBuy := s.dcaBuy)
    case Rule => Pending(s.exitLong || s.exitShort, s.enterLong, !s.enterLong && s.enterShort, [], false)
  }

  lemma {:induction false} GridIntentsPending(st: PaperState, levels: seq<real>)
    requires PositiveLevels(levels)
    ensures var r := SubmitAll(st, GridIntents(levels));
      r == st.(pending := st.pending.(gridBuys := st.pending.gridBuys + levels),
               orders := r.orders, nextOrder := r.nextOrder)
    decreases |levels|
  {
    if levels == [] {
      assert st.pending.gridBuys + levels == st.pending.gridBuys;
    } else {
      var next := Submitted(st, GridIntents(levels)[0]);
      assert GridIntents(levels)[1..] == GridIntents(levels[1..]);
      GridIntentsPending(next, levels[1..]);
      assert next.pending.gridBuys + levels[1..] == st.pending.gridBuys + levels;
    }
  }

  /** Submitting a signal's intents to a broker with nothing pending touches the order log and these flags only. */
  lemma SubmitSetsPending(spec: Spec, st: PaperState, s: BarSignal)
    requires PositiveLevels(s.gridBuyLevels) && st.pending == NOTHING_PENDING
    ensures var r := SubmitAll(st, IntentsFor(spec, s));
      r == st.(pending := PendingOf(spec, s), orders := r.orders, nextOrder := r.nextOrder)
  {
    match spec.kind
    case Grid(_) =>
      GridIntentsPending(st, s.gridBuyLevels);
      assert [] + s.gridBuyLevels == s.gridBuyLevels;
    case Dca(_) =>
      if s.dcaBuy { SubmitOne(st, MarketOrder(Buy, false, OnDca)); }
    case Rule =>
      var exits := if s.exitLong || s.exitShort then [MarketOrder(if s.exitLong then Sell else Buy, true, OnSignal)]
        else [];
      var entries := if s.enterLong then [MarketOrder(Buy, false, OnSignal)]
                     else if s.enterShort then [MarketOrder(Sell, false, OnSignal)] else [];
      assert IntentsFor(spec, s) == exits + entries;
      SubmitParts(st, exits, entries);
      if exits != [] { SubmitOne(st, exits[0]); }
      if entries != [] { SubmitOne(SubmitAll(st, exits), entries[0]); }
  }

  lemma SubmitOne(st: PaperState, i: OrderIntent)
    ensures SubmitAll(st, [i]) == Submitted(st, i)
  {
    assert [i][1..] == [];
  }

  lemma {:induction false} SubmitParts(st: PaperState, a: seq<OrderIntent>, b: seq<OrderIntent>)
    ensures SubmitAll(st, a + b) == SubmitAll(SubmitAll(st, a), b)
    decreases |a|
  {
    if a == [] {
      assert a + b == b;
    } else {
      assert (a + b)[1..] == a[1..] + b;
      SubmitParts(Submitted(st, a[0]), a[1..], b);
    }
  }

  /** `r` differs from `st` in the account and the order log only. */
  ghost predicate OnlyAccount(st: PaperState, r: PaperState) {
    r == st.WithAcct(r.Acct()).(orders := r.orders, nextOrder := r.nextOrder)
  }

  lemma CloseOnlyAccount(env: Env, st: PaperState, px: real, now: int, reason: ExitReason)
    requires st.pos.Some?
    ensures OnlyAccount(st, PaperClose(env, st, px, now, reason).state)
  {
  }

  lemma PendingRuleOnlyAccount(env: Env, st: PaperState, bar: OHLCVBar)
    ensures OnlyAccount(st, PendingRule(env, st, bar).state)
  {
    if st.pos.Some? && PendingClose(st) {
      CloseOnlyAccount(env, st, Slip(env.config, bar.open, st.pos.value.side.Long?), bar.time, Signal);
    }
  }

  lemma RiskOnlyAccount(env: Env, st: PaperState, bar: OHLCVBar)
    ensures OnlyAccount(st, RiskChecked(env, st, bar).state)
  {
    if st.pos.Some? && RiskExit(st.pos.value, bar.high, bar.low).Some? {
      var fill := RiskExit(st.pos.value, bar.high, bar.low).value;
      CloseOnlyAccount(env, st, fill.price, bar.time, fill.reason);
    }
  }

  lemma ExecutedKeepsValid(env: Env, st: PaperState, bar: OHLCVBar)
    requires st.Valid() && (env.spec.kind.Dca? ==> 0.0 < bar.open)
    ensures var r := Executed(env, st, bar).state;
      && r.Valid() && r.mark == st.mark && r.lastTime == st.lastTime && r.barIndex == st.barIndex
      && (!env.spec.kind.Rule? ==> r.pos == st.pos)
  {
    if env.spec.kind.Rule? {
      PendingRuleOnlyAccount(env, st, bar);
      RiskOnlyAccount(env, PendingRule(env, st, bar).state, bar);
    }
  }

  /** A bar that does not raise leaves the broker valid, with nothing pending and marked at the bar's close. */
  lemma BarKeepsValid(env: Env, st: PaperState, bar: OHLCVBar)
    requires st.Valid() && (env.spec.kind.Dca? ==> 0.0 < bar.open)
    requires PaperBar(env, st, bar).Done?
    ensures var r := PaperBar(env, st, bar).state;
      && r.Valid() && r.pending == NOTHING_PENDING
      && r.mark == Some(bar.close) && r.lastTime == Some(bar.time) && r.barIndex == st.barIndex + 1
      && (!env.spec.kind.Rule? && st.pos.None? ==> r.pos.None?)
  {
    ExecutedKeepsValid(env, Arrived(st, bar), bar);
    hide Executed;
  }

  /** The broker after the runtime has processed the first `n` bars; `live[i]` is its decision at bar `i`'s close. */
  function LiveRun(env: Env, bars: seq<OHLCVBar>, live: seq<BarSignal>, n: nat): (r: Outcome)
    requires Feed(env, bars, live) && n <= |bars|
    ensures r.Done? ==> r.state.Valid()
  {
    if n == 0 then Done(NewPaper(env))
    else
      var before := LiveRun(env, bars, live, n - 1);
      if before.Raised? then before
      else
        var done := PaperBar(env, before.state, bars[n - 1]);
        if done.Raised? then done
        else
          BarKeepsValid(env, before.state, bars[n - 1]);
          Done(SubmitAll(done.state, IntentsFor(env.spec, live[n - 1])))
  }

  function LiveFinal(env: Env, bars: seq<OHLCVBar>, live: seq<BarSignal>): Outcome
    requires Feed(env, bars, live)
  {
    var done := LiveRun(env, bars, live, |bars|);
    if done.Raised? then done else ForceClosed(env, done.state)
  }

  /** The session's portfolio equity after bar `i`, on the last bar taken after the force-close. */
  function LivePoint(env: Env, bars: seq<OHLCVBar>, live: seq<BarSignal>, i: nat): real
    requires Feed(env, bars, live) && i < |bars|
  {
    var o := if i == |bars| - 1 then LiveFinal(env, bars, live) else LiveRun(env, bars, live, i + 1);
    PaperEquity(env, o.state, bars[i].close)
  }

  function LiveCurve(env: Env, bars: seq<OHLCVBar>, live: seq<BarSignal>): seq<real>
    requires Feed(env, bars, live)
  {
    seq(|bars|, i requires 0 <= i < |bars| => LivePoint(env, bars, live, i))
  }

  /** Between bars the pending flags are exactly the last decision's, and the mark is the last close. */
  lemma LiveRunPending(env: Env, bars: seq<OHLCVBar>, live: seq<BarSignal>, n: nat)
    requires Feed(env, bars, live) && n <= |bars|
    requires LiveRun(env, bars, live, n).Done?
    ensures var st := LiveRun(env, bars, live, n).state;
      && st.pending == (if n == 0 then NOTHING_PENDING else PendingOf(env.spec, live[n - 1]))
      && st.mark == (if n == 0 then None else Some(bars[n - 1].close))
      && st.lastTime == (if n == 0 then None else Some(bars[n - 1].time))
      && st.barIndex == n - 1
  {
    hide PaperBar, SubmitAll, IntentsFor;
    if n > 0 {
      LiveRunPending(env, bars, live, n - 1);
      var before := LiveRun(env, bars, live, n - 1).state;
      BarKeepsValid(env, before, bars[n - 1]);
      SubmitSetsPending(env.spec, PaperBar(env, before, bars[n - 1]).state, live[n - 1]);
    }
  }
}
