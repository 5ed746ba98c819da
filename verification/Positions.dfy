/** The mutable record of the single open position, which both brokers update in place. */
module Positions {
  import opened Domain
  import opened FillModel

  class OpenPosition {
    const side: Side
    const entryTime: int
    const entryPrice: real
    const size: real
    const entryFee: real
    const stopPrice: Option<real>
    const takePrice: Option<real>
    var barsHeld: int
    var fundingPaid: real
    var hoursSinceFunding: real

    constructor (p: Position)
      ensures View() == p
    {
      side, entryTime, entryPrice, size, entryFee := p.side, p.entryTime, p.entryPrice, p.size, p.entryFee;
      stopPrice, takePrice := p.stopPrice, p.takePrice;
      barsHeld, fundingPaid, hoursSinceFunding := p.barsHeld, p.fundingPaid, p.hoursSinceFunding;
    }

    function View(): Position
      reads this
    {
      Position(side, entryTime, entryPrice, size, entryFee, barsHeld, fundingPaid, hoursSinceFunding, stopPrice,
        takePrice)
    }

    /** Charges perp funding for every interval that has elapsed. */
    method AccrueFunding(env: Env, mark: real)
      modifies this
      ensures View() == Accrued(env, old(View()), mark)
    {
      hide Intervals, Charge;
      if !PaysFunding(env) {
        return;
      }
      hoursSinceFunding := hoursSinceFunding + env.BarHours();
      ghost var start := View();
      while hoursSinceFunding >= env.config.fundingIntervalHours
        invariant Charged(env, View(), mark) == Charged(env, start, mark)
        decreases Intervals(env, hoursSinceFunding)
      {
        IntervalsStep(env, hoursSinceFunding);
        fundingPaid := fundingPaid + Charge(env, View(), mark);
        hoursSinceFunding := hoursSinceFunding - env.config.fundingIntervalHours;
      }
    }

    /** One more bar held. */
    method Hold(env: Env, mark: real)
      modifies this
      ensures View() == Held(env, old(View()), mark)
    {
      barsHeld := barsHeld + 1;
      AccrueFunding(env, mark);
    }
  }

  function ViewOf(pos: OpenPosition?): Option<Position>
    reads pos
  {
    if pos == null then None else Some(pos.View())
  }
}
