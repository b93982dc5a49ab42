/**
 * RiskDrip: a round-by-round simulator of a capital-allocation strategy.
 *
 * Each round a fraction of the portfolio is put at risk. The stake either
 * loses a bounded fraction of itself, wins a multiplicative gain (a
 * "missile"), or, rarely, wins an outsized multiple (a "tenner"). A tenner is
 * a rupture: the balance is cashed out to a fraction of itself and the next
 * round uses a reduced "cooldown" allocation.
 *
 * The random generator is replaced by an injected, infinite stream of unit
 * draws `draws: nat -> real` (each meant to lie in [0, 1)), consumed in the
 * order the simulator asks for them. With the stream fixed, the simulation is
 * a deterministic, total function of the configuration and the stream.
 */
module RiskDrip {

  /** Lower edge of the loss-fraction draw; it does not depend on the loss cap. */
  const MinLossFrac: real := 0.01

  /** The keyword arguments of the simulator (the seed is replaced by the draw stream). */
  datatype Config = Config(
    startingBalance: real,
    baseAllocationPct: real,
    missileChance: real,
    tennerChance: real,
    gainLow: real,         // gain_range[0]
    gainHigh: real,        // gain_range[1]
    tennerGain: real,
    lossCap: real,
    cashoutPct: real,
    cooldownAllocationPct: real,
    rounds: nat,
    logEvents: bool)

  /** The simulator's keyword defaults: 800 to start, everything at risk, 1000 rounds, no log. */
  function DefaultConfig(): Config
  {
    Config(800.0, 1.0, 0.15, 0.04, 1.0, 2.5, 8.0, 0.15, 0.80, 0.15, 1000, false)
  }

  /** One logged rupture: the round, the balance before and after the cash-out. */
  datatype Event = Event(round: nat, preCashout: real, postCashout: real)

  /** What the stake did in one round. */
  datatype Outcome =
    | Tenner                  // a missile whose tenner draw also hit: rupture
    | Missile(factor: real)   // an ordinary missile with its gain factor
    | Loss(lossFrac: real)    // no missile: the fraction of the stake lost

  /**
   * A uniform draw on [low, high) obtained from a unit draw `u`, as numpy's
   * `uniform(low, high)` computes it.
   */
  function Uniform(low: real, high: real, u: real): (r: real)
    ensures 0.0 <= u < 1.0 && low <= high ==> low <= r <= high
    ensures 0.0 <= u < 1.0 && low < high ==> r < high
  {
    var width := high - low;
    var scaled := width * u;
    assert 0.0 <= u < 1.0 && 0.0 <= width ==> 0.0 <= scaled <= width && (0.0 < width ==> scaled < width) by {
      if 0.0 <= u < 1.0 && 0.0 <= width {
        ScaledUnitDraw(width, u);
      }
    }
    low + scaled
  }

  /** A width scaled by a unit draw stays within the width. */
  lemma ScaledUnitDraw(width: real, u: real)
    requires 0.0 <= width && 0.0 <= u < 1.0
    ensures 0.0 <= width * u <= width
    ensures 0.0 < width ==> width * u < width
  {
    assert width - width * u == width * (1.0 - u);
    assert 0.0 < 1.0 - u;
  }

  /**
   * The draws of one round, taken from the stream starting at position `pos`:
   * the missile draw; the tenner draw only after a missile; the gain draw
   * only for a missile that is not a tenner; the loss draw only without a
   * missile. Returns the outcome and the position of the next round's first
   * draw.
   */
  function DrawOutcome(c: Config, draws: nat -> real, pos: nat): (r: (Outcome, nat))
    ensures r.0.Tenner? <==> draws(pos) < c.missileChance && draws(pos + 1) < c.tennerChance
    ensures r.0.Loss? <==> !(draws(pos) < c.missileChance)
    ensures r.0.Missile? ==> r.0.factor == Uniform(c.gainLow, c.gainHigh, draws(pos + 2))
    ensures r.0.Loss? ==> r.0.lossFrac == Uniform(MinLossFrac, c.lossCap, draws(pos + 1))
    ensures r.1 == pos + (if r.0.Missile? then 3 else 2)
  {
    if draws(pos) < c.missileChance then
      if draws(pos + 1) < c.tennerChance then
        (Tenner, pos + 2)
      else
        (Missile(Uniform(c.gainLow, c.gainHigh, draws(pos + 2))), pos + 3)
    else
      (Loss(Uniform(MinLossFrac, c.lossCap, draws(pos + 1))), pos + 2)
  }

  /** What the allocated stake returns for a given outcome. */
  function Gain(c: Config, allocation: real, o: Outcome): real
  {
    match o
    case Tenner => allocation * c.tennerGain
    case Missile(u) => allocation * u
    case Loss(f) => allocation - allocation * f
  }

  /** Everything one round computes, for stating properties of a round. */
  datatype RoundRecord = RoundRecord(
    cooldown: bool,       // the round consumed the cooldown flag
    pct: real,            // the allocation fraction used
    current: real,        // the balance at the start of the round
    allocation: real,
    outcome: Outcome,
    preCashout: real,     // current - allocation + gain
    balance: real,        // the balance appended to the trajectory
    next: nat)            // stream position after the round's draws

  /** One round played from balance `current` with the given cooldown flag. */
  function PlayRound(c: Config, draws: nat -> real, inCooldown: bool, current: real, pos: nat): (r: RoundRecord)
    ensures r.cooldown == inCooldown && r.current == current
    ensures r.pct == c.cooldownAllocationPct || r.pct == c.baseAllocationPct
    ensures r.outcome.Loss? ==> r.preCashout == current - r.allocation * r.outcome.lossFrac
    ensures r.outcome.Tenner? ==> r.balance == r.preCashout * c.cashoutPct
    ensures !r.outcome.Tenner? ==> r.balance == r.preCashout
  {
    var pct := if inCooldown then c.cooldownAllocationPct else c.baseAllocationPct;
    var allocation := pct * current;
    var (outcome, next) := DrawOutcome(c, draws, pos);
    var pre := current - allocation + Gain(c, allocation, outcome);
    RoundRecord(inCooldown, pct, current, allocation, outcome, pre,
                if outcome.Tenner? then pre * c.cashoutPct else pre, next)
  }

  /** The simulator's state between rounds. */
  datatype SimState = SimState(balances: seq<real>, inCooldown: bool, events: seq<Event>, cursor: nat)

  /** The state before the first round. */
  function Initial(c: Config): SimState
  {
    SimState([c.startingBalance], false, [], 0)
  }

  /** The state after round `i`, given the state before it and what the round computed. */
  function Advance(c: Config, s: SimState, r: RoundRecord, i: nat): (t: SimState)
    ensures |t.balances| == |s.balances| + 1
    ensures t.balances[|s.balances|] == r.balance
    ensures t.events == s.events || t.events == s.events + [Event(i, r.preCashout, r.balance)]
    ensures t.inCooldown == r.outcome.Tenner? && t.cursor == r.next
  {
    SimState(s.balances + [r.balance],
             r.outcome.Tenner?,
             if r.outcome.Tenner? && c.logEvents then s.events + [Event(i, r.preCashout, r.balance)] else s.events,
             r.next)
  }

  /** Advancing keeps every balance already in the trajectory. */
  lemma AdvanceKeepsTrajectory(c: Config, s: SimState, r: RoundRecord, i: nat)
    ensures Advance(c, s, r, i).balances[..|s.balances|] == s.balances
  {
  }

  /** Round `i` played from state `s`. */
  function Step(c: Config, draws: nat -> real, s: SimState, i: nat): SimState
    requires |s.balances| > 0
  {
    Advance(c, s, PlayRound(c, draws, s.inCooldown, s.balances[|s.balances| - 1], s.cursor), i)
  }

  /** The state after the first `n` rounds. */
  function Run(c: Config, draws: nat -> real, n: nat): (s: SimState)
    ensures |s.balances| == n + 1 && s.balances[0] == c.startingBalance
    ensures |s.events| <= n
    ensures !c.logEvents ==> s.events == []
    ensures n == 0 ==> !s.inCooldown
    decreases n, 1
  {
    if n == 0 then Initial(c) else Advance(c, Run(c, draws, n - 1), RoundOf(c, draws, n - 1), n - 1)
  }

  /** The record of round `i`, played from the state the first `i` rounds leave. */
  function RoundOf(c: Config, draws: nat -> real, i: nat): RoundRecord
    decreases i, 2
  {
    var s := Run(c, draws, i);
    PlayRound(c, draws, s.inCooldown, s.balances[i], s.cursor)
  }

  /** Round `i` ended in a tenner. */
  predicate Ruptured(c: Config, draws: nat -> real, i: nat)
  {
    RoundOf(c, draws, i).outcome.Tenner?
  }

  /** The state after `i + 1` rounds is round `i` applied to the state after `i`. */
  lemma RunSucc(c: Config, draws: nat -> real, i: nat)
    ensures Run(c, draws, i + 1) == Advance(c, Run(c, draws, i), RoundOf(c, draws, i), i)
  {
  }

  /** The same, with round `i` played from the last balance of the state after `i` rounds. */
  lemma RunStep(c: Config, draws: nat -> real, i: nat)
    ensures Run(c, draws, i + 1) == Step(c, draws, Run(c, draws, i), i)
  {
    RunSucc(c, draws, i);
  }

  /** The simulator's result: the balance trajectory and the event log. */
  function Simulate(c: Config, draws: nat -> real): (r: (seq<real>, seq<Event>))
    ensures |r.0| == c.rounds + 1 && r.0[0] == c.startingBalance
    ensures c.rounds == 0 ==> r == ([c.startingBalance], [])
    ensures |r.1| <= c.rounds
    ensures !c.logEvents ==> r.1 == []
  {
    var s := Run(c, draws, c.rounds);
    (s.balances, s.events)
  }

  /** Round `k` takes `trace[k]` to `trace[k + 1]`. */
  predicate Linked(c: Config, draws: nat -> real, trace: seq<SimState>, k: nat)
  {
    k + 1 < |trace| && |trace[k].balances| > 0 && trace[k + 1] == Step(c, draws, trace[k], k)
  }

  /** The states after 0, 1, ..., `c.rounds` rounds, each linked to the next. */
  lemma RunTrace(c: Config, draws: nat -> real) returns (trace: seq<SimState>)
    ensures |trace| == c.rounds + 1 && trace[0] == Initial(c)
    ensures forall k :: 0 <= k < c.rounds ==> Linked(c, draws, trace, k)
  {
    trace := seq(c.rounds + 1, (k: int) requires 0 <= k => Run(c, draws, k));
    forall k | 0 <= k < c.rounds
      ensures Linked(c, draws, trace, k)
    {
      RunStep(c, draws, k);
    }
  }

  /** A linked trace from the initial state is the run. */
  lemma {:induction false} TraceIsRun(c: Config, draws: nat -> real, trace: seq<SimState>, n: nat)
    requires n < |trace| && trace[0] == Initial(c)
    requires forall k :: 0 <= k < n ==> Linked(c, draws, trace, k)
    ensures trace[n] == Run(c, draws, n)
  {
    if n > 0 {
      TraceIsRun(c, draws, trace, n - 1);
      assert Linked(c, draws, trace, n - 1);
    }
  }

  /**
   * The simulator as the source runs it: a loop over the rounds that appends
   * to the trajectory and the event log and reads, clears and sets the
   * cooldown flag in place.
   */
  method SimulateRiskDrip(c: Config, draws: nat -> real) returns (balances: seq<real>, events: seq<Event>)
    ensures (balances, events) == Simulate(c, draws)
    ensures |balances| == c.rounds + 1 && balances[0] == c.startingBalance
  {
    ghost var trace := RunTrace(c, draws);
    balances := [c.startingBalance];
    var inCooldown := false;
    events := [];
    var cursor: nat := 0;
    for i := 0 to c.rounds
      invariant SimState(balances, inCooldown, events, cursor) == trace[i]
    {
      assert Linked(c, draws, trace, i);
      var current := balances[|balances| - 1];
      ghost var round := PlayRound(c, draws, inCooldown, current, cursor);
      var pct: real;
      if inCooldown {
        pct := c.cooldownAllocationPct;
        inCooldown := false;
      } else {
        pct := c.baseAllocationPct;
      }
      var allocation := pct * current;
      assert allocation == round.allocation;

      var rupture := false;
      var gain: real;
      var missileDraw := draws(cursor);
      cursor := cursor + 1;
      if missileDraw < c.missileChance {
        var tennerDraw := draws(cursor);
        cursor := cursor + 1;
        if tennerDraw < c.tennerChance {
          gain := allocation * c.tennerGain;
          rupture := true;
          assert round.outcome == Tenner && cursor == round.next;
        } else {
          var factor := Uniform(c.gainLow, c.gainHigh, draws(cursor));
          cursor := cursor + 1;
          gain := allocation * factor;
          assert round.outcome == Missile(factor) && cursor == round.next;
        }
      } else {
        var lossFrac := Uniform(MinLossFrac, c.lossCap, draws(cursor));
        cursor := cursor + 1;
        var loss := allocation * lossFrac;
        gain := allocation - loss;
        assert round.outcome == Loss(lossFrac) && cursor == round.next;
      }

      var newBalance := current - allocation + gain;
      assert rupture == round.outcome.Tenner? && newBalance == round.preCashout;
      if rupture {
        var cashoutValue := newBalance * c.cashoutPct;
        if c.logEvents {
          events := events + [Event(i, newBalance, cashoutValue)];
        }
        newBalance := cashoutValue;
        inCooldown := true;
      }
      assert newBalance == round.balance;
      balances := balances + [newBalance];
    }
    TraceIsRun(c, draws, trace, c.rounds);
  }
}
