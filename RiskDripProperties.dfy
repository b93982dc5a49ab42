/**
 * What the simulator guarantees about its trajectory, its cooldown flag,
 * its ruptures and its event log, stated over the specification in module
 * RiskDrip and proved for every configuration and every draw stream.
 */
module RiskDripProperties {
  import opened RiskDrip

  /** A sequence extended by one element keeps the prefixes it had. */
  lemma PrefixOfAppend<T>(t: seq<T>, s: seq<T>, x: T, j: nat, p: seq<T>)
    requires t == s + [x] && j <= |s| && s[..j] == p
    ensures t[..j] == p
  {
    assert t[..j] == s[..j];
  }

  /** The first `k + 1` balances never change once round `k - 1` is done. */
  lemma {:induction false} RunPrefix(c: Config, draws: nat -> real, k: nat, n: nat)
    requires k <= n
    ensures Run(c, draws, n).balances[..k + 1] == Run(c, draws, k).balances
    decreases n
  {
    if k == n {
      var t := Run(c, draws, n).balances;
      assert t[..|t|] == t;
    } else {
      RunPrefix(c, draws, k, n - 1);
      RunPrefixStep(c, draws, k, n);
    }
  }

  /** Round `n - 1` keeps the first `k + 1` balances where the earlier rounds left them. */
  lemma RunPrefixStep(c: Config, draws: nat -> real, k: nat, n: nat)
    requires k < n && Run(c, draws, n - 1).balances[..k + 1] == Run(c, draws, k).balances
    ensures Run(c, draws, n).balances[..k + 1] == Run(c, draws, k).balances
  {
    RunSucc(c, draws, n - 1);
    PrefixOfAppend(Run(c, draws, n).balances, Run(c, draws, n - 1).balances, RoundOf(c, draws, n - 1).balance,
                   k + 1, Run(c, draws, k).balances);
  }

  /** Entry `i` of the trajectory is where round `i` starts, entry `i + 1` where it ends. */
  lemma TrajectoryEntries(c: Config, draws: nat -> real, i: nat)
    requires i < c.rounds
    ensures Simulate(c, draws).0[i] == RoundOf(c, draws, i).current
    ensures Simulate(c, draws).0[i + 1] == RoundOf(c, draws, i).balance
  {
    RunPrefix(c, draws, i + 1, c.rounds);
    RunSucc(c, draws, i);
    var b := Run(c, draws, c.rounds).balances;
    assert b[..i + 2] == Run(c, draws, i + 1).balances;
    assert b[i] == b[..i + 2][i] && b[i + 1] == b[..i + 2][i + 1];
  }

  /**
   * The balance update of round `i`: the allocation is the chosen fraction of
   * the current balance, the pre-cash-out balance is what is left plus what
   * the allocation returned (on a loss, the balance less the lost part of the
   * stake), and a rupture cashes out to `cashoutPct` of it.
   */
  lemma RoundArithmetic(c: Config, draws: nat -> real, i: nat)
    requires i < c.rounds
    ensures var b, r := Simulate(c, draws).0, RoundOf(c, draws, i);
      && r.allocation == r.pct * b[i]
      && r.preCashout == b[i] - r.allocation + Gain(c, r.allocation, r.outcome)
      && (r.outcome.Loss? ==> r.preCashout == b[i] - r.allocation * r.outcome.lossFrac)
      && (r.outcome.Tenner? ==> r.preCashout == b[i] + r.allocation * (c.tennerGain - 1.0))
      && b[i + 1] == (if r.outcome.Tenner? then r.preCashout * c.cashoutPct else r.preCashout)
  {
    TrajectoryEntries(c, draws, i);
    var r := RoundOf(c, draws, i);
    assert r.allocation == r.pct * r.current;
  }

  /** The cooldown flag after `n` rounds is set exactly when round `n - 1` ruptured. */
  lemma CooldownFlag(c: Config, draws: nat -> real, n: nat)
    ensures Run(c, draws, n).inCooldown <==> n > 0 && Ruptured(c, draws, n - 1)
  {
    if n > 0 {
      RunSucc(c, draws, n - 1);
    }
  }

  /**
   * Round `i` uses the cooldown fraction exactly when round `i - 1` ruptured,
   * and the base fraction otherwise; in particular round 0 uses the base one.
   */
  lemma AllocationFraction(c: Config, draws: nat -> real, i: nat)
    ensures RoundOf(c, draws, i).cooldown <==> i > 0 && Ruptured(c, draws, i - 1)
    ensures RoundOf(c, draws, i).pct ==
      if i > 0 && Ruptured(c, draws, i - 1) then c.cooldownAllocationPct else c.baseAllocationPct
  {
    CooldownFlag(c, draws, i);
  }

  /**
   * Cooldown lasts one round: a cooldown round that does not itself rupture
   * is followed by a round at the base fraction, whatever came before.
   */
  lemma CooldownLastsOneRound(c: Config, draws: nat -> real, i: nat)
    requires RoundOf(c, draws, i).cooldown && !Ruptured(c, draws, i)
    ensures !RoundOf(c, draws, i + 1).cooldown
    ensures RoundOf(c, draws, i + 1).pct == c.baseAllocationPct
  {
    AllocationFraction(c, draws, i + 1);
  }

  /**
   * Round `i` ruptures exactly when its missile draw is below `missileChance`
   * and the draw after it is below `tennerChance`.
   */
  lemma RuptureCondition(c: Config, draws: nat -> real, i: nat)
    ensures var p := Run(c, draws, i).cursor;
      Ruptured(c, draws, i) <==> draws(p) < c.missileChance && draws(p + 1) < c.tennerChance
  {
  }

  /** The three events of one round and the draw each is made of. */
  lemma OutcomeRanges(c: Config, draws: nat -> real, i: nat)
    requires forall k :: 0.0 <= draws(k) < 1.0
    ensures var o := RoundOf(c, draws, i).outcome;
      && (o.Loss? && MinLossFrac <= c.lossCap ==> MinLossFrac <= o.lossFrac <= c.lossCap)
      && (o.Loss? && MinLossFrac < c.lossCap ==> o.lossFrac < c.lossCap)
      && (o.Missile? && c.gainLow <= c.gainHigh ==> c.gainLow <= o.factor <= c.gainHigh)
  {
    var p := Run(c, draws, i).cursor;
    assert 0.0 <= draws(p + 1) < 1.0 && 0.0 <= draws(p + 2) < 1.0;
  }

  /** Every event is a rupture of one of the first `n` rounds and carries that round's balances. */
  ghost predicate EventsAreRuptures(c: Config, draws: nat -> real, evs: seq<Event>, n: nat)
  {
    forall k :: 0 <= k < |evs| ==>
      && evs[k].round < n
      && Ruptured(c, draws, evs[k].round)
      && evs[k].preCashout == RoundOf(c, draws, evs[k].round).preCashout
      && evs[k].postCashout == RoundOf(c, draws, evs[k].round).balance
  }

  /** Events are in strictly increasing round order. */
  ghost predicate Chronological(evs: seq<Event>)
  {
    forall k, l :: 0 <= k < l < |evs| ==> evs[k].round < evs[l].round
  }

  /** When logging, each rupture among the first `n` rounds has its event. */
  ghost predicate RupturesLogged(c: Config, draws: nat -> real, evs: seq<Event>, n: nat)
  {
    forall i :: 0 <= i < n && c.logEvents && Ruptured(c, draws, i) ==>
      exists k :: 0 <= k < |evs| && evs[k].round == i
  }

  /** Round `n` adds its event to the log exactly when it ruptures with logging on. */
  lemma EventLogStep(c: Config, draws: nat -> real, n: nat)
    ensures var evs, r := Run(c, draws, n).events, RoundOf(c, draws, n);
      Run(c, draws, n + 1).events ==
        if Ruptured(c, draws, n) && c.logEvents then evs + [Event(n, r.preCashout, r.balance)] else evs
  {
    RunSucc(c, draws, n);
  }

  /** Appending round `n`'s own event, if any, keeps a log of ruptures a log of ruptures. */
  lemma RupturesAppend(c: Config, draws: nat -> real, evs: seq<Event>, evs': seq<Event>, n: nat, appended: bool, e: Event)
    requires EventsAreRuptures(c, draws, evs, n)
    requires appended ==> Ruptured(c, draws, n) && e == Event(n, RoundOf(c, draws, n).preCashout, RoundOf(c, draws, n).balance)
    requires evs' == if appended then evs + [e] else evs
    ensures EventsAreRuptures(c, draws, evs', n + 1)
  {
  }

  /** Round `n` keeps the log a log of ruptures. */
  lemma RupturesStep(c: Config, draws: nat -> real, n: nat)
    requires EventsAreRuptures(c, draws, Run(c, draws, n).events, n)
    ensures EventsAreRuptures(c, draws, Run(c, draws, n + 1).events, n + 1)
  {
    EventLogStep(c, draws, n);
    var r := RoundOf(c, draws, n);
    RupturesAppend(c, draws, Run(c, draws, n).events, Run(c, draws, n + 1).events, n,
                   Ruptured(c, draws, n) && c.logEvents, Event(n, r.preCashout, r.balance));
  }

  /** The log kept by the first `n` rounds holds only their ruptures. */
  lemma {:induction false} LoggedAreRuptures(c: Config, draws: nat -> real, n: nat)
    ensures EventsAreRuptures(c, draws, Run(c, draws, n).events, n)
  {
    if n > 0 {
      LoggedAreRuptures(c, draws, n - 1);
      RupturesStep(c, draws, n - 1);
    }
  }

  /** Appending an event for round `n` to a log of earlier rounds keeps it in round order. */
  lemma ChronologicalStep(evs: seq<Event>, evs': seq<Event>, n: nat, appended: bool, e: Event)
    requires Chronological(evs) && forall k :: 0 <= k < |evs| ==> evs[k].round < n
    requires e.round == n && evs' == if appended then evs + [e] else evs
    ensures Chronological(evs')
  {
  }

  /** The log kept by the first `n` rounds is in round order. */
  lemma {:induction false} LogIsChronological(c: Config, draws: nat -> real, n: nat)
    ensures Chronological(Run(c, draws, n).events)
  {
    if n > 0 {
      LogIsChronological(c, draws, n - 1);
      LoggedAreRuptures(c, draws, n - 1);
      EventLogStep(c, draws, n - 1);
      var r := RoundOf(c, draws, n - 1);
      ChronologicalStep(Run(c, draws, n - 1).events, Run(c, draws, n).events, n - 1,
                        Ruptured(c, draws, n - 1) && c.logEvents, Event(n - 1, r.preCashout, r.balance));
    }
  }

  /** Appending round `n`'s event when it ruptures keeps a complete log complete. */
  lemma CompleteStep(c: Config, draws: nat -> real, evs: seq<Event>, evs': seq<Event>, n: nat, e: Event)
    requires RupturesLogged(c, draws, evs, n)
    requires e.round == n
    requires evs' == if Ruptured(c, draws, n) && c.logEvents then evs + [e] else evs
    ensures RupturesLogged(c, draws, evs', n + 1)
  {
    forall i | 0 <= i < n + 1 && c.logEvents && Ruptured(c, draws, i)
      ensures exists k :: 0 <= k < |evs'| && evs'[k].round == i
    {
      if i == n {
        assert evs'[|evs'| - 1].round == i;
      } else {
        var k :| 0 <= k < |evs| && evs[k].round == i;
        assert evs'[k].round == i;
      }
    }
  }

  /** With logging on, the log kept by the first `n` rounds misses no rupture. */
  lemma {:induction false} LogIsComplete(c: Config, draws: nat -> real, n: nat)
    ensures RupturesLogged(c, draws, Run(c, draws, n).events, n)
  {
    if n > 0 {
      LogIsComplete(c, draws, n - 1);
      EventLogStep(c, draws, n - 1);
      var r := RoundOf(c, draws, n - 1);
      CompleteStep(c, draws, Run(c, draws, n - 1).events, Run(c, draws, n).events, n - 1,
                   Event(n - 1, r.preCashout, r.balance));
    }
  }

  /**
   * The simulator's event log: each event is a rupture round of this run,
   * records that round's balance before the cash-out and after it, and the
   * latter is `cashoutPct` of the former and the trajectory's next entry;
   * events are in increasing round order; with logging on, every rupture
   * has its event.
   */
  lemma EventsMatchRuptures(c: Config, draws: nat -> real)
    ensures var (b, evs) := Simulate(c, draws);
      && (forall k :: 0 <= k < |evs| ==>
            && evs[k].round < c.rounds
            && Ruptured(c, draws, evs[k].round)
            && evs[k].preCashout == RoundOf(c, draws, evs[k].round).preCashout
            && evs[k].postCashout == evs[k].preCashout * c.cashoutPct
            && evs[k].postCashout == b[evs[k].round + 1])
      && (forall k, l :: 0 <= k < l < |evs| ==> evs[k].round < evs[l].round)
      && (forall i :: 0 <= i < c.rounds && c.logEvents && Ruptured(c, draws, i) ==>
            exists k :: 0 <= k < |evs| && evs[k].round == i)
  {
    LoggedAreRuptures(c, draws, c.rounds);
    LogIsChronological(c, draws, c.rounds);
    LogIsComplete(c, draws, c.rounds);
    var evs := Simulate(c, draws).1;
    forall k | 0 <= k < |evs|
      ensures evs[k].postCashout == evs[k].preCashout * c.cashoutPct
      ensures evs[k].postCashout == Simulate(c, draws).0[evs[k].round + 1]
    {
      TrajectoryEntries(c, draws, evs[k].round);
    }
  }

  /**
   * Without a chance of a missile (and with draws in [0, 1)) no round
   * ruptures, the event log stays empty and the cooldown fraction is never
   * used.
   */
  lemma NoMissileNoRupture(c: Config, draws: nat -> real)
    requires c.missileChance <= 0.0
    requires forall k :: 0.0 <= draws(k)
    ensures forall i :: !Ruptured(c, draws, i)
    ensures forall i :: RoundOf(c, draws, i).pct == c.baseAllocationPct
    ensures Simulate(c, draws).1 == []
  {
    forall i ensures RoundOf(c, draws, i).pct == c.baseAllocationPct {
      AllocationFraction(c, draws, i);
    }
    EventsMatchRuptures(c, draws);
    var evs := Simulate(c, draws).1;
    if |evs| > 0 {
      assert Ruptured(c, draws, evs[0].round);
    }
  }

  /** The parameter ranges under which no balance can become negative. */
  predicate SaneConfig(c: Config)
  {
    && 0.0 <= c.startingBalance
    && 0.0 <= c.baseAllocationPct <= 1.0
    && 0.0 <= c.cooldownAllocationPct <= 1.0
    && 0.0 <= c.gainLow <= c.gainHigh
    && 0.0 <= c.tennerGain
    && MinLossFrac <= c.lossCap <= 1.0
    && 0.0 <= c.cashoutPct
  }

  /** The default parameters lie in the ranges where no balance can become negative. */
  lemma DefaultsAreSane()
    ensures SaneConfig(DefaultConfig())
  {
  }

  /** A non-negative amount scaled by a fraction in [0, 1] stays between zero and itself. */
  lemma FractionOf(x: real, f: real)
    requires 0.0 <= x && 0.0 <= f <= 1.0
    ensures 0.0 <= x * f <= x
  {
    assert x - x * f == x * (1.0 - f);
  }

  /** A stake that is a fraction in [0, 1] of a non-negative balance is at most that balance. */
  lemma StakeWithinBalance(current: real, pct: real, allocation: real)
    requires 0.0 <= current && 0.0 <= pct <= 1.0 && allocation == pct * current
    ensures 0.0 <= allocation <= current
  {
    FractionOf(current, pct);
  }

  /** What is left of a balance after its stake, plus a non-negative return, is non-negative. */
  lemma RemainderPlusGain(current: real, allocation: real, gain: real, pre: real)
    requires 0.0 <= allocation <= current && 0.0 <= gain
    requires pre == current - allocation + gain
    ensures 0.0 <= pre
  {
  }

  /** Cashing out a non-negative balance at a non-negative rate leaves it non-negative. */
  lemma CashoutNonNegative(pre: real, pct: real)
    requires 0.0 <= pre && 0.0 <= pct
    ensures 0.0 <= pre * pct
  {
  }

  /** The allocated stake returns a non-negative amount under sane parameters. */
  lemma GainNonNegative(c: Config, allocation: real, o: Outcome)
    requires SaneConfig(c) && 0.0 <= allocation
    requires o.Missile? ==> 0.0 <= o.factor
    requires o.Loss? ==> o.lossFrac <= 1.0
    ensures 0.0 <= Gain(c, allocation, o)
  {
    match o
    case Tenner =>
    case Missile(u) =>
    case Loss(f) =>
      if 0.0 <= f {
        FractionOf(allocation, f);
      }
  }

  /** The balance a round ends with, from its parts, is non-negative under sane parameters. */
  lemma RoundPartsNonNegative(c: Config, current: real, pct: real, allocation: real, o: Outcome, pre: real, balance: real)
    requires SaneConfig(c) && 0.0 <= current && 0.0 <= pct <= 1.0 && allocation == pct * current
    requires o.Missile? ==> 0.0 <= o.factor
    requires o.Loss? ==> o.lossFrac <= 1.0
    requires pre == current - allocation + Gain(c, allocation, o)
    requires balance == if o.Tenner? then pre * c.cashoutPct else pre
    ensures 0.0 <= balance
  {
    StakeWithinBalance(current, pct, allocation);
    GainNonNegative(c, allocation, o);
    RemainderPlusGain(current, allocation, Gain(c, allocation, o), pre);
    if o.Tenner? {
      CashoutNonNegative(pre, c.cashoutPct);
    }
  }

  /** One round from a non-negative balance ends non-negative. */
  lemma RoundKeepsNonNegative(c: Config, draws: nat -> real, inCooldown: bool, current: real, pos: nat)
    requires SaneConfig(c) && 0.0 <= current
    requires forall k :: 0.0 <= draws(k) < 1.0
    ensures 0.0 <= PlayRound(c, draws, inCooldown, current, pos).balance
  {
    var r := PlayRound(c, draws, inCooldown, current, pos);
    assert 0.0 <= draws(pos + 1) < 1.0 && 0.0 <= draws(pos + 2) < 1.0;
    RoundPartsNonNegative(c, current, r.pct, r.allocation, r.outcome, r.preCashout, r.balance);
  }

  /** Under sane parameters and draws in [0, 1) every balance is non-negative. */
  lemma {:induction false} BalancesNonNegative(c: Config, draws: nat -> real, n: nat)
    requires SaneConfig(c)
    requires forall k :: 0.0 <= draws(k) < 1.0
    ensures forall k :: 0 <= k <= n ==> 0.0 <= Run(c, draws, n).balances[k]
  {
    if n > 0 {
      BalancesNonNegative(c, draws, n - 1);
      RunSucc(c, draws, n - 1);
      var s := Run(c, draws, n - 1);
      RoundKeepsNonNegative(c, draws, s.inCooldown, s.balances[n - 1], s.cursor);
      assert Run(c, draws, n).balances == s.balances + [RoundOf(c, draws, n - 1).balance];
    }
  }

  /** The simulator's default parameters, with no missile chance and a single round. */
  function LossScenario(): Config
  {
    DefaultConfig().(missileChance := 0.0, rounds := 1)
  }

  /**
   * With no missile and a loss draw that makes the loss fraction 0.10, the
   * allocation of 800 loses 80 and the balance goes to 720.
   */
  lemma LossRoundExample(draws: nat -> real)
    requires 0.0 <= draws(0) && draws(1) == 9.0 / 14.0
    ensures Simulate(LossScenario(), draws) == ([800.0, 720.0], [])
  {
    var c := LossScenario();
    RunSucc(c, draws, 0);
    assert Uniform(MinLossFrac, c.lossCap, draws(1)) == 0.10;
    var r := RoundOf(c, draws, 0);
    assert r.allocation == 800.0 && r.outcome == Loss(0.10);
    assert r.balance == 720.0;
    assert Run(c, draws, 1).balances == [800.0] + [720.0];
    assert c.rounds == 1 && !c.logEvents;
    var s := Simulate(c, draws);
    assert s.0 == Run(c, draws, 1).balances && s.1 == [];
    assert s.0 == [800.0, 720.0];
  }

  /** The simulator's default parameters, with two rounds and the event log on. */
  function TennerScenario(): Config
  {
    DefaultConfig().(rounds := 2, logEvents := true)
  }

  /**
   * Two tenners in a row: round 0 stakes all 800, wins 6400 and cashes out to
   * 5120; round 1 runs at the cooldown fraction 0.15, stakes 768, wins 6144
   * and cashes out from 10496 to 8396.8. A rupture in a cooldown round sets
   * the flag again, so the round after it is a cooldown round as well.
   */
  lemma TennerRoundsExample(draws: nat -> real)
    requires draws(0) < 0.15 && draws(1) < 0.04 && draws(2) < 0.15 && draws(3) < 0.04
    ensures Simulate(TennerScenario(), draws) ==
      ([800.0, 5120.0, 8396.8], [Event(0, 6400.0, 5120.0), Event(1, 10496.0, 8396.8)])
    ensures RoundOf(TennerScenario(), draws, 1).pct == 0.15
    ensures Run(TennerScenario(), draws, 2).inCooldown
  {
    var c := TennerScenario();
    RunSucc(c, draws, 0);
    var r0 := RoundOf(c, draws, 0);
    assert r0.outcome == Tenner && r0.next == 2;
    assert r0.allocation == 800.0 && r0.preCashout == 6400.0 && r0.balance == 5120.0;
    RunSucc(c, draws, 1);
    var r1 := RoundOf(c, draws, 1);
    assert r1.cooldown && r1.pct == 0.15 && r1.outcome == Tenner;
    assert r1.allocation == 768.0 && r1.preCashout == 10496.0 && r1.balance == 8396.8;
    assert Run(c, draws, 2).balances == [800.0] + [5120.0] + [8396.8];
    assert Run(c, draws, 2).events == [Event(0, 6400.0, 5120.0)] + [Event(1, 10496.0, 8396.8)];
    assert c.rounds == 2;
    var s := Simulate(c, draws);
    assert s.0 == Run(c, draws, 2).balances && s.1 == Run(c, draws, 2).events;
    assert s.0 == [800.0, 5120.0, 8396.8];
    assert s.1 == [Event(0, 6400.0, 5120.0), Event(1, 10496.0, 8396.8)];
  }
}
