# RiskDrip in Dafny

A model of the RiskDrip simulator, `simulate_riskdrip_v2` in
`scripts/riskdripv1.py`, with proofs about it. Each round, RiskDrip stakes a
fraction of a portfolio. The stake does one of three things:

- it loses between 1% and `loss_cap` of itself;
- it wins a factor drawn from `gain_range` (a "missile");
- with small probability, it wins `tenner_gain` times itself (a "tenner").

A tenner is a rupture. The balance is cashed out to `cashout_pct` of itself. An
event is logged if logging is on. The next round stakes the reduced
`cooldown_allocation_pct` fraction instead of `base_allocation_pct`.

## How the model is built

- **Random draws.** NumPy's generator is replaced by an injected infinite
  stream of unit draws, `draws: nat -> real`. The draws are meant to lie in
  [0, 1), and lemmas that need this require it. The stream is consumed in the
  order the simulator calls the generator:
  - the missile draw;
  - the tenner draw, only after a missile;
  - the gain draw, only for a missile that is not a tenner;
  - the loss draw, only without a missile.

  A uniform draw on `[lo, hi)` is `lo + (hi - lo) * u`, the formula NumPy uses.
  With the stream fixed, the simulator is a total, deterministic function.
- **Numbers.** Balances and fractions are exact `real`s.
- **Events.** Events are records `Event(round, preCashout, postCashout)`, not
  formatted strings.
- **Two layers.**
  - `RiskDrip.Run` is the specification. It gives the state after `n` rounds:
    trajectory, cooldown flag, event log and stream position.
  - `RiskDrip.RoundOf` is what round `i` computes from the state the first `i`
    rounds leave.
  - `RiskDrip.SimulateRiskDrip` is the simulator's own loop. It appends to the
    trajectory and the log, and reads, clears and sets the cooldown flag in
    place. It is proved equal to the specification.
  - Module `RiskDripProperties` proves what the simulator guarantees, over the
    specification, for every configuration and every draw stream.

## Model

| member | source | states |
|---|---|---|
| RiskDrip.SimulateRiskDrip | scripts/riskdripv1.py:35-76 | The loop returns exactly the trajectory and event log of the round-by-round specification. The trajectory has `rounds + 1` entries and starts at `starting_balance`. |
| RiskDrip.Simulate | scripts/riskdripv1.py:35-39 | The trajectory has `rounds + 1` entries and starts at `starting_balance`. With zero rounds the result is `([starting_balance], [])`. There are at most `rounds` events, and none when logging is off. |
| RiskDrip.Run | scripts/riskdripv1.py:35-39 | After `n` rounds there are `n + 1` balances, the first is the starting balance, there are at most `n` events, and none without logging. Before any round the cooldown flag is clear. |
| RiskDrip.DrawOutcome | scripts/riskdripv1.py:52-61 | The round is a tenner iff the missile draw is below `missile_chance` and the next draw is below `tenner_chance`. It is a loss iff the missile draw is not below `missile_chance`. The gain factor and loss fraction come from the right stream positions and ranges. The round uses three draws after an ordinary missile and two otherwise. |
| RiskDrip.Uniform | scripts/riskdripv1.py:58-60 | For a unit draw in [0, 1) and `low <= high`, the value lies in `[low, high]`. It is strictly below `high` when `low < high`. |
| RiskDrip.DefaultConfig | scripts/riskdripv1.py:19-30 | Definition, no contract: the keyword defaults (start 800, base fraction 1.0, missile 0.15, tenner 0.04, gain range 1.0 to 2.5, tenner gain 8.0, loss cap 0.15, cash-out 0.80, cooldown fraction 0.15, 1000 rounds, no log). |
| RiskDrip.Gain | scripts/riskdripv1.py:55-61 | Definition, no contract: a tenner returns `allocation * tenner_gain`, a missile `allocation * factor`, a loss `allocation - allocation * lossFrac`. |
| RiskDrip.Initial | scripts/riskdripv1.py:35-37 | Definition, no contract: the trajectory holds only the starting balance, the flag is clear, the log is empty, and no draw has been used. |
| RiskDrip.Step | scripts/riskdripv1.py:40-74 | Definition, no contract: one loop iteration, played from the last balance, the flag and the stream position of the state. |
| RiskDrip.RoundOf | scripts/riskdripv1.py:40-72 | Definition, no contract: round `i` played from the state the first `i` rounds leave. |
| RiskDrip.Ruptured | scripts/riskdripv1.py:52-56 | Definition, no contract: round `i` ended in a tenner, the source's `rupture` flag. |
| RiskDrip.PlayRound | scripts/riskdripv1.py:40-72 | The fraction is the cooldown one or the base one. On a loss, the pre-cash-out balance is `current - allocation * lossFrac`. A tenner stores `pre * cashout_pct`; any other outcome stores `pre` unchanged. |
| RiskDrip.Advance | scripts/riskdripv1.py:69-74 | The trajectory grows by one entry, and the new last entry is the round's stored balance. The log is either unchanged or extended by `Event(i, pre, post)` with the round's balances. The cooldown flag becomes whether the round was a tenner, and the stream position moves past the round's draws. |
| RiskDrip.AdvanceKeepsTrajectory | scripts/riskdripv1.py:74 | A round keeps every balance already in the trajectory. |
| RiskDrip.RunTrace | scripts/riskdripv1.py:39 | The states after 0 to `rounds` rounds form a chain from the initial state, each state reached from the one before by one round. |
| RiskDrip.TraceIsRun | scripts/riskdripv1.py:35-39 | Any such chain from the initial state is the specification's run. |
| RiskDripProperties.RunPrefix | scripts/riskdripv1.py:74 | Later rounds never rewrite earlier trajectory entries: the first `k + 1` balances after `n >= k` rounds are the balances after `k` rounds. |
| RiskDripProperties.RunPrefixStep | scripts/riskdripv1.py:74 | One more round keeps the first `k + 1` balances. |
| RiskDripProperties.TrajectoryEntries | scripts/riskdripv1.py:40-74 | Trajectory entry `i` is the balance round `i` starts from. Entry `i + 1` is the balance round `i` stores. |
| RiskDripProperties.RoundArithmetic | scripts/riskdripv1.py:49-71 | The allocation is `pct * b[i]`. The pre-cash-out balance is `b[i] - allocation + gain`. On a loss it is `b[i] - allocation * lossFrac`. On a tenner it is `b[i] + allocation * (tenner_gain - 1)`. `b[i+1]` is `pre * cashout_pct` after a tenner and `pre` otherwise. |
| RiskDripProperties.CooldownFlag | scripts/riskdripv1.py:36-72 | After `n` rounds the cooldown flag is set iff round `n - 1` ruptured. |
| RiskDripProperties.AllocationFraction | scripts/riskdripv1.py:43-47 | Round `i` uses the cooldown fraction iff round `i - 1` ruptured, and otherwise the base fraction. Round 0 always uses the base fraction. |
| RiskDripProperties.CooldownLastsOneRound | scripts/riskdripv1.py:43-72 | A cooldown round that does not itself rupture is followed by a round at the base fraction. |
| RiskDripProperties.RuptureCondition | scripts/riskdripv1.py:53-56 | Round `i` ruptures iff its missile draw is below `missile_chance` and the following draw is below `tenner_chance`. |
| RiskDripProperties.OutcomeRanges | scripts/riskdripv1.py:58-60 | With unit draws in [0, 1): when `0.01 <= loss_cap`, a loss fraction lies in `[0.01, loss_cap]`, and strictly below `loss_cap` when `0.01 < loss_cap`. When the gain range's low end is at most its high end, a missile factor lies in the range. |
| RiskDripProperties.EventLogStep | scripts/riskdripv1.py:67-70 | Round `n` appends `Event(n, pre, post)` to the log iff it ruptures and logging is on. Otherwise the log is unchanged. |
| RiskDripProperties.RupturesAppend | scripts/riskdripv1.py:67-70 | Appending a round's own event, only when that round ruptured, keeps a log that holds only rupture events. |
| RiskDripProperties.RupturesStep | scripts/riskdripv1.py:67-70 | If the log after `n` rounds holds only ruptures, so does the log after `n + 1`. |
| RiskDripProperties.LoggedAreRuptures | scripts/riskdripv1.py:67-70 | Every logged event is a rupture of an earlier round and carries that round's pre- and post-cash-out balances. |
| RiskDripProperties.ChronologicalStep | scripts/riskdripv1.py:39-70 | Appending an event for a round later than all logged ones keeps the log in round order. |
| RiskDripProperties.LogIsChronological | scripts/riskdripv1.py:39-70 | The log is in strictly increasing round order. |
| RiskDripProperties.CompleteStep | scripts/riskdripv1.py:67-70 | Appending a rupturing round's event keeps a complete log complete. |
| RiskDripProperties.LogIsComplete | scripts/riskdripv1.py:67-70 | With logging on, every rupture among the first `n` rounds has its event. |
| RiskDripProperties.EventsMatchRuptures | scripts/riskdripv1.py:39-76 | The returned log holds exactly the rupture rounds when logging is on, in round order. Each event's post value is `pre * cashout_pct` and equals the next trajectory entry. |
| RiskDripProperties.NoMissileNoRupture | scripts/riskdripv1.py:52-56 | With `missile_chance <= 0` and non-negative draws, no round ruptures, every round uses the base fraction, and the log is empty. |
| RiskDripProperties.GainNonNegative | scripts/riskdripv1.py:55-61 | Under sane parameters, a non-negative stake returns a non-negative amount on a tenner, on a missile whose factor is non-negative, and on a loss whose fraction is at most 1. |
| RiskDripProperties.DefaultsAreSane | scripts/riskdripv1.py:19-30 | The keyword defaults lie in the ranges under which no balance can become negative. |
| RiskDripProperties.RoundPartsNonNegative | scripts/riskdripv1.py:49-68 | From a non-negative balance, a stake of at most the balance and a non-negative return give a non-negative stored balance. |
| RiskDripProperties.RoundKeepsNonNegative | scripts/riskdripv1.py:40-72 | Under sane parameters and unit draws, a round from a non-negative balance stores a non-negative balance. |
| RiskDripProperties.BalancesNonNegative | scripts/riskdripv1.py:35-74 | Under sane parameters and unit draws, every trajectory entry is non-negative. |
| RiskDripProperties.LossRoundExample | scripts/riskdripv1.py:49-64 | Start 800, fraction 1.0, no missile chance, one round, loss fraction 0.10: the result is `([800, 720], [])`. |
| RiskDripProperties.TennerRoundsExample | scripts/riskdripv1.py:43-72 | Two tenners from 800 at fraction 1.0: the trajectory is 800, 5120, 8396.8 and the events are `(0, 6400, 5120)` and `(1, 10496, 8396.8)`. Round 1 uses the cooldown fraction 0.15, and the flag is set again after it. |

## Left out

- The plotting, the strategy presets and the loop that prints the logs
  (`scripts/riskdripv1.py:78-109`). They are display and driver code around
  the simulator.
- NumPy's generator and `np.random.seed` (`scripts/riskdripv1.py:32-33`). The
  seed is replaced by the injected draw stream `draws`. The model does not
  describe how a seed determines the stream.
- Floating-point rounding. Balances are exact reals, so the values in the
  examples are the exact ones, not their floating-point approximations.
- The text of a logged event, formatted to two decimals
  (`scripts/riskdripv1.py:70`). An event is a record of its round and its
  two balances.
- Parameter ranges are not checked, as in the source. `SaneConfig` only
  states the ranges under which balances stay non-negative.
- A negative `rounds`. `rounds` is a `nat`, so negative values are outside
  the model. In the source, `range(rounds)` (`scripts/riskdripv1.py:39`)
  runs no round for them, so they behave like 0 and return
  `([starting_balance], [])`.

## Behaviour worth knowing

- The comment at `scripts/riskdripv1.py:45` says the cooldown flag is reset
  after one round. It is cleared when it is read, but lines 67-72 set it
  again when that cooldown round itself hits a tenner. Two cooldown rounds
  can therefore follow each other. The model follows the code, and
  `TennerRoundsExample` proves such a case.
- The loss fraction is drawn from `[0.01, loss_cap)`
  (`scripts/riskdripv1.py:60`). The 1% lower bound is fixed and does not
  depend on `loss_cap`.
