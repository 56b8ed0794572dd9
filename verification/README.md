# Smartcab Q-learning agent in Dafny

This project models the learning agent of the smartcab project (`LearningAgent`
in `agent.py`). The agent drives a cab through a grid world by tabular Q-learning:

- it builds a five-field state from what it senses at an intersection and the
  route planner's next waypoint;
- it picks one of the four actions `None`, `forward`, `left`, `right` with an
  epsilon-greedy policy whose epsilon decays linearly;
- it blends the table entry for the state it was in and the action it took
  towards the reward plus the discounted best value of a freshly sensed next state.

The model is functional. The Q-table is an immutable `map<Key, real>`, and a
missing entry reads as zero. Lookup, maximum and update are pure functions. The
policy is a fold over the action list that takes its random outcomes as explicit
arguments and returns the new epsilon with the action.

Modules, leaf first:

- `Smartcab` (`smartcab.dfy`): lights, headings, actions and the action list,
  sensed inputs, the state, and the learning parameters with the
  constants of `agent.py` (epsilon 0.5, alpha 0.6, gamma 0.2, decay rate 0.001).
- `StateEncoding` (`state_encoding.dfy`): `BuildState`, the table key, and
  `KeyText`, which renders the key as the `getKey` string of `agent.py`. `KeyText` is
  proved injective. This justifies keying the table by the (state, action) pair itself.
- `QValues` (`qvalues.dfy`): `GetQValue`, and `MaxQValue` with its running
  maximum that starts at zero.
- `Policy` (`policy.dfy`): the exploitation scan, `Exploit`, `NextEpsilon` and
  `ActionPolicy`. It also holds two reference choices for the scan: a
  tie settlement it matches under any coins, and a greedy choice it matches
  when no coin switches.
- `Learning` (`learning.dfy`): the one-step update `UpdateQValue` and its
  properties, including worked numeric traces.
- `LearningAgent` (`learning_agent.dfy`): the agent record, one tick (`Step`),
  a run of ticks, and how epsilon evolves over a run.

Randomness is a `Draw` with three parts:

- `u` is the value of `random.random()`, in [0, 1).
- `pick` indexes the action that `random.choice(self.actions)` returns.
- `ties[i]` is the coin `random.choice([best_action, action])` flips if the i-th
  scanned action exactly ties the best value so far. `true` takes the new action.

The environment and the planner are outside the model. What they return on a
tick is carried by a `Tick`: the waypoint and inputs sensed before acting, the
reward, and the waypoint and inputs sensed again for the update.

From an empty table, rewards 2, -1 and 5 on one (state, action) pair, with
alpha 0.6 and a next state other than the updated one, give the estimates 1.2,
-0.12, 2.952 (`Learning.ThreeRewardTrace`). The next state is sensed again
right after acting and can be the state just updated; then the update reads
its own earlier value as the next maximum, and rewards 10 then 0 give 6.0
then 3.12 instead of 6.0 then 2.4 (`Learning.TwoRewardTraceSelfLoop`).

Epsilon has no floor in the code, and it can go negative
(`LearningAgent.EpsilonCanGoNegative`). Exploring needs a draw below epsilon,
and draws are never negative. So epsilon never falls to or below minus the
decay rate (`LearningAgent.EpsilonFloor`). With the constants of `agent.py`,
0.5 is exactly 500 decay steps. In exact arithmetic epsilon therefore stops at
0 after 500 explorations and never goes negative
(`LearningAgent.InitialEpsilonNeverNegative`). The program subtracts in IEEE
doubles, where this fails: after 499 explorations epsilon is
0.0009999999999995629, still above 0, and a 500th exploration, when a draw
falls below it, leaves -4.371503159461554e-16.

The scan starts from value zero with `None` as the best action. So a penalised
`None` can still be returned: it wins a tie against an unseen action whenever
that tie's coin keeps the previous best (`Policy.PenalisedFirstActionSurvivesTie`).
This is what the code does, and the model keeps it.

## Model

| member | source | states |
|---|---|---|
| `Smartcab.ActionIndex` | agent.py:19 | every action value occurs in the fixed action list `[None, forward, left, right]` |
| `StateEncoding.BuildState` | agent.py:49-57 | the state copies light, oncoming, left and right from the inputs verbatim and holds the current waypoint as location |
| `StateEncoding.BuildStateRoundTrip` | agent.py:49-57 | each state is built from exactly one (inputs, waypoint) pair: its own sensed fields and location |
| `StateEncoding.GetKey` | agent.py:117-119 | the key holds exactly the state and action it was built from, so distinct pairs get distinct keys |
| `StateEncoding.KeyText` | agent.py:119 | the key text opens with the light's name and closes with " --> " and the action's name |
| `StateEncoding.KeyTextInjective` | agent.py:117-119 | two keys render to the same `getKey` text exactly when they are the same (state, action) pair |
| `StateEncoding.SameEntryIffSameObservation` | agent.py:117-119 | two ticks address the same table entry exactly when they sensed the same inputs, had the same waypoint and chose the same action |
| `QValues.GetQValue` | agent.py:80-88 | the stored value when (state, action) has an entry, exactly 0 otherwise; the table is not changed |
| `QValues.MaxOver` | agent.py:92-98 | the running maximum is at least its start and every scanned value, and equals the start or one of those values |
| `QValues.MaxQValue` | agent.py:90-98 | the maximum is at least 0 and at least every action's value, and is 0 or one of those values |
| `QValues.MaxQValueOfPenalisedState` | agent.py:92-98 | when every action of a state has a negative value, the maximum is 0, not negative |
| `QValues.MaxQValueOfUnseenState` | agent.py:90-98 | a state with no table entry has maximum 0 |
| `Policy.Scan` | agent.py:66-77 | the scan's best value is the running maximum over the actions, and its best action is the starting one with the starting value, or a scanned action whose value is that best |
| `Policy.Exploit` | agent.py:66-77 | returns a listed action; when some action is positive it returns one attaining the maximum, otherwise `None` or an action worth exactly 0; only `None` can come back with a negative value |
| `Policy.NextEpsilon` | agent.py:62-63 | epsilon drops by exactly the decay rate when the draw explores and is unchanged otherwise; a draw in [0, 1) explores only from a positive epsilon; a non-negative decay rate never raises epsilon |
| `Policy.ActionPolicy` | agent.py:60-77 | returns a listed action; with `u < epsilon` it lowers epsilon by exactly the decay rate and returns the drawn action, otherwise it leaves epsilon and lets the scan choose; epsilon drops only when it was positive |
| `Policy.ScanKeepingTies` | agent.py:69-75 | when every coin keeps the previous best, the scan returns the first action reaching the running maximum if it rises above the start, and the starting action otherwise |
| `Policy.ExploitKeepingTiesIsGreedy` | agent.py:66-77 | when every coin keeps the previous best, exploitation equals the greedy reference: the first action attaining a positive maximum, else `None` |
| `Policy.ExploitUnseenStateKeepingTies` | agent.py:66-77 | on a state the table has never seen, for example an empty table, with every coin keeping, exploitation returns `None` |
| `Policy.PenalisedFirstActionSurvivesTie` | agent.py:66-75 | a `None` worth -1 is kept over an unseen `forward` when the tie coin keeps it, and replaced when the coin switches |
| `Policy.SettleDefaultUnused` | agent.py:71-73 | when no choice worth the maximum is held yet (for the scan: the maximum lies above the starting value), the starting choice has no influence on `Settle`'s result |
| `Policy.ScanSettlesTies` | agent.py:69-75 | under any coins, the scan returns the tie settlement at the running maximum: the first action that raises the best value to the maximum, or the starting action when nothing exceeds the start, replaced by each later action worth the maximum whose coin is true |
| `Policy.ExploitSettlesTies` | agent.py:66-77 | under any coins, exploitation returns the first action attaining a positive maximum, or `None` when the maximum is 0, replaced by each later action worth the maximum whose coin is true |
| `Policy.PositiveTieSettledByLaterCoin` | agent.py:71-75 | an example: with `forward` and `right` both worth the maximum 5, the coin at `right` alone decides between them |
| `Learning.UpdateQValue` | agent.py:101-113 | the only key written is (state, action), every other entry keeps its value, the key set gains just that key, and the entry becomes old + alpha * (reward + gamma * next maximum - old) with the maximum read before the write |
| `Learning.Target` | agent.py:110 | the target is the reward plus the discounted maximum of the next state; with gamma at least 0 it is never below the reward, and a next state offering nothing leaves just the reward |
| `Learning.Blend` | agent.py:111 | the blend with rate 0 keeps the old estimate, with rate 1 gives the target, and leaves an estimate already at its target unchanged |
| `Learning.UpdateAddsAtMostOneEntry` | agent.py:113 | an update removes no entry and adds at most one |
| `Learning.UpdateLeavesOtherPairs` | agent.py:101-113 | reading any other (state, action) pair after the update gives the same value as before |
| `Learning.BlendBetween` | agent.py:111 | the blend shrinks the gap to the target by the factor 1 - alpha; for alpha in [0, 1] it lies between old value and target |
| `Learning.UpdateApproachesTarget` | agent.py:110-111 | after the update, the gap to the target is the old gap times 1 - alpha; for alpha in [0, 1] the new value lies between the old value and the target |
| `Learning.UpdateUnseenPair` | agent.py:104-111 | an unseen pair updated while the next state's maximum is 0 (no action of it worth more than 0) gets alpha * reward |
| `Learning.TwoRewardTrace` | agent.py:104-113 | from an empty table, with a next state other than the updated one (so the next maximum stays 0), the parameters of `agent.py` and rewards 10 then 0 give 6.0 then 2.4 |
| `Learning.TwoRewardTraceSelfLoop` | agent.py:104-113 | from an empty table, when the state sensed again is the updated state itself, rewards 10 then 0 give 6.0 then 3.12: the second update reads the 6.0 just written as the next maximum |
| `Learning.ThreeRewardTrace` | agent.py:104-113 | from an empty table, with a next state other than the updated one (so the next maximum stays 0), rewards 2, -1, 5 on (green, no traffic, waypoint forward) with action forward give 1.2, -0.12, 2.952 |
| `LearningAgent.Step` | agent.py:26-44 | one tick keeps the parameters, changes epsilon only on exploration and then by exactly the decay rate, writes only the entry for the state sensed before acting and the chosen action, and sets it to the blend of its old value towards the reward plus gamma times the maximum of the state sensed again after acting, read before the write |
| `LearningAgent.Run` | agent.py:26-44 | over a run the parameters never change, the table never loses a key and gains at most one key per tick, and epsilon is the value the uniform draws alone determine |
| `LearningAgent.EpsilonCountsExplorations` | agent.py:62-63 | after a run, epsilon equals the starting value less the decay rate times the number of explorations |
| `LearningAgent.EpsilonFloor` | agent.py:62-63 | epsilon starting above minus the decay rate stays above it |
| `LearningAgent.EpsilonInWholeSteps` | agent.py:18 | with decay 0.001, an epsilon that is a whole number of decay steps stays a whole, non-increasing number of steps |
| `LearningAgent.InitialEpsilonNeverNegative` | agent.py:15-18 | from the constructed agent's epsilon 0.5 and decay rate 0.001, epsilon is 0.5 less 0.001 per exploration, at most 500 explorations happen, and epsilon is never negative |
| `LearningAgent.EpsilonCanGoNegative` | agent.py:62-63 | nothing clamps epsilon: exploring from 0.0005 with decay 0.001 leaves -0.0005 |

## Left out

- `run()`, `Simulator`, `Environment` and `RoutePlanner` are external collaborators. Traffic simulation, timing and rendering are not part of this model.
- Calls to `env.sense`, `env.act` and `planner.next_waypoint` are environment I/O. Their results are fields of a `Tick`. The reward is one real per tick, whatever the environment answers for the chosen action.
- `env.get_deadline`: read on every tick but never used in any decision, so it is not modelled.
- The debug `print` and `reset`, which only re-routes the planner.
- `update_qValue` stores the re-read waypoint in `self.next_waypoint`. The next tick overwrites it before use, so it is not modelled.
- The probability distributions of the draws are not modelled. The model holds for every outcome of the uniform draw, the exploratory pick and the tie coins, not for their probabilities.
- IEEE floating point is not modelled. Values are exact reals, so the numeric traces are exact. In doubles some trace values differ in the last digit, for example 2.4000000000000004 for 2.4 and -0.1200000000000001 for -0.12.
- `InitialEpsilonNeverNegative`: "never negative" holds only in exact reals. The program's epsilon, computed in IEEE doubles, is 0.0009999999999995629 after 499 explorations and about -4.4e-16 after a 500th, so it does go below 0.
- Python's dynamic typing is not modelled. The light is `red` or `green`, and traffic, waypoint and action are one of `None`, `forward`, `left`, `right`.
- `getQValue` returns the integer `0` for a missing entry. The model returns the real `0.0`, the same value in every comparison and sum the agent makes.
