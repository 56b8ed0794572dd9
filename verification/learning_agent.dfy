/**
 The agent loop: each tick builds the state from the sensed inputs and the
 planner's waypoint, picks an action with the epsilon-greedy policy, takes
 the environment's reward and updates the table entry for the state it was
 in before acting. The environment, the planner and the random source are
 outside the model; what they return on a tick is carried by a `Tick`.
 */
module LearningAgent {
  import opened Smartcab
  import opened StateEncoding
  import opened QValues
  import opened Policy
  import opened Learning

  /** The agent's own data: its fixed parameters, the decaying exploration
      rate and the Q-table. */
  datatype Agent = Agent(params: Params, epsilon: real, q: QTable)

  /** The agent as constructed: epsilon 0.5, alpha 0.6, gamma 0.2, decay rate
      0.001 and an empty table. */
  const INITIAL: Agent := Agent(DEFAULT_PARAMS, INITIAL_EPSILON, map[])

  /** What one tick receives from outside: the waypoint and inputs sensed
      before acting, the random draws of the policy, the reward for the chosen
      action, and the waypoint and inputs sensed again for the update. */
  datatype Tick = Tick(waypoint: Heading, inputs: Inputs, draw: Draw, reward: real,
                       nextWaypoint: Heading, nextInputs: Inputs)

  predicate ValidTicks(ticks: seq<Tick>)
  {
    forall i :: 0 <= i < |ticks| ==> ValidDraw(ticks[i].draw)
  }

  /** The action the policy picks on this tick. */
  function Chosen(ag: Agent, t: Tick): Action
    requires ValidDraw(t.draw)
  {
    ActionPolicy(ag.params, ag.epsilon, ag.q, BuildState(t.inputs, t.waypoint), t.draw).action
  }

  /** One tick. Epsilon changes only when the draw explores, and then by
      exactly the decay rate; the table changes only at the entry for the
      state sensed before acting and the chosen action, which is blended
      towards the reward plus the discounted best value of the state sensed
      again after acting, read from the table before the write. */
  function Step(ag: Agent, t: Tick): (r: Agent)
    requires ValidDraw(t.draw)
    ensures r.params == ag.params
    ensures t.draw.u < ag.epsilon ==> r.epsilon == ag.epsilon - ag.params.decayRate
    ensures !(t.draw.u < ag.epsilon) ==> r.epsilon == ag.epsilon
    ensures var k := GetKey(BuildState(t.inputs, t.waypoint), Chosen(ag, t));
            && r.q.Keys == ag.q.Keys + {k}
            && (forall k' :: k' in ag.q && k' != k ==> r.q[k'] == ag.q[k'])
    ensures var s := BuildState(t.inputs, t.waypoint);
            var a := Chosen(ag, t);
            var next := BuildState(t.nextInputs, t.nextWaypoint);
            GetQValue(r.q, s, a) == Blend(ag.params.alpha, GetQValue(ag.q, s, a), Target(ag.params, ag.q, t.reward, next))
  {
    var s := BuildState(t.inputs, t.waypoint);
    var next := BuildState(t.nextInputs, t.nextWaypoint);
    Agent(ag.params, NextEpsilon(ag.params, ag.epsilon, t.draw.u),
          UpdateQValue(ag.params, ag.q, s, Chosen(ag, t), t.reward, next))
  }

  /** A sequence of ticks, one after the other. The parameters never change,
      the table only grows, by at most one entry per tick, and epsilon is the
      one the uniform draws alone determine. */
  function Run(ag: Agent, ticks: seq<Tick>): (r: Agent)
    requires ValidTicks(ticks)
    ensures r.params == ag.params
    ensures ag.q.Keys <= r.q.Keys && |r.q| <= |ag.q| + |ticks|
    ensures r.epsilon == EpsilonAfter(ag.params, ag.epsilon, ticks)
    decreases |ticks|
  {
    if ticks == [] then ag
    else
      var t := ticks[0];
      UpdateAddsAtMostOneEntry(ag.params, ag.q, BuildState(t.inputs, t.waypoint), Chosen(ag, t), t.reward,
                               BuildState(t.nextInputs, t.nextWaypoint));
      Run(Step(ag, t), ticks[1..])
  }

  // ---------------------------------------------------------------------
  // Epsilon depends on the uniform draws alone, so its course through a run
  // is followed on the draws.
  // ---------------------------------------------------------------------

  /** Epsilon after a sequence of ticks, starting from `eps`. */
  function EpsilonAfter(p: Params, eps: real, ticks: seq<Tick>): real
    decreases |ticks|
  {
    if ticks == [] then eps
    else EpsilonAfter(p, NextEpsilon(p, eps, ticks[0].draw.u), ticks[1..])
  }

  /** How many of the ticks take the exploration branch. */
  function Explorations(p: Params, eps: real, ticks: seq<Tick>): nat
    decreases |ticks|
  {
    if ticks == [] then 0
    else (if ticks[0].draw.u < eps then 1 else 0) + Explorations(p, NextEpsilon(p, eps, ticks[0].draw.u), ticks[1..])
  }

  /** `eps` lowered by `d`, `n` times over. */
  function Decayed(eps: real, d: real, n: nat): real
  {
    if n == 0 then eps else Decayed(eps, d, n - 1) - d
  }

  lemma {:induction false} DecayedShift(eps: real, d: real, n: nat)
    ensures Decayed(eps - d, d, n) == Decayed(eps, d, n + 1)
  {
    if n > 0 {
      DecayedShift(eps, d, n - 1);
    }
  }

  lemma {:induction false} DecayedIsLinear(eps: real, d: real, n: nat)
    ensures Decayed(eps, d, n) == eps - d * (n as real)
  {
    if n > 0 {
      DecayedIsLinear(eps, d, n - 1);
      assert d * (n as real) == d * ((n - 1) as real) + d;
    }
  }

  lemma {:induction false} EpsilonDecaysPerExploration(p: Params, eps: real, ticks: seq<Tick>)
    ensures Explorations(p, eps, ticks) <= |ticks|
    ensures EpsilonAfter(p, eps, ticks) == Decayed(eps, p.decayRate, Explorations(p, eps, ticks))
    decreases |ticks|
  {
    if ticks != [] {
      var eps' := NextEpsilon(p, eps, ticks[0].draw.u);
      EpsilonDecaysPerExploration(p, eps', ticks[1..]);
      if ticks[0].draw.u < eps {
        DecayedShift(eps, p.decayRate, Explorations(p, eps', ticks[1..]));
      }
    }
  }

  /** Epsilon after a run is the starting epsilon less one decay step per
      exploration, with no floor and no reset. */
  lemma EpsilonCountsExplorations(p: Params, eps: real, ticks: seq<Tick>)
    ensures Explorations(p, eps, ticks) <= |ticks|
    ensures EpsilonAfter(p, eps, ticks) == eps - p.decayRate * (Explorations(p, eps, ticks) as real)
  {
    EpsilonDecaysPerExploration(p, eps, ticks);
    DecayedIsLinear(eps, p.decayRate, Explorations(p, eps, ticks));
  }

  /** Exploring needs a draw below epsilon, and draws are never negative, so
      an epsilon that starts above minus the decay rate stays there. */
  lemma {:induction false} EpsilonFloor(p: Params, eps: real, ticks: seq<Tick>)
    requires ValidTicks(ticks)
    requires -p.decayRate < eps
    ensures -p.decayRate < EpsilonAfter(p, eps, ticks)
    decreases |ticks|
  {
    if ticks != [] {
      EpsilonFloor(p, NextEpsilon(p, eps, ticks[0].draw.u), ticks[1..]);
    }
  }

  /** With decay rate 0.001, an epsilon that is a whole number of decay steps
      stays one, and never goes below zero. */
  lemma {:induction false} EpsilonInWholeSteps(p: Params, ticks: seq<Tick>, n: nat) returns (m: nat)
    requires ValidTicks(ticks)
    requires p.decayRate == 0.001
    ensures m <= n && EpsilonAfter(p, n as real * 0.001, ticks) == m as real * 0.001
    decreases |ticks|
  {
    if ticks == [] {
      m := n;
    } else if ticks[0].draw.u < n as real * 0.001 {
      assert 0 < n;
      assert n as real * 0.001 - 0.001 == (n - 1) as real * 0.001;
      m := EpsilonInWholeSteps(p, ticks[1..], n - 1);
    } else {
      m := EpsilonInWholeSteps(p, ticks[1..], n);
    }
  }

  /** From the constructed agent's epsilon and decay rate, epsilon is 0.5
      less 0.001 per exploration, at most 500 explorations ever happen, and
      epsilon never goes below zero. By the contract of `Run` this is the
      epsilon of `Run(INITIAL, ticks)`. */
  lemma InitialEpsilonNeverNegative(ticks: seq<Tick>)
    requires ValidTicks(ticks)
    ensures var n := Explorations(DEFAULT_PARAMS, INITIAL_EPSILON, ticks);
            var eps := EpsilonAfter(DEFAULT_PARAMS, INITIAL_EPSILON, ticks);
            && eps == 0.5 - 0.001 * (n as real)
            && n <= 500
            && 0.0 <= eps
  {
    EpsilonCountsExplorations(DEFAULT_PARAMS, INITIAL_EPSILON, ticks);
    var m := EpsilonInWholeSteps(DEFAULT_PARAMS, ticks, 500);
  }

  /** Nothing clamps epsilon: an exploration from an epsilon smaller than the
      decay rate leaves it negative. */
  lemma EpsilonCanGoNegative(t: Tick)
    requires ValidDraw(t.draw) && t.draw.u == 0.0
    ensures Step(Agent(DEFAULT_PARAMS, 0.0005, map[]), t).epsilon == -0.0005
  {
  }
}
