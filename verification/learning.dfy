/**
 The one-step temporal-difference update: blend the stored estimate for
 (state, action) towards reward plus discounted best value of the next state.
 The next state is an input; the agent obtains it by sensing again.
 */
module Learning {
  import opened Smartcab
  import opened StateEncoding
  import opened QValues

  /** The bootstrap target of an update: the reward plus the discounted best
      value of the next state. With a non-negative discount it is never below
      the reward, and a next state that offers nothing leaves just the reward. */
  function Target(p: Params, q: QTable, reward: real, next: State): (t: real)
    ensures 0.0 <= p.gamma ==> reward <= t
    ensures MaxQValue(q, next) == 0.0 ==> t == reward
  {
    reward + p.gamma * MaxQValue(q, next)
  }

  /** The estimate `prior` moved towards `target` by the fraction `alpha`:
      a rate of 0 keeps the estimate, a rate of 1 replaces it by the target,
      and an estimate already at its target stays there. */
  function Blend(alpha: real, prior: real, target: real): (b: real)
    ensures alpha == 0.0 ==> b == prior
    ensures alpha == 1.0 ==> b == target
    ensures prior == target ==> b == prior
  {
    prior + alpha * (target - prior)
  }

  /** Rewrites the entry for (s, a) alone, to
      old + alpha * (target - old), the target read from the table before the
      write; every other entry stays as it was. */
  function UpdateQValue(p: Params, q: QTable, s: State, a: Action, reward: real, next: State): (q': QTable)
    ensures q'.Keys == q.Keys + {GetKey(s, a)}
    ensures forall k :: k in q && k != GetKey(s, a) ==> q'[k] == q[k]
    ensures var prior := GetQValue(q, s, a);
            GetQValue(q', s, a) == Blend(p.alpha, prior, Target(p, q, reward, next))
  {
    var k := GetKey(s, a);
    var value := GetQValue(q, s, a);
    var learned := Target(p, q, reward, next);
    q[k := Blend(p.alpha, value, learned)]
  }

  /** An update never removes an entry and adds at most one. */
  lemma UpdateAddsAtMostOneEntry(p: Params, q: QTable, s: State, a: Action, reward: real, next: State)
    ensures var q' := UpdateQValue(p, q, s, a, reward, next);
            q.Keys <= q'.Keys && |q'| <= |q| + 1
  {
    var q' := UpdateQValue(p, q, s, a, reward, next);
    if GetKey(s, a) in q {
      assert q'.Keys == q.Keys;
    }
  }

  lemma MulNonNegative(x: real, y: real)
    requires 0.0 <= x && 0.0 <= y
    ensures 0.0 <= x * y
  {
  }

  /** Reading any other (state, action) pair after an update gives what it
      gave before. */
  lemma UpdateLeavesOtherPairs(p: Params, q: QTable, s: State, a: Action, reward: real, next: State, s': State, a': Action)
    requires (s', a') != (s, a)
    ensures GetQValue(UpdateQValue(p, q, s, a, reward, next), s', a') == GetQValue(q, s', a')
  {
    assert GetKey(s', a') != GetKey(s, a);
  }

  /** Blending `prior` towards `t` with weight `alpha` scales the gap by
      1 - alpha; for alpha in [0, 1] the blend lies between the two. */
  lemma BlendBetween(prior: real, t: real, alpha: real)
    ensures Blend(alpha, prior, t) - t == (1.0 - alpha) * (prior - t)
    ensures 0.0 <= alpha <= 1.0 && prior <= t ==> prior <= Blend(alpha, prior, t) <= t
    ensures 0.0 <= alpha <= 1.0 && t <= prior ==> t <= Blend(alpha, prior, t) <= prior
  {
    if 0.0 <= alpha <= 1.0 {
      if prior <= t {
        MulNonNegative(1.0 - alpha, t - prior);
        MulNonNegative(alpha, t - prior);
      } else {
        MulNonNegative(1.0 - alpha, prior - t);
        MulNonNegative(alpha, prior - t);
      }
    }
  }

  /** The update moves the estimate towards its target: the remaining gap is
      the prior gap scaled by 1 - alpha, so for alpha in [0, 1] the new value
      lies between the prior value and the target. */
  lemma UpdateApproachesTarget(p: Params, q: QTable, s: State, a: Action, reward: real, next: State)
    ensures var t := Target(p, q, reward, next);
            var prior := GetQValue(q, s, a);
            var updated := GetQValue(UpdateQValue(p, q, s, a, reward, next), s, a);
            && updated - t == (1.0 - p.alpha) * (prior - t)
            && (0.0 <= p.alpha <= 1.0 && prior <= t ==> prior <= updated <= t)
            && (0.0 <= p.alpha <= 1.0 && t <= prior ==> t <= updated <= prior)
  {
    BlendBetween(GetQValue(q, s, a), Target(p, q, reward, next), p.alpha);
  }

  /** A pair the table has never seen, updated while the next state offers
      nothing (no action of it is worth more than zero), gets alpha times the
      reward. */
  lemma UpdateUnseenPair(p: Params, q: QTable, s: State, a: Action, reward: real, next: State)
    requires GetKey(s, a) !in q
    requires MaxQValue(q, next) == 0.0
    ensures GetQValue(UpdateQValue(p, q, s, a, reward, next), s, a) == p.alpha * reward
  {
  }

  /** The parameters `agent.py` constructs the agent with, rewards 10 and
      then 0 on the same pair, from an empty table and with a next state
      other than the updated one, which therefore offers nothing: 6.0, then
      2.4. */
  lemma TwoRewardTrace(s: State, a: Action, next: State)
    requires next != s
    ensures var q1 := UpdateQValue(DEFAULT_PARAMS, map[], s, a, 10.0, next);
            var q2 := UpdateQValue(DEFAULT_PARAMS, q1, s, a, 0.0, next);
            GetQValue(q1, s, a) == 6.0 && GetQValue(q2, s, a) == 2.4
  {
    var q1 := UpdateQValue(DEFAULT_PARAMS, map[], s, a, 10.0, next);
    MaxQValueOfUnseenState(map[], next);
    UpdateUnseenPair(DEFAULT_PARAMS, map[], s, a, 10.0, next);
    MaxQValueOfUnseenState(q1, next);
  }

  /** When the state sensed again after acting is the state just updated,
      the second update reads the first one's value as the next maximum:
      rewards 10 and then 0 give 6.0, then 3.12 rather than 2.4. */
  lemma TwoRewardTraceSelfLoop(s: State, a: Action)
    ensures var q1 := UpdateQValue(DEFAULT_PARAMS, map[], s, a, 10.0, s);
            var q2 := UpdateQValue(DEFAULT_PARAMS, q1, s, a, 0.0, s);
            GetQValue(q1, s, a) == 6.0 && GetQValue(q2, s, a) == 3.12
  {
    var q1 := UpdateQValue(DEFAULT_PARAMS, map[], s, a, 10.0, s);
    MaxQValueOfUnseenState(map[], s);
    assert GetQValue(q1, s, a) == 6.0;
    assert MaxQValue(q1, s) == 6.0;
  }

  /** The state of the three-reward trace: green light, no traffic, waypoint
      forward. */
  const TRACE_STATE: State := State(Green, NoHeading, NoHeading, NoHeading, Forward)

  /** Rewards 2, -1 and 5 on `TRACE_STATE` with action forward, from an empty
      table and with a next state other than `TRACE_STATE` that offers
      nothing: the estimate goes 1.2, -0.12, 2.952. */
  lemma ThreeRewardTrace(next: State)
    requires next != TRACE_STATE
    ensures var q1 := UpdateQValue(DEFAULT_PARAMS, map[], TRACE_STATE, Forward, 2.0, next);
            var q2 := UpdateQValue(DEFAULT_PARAMS, q1, TRACE_STATE, Forward, -1.0, next);
            var q3 := UpdateQValue(DEFAULT_PARAMS, q2, TRACE_STATE, Forward, 5.0, next);
            && GetQValue(q1, TRACE_STATE, Forward) == 1.2
            && GetQValue(q2, TRACE_STATE, Forward) == -0.12
            && GetQValue(q3, TRACE_STATE, Forward) == 2.952
  {
    var q1 := UpdateQValue(DEFAULT_PARAMS, map[], TRACE_STATE, Forward, 2.0, next);
    var q2 := UpdateQValue(DEFAULT_PARAMS, q1, TRACE_STATE, Forward, -1.0, next);
    MaxQValueOfUnseenState(map[], next);
    UpdateUnseenPair(DEFAULT_PARAMS, map[], TRACE_STATE, Forward, 2.0, next);
    MaxQValueOfUnseenState(q1, next);
    MaxQValueOfUnseenState(q2, next);
  }
}
