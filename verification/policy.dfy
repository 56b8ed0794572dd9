/**
 The epsilon-greedy action policy. Randomness enters as an explicit `Draw`:
 the uniform number compared with epsilon, the index of the exploratory
 pick, and one coin per scanned action that settles an exact tie.
 */
module Policy {
  import opened Smartcab
  import opened StateEncoding
  import opened QValues

  /** The random outcomes one policy call consumes. `u` is the uniform draw
      in [0, 1), `pick` the index chosen uniformly from the action list when
      exploring, and `ties[i]` the coin flipped if the i-th scanned action
      ties the best value so far: true takes that action, false keeps the
      previous best. */
  datatype Draw = Draw(u: real, pick: nat, ties: seq<bool>)

  predicate ValidDraw(d: Draw)
  {
    0.0 <= d.u < 1.0 && d.pick < |ACTIONS| && |d.ties| == |ACTIONS|
  }

  /** The chosen action and the epsilon the agent keeps afterwards. */
  datatype Choice = Choice(action: Action, epsilon: real)

  /** The best action and best value the exploitation scan carries. */
  datatype Best = Best(action: Action, value: real)

  /** The exploitation scan over `acts`, carrying the best action and the
      best value so far. A strictly larger value replaces both; an exact tie
      replaces only the action, and only when its coin says so. */
  function Scan(q: QTable, s: State, acts: seq<Action>, ties: seq<bool>, best: Action, bestVal: real): (r: Best)
    requires |ties| == |acts|
    ensures r.value == MaxOver(q, s, acts, bestVal)
    ensures (r.action == best && r.value == bestVal) || (r.action in acts && GetQValue(q, s, r.action) == r.value)
    decreases |acts|
  {
    if acts == [] then Best(best, bestVal)
    else
      var v := GetQValue(q, s, acts[0]);
      if v > bestVal then Scan(q, s, acts[1..], ties[1..], acts[0], v)
      else if bestVal == v then Scan(q, s, acts[1..], ties[1..], if ties[0] then acts[0] else best, bestVal)
      else Scan(q, s, acts[1..], ties[1..], best, bestVal)
  }

  /** The exploitation branch: scan the action list from best value zero and
      best action the first one. When some action has a positive value the
      result attains the maximum; otherwise it is the first action or one
      whose value is exactly zero. Only the first action can be returned
      with a negative value. */
  function Exploit(q: QTable, s: State, ties: seq<bool>): (a: Action)
    requires |ties| == |ACTIONS|
    ensures a in ACTIONS
    ensures (exists b: Action :: GetQValue(q, s, b) > 0.0) ==> GetQValue(q, s, a) == MaxQValue(q, s)
    ensures (forall b: Action :: GetQValue(q, s, b) <= 0.0) ==> a == ACTIONS[0] || GetQValue(q, s, a) == 0.0
    ensures GetQValue(q, s, a) < 0.0 ==> a == ACTIONS[0]
  {
    Scan(q, s, ACTIONS, ties, ACTIONS[0], 0.0).action
  }

  /** Epsilon after one policy call: lowered by exactly the decay rate when
      the draw explores, with no floor, and untouched otherwise. A draw in
      [0, 1) can only explore from a positive epsilon, and a non-negative
      decay rate never raises epsilon. */
  function NextEpsilon(p: Params, epsilon: real, u: real): (e: real)
    ensures u < epsilon ==> e == epsilon - p.decayRate
    ensures epsilon <= u ==> e == epsilon
    ensures 0.0 <= u && e != epsilon ==> 0.0 < epsilon
    ensures 0.0 <= p.decayRate ==> e <= epsilon
  {
    if u < epsilon then epsilon - p.decayRate else epsilon
  }

  /** One call of the policy. With `u < epsilon` it explores: epsilon drops
      by exactly the decay rate, with no floor, and the drawn action is
      returned. Otherwise epsilon is untouched and the scan decides. */
  function ActionPolicy(p: Params, epsilon: real, q: QTable, s: State, d: Draw): (c: Choice)
    requires ValidDraw(d)
    ensures c.action in ACTIONS
    ensures d.u < epsilon ==> c.epsilon == epsilon - p.decayRate && c.action == ACTIONS[d.pick]
    ensures !(d.u < epsilon) ==> c.epsilon == epsilon && c.action == Exploit(q, s, d.ties)
    ensures c.epsilon < epsilon ==> 0.0 < epsilon
  {
    var a := if d.u < epsilon then ACTIONS[d.pick] else Exploit(q, s, d.ties);
    Choice(a, NextEpsilon(p, epsilon, d.u))
  }

  // ---------------------------------------------------------------------
  // A reference for the scan when no coin ever switches: the first action
  // attaining the maximum, or the first action of the list when nothing is
  // positive.
  // ---------------------------------------------------------------------

  predicate KeepsEveryTie(ties: seq<bool>)
  {
    forall i :: 0 <= i < |ties| ==> !ties[i]
  }

  /** The first action of `acts` whose value is `m`, or `dflt` if none is. */
  function First(q: QTable, s: State, acts: seq<Action>, m: real, dflt: Action): (a: Action)
    ensures a == dflt || (a in acts && GetQValue(q, s, a) == m)
    decreases |acts|
  {
    if acts == [] then dflt
    else if GetQValue(q, s, acts[0]) == m then acts[0]
    else First(q, s, acts[1..], m, dflt)
  }

  function Greedy(q: QTable, s: State): Action
  {
    var m := MaxQValue(q, s);
    if m > 0.0 then First(q, s, ACTIONS, m, ACTIONS[0]) else ACTIONS[0]
  }

  /** When `m` occurs among the values of `acts`, the default of `First` is
      never used. */
  lemma {:induction false} FirstDefaultUnused(q: QTable, s: State, acts: seq<Action>, m: real, d1: Action, d2: Action)
    requires exists i :: 0 <= i < |acts| && GetQValue(q, s, acts[i]) == m
    ensures First(q, s, acts, m, d1) == First(q, s, acts, m, d2)
    decreases |acts|
  {
    if GetQValue(q, s, acts[0]) != m {
      var i :| 0 <= i < |acts| && GetQValue(q, s, acts[i]) == m;
      assert acts[1..][i - 1] == acts[i];
      FirstDefaultUnused(q, s, acts[1..], m, d1, d2);
    }
  }

  /** With every coin keeping the previous best, the scan returns the first
      action attaining the running maximum if that rises above the start,
      and the starting action otherwise. */
  lemma {:induction false} ScanKeepingTies(q: QTable, s: State, acts: seq<Action>, ties: seq<bool>, best: Action, bestVal: real)
    requires |ties| == |acts| && KeepsEveryTie(ties)
    ensures var m := MaxOver(q, s, acts, bestVal);
            Scan(q, s, acts, ties, best, bestVal).action == if m > bestVal then First(q, s, acts, m, best) else best
    decreases |acts|
  {
    if acts != [] {
      var v := GetQValue(q, s, acts[0]);
      var rest := acts[1..];
      assert KeepsEveryTie(ties[1..]) by {
        forall i | 0 <= i < |ties[1..]| ensures !ties[1..][i] {
          assert ties[1..][i] == ties[i + 1];
        }
      }
      if v > bestVal {
        ScanKeepingTies(q, s, rest, ties[1..], acts[0], v);
        var m := MaxOver(q, s, rest, v);
        if m > v {
          var i :| 0 <= i < |rest| && m == GetQValue(q, s, rest[i]);
          FirstDefaultUnused(q, s, rest, m, acts[0], best);
        }
      } else {
        assert !ties[0];
        ScanKeepingTies(q, s, rest, ties[1..], best, bestVal);
      }
    }
  }

  /** The exploitation branch with every coin keeping the previous best is
      the deterministic greedy choice. */
  lemma ExploitKeepingTiesIsGreedy(q: QTable, s: State, ties: seq<bool>)
    requires |ties| == |ACTIONS| && KeepsEveryTie(ties)
    ensures Exploit(q, s, ties) == Greedy(q, s)
  {
    ScanKeepingTies(q, s, ACTIONS, ties, ACTIONS[0], 0.0);
  }

  /** With nothing learned about the state and every coin keeping the
      previous best, the exploitation branch returns the first action,
      `None` in `agent.py`. */
  lemma ExploitUnseenStateKeepingTies(q: QTable, s: State, ties: seq<bool>)
    requires |ties| == |ACTIONS| && KeepsEveryTie(ties)
    requires forall k :: k in q ==> k.state != s
    ensures Exploit(q, s, ties) == NoHeading
  {
    ExploitKeepingTiesIsGreedy(q, s, ties);
    MaxQValueOfUnseenState(q, s);
  }

  /** Because the scan starts from value zero with the first action, a
      penalised first action survives a tie with an unseen action when the
      coin keeps it, and loses it when the coin switches. */
  lemma PenalisedFirstActionSurvivesTie(s: State)
    ensures var q := map[GetKey(s, NoHeading) := -1.0];
            && GetQValue(q, s, NoHeading) < GetQValue(q, s, Forward)
            && Exploit(q, s, [false, false, false, false]) == NoHeading
            && Exploit(q, s, [false, true, false, false]) == Forward
  {
  }

  // ---------------------------------------------------------------------
  // A reference for the scan under any coins: how exact ties at the
  // maximum are settled.
  // ---------------------------------------------------------------------

  /** The choice among the actions of `acts` worth `m`, from the current
      choice `cur`. When no choice worth `m` is held yet (`held` false), the
      first action worth `m` is taken whatever its coin; after that, each
      further action worth `m` replaces the choice exactly when its coin is
      true. Actions worth anything else are passed over. */
  function Settle(q: QTable, s: State, acts: seq<Action>, ties: seq<bool>, m: real, cur: Action, held: bool): Action
    requires |ties| == |acts|
    decreases |acts|
  {
    if acts == [] then cur
    else
      var hit := GetQValue(q, s, acts[0]) == m;
      Settle(q, s, acts[1..], ties[1..], m, if hit && (!held || ties[0]) then acts[0] else cur, held || hit)
  }

  /** When `m` occurs among the values of `acts` and no choice is held yet,
      the starting choice of `Settle` is never returned. */
  lemma {:induction false} SettleDefaultUnused(q: QTable, s: State, acts: seq<Action>, ties: seq<bool>, m: real, d1: Action, d2: Action)
    requires |ties| == |acts|
    requires exists i :: 0 <= i < |acts| && GetQValue(q, s, acts[i]) == m
    ensures Settle(q, s, acts, ties, m, d1, false) == Settle(q, s, acts, ties, m, d2, false)
    decreases |acts|
  {
    if GetQValue(q, s, acts[0]) != m {
      var i :| 0 <= i < |acts| && GetQValue(q, s, acts[i]) == m;
      assert acts[1..][i - 1] == acts[i];
      SettleDefaultUnused(q, s, acts[1..], ties[1..], m, d1, d2);
    }
  }

  /** Under any coins, the scan's action is the tie settlement at the
      running maximum `m`: if `m` rises above the start, the first action
      reaching it is taken and later actions worth `m` replace it when their
      coin is true; otherwise the starting action is held and every action
      tying the start replaces it when its coin is true. */
  lemma {:induction false} ScanSettlesTies(q: QTable, s: State, acts: seq<Action>, ties: seq<bool>, best: Action, bestVal: real)
    requires |ties| == |acts|
    ensures var m := MaxOver(q, s, acts, bestVal);
            Scan(q, s, acts, ties, best, bestVal).action == Settle(q, s, acts, ties, m, best, m == bestVal)
    decreases |acts|
  {
    if acts != [] {
      var v := GetQValue(q, s, acts[0]);
      var rest := acts[1..];
      var m := MaxOver(q, s, acts, bestVal);
      if v > bestVal {
        ScanSettlesTies(q, s, rest, ties[1..], acts[0], v);
        if v < m {
          var i :| 0 <= i < |rest| && m == GetQValue(q, s, rest[i]);
          SettleDefaultUnused(q, s, rest, ties[1..], m, acts[0], best);
        }
      } else if v == bestVal {
        var kept := if ties[0] then acts[0] else best;
        ScanSettlesTies(q, s, rest, ties[1..], kept, bestVal);
        if bestVal < m {
          var i :| 0 <= i < |rest| && m == GetQValue(q, s, rest[i]);
          SettleDefaultUnused(q, s, rest, ties[1..], m, kept, best);
        }
      } else {
        ScanSettlesTies(q, s, rest, ties[1..], best, bestVal);
      }
    }
  }

  /** The exploitation branch under any coins: with a positive maximum, the
      first action attaining it, replaced by each later action attaining it
      whose coin is true; with maximum zero, `None`, replaced by each action
      worth exactly zero whose coin is true. */
  lemma ExploitSettlesTies(q: QTable, s: State, ties: seq<bool>)
    requires |ties| == |ACTIONS|
    ensures var m := MaxQValue(q, s);
            Exploit(q, s, ties) == Settle(q, s, ACTIONS, ties, m, ACTIONS[0], m == 0.0)
  {
    ScanSettlesTies(q, s, ACTIONS, ties, ACTIONS[0], 0.0);
  }

  /** For example, with Forward and Right both at the maximum, the coin
      flipped at Right alone decides between them. */
  lemma PositiveTieSettledByLaterCoin(s: State, c: bool)
    ensures var q := map[GetKey(s, Forward) := 5.0, GetKey(s, Right) := 5.0, GetKey(s, Left) := 2.0];
            Exploit(q, s, [true, true, true, c]) == if c then Right else Forward
  {
    var q := map[GetKey(s, Forward) := 5.0, GetKey(s, Right) := 5.0, GetKey(s, Left) := 2.0];
    assert GetQValue(q, s, NoHeading) == 0.0;
    assert GetQValue(q, s, Forward) == 5.0;
    assert GetQValue(q, s, Left) == 2.0;
    assert GetQValue(q, s, Right) == 5.0;
    assert Scan(q, s, ACTIONS, [true, true, true, c], NoHeading, 0.0)
        == Scan(q, s, ACTIONS[2..], [true, c], Forward, 5.0);
  }
}
