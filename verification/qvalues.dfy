/**
 The Q-table: a sparse map from (state, action) keys to value estimates,
 where a missing entry reads as zero, and the largest value a state offers
 over the action list, with zero as the starting point of the comparison.
 */
module QValues {
  import opened Smartcab
  import opened StateEncoding

  type QTable = map<Key, real>

  /** The stored estimate for (s, a), or zero when there is none. */
  function GetQValue(q: QTable, s: State, a: Action): (v: real)
    ensures GetKey(s, a) in q ==> v == q[GetKey(s, a)]
    ensures GetKey(s, a) !in q ==> v == 0.0
  {
    var k := GetKey(s, a);
    if k in q then q[k] else 0.0
  }

  /** The running maximum of `acc` and the values of `acts`, taken left to
      right with a strict comparison. */
  function MaxOver(q: QTable, s: State, acts: seq<Action>, acc: real): (r: real)
    ensures acc <= r
    ensures forall i :: 0 <= i < |acts| ==> GetQValue(q, s, acts[i]) <= r
    ensures r == acc || exists i :: 0 <= i < |acts| && r == GetQValue(q, s, acts[i])
    decreases |acts|
  {
    if acts == [] then acc
    else
      var v := GetQValue(q, s, acts[0]);
      var r := MaxOver(q, s, acts[1..], if v > acc then v else acc);
      assert forall i :: 1 <= i < |acts| ==> acts[i] == acts[1..][i - 1];
      r
  }

  /** The best value the state offers: never below zero, at least every
      action's value, and either zero or one of those values. */
  function MaxQValue(q: QTable, s: State): (m: real)
    ensures 0.0 <= m
    ensures forall a: Action :: GetQValue(q, s, a) <= m
    ensures m == 0.0 || exists a: Action :: m == GetQValue(q, s, a)
  {
    assert forall a: Action :: GetQValue(q, s, a) == GetQValue(q, s, ACTIONS[ActionIndex(a)]);
    MaxOver(q, s, ACTIONS, 0.0)
  }

  /** Even when every known action of the state is penalised, the reported
      maximum is zero, never negative. */
  lemma MaxQValueOfPenalisedState(q: QTable, s: State)
    requires forall a: Action :: GetQValue(q, s, a) < 0.0
    ensures MaxQValue(q, s) == 0.0
  {
  }

  /** A state the table has no entry for has maximum zero. */
  lemma MaxQValueOfUnseenState(q: QTable, s: State)
    requires forall k :: k in q ==> k.state != s
    ensures MaxQValue(q, s) == 0.0
  {
  }
}
