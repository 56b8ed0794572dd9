/**
 Building the agent's state from its inputs, and addressing the Q-table with
 a (state, action) key. `agent.py` keys its table by a formatted string; here
 the table is keyed by the pair itself, and `KeyText` renders that string so
 that the two can be shown to identify the same entries.
 */
module StateEncoding {
  import opened Smartcab

  /** The state for the sensed inputs and the planner's current waypoint:
      the four sensed fields are kept as they are and the waypoint becomes
      the location. */
  function BuildState(inputs: Inputs, waypoint: Heading): (s: State)
    ensures Sensed(s) == inputs && s.location == waypoint
  {
    State(inputs.light, inputs.oncoming, inputs.left, inputs.right, waypoint)
  }

  /** The sensed part of a state, the inverse of `BuildState` on its first
      argument. */
  function Sensed(s: State): Inputs
  {
    Inputs(s.light, s.oncoming, s.left, s.right)
  }

  /** Every state is built from exactly one (inputs, waypoint) pair: its own
      sensed part and location. */
  lemma BuildStateRoundTrip(s: State, inputs: Inputs, waypoint: Heading)
    ensures BuildState(Sensed(s), s.location) == s
    ensures BuildState(inputs, waypoint) == s <==> inputs == Sensed(s) && waypoint == s.location
  {
  }

  /** A Q-table key: a state together with an action. */
  datatype Key = Key(state: State, action: Action)

  function GetKey(s: State, a: Action): (k: Key)
    ensures k.state == s && k.action == a
  {
    Key(s, a)
  }

  // ---------------------------------------------------------------------
  // The textual key of `agent.py`: the five state fields and the action,
  // each rendered as Python renders it, joined by " --> ".
  // ---------------------------------------------------------------------

  const SEP: string := " --> "

  function LightText(l: Light): string
  {
    match l
    case Red => "red"
    case Green => "green"
  }

  function HeadingText(h: Heading): string
  {
    match h
    case NoHeading => "None"
    case Forward => "forward"
    case Left => "left"
    case Right => "right"
  }

  /** The text `agent.py` keys its table with: the light, the three traffic
      headings, the location and the action, in that order. It opens with the
      light and closes with the action. */
  function KeyText(k: Key): (t: string)
    ensures |LightText(k.state.light)| <= |t| && t[..|LightText(k.state.light)|] == LightText(k.state.light)
    ensures |SEP + HeadingText(k.action)| <= |t| && t[|t| - |SEP + HeadingText(k.action)|..] == SEP + HeadingText(k.action)
  {
    var s := k.state;
    LightText(s.light) + (SEP + (HeadingText(s.oncoming) + (SEP + (HeadingText(s.left) + (SEP +
    (HeadingText(s.right) + (SEP + (HeadingText(s.location) + (SEP + HeadingText(k.action))))))))))
  }

  /** A rendered light is recognised by its first character, so it can be
      cancelled from the front of a key text. */
  lemma LightCancel(x: Light, y: Light, r1: string, r2: string)
    requires LightText(x) + r1 == LightText(y) + r2
    ensures x == y && r1 == r2
  {
    assert (LightText(x) + r1)[0] == LightText(x)[0];
    assert (LightText(y) + r2)[0] == LightText(y)[0];
    assert x == y;
    assert r1 == (LightText(x) + r1)[|LightText(x)|..];
  }

  /** Likewise for a rendered heading: "None", "forward", "left" and "right"
      all start with different characters. */
  lemma HeadingCancel(x: Heading, y: Heading, r1: string, r2: string)
    requires HeadingText(x) + r1 == HeadingText(y) + r2
    ensures x == y && r1 == r2
  {
    assert (HeadingText(x) + r1)[0] == HeadingText(x)[0];
    assert (HeadingText(y) + r2)[0] == HeadingText(y)[0];
    assert x == y;
    assert r1 == (HeadingText(x) + r1)[|HeadingText(x)|..];
  }

  lemma SepCancel(r1: string, r2: string)
    requires SEP + r1 == SEP + r2
    ensures r1 == r2
  {
    assert r1 == (SEP + r1)[|SEP|..];
  }

  /** The textual key identifies the (state, action) pair uniquely, so keying
      the table by the pair itself addresses exactly the same entries. */
  lemma KeyTextInjective(k1: Key, k2: Key)
    ensures KeyText(k1) == KeyText(k2) <==> k1 == k2
  {
    if KeyText(k1) == KeyText(k2) {
      var s1, s2 := k1.state, k2.state;
      var t1 := SEP + (HeadingText(s1.oncoming) + (SEP + (HeadingText(s1.left) + (SEP +
        (HeadingText(s1.right) + (SEP + (HeadingText(s1.location) + (SEP + HeadingText(k1.action)))))))));
      var t2 := SEP + (HeadingText(s2.oncoming) + (SEP + (HeadingText(s2.left) + (SEP +
        (HeadingText(s2.right) + (SEP + (HeadingText(s2.location) + (SEP + HeadingText(k2.action)))))))));
      LightCancel(s1.light, s2.light, t1, t2);
      SepCancel(t1[|SEP|..], t2[|SEP|..]);
      var u1 := SEP + (HeadingText(s1.left) + (SEP + (HeadingText(s1.right) + (SEP +
        (HeadingText(s1.location) + (SEP + HeadingText(k1.action)))))));
      var u2 := SEP + (HeadingText(s2.left) + (SEP + (HeadingText(s2.right) + (SEP +
        (HeadingText(s2.location) + (SEP + HeadingText(k2.action)))))));
      HeadingCancel(s1.oncoming, s2.oncoming, u1, u2);
      SepCancel(u1[|SEP|..], u2[|SEP|..]);
      var v1 := SEP + (HeadingText(s1.right) + (SEP + (HeadingText(s1.location) + (SEP + HeadingText(k1.action)))));
      var v2 := SEP + (HeadingText(s2.right) + (SEP + (HeadingText(s2.location) + (SEP + HeadingText(k2.action)))));
      HeadingCancel(s1.left, s2.left, v1, v2);
      SepCancel(v1[|SEP|..], v2[|SEP|..]);
      var w1 := SEP + (HeadingText(s1.location) + (SEP + HeadingText(k1.action)));
      var w2 := SEP + (HeadingText(s2.location) + (SEP + HeadingText(k2.action)));
      HeadingCancel(s1.right, s2.right, w1, w2);
      SepCancel(w1[|SEP|..], w2[|SEP|..]);
      var x1 := SEP + HeadingText(k1.action);
      var x2 := SEP + HeadingText(k2.action);
      HeadingCancel(s1.location, s2.location, x1, x2);
      SepCancel(HeadingText(k1.action), HeadingText(k2.action));
      assert HeadingText(k1.action) + [] == HeadingText(k2.action) + [];
      HeadingCancel(k1.action, k2.action, [], []);
    }
  }

  /** Two ticks address the same table entry exactly when they sensed the
      same inputs, had the same waypoint and chose the same action. */
  lemma SameEntryIffSameObservation(i1: Inputs, w1: Heading, a1: Action, i2: Inputs, w2: Heading, a2: Action)
    ensures KeyText(GetKey(BuildState(i1, w1), a1)) == KeyText(GetKey(BuildState(i2, w2), a2))
            <==> i1 == i2 && w1 == w2 && a1 == a2
  {
    KeyTextInjective(GetKey(BuildState(i1, w1), a1), GetKey(BuildState(i2, w2), a2));
  }
}
