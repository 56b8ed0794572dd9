/**
 The data the smartcab learning agent works on: what it senses at an
 intersection, the state it builds from that, the fixed action list and the
 learning parameters it is constructed with.
 */
module Smartcab {

  /** Phase of the traffic light at the agent's intersection. */
  datatype Light = Red | Green

  /** A heading as the environment and the route planner report it: the
      direction another car is going, the planner's suggested next move, or
      the move the agent makes. `NoHeading` is Python's `None` in `agent.py`: no car
      there, no suggestion, or staying put. */
  datatype Heading = NoHeading | Forward | Left | Right

  /** The agent's moves use the same four values as the headings. */
  type Action = Heading

  /** The fixed action list, in the order the policy scans it. */
  const ACTIONS: seq<Action> := [NoHeading, Forward, Left, Right]

  /** What the environment reports about the intersection. */
  datatype Inputs = Inputs(light: Light, oncoming: Heading, left: Heading, right: Heading)

  /** The five-field state the agent learns over; `location` holds the
      planner's next waypoint. Two states are equal iff all fields are. */
  datatype State = State(light: Light, oncoming: Heading, left: Heading, right: Heading, location: Heading)

  /** The learning parameters fixed at construction. Epsilon, the only one
      that changes, lives in the agent itself. */
  datatype Params = Params(alpha: real, gamma: real, decayRate: real)

  const DEFAULT_PARAMS: Params := Params(0.6, 0.2, 0.001)
  const INITIAL_EPSILON: real := 0.5

  /** Where an action sits in the action list: every action occurs in it. */
  function ActionIndex(a: Action): (i: nat)
    ensures i < |ACTIONS| && ACTIONS[i] == a
  {
    match a
    case NoHeading => 0
    case Forward => 1
    case Left => 2
    case Right => 3
  }
}
