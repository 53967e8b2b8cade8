/** The bump-and-turn controller (controller_basic.py): after a bump it turns
    left, otherwise it attempts a forward move, and only while running. */
module ControllerBasics {
  import opened Wrappers
  import opened Agents

  /** The values of `move`: "left" and "forward" (None before the first
      `handle_input`). */
  datatype Move = Left | Forward

  /** `ControllerBasic`. The base class's `model` reference is never used
      and is left out. */
  class ControllerBasic {
    var move: Option<Move>
    var running: bool
    const agent: Agent

    constructor (agent: Agent)
      ensures move == None && !running && this.agent == agent
    {
      move := None;
      running := false;
      this.agent := agent;
    }

    /** `handle_input`: turn after a bump, go forward otherwise. */
    method HandleInput()
      modifies this`move
      ensures move == Some(if agent.bumpSensor then Left else Forward)
    {
      if agent.bumpSensor {
        move := Some(Left);
      } else {
        move := Some(Forward);
      }
    }

    /** `move_agent`: exactly one `rotate_left` for "left", exactly one
        `try_move(move_forward=True)` for "forward", and nothing while
        stopped or before the first `handle_input`. */
    method MoveAgent()
      modifies agent`x, agent`y, agent`direction, agent`bumpSensor, agent`trace
      ensures !running || move.None? ==> unchanged(agent)
      ensures running && move == Some(Left) ==>
                agent.State() == Apply(agent.geo, agent.WallRects(), old(agent.State()), TurnLeft) &&
                agent.trace == old(agent.trace) + [TurnLeft]
      ensures running && move == Some(Forward) ==> agent.trace == old(agent.trace) + [AttemptMove(true)]
    {
      if !running {
        return;
      }
      if move == Some(Left) {
        agent.RotateLeft();
      } else if move == Some(Forward) {
        agent.TryMove(true);
      }
    }
  }
}
