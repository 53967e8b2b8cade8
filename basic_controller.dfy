/** The older bump-and-turn controller (basic_controller.py): like
    ControllerBasic, but it steps with `move_forward` and never consults
    `running`, which its base class leaves false. */
module BasicControllers {
  import opened Wrappers
  import opened Agents
  import opened ControllerBasics

  /** `BasicController`. The base class's `model` reference is never used
      and is left out. */
  class BasicController {
    var move: Option<Move>
    var running: bool
    const agent: Agent

    constructor (agent: Agent)
      ensures move == None && !running && this.agent == agent
    {
      move := None;
      running := false;
      this.agent := agent;
    }

    /** `handle_input`: turn after a bump, go forward otherwise. */
    method HandleInput()
      modifies this`move
      ensures move == Some(if agent.bumpSensor then Left else Forward)
    {
      if agent.bumpSensor {
        move := Some(Left);
      } else {
        move := Some(Forward);
      }
    }

    /** `move_agent`: exactly one `rotate_left` for "left", exactly one
        `move_forward` for "forward", nothing before the first
        `handle_input`; `running` plays no part. */
    method MoveAgent()
      modifies agent`x, agent`y, agent`direction, agent`bumpSensor, agent`trace
      ensures move.None? ==> unchanged(agent)
      ensures move.Some? ==>
                var c := if move.value == Left then TurnLeft else StepForward;
                agent.State() == Apply(agent.geo, agent.WallRects(), old(agent.State()), c) &&
                agent.trace == old(agent.trace) + [c]
    {
      if move == Some(Left) {
        agent.RotateLeft();
      } else if move == Some(Forward) {
        agent.MoveForward();
      }
    }
  }
}
