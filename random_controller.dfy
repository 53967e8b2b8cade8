/** The rotate-then-drive controller (controllers/random_controller.py): it
    keeps a target heading `move`, turns left until the agent faces it and
    then steps forward. */
module RandomControllers {
  import opened Wrappers
  import opened Agents
  import ControllerRandoms

  /** Residues modulo ANGULAR_SPEED survive a left turn, since 360 is a
      multiple of ANGULAR_SPEED. */
  lemma LeftTurnKeepsResidue(d: int, m: int)
    requires (m - d) % ANGULAR_SPEED == 0
    ensures (m - RotatedLeft(d)) % ANGULAR_SPEED == 0
  {
    var q := (d + ANGULAR_SPEED) / 360;
    assert RotatedLeft(d) == d + ANGULAR_SPEED - 360 * q;
    var k := (m - d) / ANGULAR_SPEED;
    assert m - RotatedLeft(d) == ANGULAR_SPEED * (k - 1 + 72 * q);
  }

  /** From a heading in [0, 360) other than the target, one left turn takes
      ANGULAR_SPEED degrees off the counter-clockwise distance to it. */
  lemma LeftTurnCloses(d: int, m: int)
    requires 0 <= d < 360 && 0 <= m < 360 && d != m && (m - d) % ANGULAR_SPEED == 0
    ensures (m - RotatedLeft(d)) % 360 == (m - d) % 360 - ANGULAR_SPEED
  {
    var gap := if m > d then m - d else m - d + 360;
    ModUnique(m - d, if m > d then 0 else -1, gap);
    assert gap == ANGULAR_SPEED * ((m - d) / ANGULAR_SPEED + (if m > d then 0 else 72));
    if d + ANGULAR_SPEED < 360 {
      ModUnique(m - RotatedLeft(d), if m > d then 0 else -1, gap - ANGULAR_SPEED);
    } else {
      ModUnique(d + ANGULAR_SPEED, 1, d + ANGULAR_SPEED - 360);
      ModUnique(m - RotatedLeft(d), 0, gap - ANGULAR_SPEED);
    }
  }

  /** The number of `rotate_left` calls the loop of `move_agent` makes from
      heading `d` to target `m`. It is defined when the loop ends: either the
      heading already is the target (whatever its value), or the target is
      a heading in [0, 360) that agrees with `d` modulo ANGULAR_SPEED. At
      most one full turn (72 rotations) is needed, and from a heading in
      [0, 360) exactly the counter-clockwise distance divided by
      ANGULAR_SPEED. */
  function LeftTurnsNeeded(d: int, m: int): (n: nat)
    requires d == m || (0 <= m < 360 && (m - d) % ANGULAR_SPEED == 0)
    ensures n <= 360 / ANGULAR_SPEED && (n == 0 <==> d == m)
    ensures 0 <= d < 360 ==> n * ANGULAR_SPEED == (m - d) % 360
    decreases if 0 <= d < 360 then 0 else 1, (m - d) % 360
  {
    if d == m then 0
    else
      LeftTurnKeepsResidue(d, m);
      if 0 <= d < 360 then LeftTurnCloses(d, m); 1 + LeftTurnsNeeded(RotatedLeft(d), m)
      else 1 + LeftTurnsNeeded(RotatedLeft(d), m)
  }

  /** k + 1 left turns are one left turn followed by k more. */
  lemma {:induction false} TurnedLeftTimesShift(d: int, k: nat)
    ensures TurnedLeftTimes(d, k + 1) == TurnedLeftTimes(RotatedLeft(d), k)
  {
    if k > 0 {
      TurnedLeftTimesShift(d, k - 1);
    }
  }

  /** LeftTurnsNeeded is the least number of left turns that brings heading
      `d` onto `m`: that many reach it and no fewer do. */
  lemma {:induction false} LeftTurnsNeededIsLeast(d: int, m: int)
    requires d == m || (0 <= m < 360 && (m - d) % ANGULAR_SPEED == 0)
    ensures TurnedLeftTimes(d, LeftTurnsNeeded(d, m)) == m
    ensures forall k: nat :: k < LeftTurnsNeeded(d, m) ==> TurnedLeftTimes(d, k) != m
    decreases if 0 <= d < 360 then 0 else 1, (m - d) % 360
  {
    if d != m {
      var n := LeftTurnsNeeded(d, m);
      LeftTurnKeepsResidue(d, m);
      if 0 <= d < 360 {
        LeftTurnCloses(d, m);
      }
      LeftTurnsNeededIsLeast(RotatedLeft(d), m);
      TurnedLeftTimesShift(d, n - 1);
      forall k: nat | k < n
        ensures TurnedLeftTimes(d, k) != m
      {
        if k > 0 {
          TurnedLeftTimesShift(d, k - 1);
        }
      }
    }
  }

  /** `n` copies of command `c`. */
  function Repeated(c: Command, n: nat): (cs: seq<Command>)
    ensures |cs| == n && forall i :: 0 <= i < n ==> cs[i] == c
  {
    if n == 0 then [] else Repeated(c, n - 1) + [c]
  }

  /** `RandomController`. The base class's `model` reference is never used
      and is left out. */
  class RandomController {
    var move: Option<int>
    var running: bool
    const agent: Agent

    constructor (agent: Agent)
      ensures move == None && !running && this.agent == agent
    {
      move := None;
      running := false;
      this.agent := agent;
    }

    /** `handle_input` with the index `pick` that `random.choice` draws from
        the compass headings. */
    method HandleInput(pick: nat)
      requires pick < |ControllerRandoms.CHOICES|
      modifies this`move
      ensures move == Some(if agent.bumpSensor then ControllerRandoms.CHOICES[pick] else agent.direction)
    {
      if agent.bumpSensor {
        move := Some(ControllerRandoms.CHOICES[pick]);
      } else {
        move := Some(agent.direction);
      }
    }

    /** `move_agent`: left turns until the heading equals `move`, then one
        forward step. The loop ends at once when `move` already is the
        heading (whatever its value); otherwise only when `move` is a heading
        in [0, 360) that agrees with the agent's heading modulo
        ANGULAR_SPEED, since every turn leaves the heading in [0, 360).
        Outside these cases Python loops forever (or fails on None), so
        they are required. */
    method MoveAgent()
      requires running ==>
                 move.Some? &&
                 (move.value == agent.direction ||
                  (0 <= move.value < 360 && (move.value - agent.direction) % ANGULAR_SPEED == 0))
      modifies agent`x, agent`y, agent`direction, agent`bumpSensor, agent`trace
      ensures !running ==> unchanged(agent)
      ensures running ==>
                agent.trace == old(agent.trace) +
                               Repeated(TurnLeft, LeftTurnsNeeded(old(agent.direction), move.value)) + [StepForward] &&
                agent.State() == Step(agent.geo, agent.WallRects(), Pose(old(agent.x), old(agent.y), move.value), true)
    {
      if !running {
        return;
      }
      var m := move.value;
      ghost var n := LeftTurnsNeeded(agent.direction, m);
      ghost var turns := 0;
      var rotation := agent.direction;
      while rotation != m
        invariant rotation == agent.direction && agent.x == old(agent.x) && agent.y == old(agent.y)
        invariant rotation == m || (0 <= m < 360 && (m - rotation) % ANGULAR_SPEED == 0)
        invariant turns + LeftTurnsNeeded(rotation, m) == n
        invariant agent.trace == old(agent.trace) + Repeated(TurnLeft, turns)
        decreases LeftTurnsNeeded(rotation, m)
      {
        LeftTurnKeepsResidue(rotation, m);
        agent.RotateLeft();
        rotation := agent.direction;
        turns := turns + 1;
      }
      agent.MoveForward();
    }
  }
}
