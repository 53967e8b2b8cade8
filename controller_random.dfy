/** The wandering controller (controller_random.py): it drives straight ahead
    and, now and then or after a bump, picks a compass goal and turns towards
    it one rotation per call. The random draws are parameters of the methods
    that use them. */
module ControllerRandoms {
  import opened Wrappers
  import opened Lists
  import opened Agents

  /** The values of the controller's `move`: "left", "right" and "same". */
  datatype Turn = Left | Right | Same

  /** `choices`: the eight compass headings 0, 45, ..., 315. */
  const CHOICES: seq<int> := [0, 45, 90, 135, 180, 225, 270, 315]

  /** `change_course`'s default chance of changing course. */
  const EPSILON: real := 0.05

  // ------------------------------------------------------ angle arithmetic

  /** The remainder of a sum or difference of two multiples of 360. */
  lemma MultiplesOf360(a: int, b: int)
    requires a % 360 == 0 && b % 360 == 0
    ensures (a + b) % 360 == 0 && (a - b) % 360 == 0
  {
    ModUnique(a + b, a / 360 + b / 360, 0);
    ModUnique(a - b, a / 360 - b / 360, 0);
  }

  /** Two angles in (-180, 180] that agree modulo 360 are equal. */
  lemma SameRepresentative(x: int, y: int)
    requires -180 < x <= 180 && -180 < y <= 180 && (x - y) % 360 == 0
    ensures x == y
  {
    if x > y {
      ModUnique(x - y, 0, x - y);
    } else if x < y {
      ModUnique(x - y, -1, x - y + 360);
    }
  }

  /** The angle from `current` to `goal` as `turn_direction` normalises it:
      the one representative of `goal - current` modulo 360 that lies in
      (-180, 180]. */
  function AngleDiff(current: int, goal: int): (d: int)
    ensures -180 < d <= 180
    ensures (goal - current - d) % 360 == 0
  {
    var m := (goal - current) % 360;
    ModUnique(goal - current - m, (goal - current) / 360, 0);
    ModUnique(goal - current - (m - 360), (goal - current) / 360 + 1, 0);
    if m > 180 then m - 360 else m
  }

  /** `turn_direction`: the shorter way round to the goal, "left" (counter-
      clockwise) on a tie at 180 degrees, "same" when the goal is the current
      heading up to whole turns. */
  function TurnDirection(current: int, goal: int): (t: Turn)
    ensures t == Same <==> (goal - current) % 360 == 0
    ensures t == Left <==> 0 < (goal - current) % 360 <= 180
    ensures (goal - current) % 360 == 180 ==> t == Left
  {
    var d := AngleDiff(current, goal);
    if d > 0 then Left else if d < 0 then Right else Same
  }

  /** The heading after one `rotate_left`, one `rotate_right` or neither. */
  function TurnedBy(d: int, t: Turn): int {
    match t
    case Left => RotatedLeft(d)
    case Right => RotatedRight(d)
    case Same => d
  }

  /** The agent commands `move_agent` issues for a turn. */
  function TurnCommands(t: Turn): seq<Command> {
    match t
    case Left => [TurnLeft]
    case Right => [TurnRight]
    case Same => []
  }

  /** Turning the way `turn_direction` says brings the heading one rotation
      closer to the goal: the normalised angle shrinks by ANGULAR_SPEED
      towards zero. So when heading and goal are both multiples of
      ANGULAR_SPEED, repeated turning calls reach the goal. */
  lemma TurnNarrowsGap(current: int, goal: int)
    requires (goal - current) % ANGULAR_SPEED == 0
    ensures TurnDirection(current, goal) == Left ==>
              AngleDiff(RotatedLeft(current), goal) == AngleDiff(current, goal) - ANGULAR_SPEED
    ensures TurnDirection(current, goal) == Right ==>
              AngleDiff(RotatedRight(current), goal) == AngleDiff(current, goal) + ANGULAR_SPEED
  {
    var t := TurnDirection(current, goal);
    var d := AngleDiff(current, goal);
    var z := (goal - current) / ANGULAR_SPEED - 72 * ((goal - current - d) / 360);
    assert d == ANGULAR_SPEED * z;
    if t != Same {
      var c' := TurnedBy(current, t);
      var step := if t == Left then ANGULAR_SPEED else -ANGULAR_SPEED;
      var d' := AngleDiff(c', goal);
      assert (c' - (current + step)) % 360 == 0;
      MultiplesOf360(goal - current - d, goal - c' - d');
      MultiplesOf360((goal - current - d) - (goal - c' - d'), c' - (current + step));
      assert d' - (d - step) == (goal - current - d) - (goal - c' - d') - (c' - (current + step));
      SameRepresentative(d', d - step);
    }
  }

  // -------------------------------------------------------- course changes

  /** The compass neighbours of the heading at index `i`, read with Python's
      wrap-around indices. */
  lemma Neighbours(i: int)
    requires 0 <= i < |CHOICES|
    ensures PyIndex(CHOICES, i - 1) == (CHOICES[i] - 45) % 360
    ensures PyIndex(CHOICES, i - 7) == (CHOICES[i] + 45) % 360
  {
    if i == 0 {
    } else if i == 1 {
    } else if i == 2 {
    } else if i == 3 {
    } else if i == 4 {
    } else if i == 5 {
    } else if i == 6 {
    } else {
    }
  }

  /** The goal `change_course` picks from heading `d`: the compass neighbour
      at index - 1 (Python wraps index -1 to the last choice) when the second
      draw `side` is above one half, else the one at index - 7 (which wraps
      to index + 1). None when `d` is not a compass heading, where
      `choices.index` raises ValueError. */
  function CourseChange(d: int, side: real): (goal: Option<int>)
    ensures goal.Some? <==> d in CHOICES
    ensures goal.Some? ==> goal.value == (if side > 0.5 then (d - 45) % 360 else (d + 45) % 360)
  {
    if d !in CHOICES then None
    else
      var i := IndexOf(CHOICES, d);
      Neighbours(i);
      Some(if side > 0.5 then PyIndex(CHOICES, i - 1) else PyIndex(CHOICES, i - 7))
  }

  /** The normalised angle to `d + e`, brought into [0, 360), is `e`
      itself when `e` lies in (-180, 180]. */
  lemma AngleDiffToOffset(d: int, e: int)
    requires -180 < e <= 180
    ensures AngleDiff(d, (d + e) % 360) == e
  {
    var g := (d + e) % 360;
    var a := AngleDiff(d, g);
    ModUnique(g - (d + e), -((d + e) / 360), 0);
    MultiplesOf360(g - d - e, g - d - a);
    assert a - e == (g - d - e) - (g - d - a);
    SameRepresentative(a, e);
  }

  /** A course change turns right (clockwise) to the neighbour at -45
      degrees or left to the one at +45, so the controller always has a
      turn to make afterwards. */
  lemma CourseChangeTurns(d: int, side: real)
    requires d in CHOICES
    ensures AngleDiff(d, CourseChange(d, side).value) == (if side > 0.5 then -45 else 45)
    ensures TurnDirection(d, CourseChange(d, side).value) == (if side > 0.5 then Right else Left)
  {
    AngleDiffToOffset(d, if side > 0.5 then -45 else 45);
  }

  /** Whether `move_agent` takes its turning branch: after a bump, or while
      a goal is set that the heading has not reached. */
  predicate Turning(bump: bool, goal: Option<int>, direction: int) {
    bump || (goal.Some? && direction != goal.value)
  }

  /** `ControllerRandom`. The base class's `model` reference is never used
      and is left out. */
  class ControllerRandom {
    var move: Turn
    var goalDirection: Option<int>
    var running: bool
    const agent: Agent

    constructor (agent: Agent)
      ensures move == Same && goalDirection == None && !running && this.agent == agent
    {
      move := Same;
      goalDirection := None;
      running := false;
      this.agent := agent;
    }

    /** `change_course(epsilon)` with its two `random.random()` draws `draw`
        and `side`. It returns false where Python raises ValueError: the
        heading is not a compass heading; nothing has changed by then. */
    method ChangeCourse(draw: real, side: real) returns (ok: bool)
      modifies this`goalDirection, this`move
      ensures ok <==> draw > EPSILON || agent.direction in CHOICES
      ensures if draw <= EPSILON && agent.direction in CHOICES
              then goalDirection == CourseChange(agent.direction, side) &&
                   move == TurnDirection(agent.direction, goalDirection.value)
              else goalDirection == old(goalDirection) && move == old(move)
    {
      if draw > EPSILON {
        return true;
      }
      var direction := agent.direction;
      if direction !in CHOICES {
        return false;
      }
      var i: int := IndexOf(CHOICES, direction);
      var goal := if side > 0.5 then PyIndex(CHOICES, i - 1) else PyIndex(CHOICES, i - 7);
      goalDirection := Some(goal);
      move := TurnDirection(direction, goal);
      ok := true;
    }

    /** `handle_input` with the index `pick` that `random.choice` draws. */
    method HandleInput(pick: nat)
      requires pick < |CHOICES|
      modifies this`goalDirection, this`move
      ensures agent.bumpSensor ==>
                goalDirection == Some(CHOICES[pick]) &&
                move == TurnDirection(agent.direction, CHOICES[pick])
      ensures !agent.bumpSensor ==> goalDirection == old(goalDirection) && move == Same
    {
      if agent.bumpSensor {
        var direction := agent.direction;
        var goal := CHOICES[pick];
        goalDirection := Some(goal);
        move := TurnDirection(direction, goal);
      } else {
        move := Same;
      }
    }

    /** `move_agent` with the draws `pick` (for `handle_input`) and `draw`,
        `side` (for `change_course`). It returns false where Python raises:
        a bump with no goal set makes `turn_direction` subtract None
        (TypeError), and `change_course` from a heading that is not a
        compass heading raises ValueError. The turning branch turns at most
        once and never moves; the other branch always attempts one forward
        move, since without a bump `handle_input` leaves `move` "same". */
    method MoveAgent(pick: nat, draw: real, side: real) returns (ok: bool)
      requires pick < |CHOICES|
      modifies this`goalDirection, this`move, agent`x, agent`y, agent`direction, agent`bumpSensor, agent`trace
      ensures !old(running) ==> ok && unchanged(this) && unchanged(agent)
      ensures old(running && Turning(agent.bumpSensor, goalDirection, agent.direction) && goalDirection.None?) ==>
                !ok && unchanged(this) && unchanged(agent)
      ensures old(running && Turning(agent.bumpSensor, goalDirection, agent.direction) && goalDirection.Some?) ==>
                var t := TurnDirection(old(agent.direction), old(goalDirection.value));
                ok &&
                agent.CurrentPose() == old(agent.CurrentPose()).(direction := TurnedBy(old(agent.direction), t)) &&
                agent.bumpSensor == (if t == Same then old(agent.bumpSensor) else false) &&
                agent.trace == old(agent.trace) + TurnCommands(t) &&
                if old(agent.direction == goalDirection.value) then goalDirection == None && move == Same
                else goalDirection == old(goalDirection) && move == t
      ensures old(running && !Turning(agent.bumpSensor, goalDirection, agent.direction)) ==>
                agent.trace == old(agent.trace) + [AttemptMove(true)] &&
                (ok <==> draw > EPSILON || agent.direction in CHOICES) &&
                if draw <= EPSILON && agent.direction in CHOICES
                then goalDirection == CourseChange(agent.direction, side) &&
                     move == TurnDirection(agent.direction, goalDirection.value)
                else goalDirection == old(goalDirection) && move == Same
    {
      if !running {
        return true;
      }
      if agent.bumpSensor || (goalDirection.Some? && agent.direction != goalDirection.value) {
        if goalDirection.None? {
          return false;
        }
        var direction := agent.direction;
        move := TurnDirection(direction, goalDirection.value);
        if move == Left {
          agent.RotateLeft();
        } else if move == Right {
          agent.RotateRight();
        }
        if direction == goalDirection.value {
          goalDirection := None;
          move := Same;
        }
        ok := true;
      } else {
        HandleInput(pick);
        ok := true;
        if move == Same {
          agent.TryMove(true);
          ok := ChangeCourse(draw, side);
        }
      }
    }
  }
}
