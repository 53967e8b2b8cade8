/** The simulated robot (agent.py): a pose in the arena, a bump sensor, and a
    fan of LiDAR beams whose ranges `scan` refreshes. Coordinates are reals
    with y growing downwards; headings are whole degrees. */
module Agents {
  import opened Rects
  import opened Wrappers
  import opened Walls

  /** Radius of the agent's round body. */
  const AGENT_RADIUS: int := 20

  /** The arena. */
  const LEFT_BOUNDARY: real := 0.0
  const RIGHT_BOUNDARY: real := 800.0
  const TOP_BOUNDARY: real := 0.0
  const BOTTOM_BOUNDARY: real := 600.0

  /** Distance of one step, degrees of one turn, reach of a LiDAR beam. */
  const LINEAR_SPEED: real := 10.0
  const ANGULAR_SPEED: int := 5
  const LIDAR_MAX_RANGE: real := 200.0

  /** Number of beams when the caller does not say. */
  const DEFAULT_LIDAR_BEAMS: nat := 36

  /** What the agent uses without defining it: cosine and sine of an angle
      in degrees and the square root (all from the maths library), and the
      two wall queries `is_colliding(x, y, radius)` and
      `get_collision_point(x1, y1, x2, y2)`, which are not part of the wall
      model here. */
  datatype Geometry = Geometry(
    cosDeg: real -> real,
    sinDeg: real -> real,
    sqrt: real -> real,
    isColliding: (Rect, real, real, int) -> bool,
    collisionPoint: (Rect, real, real, real, real) -> Option<(real, real)>)

  datatype Pose = Pose(x: real, y: real, direction: int)

  /** The part of the agent that moves and turns: its pose and bump sensor. */
  datatype AgentState = AgentState(pose: Pose, bump: bool)

  /** The agent operations a caller can invoke, as recorded in the agent's
      trace. */
  datatype Command = TurnLeft | TurnRight | StepForward | StepBackward | AttemptMove(forward: bool)

  // ---------------------------------------------------------------- turning

  /** `rotate_left`'s new heading: `d` turned ANGULAR_SPEED degrees
      counter-clockwise, brought into [0, 360). */
  function RotatedLeft(d: int): (r: int)
    ensures 0 <= r < 360
    ensures (r - (d + ANGULAR_SPEED)) % 360 == 0
  {
    (d + ANGULAR_SPEED) % 360
  }

  /** `rotate_right`'s new heading: `d` turned ANGULAR_SPEED degrees
      clockwise, brought into [0, 360). */
  function RotatedRight(d: int): (r: int)
    ensures 0 <= r < 360
    ensures (r - (d - ANGULAR_SPEED)) % 360 == 0
  {
    (d - ANGULAR_SPEED) % 360
  }

  /** On headings in [0, 360) a right turn undoes a left turn and the other
      way round. */
  lemma RotationsCancel(d: int)
    requires 0 <= d < 360
    ensures RotatedRight(RotatedLeft(d)) == d
    ensures RotatedLeft(RotatedRight(d)) == d
  {
    if d + ANGULAR_SPEED >= 360 {
      assert RotatedLeft(d) == d + ANGULAR_SPEED - 360;
    }
    if d - ANGULAR_SPEED < 0 {
      assert RotatedRight(d) == d - ANGULAR_SPEED + 360;
    }
  }

  /** `k` left turns from a heading in [0, 360). */
  function TurnedLeftTimes(d: int, k: nat): int {
    if k == 0 then d else RotatedLeft(TurnedLeftTimes(d, k - 1))
  }

  /** `k` left turns add k * ANGULAR_SPEED degrees modulo 360; in particular
      72 of them bring the agent back to its heading. */
  lemma {:induction false} TurnedLeftTimesIsSum(d: int, k: nat)
    requires 0 <= d < 360
    ensures TurnedLeftTimes(d, k) == (d + k * ANGULAR_SPEED) % 360
  {
    if k > 0 {
      TurnedLeftTimesIsSum(d, k - 1);
      var a := d + (k - 1) * ANGULAR_SPEED;
      var prev := a % 360;
      var r := (prev + ANGULAR_SPEED) % 360;
      assert a + ANGULAR_SPEED == 360 * (a / 360 + (prev + ANGULAR_SPEED) / 360) + r;
      ModUnique(a + ANGULAR_SPEED, a / 360 + (prev + ANGULAR_SPEED) / 360, r);
    }
  }

  /** The remainder modulo 360 is the unique r in [0, 360) with x = 360q + r. */
  lemma ModUnique(x: int, q: int, r: int)
    requires x == 360 * q + r && 0 <= r < 360
    ensures x % 360 == r
  {
  }

  // ----------------------------------------------------------------- moving

  /** The pose `speed` units along the heading (forward) or against it
      (backward); the heading itself does not change. */
  function Advance(geo: Geometry, p: Pose, forward: bool, speed: real): Pose {
    var c := geo.cosDeg(p.direction as real);
    var s := geo.sinDeg(p.direction as real);
    if forward then Pose(p.x + speed * c, p.y - speed * s, p.direction)
    else Pose(p.x - speed * c, p.y + speed * s, p.direction)
  }

  /** A backward step is the forward step mirrored through the start. */
  lemma BackwardMirrorsForward(geo: Geometry, p: Pose, speed: real)
    ensures var f, b := Advance(geo, p, true, speed), Advance(geo, p, false, speed);
            b.x - p.x == -(f.x - p.x) && b.y - p.y == -(f.y - p.y) && b.direction == f.direction
  {
  }

  /** The centre positions at which the body stays inside the arena: the
      arena shrunk by the body radius on every side, edges included. */
  predicate InShrunkArena(x: real, y: real) {
    && LEFT_BOUNDARY + AGENT_RADIUS as real <= x <= RIGHT_BOUNDARY - AGENT_RADIUS as real
    && TOP_BOUNDARY + AGENT_RADIUS as real <= y <= BOTTOM_BOUNDARY - AGENT_RADIUS as real
  }

  /** Whether some wall reports a body collision at (x, y). */
  function AnyWallColliding(geo: Geometry, rects: seq<Rect>, x: real, y: real): (r: bool)
    ensures r <==> exists i :: 0 <= i < |rects| && geo.isColliding(rects[i], x, y, AGENT_RADIUS)
  {
    if rects == [] then false
    else geo.isColliding(rects[0], x, y, AGENT_RADIUS) || AnyWallColliding(geo, rects[1..], x, y)
  }

  /** `detect_collision`: whether a full step from `p` would leave the body
      outside the arena or inside a wall. */
  function DetectCollision(geo: Geometry, rects: seq<Rect>, p: Pose, forward: bool): (r: bool)
    ensures var q := Advance(geo, p, forward, LINEAR_SPEED);
            !r <==> InShrunkArena(q.x, q.y) &&
                    forall i :: 0 <= i < |rects| ==> !geo.isColliding(rects[i], q.x, q.y, AGENT_RADIUS)
  {
    var q := Advance(geo, p, forward, LINEAR_SPEED);
    if !InShrunkArena(q.x, q.y) then true
    else AnyWallColliding(geo, rects, q.x, q.y)
  }

  /** `move_forward` / `move_backward`: take the full step if it is clear and
      clear the bump sensor, otherwise stay put and set it. The heading never
      changes, and a committed step always ends inside the shrunk arena and
      clear of every wall. */
  function Step(geo: Geometry, rects: seq<Rect>, p: Pose, forward: bool): (s: AgentState)
    ensures s.pose.direction == p.direction
    ensures s.bump <==> DetectCollision(geo, rects, p, forward)
    ensures s.bump ==> s.pose == p
    ensures !s.bump ==> s.pose == Advance(geo, p, forward, LINEAR_SPEED)
    ensures !s.bump ==> InShrunkArena(s.pose.x, s.pose.y)
    ensures !s.bump ==> forall i :: 0 <= i < |rects| ==> !geo.isColliding(rects[i], s.pose.x, s.pose.y, AGENT_RADIUS)
  {
    if !DetectCollision(geo, rects, p, forward) then
      AgentState(Advance(geo, p, forward, LINEAR_SPEED), false)
    else
      AgentState(p, true)
  }

  /** The effect of one of the agent's own commands (`try_move` is not one:
      its body is not known). */
  function Apply(geo: Geometry, rects: seq<Rect>, s: AgentState, c: Command): (t: AgentState)
    requires !c.AttemptMove?
    ensures c.TurnLeft? || c.TurnRight? ==>
              t.pose.x == s.pose.x && t.pose.y == s.pose.y && !t.bump && 0 <= t.pose.direction < 360
    ensures c.StepForward? || c.StepBackward? ==> t.pose.direction == s.pose.direction
  {
    match c
    case TurnLeft => AgentState(s.pose.(direction := RotatedLeft(s.pose.direction)), false)
    case TurnRight => AgentState(s.pose.(direction := RotatedRight(s.pose.direction)), false)
    case StepForward => Step(geo, rects, s.pose, true)
    case StepBackward => Step(geo, rects, s.pose, false)
  }

  /** A sequence of the agent's own commands, applied in order. */
  function Run(geo: Geometry, rects: seq<Rect>, s: AgentState, cs: seq<Command>): AgentState
    requires forall c <- cs :: !c.AttemptMove?
    decreases |cs|
  {
    if cs == [] then s else Run(geo, rects, Apply(geo, rects, s, cs[0]), cs[1..])
  }

  /** The commands `handle_move_keys` issues for the arrow keys held down. */
  function KeyCommands(left: bool, right: bool, up: bool, down: bool): (cs: seq<Command>)
    ensures forall c <- cs :: !c.AttemptMove?
  {
    (if left then [TurnLeft] else []) + (if right then [TurnRight] else [])
    + (if up then [StepForward] else []) + (if down then [StepBackward] else [])
  }

  /** The arrow keys issue left, right, up, down, each at most once, each
      exactly when its key is held, and in that order. */
  lemma KeyCommandsOrder(left: bool, right: bool, up: bool, down: bool)
    ensures var cs := KeyCommands(left, right, up, down);
            && |cs| <= 4
            && (forall i, j :: 0 <= i < j < |cs| ==> CommandRank(cs[i]) < CommandRank(cs[j]))
            && (TurnLeft in cs <==> left) && (TurnRight in cs <==> right)
            && (StepForward in cs <==> up) && (StepBackward in cs <==> down)
  {
  }

  /** Position of a command in the fixed order of `handle_move_keys`. */
  function CommandRank(c: Command): nat {
    match c
    case TurnLeft => 0
    case TurnRight => 1
    case StepForward => 2
    case StepBackward => 3
    case AttemptMove(_) => 4
  }

  /** Apply `c` when `b` holds. */
  function ApplyIf(geo: Geometry, rects: seq<Rect>, s: AgentState, b: bool, c: Command): AgentState
    requires !c.AttemptMove?
  {
    if b then Apply(geo, rects, s, c) else s
  }

  /** Running the key commands is applying each held key's command in turn. */
  lemma RunKeyCommands(geo: Geometry, rects: seq<Rect>, s: AgentState, left: bool, right: bool, up: bool, down: bool)
    ensures Run(geo, rects, s, KeyCommands(left, right, up, down)) ==
            var s1 := ApplyIf(geo, rects, s, left, TurnLeft);
            var s2 := ApplyIf(geo, rects, s1, right, TurnRight);
            var s3 := ApplyIf(geo, rects, s2, up, StepForward);
            ApplyIf(geo, rects, s3, down, StepBackward)
  {
    var a := if left then [TurnLeft] else [];
    var b := if right then [TurnRight] else [];
    var c := if up then [StepForward] else [];
    var d := if down then [StepBackward] else [];
    assert KeyCommands(left, right, up, down) == a + b + c + d;
    RunAppend(geo, rects, s, a + b + c, d);
    RunAppend(geo, rects, s, a + b, c);
    RunAppend(geo, rects, s, a, b);
  }

  /** The trace and the state after the four guarded calls of
      `handle_move_keys`, one key at a time. This is `RunKeyCommands` plus
      the regrouping of the trace, stated apart from `HandleMoveKeys` so that
      the method's proof does not have to redo the sequence reasoning in its
      heap context, which makes it several times more expensive. */
  lemma KeyCommandsPieces(geo: Geometry, rects: seq<Rect>, s: AgentState, tr: seq<Command>, left: bool, right: bool, up: bool, down: bool)
    ensures var a, b, c, d := if left then [TurnLeft] else [], if right then [TurnRight] else [],
                              if up then [StepForward] else [], if down then [StepBackward] else [];
            && tr + a + b + c + d == tr + KeyCommands(left, right, up, down)
            && Run(geo, rects, s, KeyCommands(left, right, up, down)) ==
               var s1 := ApplyIf(geo, rects, s, left, TurnLeft);
               var s2 := ApplyIf(geo, rects, s1, right, TurnRight);
               var s3 := ApplyIf(geo, rects, s2, up, StepForward);
               ApplyIf(geo, rects, s3, down, StepBackward)
  {
    RunKeyCommands(geo, rects, s, left, right, up, down);
  }

  /** Running two command sequences one after the other is running their
      concatenation. */
  lemma {:induction false} RunAppend(geo: Geometry, rects: seq<Rect>, s: AgentState, xs: seq<Command>, ys: seq<Command>)
    requires forall c <- xs :: !c.AttemptMove?
    requires forall c <- ys :: !c.AttemptMove?
    ensures forall c <- xs + ys :: !c.AttemptMove?
    ensures Run(geo, rects, s, xs + ys) == Run(geo, rects, Run(geo, rects, s, xs), ys)
    decreases |xs|
  {
    if xs != [] {
      assert (xs + ys)[1..] == xs[1..] + ys;
      RunAppend(geo, rects, Apply(geo, rects, s, xs[0]), xs[1..], ys);
    } else {
      assert xs + ys == ys;
    }
  }

  /** Each rotation leaves the position alone, so whatever keys are held,
      the arrow keys move the agent only through steps: with neither up nor
      down held the position does not change. */
  lemma {:induction false} TurningKeysKeepPosition(geo: Geometry, rects: seq<Rect>, s: AgentState, left: bool, right: bool)
    ensures var t := Run(geo, rects, s, KeyCommands(left, right, false, false));
            t.pose.x == s.pose.x && t.pose.y == s.pose.y
            && (left || right ==> !t.bump && 0 <= t.pose.direction < 360)
  {
    var cs := KeyCommands(left, right, false, false);
    if left && right {
      assert cs == [TurnLeft, TurnRight];
      var s1 := Apply(geo, rects, s, TurnLeft);
      assert Run(geo, rects, s, cs) == Run(geo, rects, s1, [TurnRight]);
    } else if left {
      assert cs == [TurnLeft];
    } else if right {
      assert cs == [TurnRight];
    } else {
      assert cs == [];
    }
  }

  // ----------------------------------------------------------------- LiDAR

  /** A boundary distance, or the infinity `check_collision_with_boundaries`
      returns when no boundary is crossed. */
  datatype Distance = Finite(value: real) | Infinite

  /** Where a beam crosses a boundary line, and at which fraction `t` of the
      beam. */
  datatype Crossing = Crossing(x: real, y: real, t: real)

  /** Where `check_collision_with_boundaries` says the beam ends. */
  datatype BoundaryHit = BoundaryHit(x: real, y: real, dist: Distance)

  /** The four boundary lines of the arena. */
  datatype Side = Top | Bottom | LeftSide | RightSide

  /** Whether a beam from (x, y) to (endX, endY) heads towards a boundary
      line: only then is that line tested. */
  predicate HeadsTowards(side: Side, x: real, y: real, endX: real, endY: real) {
    match side
    case Top => endY < y
    case Bottom => endY > y
    case LeftSide => endX < x
    case RightSide => endX > x
  }

  /** Whether a point lies on a boundary line. */
  predicate OnLine(side: Side, px: real, py: real) {
    match side
    case Top => py == TOP_BOUNDARY
    case Bottom => py == BOTTOM_BOUNDARY
    case LeftSide => px == LEFT_BOUNDARY
    case RightSide => px == RIGHT_BOUNDARY
  }

  /** The fraction of the beam at which it meets a boundary line it heads
      towards. */
  function LineT(side: Side, x: real, y: real, endX: real, endY: real): real
    requires HeadsTowards(side, x, y, endX, endY)
  {
    match side
    case Top => (TOP_BOUNDARY - y) / (endY - y)
    case Bottom => (BOTTOM_BOUNDARY - y) / (endY - y)
    case LeftSide => (LEFT_BOUNDARY - x) / (endX - x)
    case RightSide => (RIGHT_BOUNDARY - x) / (endX - x)
  }

  /** The beam's crossing with one boundary line: tested only when the beam
      heads towards the line, kept only when it lies within the beam. */
  function SideCrossing(side: Side, x: real, y: real, endX: real, endY: real): (cs: seq<Crossing>)
    ensures |cs| <= 1
    ensures |cs| == 1 <==> HeadsTowards(side, x, y, endX, endY) && 0.0 <= LineT(side, x, y, endX, endY) <= 1.0
    ensures forall c <- cs :: && 0.0 <= c.t <= 1.0
                              && c.x == x + c.t * (endX - x) && c.y == y + c.t * (endY - y)
                              && OnLine(side, c.x, c.y) && HeadsTowards(side, x, y, endX, endY)
  {
    var dx, dy := endX - x, endY - y;
    if !HeadsTowards(side, x, y, endX, endY) then []
    else
      var t := LineT(side, x, y, endX, endY);
      if !(0.0 <= t <= 1.0) then []
      else if side.Top? || side.Bottom? then
        var line := if side.Top? then TOP_BOUNDARY else BOTTOM_BOUNDARY;
        assert t * dy == line - y;
        [Crossing(x + t * dx, line, t)]
      else
        var line := if side.LeftSide? then LEFT_BOUNDARY else RIGHT_BOUNDARY;
        assert t * dx == line - x;
        [Crossing(line, y + t * dy, t)]
  }

  /** The beam's crossings with the boundary lines it heads towards, in the
      order top, bottom, left, right. */
  function Crossings(x: real, y: real, endX: real, endY: real): (cs: seq<Crossing>)
    ensures forall c <- cs :: 0.0 <= c.t <= 1.0
    ensures forall c <- cs :: c.x == x + c.t * (endX - x) && c.y == y + c.t * (endY - y)
    ensures forall c <- cs :: exists side :: OnLine(side, c.x, c.y) && HeadsTowards(side, x, y, endX, endY)
    ensures forall side :: HeadsTowards(side, x, y, endX, endY) && 0.0 <= LineT(side, x, y, endX, endY) <= 1.0 ==>
              exists c <- cs :: OnLine(side, c.x, c.y)
  {
    var top := SideCrossing(Top, x, y, endX, endY);
    var bottom := SideCrossing(Bottom, x, y, endX, endY);
    var left := SideCrossing(LeftSide, x, y, endX, endY);
    var right := SideCrossing(RightSide, x, y, endX, endY);
    var cs := top + bottom + left + right;
    assert forall c <- cs :: c in top || c in bottom || c in left || c in right;
    assert |top| == 1 ==> top[0] in cs;
    assert |bottom| == 1 ==> bottom[0] in cs;
    assert |left| == 1 ==> left[0] in cs;
    assert |right| == 1 ==> right[0] in cs;
    cs
  }

  /** The first crossing with the smallest `t`, as a stable sort on `t`
      would put first. */
  function Nearest(cs: seq<Crossing>): (c: Crossing)
    requires cs != []
    ensures c in cs
    ensures forall d <- cs :: c.t <= d.t
    ensures exists k :: 0 <= k < |cs| && cs[k] == c && forall j :: 0 <= j < k ==> cs[j].t > c.t
  {
    if |cs| == 1 then cs[0]
    else
      var rest := Nearest(cs[1..]);
      if cs[0].t <= rest.t then cs[0] else rest
  }

  /** Euclidean distance through the given square root. */
  function Dist(geo: Geometry, x1: real, y1: real, x2: real, y2: real): real {
    geo.sqrt((x2 - x1) * (x2 - x1) + (y2 - y1) * (y2 - y1))
  }

  /** `check_collision_with_boundaries`: the nearest boundary crossing along
      the beam from (x, y) to (endX, endY) and its distance, or the end point
      itself at infinite distance when the beam crosses no boundary it heads
      towards. */
  function CheckBoundaries(geo: Geometry, x: real, y: real, endX: real, endY: real): (b: BoundaryHit)
    ensures Crossings(x, y, endX, endY) == [] ==> b == BoundaryHit(endX, endY, Infinite)
    ensures var cs := Crossings(x, y, endX, endY);
            cs != [] ==> exists c <- cs :: && b == BoundaryHit(c.x, c.y, Finite(Dist(geo, x, y, c.x, c.y)))
                                           && forall d <- cs :: c.t <= d.t
  {
    var cs := Crossings(x, y, endX, endY);
    if cs == [] then BoundaryHit(endX, endY, Infinite)
    else
      var c := Nearest(cs);
      BoundaryHit(c.x, c.y, Finite(Dist(geo, x, y, c.x, c.y)))
  }

  /** The first wall, in list order, that reports a hit point for the beam,
      and that point. */
  function FirstWallHit(geo: Geometry, rects: seq<Rect>, x: real, y: real, endX: real, endY: real): (r: Option<(real, real)>)
    ensures r.None? <==> forall i :: 0 <= i < |rects| ==> geo.collisionPoint(rects[i], x, y, endX, endY).None?
    ensures r.Some? ==> exists i :: 0 <= i < |rects| && geo.collisionPoint(rects[i], x, y, endX, endY) == r &&
                                    forall j :: 0 <= j < i ==> geo.collisionPoint(rects[j], x, y, endX, endY).None?
  {
    if rects == [] then None
    else
      var hit := geo.collisionPoint(rects[0], x, y, endX, endY);
      if hit.Some? then hit else FirstWallHit(geo, rects[1..], x, y, endX, endY)
  }

  /** Where the beam at offset `angle` would end at full range. */
  function BeamEnd(geo: Geometry, p: Pose, angle: real): (real, real) {
    var a := p.direction as real + angle;
    (p.x + LIDAR_MAX_RANGE * geo.cosDeg(a), p.y - LIDAR_MAX_RANGE * geo.sinDeg(a))
  }

  /** The boundary result for the beam at offset `angle`. */
  function BeamBoundary(geo: Geometry, p: Pose, angle: real): BoundaryHit {
    var e := BeamEnd(geo, p, angle);
    CheckBoundaries(geo, p.x, p.y, e.0, e.1)
  }

  /** The wall distance for the beam at offset `angle`: the distance to the
      first wall that reports a hit on the beam cut at the boundary, or the
      full range when none does. */
  function BeamWallDistance(geo: Geometry, rects: seq<Rect>, p: Pose, angle: real): real {
    var b := BeamBoundary(geo, p, angle);
    match FirstWallHit(geo, rects, p.x, p.y, b.x, b.y)
    case None => LIDAR_MAX_RANGE
    case Some(hit) => Dist(geo, p.x, p.y, hit.0, hit.1)
  }

  /** Python's `min` of a boundary distance and a wall distance. */
  function MinDistance(b: Distance, w: real): real {
    match b
    case Infinite => w
    case Finite(d) => if w < d then w else d
  }

  /** The range one beam reports: the smaller of its boundary distance and
      its wall distance. */
  function BeamRange(geo: Geometry, rects: seq<Rect>, p: Pose, angle: real): real {
    MinDistance(BeamBoundary(geo, p, angle).dist, BeamWallDistance(geo, rects, p, angle))
  }

  /** A beam's range is one of its two distances and no larger than either;
      with no wall hit it never exceeds the full range. */
  lemma BeamRangeBounds(geo: Geometry, rects: seq<Rect>, p: Pose, angle: real)
    ensures var r, b := BeamRange(geo, rects, p, angle), BeamBoundary(geo, p, angle);
            && r <= BeamWallDistance(geo, rects, p, angle)
            && (b.dist.Finite? ==> r <= b.dist.value)
            && (r == BeamWallDistance(geo, rects, p, angle) || b.dist == Finite(r))
            && (FirstWallHit(geo, rects, p.x, p.y, b.x, b.y).None? ==> r <= LIDAR_MAX_RANGE)
  {
  }

  /** The beam range as a function of the beam offset alone. */
  function RangeAt(geo: Geometry, rects: seq<Rect>, p: Pose): real -> real {
    angle => BeamRange(geo, rects, p, angle)
  }

  /** `range` applied to each offset, in order. */
  function Ranges(range: real -> real, angles: seq<real>): (rs: seq<real>)
    ensures |rs| == |angles|
  {
    if angles == [] then [] else Ranges(range, angles[..|angles| - 1]) + [range(angles[|angles| - 1])]
  }

  /** Extending the offsets by one extends the ranges by that offset's range. */
  lemma RangesSnoc(range: real -> real, angles: seq<real>, i: nat)
    requires i < |angles|
    ensures Ranges(range, angles[..i + 1]) == Ranges(range, angles[..i]) + [range(angles[i])]
  {
    assert angles[..i + 1][..i] == angles[..i];
  }

  /** Entry `i` of `Ranges` is the range of offset `angles[i]`. */
  lemma {:induction false} RangesAt(range: real -> real, angles: seq<real>, i: nat)
    requires i < |angles|
    ensures Ranges(range, angles)[i] == range(angles[i])
  {
    var init := angles[..|angles| - 1];
    if i < |init| {
      RangesAt(range, init, i);
      assert angles[i] == init[i];
    }
  }

  /** The offset of beam `i` of `n`. */
  function BeamAngle(i: nat, n: nat): real
    requires i < n
  {
    i as real * (360.0 / n as real)
  }

  /** The beam offsets `n` beams get: evenly spread over the full turn,
      starting at 0. */
  function BeamAngles(n: nat): (s: seq<real>)
    ensures |s| == n && (n > 0 ==> s[0] == 0.0)
    ensures forall i :: 0 <= i < n ==> 0.0 <= s[i] < 360.0
    ensures forall i :: 0 < i < n ==> s[i] - s[i - 1] == 360.0 / n as real
  {
    var s := seq(n, i requires 0 <= i < n => BeamAngle(i, n));
    forall i | 0 <= i < n
      ensures 0.0 <= s[i] < 360.0
    {
      BeamAngleBelowFullTurn(i, n);
    }
    s
  }

  lemma BeamAngleBelowFullTurn(i: nat, n: nat)
    requires i < n
    ensures 0.0 <= BeamAngle(i, n) < 360.0
  {
    var step := 360.0 / n as real;
    assert step * n as real == 360.0;
    assert step > 0.0;
    assert i as real * step <= (n - 1) as real * step;
    assert (n - 1) as real * step == 360.0 - step;
  }

  class Agent {
    var x: real
    var y: real
    var direction: int
    var lidarAngles: seq<real>
    var lidarRanges: seq<real>
    var bumpSensor: bool
    var walls: seq<Wall>
    const geo: Geometry
    /** The commands invoked on this agent so far. */
    ghost var trace: seq<Command>

    /** `__init__`; `geo` supplies what the agent uses without defining it,
        and the number of beams defaults to DEFAULT_LIDAR_BEAMS as in the
        source. */
    constructor (x: real, y: real, direction: int, walls: seq<Wall>, geo: Geometry,
                 numLidarBeams: nat := DEFAULT_LIDAR_BEAMS)
      ensures CurrentPose() == Pose(x, y, direction) && !bumpSensor
      ensures lidarAngles == BeamAngles(numLidarBeams) && lidarRanges == []
      ensures this.walls == walls && this.geo == geo && trace == []
    {
      this.x := x;
      this.y := y;
      this.direction := direction;
      lidarAngles := BeamAngles(numLidarBeams);
      lidarRanges := [];
      bumpSensor := false;
      this.walls := walls;
      this.geo := geo;
      trace := [];
    }

    function CurrentPose(): Pose
      reads this`x, this`y, this`direction
    {
      Pose(x, y, direction)
    }

    function State(): AgentState
      reads this`x, this`y, this`direction, this`bumpSensor
    {
      AgentState(CurrentPose(), bumpSensor)
    }

    /** The walls' current rectangles. */
    function WallRects(): seq<Rect>
      reads this`walls, walls
    {
      RectsOf(walls)
    }

    /** `scan`: one range per beam offset, in the offsets' order. */
    method Scan()
      modifies this`lidarRanges
      ensures |lidarRanges| == |lidarAngles|
      ensures forall i :: 0 <= i < |lidarAngles| ==>
                lidarRanges[i] == BeamRange(geo, WallRects(), CurrentPose(), lidarAngles[i])
    {
      ghost var range := RangeAt(geo, WallRects(), CurrentPose());
      ghost var rects, pose := WallRects(), CurrentPose();
      lidarRanges := [];
      var i := 0;
      while i < |lidarAngles|
        invariant 0 <= i <= |lidarAngles|
        invariant WallRects() == rects && CurrentPose() == pose
        invariant lidarRanges == Ranges(range, lidarAngles[..i])
      {
        var distance := ScanBeam(lidarAngles[i]);
        RangesSnoc(range, lidarAngles, i);
        lidarRanges := lidarRanges + [distance];
        i := i + 1;
      }
      assert lidarAngles[..i] == lidarAngles;
      forall k | 0 <= k < |lidarAngles|
        ensures lidarRanges[k] == BeamRange(geo, rects, pose, lidarAngles[k])
      {
        RangesAt(range, lidarAngles, k);
      }
    }

    /** The body of `scan`'s loop for the beam at offset `angle`: cut the
        beam at the boundary, then stop at the first wall that reports a hit
        point. */
    method ScanBeam(angle: real) returns (distance: real)
      ensures distance == BeamRange(geo, WallRects(), CurrentPose(), angle)
    {
      var laserAngle := direction as real + angle;
      var endX := x + LIDAR_MAX_RANGE * geo.cosDeg(laserAngle);
      var endY := y - LIDAR_MAX_RANGE * geo.sinDeg(laserAngle);
      assert (endX, endY) == BeamEnd(geo, CurrentPose(), angle);
      var b := CheckBoundaries(geo, x, y, endX, endY);
      assert b == BeamBoundary(geo, CurrentPose(), angle);
      endX, endY := b.x, b.y;
      ghost var rects := WallRects();
      var wallDistance := LIDAR_MAX_RANGE;
      var j := 0;
      while j < |walls|
        invariant 0 <= j <= |walls|
        invariant FirstWallHit(geo, rects, x, y, b.x, b.y) == FirstWallHit(geo, rects[j..], x, y, b.x, b.y)
        invariant endX == b.x && endY == b.y && wallDistance == LIDAR_MAX_RANGE
      {
        var hit := geo.collisionPoint(walls[j].rect, x, y, endX, endY);
        if hit.Some? {
          endX, endY := hit.value.0, hit.value.1;
          wallDistance := Dist(geo, x, y, endX, endY);
          break;
        }
        j := j + 1;
      }
      assert wallDistance == BeamWallDistance(geo, rects, CurrentPose(), angle);
      distance := MinDistance(b.dist, wallDistance);
    }

    /** `move_forward`. */
    method MoveForward()
      modifies this`x, this`y, this`bumpSensor, this`trace
      ensures State() == Step(geo, WallRects(), old(CurrentPose()), true)
      ensures trace == old(trace) + [StepForward]
      ensures WallRects() == old(WallRects())
    {
      if !DetectCollision(geo, WallRects(), CurrentPose(), true) {
        x := x + LINEAR_SPEED * geo.cosDeg(direction as real);
        y := y - LINEAR_SPEED * geo.sinDeg(direction as real);
        bumpSensor := false;
      } else {
        bumpSensor := true;
      }
      trace := trace + [StepForward];
    }

    /** `move_backward`. */
    method MoveBackward()
      modifies this`x, this`y, this`bumpSensor, this`trace
      ensures State() == Step(geo, WallRects(), old(CurrentPose()), false)
      ensures trace == old(trace) + [StepBackward]
      ensures WallRects() == old(WallRects())
    {
      if !DetectCollision(geo, WallRects(), CurrentPose(), false) {
        x := x - LINEAR_SPEED * geo.cosDeg(direction as real);
        y := y + LINEAR_SPEED * geo.sinDeg(direction as real);
        bumpSensor := false;
      } else {
        bumpSensor := true;
      }
      trace := trace + [StepBackward];
    }

    /** `rotate_left`. */
    method RotateLeft()
      modifies this`direction, this`bumpSensor, this`trace
      ensures State() == Apply(geo, WallRects(), old(State()), TurnLeft)
      ensures trace == old(trace) + [TurnLeft]
      ensures WallRects() == old(WallRects())
    {
      direction := (direction + ANGULAR_SPEED) % 360;
      bumpSensor := false;
      trace := trace + [TurnLeft];
    }

    /** `rotate_right`. */
    method RotateRight()
      modifies this`direction, this`bumpSensor, this`trace
      ensures State() == Apply(geo, WallRects(), old(State()), TurnRight)
      ensures trace == old(trace) + [TurnRight]
      ensures WallRects() == old(WallRects())
    {
      direction := (direction - ANGULAR_SPEED) % 360;
      bumpSensor := false;
      trace := trace + [TurnRight];
    }

    /** `handle_move_keys`, with the four arrow keys as flags. */
    method HandleMoveKeys(left: bool, right: bool, up: bool, down: bool)
      modifies this`x, this`y, this`direction, this`bumpSensor, this`trace
      ensures State() == Run(geo, WallRects(), old(State()), KeyCommands(left, right, up, down))
      ensures trace == old(trace) + KeyCommands(left, right, up, down)
    {
      ghost var rects := WallRects();
      ghost var a, b, c, d := if left then [TurnLeft] else [], if right then [TurnRight] else [],
                              if up then [StepForward] else [], if down then [StepBackward] else [];
      ghost var s1 := ApplyIf(geo, rects, State(), left, TurnLeft);
      if left {
        RotateLeft();
      }
      assert State() == s1 && trace == old(trace) + a;
      ghost var s2 := ApplyIf(geo, rects, s1, right, TurnRight);
      if right {
        RotateRight();
      }
      assert State() == s2 && trace == old(trace) + a + b;
      ghost var s3 := ApplyIf(geo, rects, s2, up, StepForward);
      if up {
        MoveForward();
      }
      assert State() == s3 && trace == old(trace) + a + b + c;
      if down {
        MoveBackward();
      }
      assert State() == ApplyIf(geo, rects, s3, down, StepBackward) && trace == old(trace) + a + b + c + d;
      KeyCommandsPieces(geo, rects, old(State()), old(trace), left, right, up, down);
    }

    /** `try_move(move_forward)`: the controllers call it, but agent.py does
        not define it, so the model knows only that it was called; the pose
        and bump sensor may change in any way. */
    method TryMove(forward: bool)
      modifies this`x, this`y, this`direction, this`bumpSensor, this`trace
      ensures trace == old(trace) + [AttemptMove(forward)]
    {
      x, y, direction, bumpSensor := *, *, *, *;
      trace := trace + [AttemptMove(forward)];
    }
  }
}
