# research_simulator: a Dafny model of the simulator's core

research_simulator is a pygame robot simulator. A round agent drives around an
800 × 600 arena with rectangular walls. It has a bump sensor and a fan of LiDAR
beams. Controllers turn and move it, and a separate wall editor lets a user
place, resize, copy and delete walls. This project models the parts of it with
real logic and proves properties of them:

- **the agent** (`agent.py`, module `Agents`):
  - its pose and bump sensor;
  - rotations modulo 360;
  - collision-gated forward and backward steps;
  - the arrow-key dispatcher;
  - the boundary query along a LiDAR beam;
  - the beam-by-beam `scan`.
- **the wall** (`wall.py`, module `Walls`):
  - an integer rectangle;
  - eight named resize handles and their layout;
  - dragging a handle;
  - the record (dictionary) form a wall is saved in.
- **the wall editor** (`environment_builder.py`, module `EnvironmentBuilder`):
  - the script's globals (the wall list, the selected wall, the copied wall, the dragging flag) become the fields of the class `Editor`;
  - every function of the script becomes a method of it;
  - its buttons, the mouse-down scan of the walls, dragging and resizing, and the c / v / s / l keys.
- **the four controllers**:
  - `ControllerRandom` (`controller_random.py`, module `ControllerRandoms`);
  - `RandomController` (`controllers/random_controller.py`, module `RandomControllers`);
  - `ControllerBasic` (`controller_basic.py`, module `ControllerBasics`);
  - `BasicController` (`basic_controller.py`, module `BasicControllers`);
  - each is a class over `move`, `goal_direction` and `running` that calls the agent's methods.
- **the text field** (`text_input.py`, module `TextInputs`): the activity flag, the colour, the text buffer and the width rule.

Supporting modules:
- `Rects` stands in for pygame's rectangle, with its half-open point-containment rule.
- `Wrappers` holds the `Option` type used for Python's `None`.
- `Lists` models `list.index` and Python's negative indexing.

How the model is shaped:

- **Pure code** becomes functions with named results. The properties the simulator relies on are proved about those functions as lemmas.
- **Code that updates objects in place** becomes classes whose methods are proved against those functions. Examples:
  - `Agent.Scan` is proved against `BeamRange`;
  - `Editor.ScanWalls` against `Click`;
  - `RandomController.MoveAgent` against `LeftTurnsNeeded`.
- **The agent keeps a ghost trace** of the commands invoked on it. This lets each controller's contract say exactly which agent calls it makes, in which order.
- **Python exceptions** reached by the code become a returned `ok` flag (false where Python would raise), with the state as it stood at the raise:
  - `list.remove` of a missing wall;
  - a record without a key;
  - `choices.index` of a heading that is not a compass heading;
  - `None` in arithmetic.
- **Integer division and remainder** appear only with positive divisors (`% 360`, `// 2`). There Python's floor semantics and Dafny's Euclidean semantics agree. Python integers are unbounded, as Dafny's are.

A few facts about the code that the model keeps:
- `scan` takes the *first* wall in list order that reports a hit point (`agent.py:61-66`), not the nearest one.
- The LiDAR range is 200 (`agent.py:20`).
- `agent.py` defines no `try_move`, although two controllers call it.

## Model

| member | source | states |
|---|---|---|
| Walls.HandleNames | environment_builder.py:70-82 | The eight handle values, in the order `get_handles` lays them out, carry exactly the eight names the editor pairs with the handle squares. |
| Walls.NamedAfterEdges | wall.py:43-68 | A handle drags exactly the edges its name mentions: a corner drags its two edges, a centre handle drags its one edge. |
| Walls.Resize | wall.py:42-68 | Dragging handle `h` to the mouse moves each edge that `h` drags to the mouse coordinate. Every other edge (left `x`, right `x + width`, top `y`, bottom `y + height`) stays where it was. For example, bottom-right keeps `x` and `y`; top-left keeps the right and bottom edges; top-center keeps `x`, `width` and the bottom edge. |
| Walls.HandlesPlacement | wall.py:25-37 | `get_handles` gives eight HANDLE_SIZE × HANDLE_SIZE squares in the order TL, TR, BL, BR, TC, BC, LC, RC. The corner squares sit flush in the corners. The centre squares sit flush against their edge and are centred along it (offset `w // 2 - hs // 2`). |
| Walls.ToDict | wall.py:70-71 | The record has exactly the keys x, y, width and height, and reading it back gives the same rectangle. |
| Walls.DictToRect | wall.py:73-75 | A record yields a rectangle exactly when it has all four keys; otherwise the lookup raises. |
| Walls.Wall.constructor | wall.py:7-11 | A new wall has the given rectangle and is unselected, not resizing, with no handle. |
| Walls.Wall.HandleResize | wall.py:39-68 | When not resizing, or with no handle set, the rectangle stays. Otherwise it becomes `Resize` of the old rectangle by the current handle at the mouse position. Nothing but the rectangle is written. |
| Walls.Wall.FromDict | wall.py:73-75 | A new wall is built exactly when the record has all four keys. It is fresh, has the record's rectangle and starts unselected, not resizing, with no handle. |
| Agents.RotatedLeft | agent.py:149-151 | The new heading lies in [0, 360) and is the old heading plus 5 degrees, modulo 360. |
| Agents.RotatedRight | agent.py:153-155 | The new heading lies in [0, 360) and is the old heading minus 5 degrees, modulo 360. |
| Agents.RotationsCancel | agent.py:149-155 | For a heading in [0, 360), `rotate_right` undoes `rotate_left` and the other way round. |
| Agents.TurnedLeftTimesIsSum | agent.py:149-151 | From a heading `d` in [0, 360), `k` left turns give `(d + 5k) mod 360`, so 72 of them make a full turn. |
| Agents.BackwardMirrorsForward | agent.py:133-147 | The backward displacement is the negation of the forward one, and the heading is the same. |
| Agents.AnyWallColliding | agent.py:127-129 | True exactly when some wall's `is_colliding` holds at the point. |
| Agents.DetectCollision | agent.py:112-131 | No collision exactly when the candidate centre lies in [LEFT + 20, RIGHT - 20] × [TOP + 20, BOTTOM - 20] (bounds included) and no wall reports a collision there. |
| Agents.Step | agent.py:133-147 | The heading never changes. The bump flag is set exactly when `detect_collision` holds, and then the pose is unchanged. Otherwise the pose moves by speed · (cos, -sin) (or its negation when backward). The committed centre then lies inside the shrunk arena and clear of every wall. |
| Agents.Apply | agent.py:133-155 | A rotation keeps x and y, clears the bump flag and leaves the heading in [0, 360). A step keeps the heading. |
| Agents.KeyCommandsOrder | agent.py:157-165 | The arrow keys issue rotate_left, rotate_right, move_forward, move_backward in that fixed order. Each is issued at most once, and exactly when its key is held. |
| Agents.RunKeyCommands | agent.py:157-165 | Running the issued commands is the same as applying each held key's command in turn. |
| Agents.TurningKeysKeepPosition | agent.py:157-161 | With neither up nor down held, the position does not change. With a turning key held, the bump flag ends cleared and the heading ends in [0, 360). |
| Agents.SideCrossing | agent.py:79-101 | A boundary line is tested only when the beam heads towards it (dy < 0 top, dy > 0 bottom, dx < 0 left, dx > 0 right). The crossing is kept exactly when its t lies in [0, 1]. It then lies on that line and on the beam at fraction t. |
| Agents.Crossings | agent.py:76-101 | Every collected crossing has t in [0, 1], lies on the beam at t, and lies on a boundary line the beam heads towards. Every such line crossed within the beam contributes a crossing. |
| Agents.Nearest | agent.py:103-106 | The chosen crossing is one of the candidates with the smallest t, and among equal t it is the first, as the stable sort gives. |
| Agents.CheckBoundaries | agent.py:72-110 | With no crossing, the result is the beam's end point at infinite distance. Otherwise it is a crossing with the smallest t, at its Euclidean distance from the agent. |
| Agents.FirstWallHit | agent.py:60-66 | The hit point of the first wall in list order that reports one; none exactly when no wall does. |
| Agents.BeamRangeBounds | agent.py:57-69 | A beam's range is at most its wall distance and at most a finite boundary distance, and equals one of them. With no wall hit it is at most 200. |
| Agents.RangesAt | agent.py:50-70 | Entry i of the ranges computed over a list of offsets is the range of offset i. |
| Agents.BeamAngles | agent.py:21 | There are `n` offsets, starting at 0, spaced 360 / n apart, each in [0, 360). |
| Agents.Agent.constructor | agent.py:14-25 | The given pose, an unset bump sensor, `num_lidar_beams` beam offsets (36 by default), no ranges, the given walls. |
| Agents.Agent.Scan | agent.py:49-70 | `lidar_ranges` is replaced by exactly one value per offset, in order. Each value is the minimum of the boundary distance and the distance to the first wall that reports a hit (or 200). |
| Agents.Agent.ScanBeam | agent.py:52-69 | One turn of the scan loop: the beam is cut at the boundary, then at the first wall reporting a hit, and the smaller distance is the beam's range. |
| Agents.Agent.MoveForward | agent.py:133-139 | The new pose and bump flag are `Step` forward from the old pose; the walls are untouched. |
| Agents.Agent.MoveBackward | agent.py:141-147 | The new pose and bump flag are `Step` backward from the old pose; the walls are untouched. |
| Agents.Agent.RotateLeft | agent.py:149-151 | The heading turns left, x and y stay, and the bump flag is cleared. |
| Agents.Agent.RotateRight | agent.py:153-155 | The heading turns right, x and y stay, and the bump flag is cleared. |
| Agents.Agent.HandleMoveKeys | agent.py:157-165 | The new state is the issued key commands run in order from the old state, and the trace records exactly those commands. |
| Agents.Agent.TryMove | controller_basic.py:26 | `try_move` is called and recorded in the trace; its effect on the pose is unknown. |
| Lists.IndexOf | controller_random.py:33-35 | `list.index` returns the first position holding the value. |
| EnvironmentBuilder.RemoveFirst | environment_builder.py:54 | `list.remove` leaves one element fewer. Elements before the removed one keep their places, and those after it move one place forward. |
| EnvironmentBuilder.RemoveFirstDistinct | environment_builder.py:51-55 | Removing the selected wall from a list without repeats removes that wall only. Every other wall is kept, and the list stays without repeats. |
| EnvironmentBuilder.FirstContainingIsFirst | environment_builder.py:62-65 | The lookup finds the first rectangle containing the point, and finds none exactly when none contains it. |
| EnvironmentBuilder.ButtonAtIff | environment_builder.py:151-167 | A click selects a button's action exactly when it lands on that button, because the buttons do not overlap and have distinct actions. |
| EnvironmentBuilder.ArenaClicksMissButtons | environment_builder.py:151-167 | No button lies over the arena (x < 800), so clicks there always reach the walls. |
| EnvironmentBuilder.StopIndex | environment_builder.py:66-86 | The scan of the walls stops at a wall that contains the click on one of its handles, or runs to the end of the list. |
| EnvironmentBuilder.StopIndexIsFirst | environment_builder.py:66-86 | No wall before the stop contains the click on a handle. |
| EnvironmentBuilder.LastContaining | environment_builder.py:66-69 | The wall picked as `selected_wall` contains the click. |
| EnvironmentBuilder.LastContainingIsLast | environment_builder.py:66-69 | No later scanned wall contains the click: `selected_wall` is the last scanned wall under the click. |
| EnvironmentBuilder.TouchedUpToAt | environment_builder.py:66-90 | After the scan has passed the first `n` walls, those walls are updated (selected, or unselected with any resize cleared) and the others are as they were. |
| EnvironmentBuilder.Click | environment_builder.py:66-90 | A click keeps the number of walls, and the wall it selects is one of them. |
| EnvironmentBuilder.ClickWallAt | environment_builder.py:66-90 | Each wall before the stop is selected if the click is on it, or else unselected with its resize cleared. The wall at the stop is selected and resizing by the first handle under the click. Walls after the stop are left alone. |
| EnvironmentBuilder.ClickFacts | environment_builder.py:66-90 | A click moves no rectangle. The selected wall contains the click and is marked selected. A wall the click misses is left unselected and not resizing (unless the scan stopped before it). Only the selected wall can start resizing, and then with a handle. |
| EnvironmentBuilder.ClickOnEmptySpace | environment_builder.py:87-90 | A click on no wall unselects every wall, cancels every resize and leaves `selected_wall` alone. |
| EnvironmentBuilder.ClickIdempotent | environment_builder.py:66-90 | Clicking twice at the same point has the same effect as clicking once. |
| EnvironmentBuilder.Records | environment_builder.py:29 | Saving writes one record per wall, in order, each with the four keys, each reading back as that wall's rectangle. |
| EnvironmentBuilder.DecodeAll | environment_builder.py:42 | Loading succeeds exactly when every record has the four keys. The walls then have the records' rectangles, in order. |
| EnvironmentBuilder.SaveLoadRoundTrip | environment_builder.py:21-43 | Loading what was saved gives back the same rectangles in the same order. |
| EnvironmentBuilder.Editor.constructor | environment_builder.py:15-18 | The editor starts with no walls, no selection, no copy and not dragging. |
| EnvironmentBuilder.Editor.SpawnWall | environment_builder.py:126-128 | Exactly one fresh wall (100, 100, 50, 50) is appended at the end. The earlier walls, every wall's state, the selection and the copy are unchanged. |
| EnvironmentBuilder.Editor.PasteWall | environment_builder.py:131-134 | Without a copy nothing changes. Otherwise one fresh wall is appended at (0, 0), with the copy's width and height, and nothing else changes. |
| EnvironmentBuilder.Editor.CopyWall | environment_builder.py:137-147 | With a selection, the copy becomes the selected rectangle, that wall is unselected, the selection is cleared and the list and the other walls are unchanged. Without one, nothing but the (already empty) selection is touched. |
| EnvironmentBuilder.Editor.KeyCopy | environment_builder.py:110-116 | The c key copies the selected rectangle and keeps the selection and every wall as they were. |
| EnvironmentBuilder.Editor.ResetWorld | environment_builder.py:46-48 | The list becomes empty; the selection, the copy and the walls' states are unchanged. |
| EnvironmentBuilder.Editor.DeleteSelectedWall | environment_builder.py:51-55 | The selected wall is removed by identity, the others keep their order, and the selection is cleared. It fails, changing nothing, when the selected wall is no longer listed. Without a selection nothing changes. |
| EnvironmentBuilder.Editor.SaveWalls | environment_builder.py:21-30 | The records written are `to_dict` of each wall, in order. |
| EnvironmentBuilder.Editor.LoadWalls | environment_builder.py:33-43 | A cancelled dialog changes nothing. Otherwise the list becomes fresh walls built from the records, in order. A record without a key aborts the load and keeps the old list. |
| EnvironmentBuilder.Editor.RunAction | environment_builder.py:151-167 | Each button's action has exactly the effect of the function it is bound to. |
| EnvironmentBuilder.Editor.ScanWall | environment_builder.py:67-90 | One wall of the scan: on the click it becomes selected, and grabbed (resizing by the first handle under the click) when a handle is under it. Elsewhere it is unselected with its resize cleared. |
| EnvironmentBuilder.Editor.ScanStep | environment_builder.py:66-90 | One turn of the loop keeps the scan in step with `Click`: either the click is complete, or the next wall is the one to scan. |
| EnvironmentBuilder.Editor.ScanWalls | environment_builder.py:66-90 | The loop over the walls leaves them exactly as `Click` says and finds the wall `Click` selects. |
| EnvironmentBuilder.Editor.SelectAt | environment_builder.py:66-90 | After the scan, the walls are as `Click` says and `selected_wall` is the wall `Click` picks, or is kept when the click is on no wall. |
| EnvironmentBuilder.Editor.FindButton | environment_builder.py:62-63 | The loop over the buttons finds the first button under the click, or none. |
| EnvironmentBuilder.Editor.PressButton | environment_builder.py:61-65 | A click on a button stops dragging and has exactly the effect of that button's action. |
| EnvironmentBuilder.Editor.PressWalls | environment_builder.py:61-90 | A click that misses the buttons stops dragging and performs the scan of the walls. |
| EnvironmentBuilder.Editor.MouseButtonDown | environment_builder.py:60-90 | Dragging stops. The first button under the click runs its action; otherwise the walls are scanned as `Click` says. |
| EnvironmentBuilder.Editor.MouseButtonUp | environment_builder.py:91-95 | The selected wall stops resizing and loses its handle, dragging stops, and nothing else changes. |
| EnvironmentBuilder.Editor.MouseMotion | environment_builder.py:96-104 | A resizing selected wall is resized to the pointer. Otherwise, with the left button held, the selected wall moves by `rel` (width and height unchanged) and dragging starts. Every other wall is unchanged. |
| EnvironmentBuilder.Editor.HandleMouseEvents | environment_builder.py:58-104 | Each mouse event has the effect of its branch. Key and quit events change nothing. |
| EnvironmentBuilder.Editor.HandleKeyboardEvents | environment_builder.py:107-123 | c copies the selected rectangle without deselecting. v pastes as `paste_wall` does. l loads as `load_walls` does. s only writes the records, and every other key changes nothing. |
| ControllerRandoms.AngleDiff | controller_random.py:15-17 | The normalised difference is the one value in (-180, 180] congruent to `goal - current` modulo 360. |
| ControllerRandoms.TurnDirection | controller_random.py:13-25 | "same" exactly when goal ≡ current (mod 360). "left" exactly when the counter-clockwise distance is in (0, 180], so an opposite goal gives "left". Otherwise "right". |
| ControllerRandoms.TurnNarrowsGap | controller_random.py:53-63 | Turning the way `turn_direction` says moves the normalised difference 5 degrees towards 0, when heading and goal agree modulo 5. So repeated turning calls reach the goal. |
| ControllerRandoms.CourseChange | controller_random.py:31-38 | A goal exists exactly when the heading is one of the compass choices. It is `(d - 45) mod 360` for index - 1 (wrapping to the last choice) and `(d + 45) mod 360` for index - 7. |
| ControllerRandoms.CourseChangeTurns | controller_random.py:31-38 | After a course change the goal lies 45 degrees to the right (first draw above one half) or to the left, so `move` is "right" or "left" and never "same". |
| ControllerRandoms.ControllerRandom.constructor | controller_random.py:7-11 | It starts with move "same", no goal and not running. |
| ControllerRandoms.ControllerRandom.ChangeCourse | controller_random.py:27-38 | A first draw above epsilon changes nothing. Otherwise the goal becomes the chosen compass neighbour and `move` the turn towards it. A heading that is not a compass choice raises (ok false) with nothing changed. |
| ControllerRandoms.ControllerRandom.HandleInput | controller_random.py:40-47 | With a bump, the goal becomes the drawn compass heading and `move` the turn towards it. Without one, `move` is "same" and the goal is kept. |
| ControllerRandoms.ControllerRandom.MoveAgent | controller_random.py:49-74 | Nothing happens while not running. The turning branch rotates at most once, the way `turn_direction` says, never moves, and clears the goal when the heading at the call's start is the goal; a bump with no goal raises. Otherwise exactly one `try_move(True)` is made, followed by `change_course`. |
| RandomControllers.LeftTurnsNeeded | controllers/random_controller.py:20-23 | The loop's rotation count is at most 72 and is zero exactly when the heading already equals `move`. From a heading in [0, 360) it is the counter-clockwise distance divided by 5. |
| RandomControllers.LeftTurnsNeededIsLeast | controllers/random_controller.py:20-23 | That many left turns bring the heading onto `move`, and no smaller number does. |
| RandomControllers.RandomController.constructor | controllers/random_controller.py:6-9 | It starts with no target heading and not running. |
| RandomControllers.RandomController.HandleInput | controllers/random_controller.py:11-15 | With a bump, `move` is the drawn compass heading (a multiple of 45 in [0, 360)). Without one, it is the agent's current heading. |
| RandomControllers.RandomController.MoveAgent | controllers/random_controller.py:17-25 | Nothing happens while not running. Otherwise only `rotate_left` is used, exactly `LeftTurnsNeeded` times, and then `move_forward` exactly once, from the agent's position with heading `move`. |
| ControllerBasics.ControllerBasic.constructor | controller_basic.py:6-8 | It starts with no move and not running. |
| ControllerBasics.ControllerBasic.HandleInput | controller_basic.py:10-17 | `move` is "left" when the bump sensor is set, else "forward". |
| ControllerBasics.ControllerBasic.MoveAgent | controller_basic.py:19-26 | Nothing happens while not running or before any move is chosen. "left" makes exactly one `rotate_left`; "forward" makes exactly one `try_move(True)`. |
| BasicControllers.BasicController.constructor | basic_controller.py:5-7 | It starts with no move and not running. |
| BasicControllers.BasicController.HandleInput | basic_controller.py:9-16 | `move` is "left" when the bump sensor is set, else "forward". |
| BasicControllers.BasicController.MoveAgent | basic_controller.py:18-22 | Whether or not it is running: with no move, the agent is untouched; "left" makes exactly one `rotate_left`; "forward" makes exactly one `move_forward`. |
| TextInputs.Edited | text_input.py:52-58 | Return keeps the text. Backspace leaves the text minus its last character, and empty text stays empty. Any other key appends exactly the text it produces. |
| TextInputs.BackspaceUndoesTyping | text_input.py:55-58 | Typing one character and then Backspace gives back the original text. |
| TextInputs.BoxWidth | text_input.py:61-64 | The width is the larger of 200 and the rendered width plus 10, so it is never below 200. |
| TextInputs.TextInput.constructor | text_input.py:13-31 | It starts inactive, in the inactive colour, with the initial text rendered. |
| TextInputs.TextInput.HandleEvent | text_input.py:33-59 | A click inside toggles the field and a click outside deactivates it. Keys do nothing while inactive. Return deactivates. Other keys edit the text as `Edited` says. Afterwards the colour always matches the activity flag and the rendered text is the current text. |
| TextInputs.TextInput.Update | text_input.py:61-64 | The box width becomes `BoxWidth` of the rendered text's width, so at least 200, and nothing else changes. |
| TextInputs.TextInput.GetText | text_input.py:76-83 | It returns the current text and changes nothing. |

## Left out

- **Drawing.** All drawing and font rendering is left out: `draw`, `draw_lidar`, `draw_handles`, the buttons' colours, `TextInput.draw`.
  - Rendering is reduced to a text-width function given to the text field.
  - The two colours are a two-value type.
- **The main loops.** `main.py` and the editor's event loop are not part of this model. This includes window setup, input polling, clocks, plotting and the activation-layer models. `main.py` imports `RandomController` from `controller_random`, whose class is `ControllerRandom`; that import is not modelled.
- **File I/O.** File dialogs and JSON files are left out. `save_walls` returns the records it would write. `load_walls` takes the parsed contents of the chosen file, or None for a cancelled dialog.
- **Numerics.** Floating point and trigonometry are not modelled bit for bit. Coordinates are reals. Cosine, sine and square root are functions the agent is given, with no property assumed.
- **Wall queries.** `Wall.is_colliding` and `Wall.get_collision_point`, which the agent calls, are not in `wall.py`. They are functions the agent is given.
- Agents.Agent.TryMove: `try_move` is called by two controllers but defined nowhere in the code. The model records the call and lets the pose, heading and bump flag change arbitrarily. No speed back-off is modelled.
- **Randomness.** `random.random` and `random.choice` draws are parameters: two reals and an index into the compass choices.
- **Unused references.** The controllers' `model` reference and the agent's `lidar_visible` flag are never used by the modelled code.
- Walls.Wall.HandleResize: `resize_dir` is a value of the eight-handle type rather than a string. The editor only ever stores one of the eight names or None (`environment_builder.py:70-85`, `:90`, `:94`). So "a name that is none of the eight changes nothing" reduces to the None case.
- EnvironmentBuilder.Editor.SelectAt: `selected_wall` is assigned once, after the scan, to the last wall found under the click. The source assigns it wall by wall. Nothing reads it during the scan, so the outcome is the same.
- EnvironmentBuilder.Editor.MouseButtonDown: `is_dragging` is cleared once the target of the click is known, rather than before the buttons are looked up. The lookup does not read it, so the outcome is the same.
- RandomControllers.RandomController.MoveAgent: the rotate-until-aligned loop ends at once when `move` already equals the heading, whatever its value. Otherwise it ends only when `move` is a heading in [0, 360) that agrees with the agent's heading modulo 5, because every turn leaves the heading in [0, 360). In every other case Python loops forever (or fails on a `None` target), so the model requires one of these two cases while running. Non-termination itself is not modelled.
- ControllerRandoms.ControllerRandom.MoveAgent: a pose changed arbitrarily by `try_move` is followed through `change_course`. The model does not say how `try_move` changes it.
