# Snek game state core in Dafny

This project models the game-state core of a small Snake game for a
microcontroller with an OLED display and a joystick (`main.py`). The
snake moves on a pixel grid with step `BODY_SIZE = 2`. Each iteration of
the main loop does the following:

- checks whether the head sits on the food target (`World.world_test`);
- reads the joystick and maybe turns the snake (`vector_swap`, which
  refuses a direct reversal);
- moves the head (`update_pos`);
- prepends the head to the body and trims the tail to the target length
  (`Snek_Body.update`);
- tests the head against the arena border (`border_collision`);
- spawns a new target if none exists (`Target.randomizer`);
- tests the head against the rest of the body (`body_collision`).

Every entity is an immutable datatype and every operation is a pure
function:

| module | file | models |
|---|---|---|
| `Common` | common.dfy | `BODY_SIZE`, cells, `Option`/`Result`, the grid predicate |
| `SnekControl` | control.dfy | `Snek_Control`: position, delta, `vector_dict`, `vector_swap`, `update_pos` |
| `SnekBody` | body.dfy | `Snek_Body`: segments, `length`, the erased tail cell (`a`, `b`), `update`, `body_collision` |
| `Obstacles` | obstacle.dfy | `Obstacle` and `Game_Over.border_collision` |
| `Targets` | target.dfy | `Target`: spawn bounds, `randomizer`, `random.randrange` with step `BODY_SIZE` |
| `World` | world.dfy | `World.world_test` |
| `Joystick` | joystick.dfy | threshold classification of `get_joystick_event` |
| `MainLoop` | mainloop.dfy | the start-up objects, one loop iteration `Tick`, a series of iterations `Run` |

Outside inputs are parameters:

- The joystick readings arrive already offset by the centre value.
- The random draw is an oracle `pick: nat`. `randrange(start, stop, 2)`
  returns `start + 2 * (pick % n)`, where `n` is the number of values in
  the range. An empty range is `Failure(EmptyRange)`, matching Python's
  `ValueError`. `RandRangeCovers` shows that every on-grid value in the
  range can be drawn, so this models "any value `randrange` may return".

The main-loop invariant `MainLoop.Inv` holds at start-up and after every
tick. It says:

- the body has between 1 and `length` cells;
- `segments[0]` is the control's position;
- the delta is one of the four unit moves;
- the target's bounds are the ones derived from the arena, and a present
  target lies inside them on the grid;
- every body cell lies on the same grid as the target.

The last point means the head can land exactly on the food. Without it,
consumption would be impossible: this is the "coordinate mismatch" the
program's to-do list records as fixed.

Some things a reader might expect of a Snake game are not in the code, and
the model follows the code:

- There is no score counter. Eating only increments `length`.
- The collision tests only report their result. The loop ignores both
  results and keeps running, so `Tick` returns the two flags beside the
  new state.
- The loop order is `world_test` first, then input, movement, update,
  border test, randomizer and self test. Consumption is therefore checked
  against the head produced by the previous iteration, and the new target
  is drawn at the end of the same iteration.
- The border test uses a strict `>` against `inner_x + inner_offset`, so
  the far edges are inside the playfield. With the real arena
  (`inner_x = 126`, `inner_offset = 1`), a head at x = 125 or x = 127 is
  no collision; x = 128 is one.
- `world_test` compares the head with `(rand_x, rand_y)` without looking
  at `exists`.
- A new target is never checked against the snake's cells.
- There is no menu, pause or game-over state machine.

## Model

| member | source | states |
|---|---|---|
| SnekControl.Vector | main.py:119-124 | every entry of the direction table is one of the four unit moves (±BODY_SIZE along one axis) |
| SnekControl.VectorTable | main.py:119-124 | the table is one-to-one, opposite directions map to negated vectors, and every unit move is some direction's vector |
| SnekControl.Init | main.py:112-116 | a new control sits at the given start cell and heads right |
| SnekControl.VectorSwap | main.py:126-130 | a request that is the exact negation of the current delta leaves the control unchanged; any other request makes the delta equal to the requested vector; the position never changes |
| SnekControl.SwapKeepsDelta | main.py:127-130 | from a unit delta, a swap yields a unit delta that is never the reverse of the old one |
| SnekControl.SwapIdempotent | main.py:127-130 | repeating the same direction request has no further effect |
| SnekControl.ApplyEvent | main.py:286-291 | no event leaves the control as it is; a direction event goes through vector_swap |
| SnekControl.SwapAllKeepsDelta | main.py:115-130 | starting from a unit delta such as the initial (BODY_SIZE, 0), any series of requests keeps the delta in the four-move set and leaves the position alone |
| SnekControl.UpdatePos | main.py:132-134 | the head moves by exactly (dx, dy) and the delta is unchanged |
| SnekControl.MoveIsOneStep | main.py:132-134 | with a unit delta a move covers one grid step along one axis, stays on the grid, and the opposite move undoes it |
| SnekBody.New | main.py:77-84 | a new body is the single start cell, with target length 5 and no erased cell |
| SnekBody.TrimTail | main.py:90-93 | trimming keeps the first min(n, length) cells, and the remembered cell is the last one popped, which is the cell at index length |
| SnekBody.Update | main.py:86-93 | segments[0] is the new head; the count is at most length; segments[1:] is a prefix of the old list; the list grows by one below length and stays at length otherwise; after a trim the erased cell is the last cell removed |
| SnekBody.Contains | main.py:105 | list membership holds exactly when some index holds an equal cell |
| SnekBody.BodyCollision | main.py:102-109 | true exactly when segments[0] occurs again at some index of segments[1:] |
| SnekBody.CollisionAfterUpdate | main.py:86-109 | after an update, the snake bites itself exactly when the new head lands on one of the old cells the update kept; a head outside the old body never collides |
| SnekBody.BodyCollisionExamples | main.py:102-109 | a head at (60, 30) collides when (60, 30) recurs down the body and not with a clean body |
| Obstacles.BorderCollision | main.py:194-206 | true exactly when the head lies outside [inner_offset, inner_x + inner_offset] x [inner_offset, inner_y + inner_offset] |
| Obstacles.FarEdgeInclusive | main.py:197-202 | the column and row just past the drawn playfield hole are still accepted, and one further is a collision, as is one before inner_offset |
| Obstacles.ArenaExamples | main.py:275-276 | against the start-up arena, heads at (125, 10), (127, 53) and (60, 30) are inside, while (128, 10), (10, 54) and (0, 10) collide |
| Targets.New | main.py:151-160 | spawn bounds are inner_offset + 1 up to inner size minus BODY_SIZE, and no target exists yet |
| Targets.RandRange | main.py:173-174 | the draw succeeds exactly when start < stop, and then lies in [start, stop) on the BODY_SIZE grid from start |
| Targets.RandRangeCovers | main.py:173-174 | every on-grid value of the range is the result of some pick |
| Targets.Randomizer | main.py:163-175 | a present target is left as it is; an absent one becomes present at an in-range on-grid cell, failing exactly when a range is empty; the bounds never change |
| Targets.RandomizerCovers | main.py:163-175 | every on-grid cell inside the spawn bounds can be where an absent target appears |
| Targets.ArenaTargetInPlay | main.py:156-159 | in the start-up arena the target always lands at an even cell in [2, 122] x [2, 48], where border_collision does not fire |
| World.WorldTest | main.py:220-231 | a head on the target clears the target and grows length by exactly 1, leaving the segments alone; otherwise nothing changes |
| World.WorldTestGrowth | main.py:228-231 | the length grows if and only if the head is on the target, and by at most one |
| World.ConsumptionExample | main.py:224-231 | a head at (40, 20) with the target at (40, 20) clears the target and grows length from 5 to 6 |
| Joystick.Classify | main.py:257-268 | x above 500 is LEFT, x below -500 is RIGHT, and with x in the dead zone y above 500 is UP and below -500 is DOWN; both axes in [-500, 500] give no event |
| Joystick.RestIsIdle | main.py:263-268 | a joystick inside the dead zone leaves the control unchanged |
| Joystick.EveryDirectionReadable | main.py:263-266 | each of the four directions is produced by some reading |
| MainLoop.Start | main.py:273-279 | the start-up state has the control at (10, 26) heading right, a one-cell snake at that cell with length 5, a target with the arena's spawn bounds and none present, and the fixed arena |
| MainLoop.Tick | main.py:363-388 | after one iteration the head is segments[0] and equals the moved control, a target is present, length grew by one exactly when the old head was on the target, and the two flags report the border test and the self test on the new head. A non-reversing joystick event sets the delta to its vector, while a reversing event or none keeps the delta. The kept tail segments[1:] is a prefix of the old body. A present target that was not eaten stays where it is. The iteration fails only when a target had to be drawn from an empty range |
| MainLoop.StartInv | main.py:273-279 | the start-up state satisfies the loop invariant |
| MainLoop.TickPreservesInv | main.py:363-388 | from an invariant state an iteration never fails and re-establishes the invariant |
| MainLoop.HeadShareTargetGrid | main.py:156-175 | in every invariant state the head and a present target are on the same BODY_SIZE grid |
| MainLoop.TickGrowth | main.py:365-375 | one iteration adds exactly one to length when the head was on the target and nothing otherwise, and the body becomes min(old count + 1, new length) cells |
| MainLoop.TickDirection | main.py:369-374 | from an invariant state, a non-reversing event sets the direction to its vector, while no event or a reversing event keeps the direction; the direction is never reversed |
| MainLoop.Run | main.py:363-390 | over any series of iterations the length never decreases and the body keeps a head |
| MainLoop.RunKeepsInv | main.py:363-390 | from an invariant state any series of k iterations succeeds and keeps the invariant; length grows by at most k; the body holds min(start count + k, final length) cells, so it reaches full length one cell per tick and never overshoots |
| MainLoop.FirstTickExample | main.py:363-388 | from start-up with the joystick at rest, the first iteration moves the snake to [(12, 26), (10, 26)], reports no collision and spawns a target |

## Left out

- Hardware set-up and I/O are not modelled: the ADC and pin objects, the
  I2C bus and `address_converter`, the display object, `display_update`,
  `display_state`, and the raw `read_u16` reads together with their centre
  offset of 32759. They contain no game logic. `Joystick.Classify` takes
  the offset readings as input.
- Drawing is not modelled: `Snek_Body.draw`, `Obstacle.draw`,
  `Target.target_draw`, and the score text placeholders. They are
  framebuffer side effects. The erased tail cell is kept in the model
  because `update` computes it.
- The seeding with `random.seed` and the distribution of
  `random.randrange` are not modelled. The draw is an arbitrary pick, so
  uniformity cannot be stated.
- The `sleep` between iterations and the endless `while True` loop are not
  modelled. `Tick` is one iteration and `Run` is any finite number of them.
- `Game_States`, `Game_Menu` and the commented-out transition map hold
  constants and placeholders only. There is no state machine to model.
- The `BTN_PRESS` joystick event is not modelled: `get_joystick_event`
  never returns it and no action is bound to it.
- The `max_x` and `max_y` fields of `Snek_Control` are not stored in
  `Control`, because no logic reads them. The outer-border fields of
  `Obstacle` are stored but never read.
- Commented-out code carries no behaviour and is not modelled: the old
  loop, `target_status`, and the re-roll-on-overlap loop.
- `print` diagnostics are not modelled.
