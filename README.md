# Drag-to-sort puzzle controller

This project models the controller of the raycaster scene's drag-to-sort puzzle (`src/raycaster/script.js`).

The scene holds ten box blocks. Each block sits on a fixed lane `y = -0.8 + 0.155 * i`, has starting x offsets `[0, 0.05, 0.25, 0.15, 0.1, 0.25, 0.2, -0.1, 0, -0.3]`, and keeps a record of its coordinates in `userData`.

While a block is dragged, the controller does the following:
- it snaps the block's x to exactly 0 inside the open band (-0.01, 0.01), and otherwise clamps x to [-0.4, 0.4];
- it pins the block's y and z to the recorded ones;
- it pushes every block with a higher index by the same distance, without clamping those blocks.

Once per frame, if no drag is running and every block lies inside the snap band, a one-shot latch shows a "CLEAR" notification. The latch then stays set.

The model has four modules:
- `Rules` (`rules.dfy`): the fixed layout constants, the snap and clamp rule (`Constrain`), and the solved test (`Solved`).
- `Chain` (`chain.dfy`): what one run of the drag handler does to the x coordinates, as functions on sequences. `ShiftFrom` specifies the handler's loop. `Dragged` specifies the whole handler. The module also holds lemmas about spacing, repeated drag events and the order in which blocks are placed.
- `Latch` (`latch.dfy`): the solved latch over any sequence of frames, where each frame is reduced to what the solved check sees: whether a drag is running and whether the puzzle is solved.
- `Controller` (`controller.dfy`): the class `Puzzle`, which has the source's own state.
  - Live positions `xs`, `ys`, `zs` and recorded x `rec` are arrays that the methods update in place.
  - Recorded y and z are constants.
  - `dragging` and `success` are the two module-level flags.
  - A ghost history of frames and a ghost alert count tie the class to `Latch`.
  - `Drag` runs the handler's loop over the array suffix. Its postcondition is `Dragged` of the old state.
  - `Tick` returns whether the frame shows the notification.

`Drag(k, cx, cy, cz)` takes the position that the drag library computed from the pointer as an arbitrary input. Before it dispatches the `drag` event, the library writes that position into the block. That is why the handler reads the candidate from `position` and why its y/z restore is needed. The model performs the same write first.

The object invariant `Valid()` includes two facts:
- every block's recorded x equals its live x;
- y and z equal the recorded lane.

These hold after construction and after every handler run. Inside the handler, the live x of the dragged block is the candidate; that is why the handler takes its difference against the recorded x.

Two consequences of the code may surprise a reader:
- Blocks pushed by the chain are not clamped. A drag can carry them off the [-0.4, 0.4] track (`Chain.ChainIsUnclamped`).
- The order of the drags matters. Dragging every block to zero solves the puzzle when done in ascending index order (`Chain.SweepSolves`). Dragging a later block first and an earlier one afterwards can move the later block out of the band again: from the starting layout, dragging block 9 to zero and then block 1 to zero leaves block 9 at -0.05 (`Chain.OrderMatters`).

The model does the same as the code in both cases.

## Model

| member | source | states |
|---|---|---|
| `Rules.LaneY` | src/raycaster/script.js:49 | computes the lane of block i, -0.8 + 0.155 * i |
| `Rules.InSnapBand` | src/raycaster/script.js:128 | holds exactly when x lies strictly between -0.01 and 0.01 |
| `Rules.Solved` | src/raycaster/script.js:175-177 | holds exactly when every block's x lies in the snap band |
| `Rules.InitialLayout` | src/raycaster/script.js:36-57 | there are ten starting offsets, every one on the track, and the starting layout is not solved |
| `Rules.Clamp` | src/raycaster/script.js:131 | the result lies in [-0.4, 0.4]; it equals the input on the track and the nearer bound off it |
| `Rules.Constrain` | src/raycaster/script.js:128-132 | inside (-0.01, 0.01) the block is placed exactly at 0; elsewhere on the track it stays at the candidate; beyond a bound it goes to that bound; the result is 0 or has 0.01 <= abs(x) <= 0.4 |
| `Rules.ConstrainFixedPoints` | src/raycaster/script.js:128-132 | the rule leaves x unchanged exactly when x is 0 or 0.01 <= abs(x) <= 0.4 |
| `Rules.ConstrainIdempotent` | src/raycaster/script.js:128-132 | applying the rule to a placement it produced changes nothing |
| `Rules.ConstrainMonotone` | src/raycaster/script.js:128-132 | a candidate further right never gives a placement further left |
| `Rules.ConstrainSamples` | src/raycaster/script.js:128-132 | 0.006 and -0.006 snap to 0; 0.011 and 0.01 stay; 0.5 clamps to 0.4; -0.9 clamps to -0.4 |
| `Chain.ShiftFrom` | src/raycaster/script.js:138-142 | shifting a tail keeps the number of blocks |
| `Chain.ShiftFromAt` | src/raycaster/script.js:138-142 | every element at index >= from moves by exactly d; every element before it is unchanged |
| `Chain.ShiftFromEvery` | src/raycaster/script.js:138-142 | the same statement for all indices at once |
| `Chain.Dragged` | src/raycaster/script.js:125-145 | after the handler runs on block k, block k is at Constrain(candidate); every block below k is unchanged; every block above k moved by exactly Constrain(candidate) - recorded x of k, unclamped |
| `Chain.DraggedKeepsTailSpacing` | src/raycaster/script.js:136-142 | the x difference between any two blocks above k is the same before and after the drag |
| `Chain.DraggedTwice` | src/raycaster/script.js:136-144 | two successive drag events on one block leave every block where the second candidate alone would have put it |
| `Chain.ChainIsUnclamped` | src/raycaster/script.js:136-142 | from the starting layout, dragging block 0 to 0.4 carries block 2 to 0.65, off the track |
| `Chain.SweepZeroesTail` | src/raycaster/script.js:125-145 | dragging blocks i..9 to zero in ascending order puts all of them at 0 and leaves the blocks below i alone |
| `Chain.SweepSolves` | src/raycaster/script.js:125-145 | dragging every block to zero in ascending order solves the puzzle from any layout |
| `Chain.OrderMatters` | src/raycaster/script.js:136-142 | dragging block 9 to zero and then block 1 to zero leaves block 9 at -0.05, so the layout is not solved |
| `Latch.Settled` | src/raycaster/script.js:173-178 | holds for a frame exactly when no drag is running and the puzzle is solved |
| `Latch.Fires` | src/raycaster/script.js:179-181 | holds exactly when the latch is clear and the frame is settled, i.e. when the notification shows |
| `Latch.After` | src/raycaster/script.js:173-183 | computes the latch after one frame: set if it was set or the frame is settled |
| `Latch.Final` | src/raycaster/script.js:173-183 | computes the latch after a sequence of frames, one frame at a time |
| `Latch.Alerts` | src/raycaster/script.js:179-181 | counts the frames of a sequence that show the notification |
| `Latch.FinalSnoc` | src/raycaster/script.js:173-183 | one more frame updates the latch by that frame's check, and adds one notification exactly when that frame fires |
| `Latch.NeverResets` | src/raycaster/script.js:179-182 | once success is set, no sequence of frames clears it |
| `Latch.FinalIffSettled` | src/raycaster/script.js:173-183 | the latch ends set exactly when it started set or some frame had no drag running and every block in the band |
| `Latch.AtMostOnce` | src/raycaster/script.js:173-183 | over any sequence of frames the notification shows at most once, never when the latch started set, and once exactly when the latch went from clear to set |
| `Latch.FiresOnceIffSettled` | src/raycaster/script.js:173-183 | starting clear, the notification shows exactly once if some frame is settled and zero times otherwise |
| `Latch.FiresOnFirstSettled` | src/raycaster/script.js:173-183 | the frame that shows the notification is exactly the first settled frame |
| `Controller.Puzzle.constructor` | src/raycaster/script.js:36-57 | the blocks start at the listed offsets on lanes -0.8 + 0.155 * i with z = 0, recorded coordinates equal to the live ones, no drag and the latch clear |
| `Controller.Puzzle.DragStart` | src/raycaster/script.js:118-120 | sets the drag flag and changes no position and not the latch |
| `Controller.Puzzle.DragEnd` | src/raycaster/script.js:121-123 | clears the drag flag and changes no position and not the latch |
| `Controller.Puzzle.Drag` | src/raycaster/script.js:125-145 | the new x of every block is `Dragged` of the old ones; the recorded x equals the live x for block k and every block after it and is unchanged below k; every y and z keeps its value and block k's equal its recorded y and z whatever the candidate's were |
| `Controller.Puzzle.Tick` | src/raycaster/script.js:173-183 | the frame shows the notification exactly when no drag is running, every block is in the band and the latch was clear; the latch is set afterwards exactly when it was set before or that condition held; the total number of notifications stays at most one |
| `Controller.SolveThenDisturb` | src/raycaster/script.js:118-183 | sorting the blocks by dragging each to zero in ascending order shows the notification on the next frame; after pulling one block away and putting it back the layout is solved again, and the next frame shows nothing |

## Left out

- The hover cursor (`src/raycaster/script.js:163-171`) is left out. It depends on raycasting results from the rendering library and only sets a CSS cursor.
- Scene, camera, renderer and texture setup, window resizing, mouse-coordinate normalisation, rendering and frame scheduling (`src/raycaster/script.js:4-31, 61-109, 147-155, 185-192`) are left out. They are rendering and DOM plumbing.
- How the drag library turns a pointer ray into a candidate position is left out. The candidate is an arbitrary input to `Drag`.
- The blocking `alert("CLEAR")` is modelled as the flag that `Tick` returns plus a ghost count of notifications. No dialog is modelled.
- The library's `dragstart`/`dragend` order is not enforced. `Drag` may be called whether or not `dragging` is set, as the handler itself does not test the flag.
- Double-precision rounding is not modelled. Coordinates are exact reals, so lanes, offsets and sums are the mathematical values.
- `src/tossface/script.js` is not part of this model. It holds GLTF loading, orbit controls, floating-point random placement, and per-frame scale interpolation driven by raycast hits.
- `vite.config.js` is not part of this model. It is bundler configuration.
