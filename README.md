# SpaceRun core in Dafny

SpaceRun is an endless runner: a ship flies forward over a grid of lanes and rows.
It has to stay on a path of tiles that a random generator keeps extending ahead of it.
This project models the logic at the heart of `MainWidget` in `main.py` and proves properties of it.

- **Track generator** (`track.dfy`, module `Track`; the in-place loops are in `game.dfy`).
  The path is a list of integer cells (lane, row).
  `prefill_tiles_coordinates` lays down a straight run in lane 0.
  `generate_tiles_coordinates` deletes every cell behind the player's row.
  It then appends straight steps and L-shaped bends, forcing a bend next to either lane bound.
  The random source `random.randint(0, 2)` becomes a stream of draws, `draws: int -> Draw`, and a count `drawn` of how many have been used.
  `Track` holds pure specification functions (`Prune`, `Segment`, `Extend`, `Generate`, `Scroll`) and lemmas about them.
- **Geometry and collision** (`game.dfy`).
  The line and tile-corner formulas are exact `real` functions.
  The ship is three points.
  The per-tile box test and the early-exit scan over the path are methods, each proved equal to a predicate (`HitsTile`, `OnTrack`).
- **Frame update and game state** (`game.dfy`, class `Game.MainWidget`).
  The class has the widget's fields, and its methods update them in place:
  - `ResetGame` and `OnMenuButtonPressed` restart the game.
  - `Update` is one frame. The scroll `while` loop is `ScrollRows`; the game-over transition is `CheckGameOver`.

The central invariant is `Track.PlayInvariant`, which holds between frames while the game runs:
- the path is well formed (every cell inside lanes -8..8, consecutive cells are grid neighbours, a sideways step is always followed by a forward step);
- it holds at least 12 cells;
- no cell is behind the player, and the last cell is ahead of it.

It holds after a restart (`PrefillKeepsInvariant`). Each scroll step keeps it (`NextRowKeepsInvariant`), and the widget carries it in `MainWidget.Valid`.

One consequence is that pruning never empties the path during play. The generator's "(0, 0) when empty" start therefore only matters for lists that do not come from play.

Behaviour of `main.py` worth knowing:
- An empty path fails the collision check (main.py:163-169), so the game ends.
- The scroll loop runs while the offset is at least one row spacing (`>=`, main.py:313), not strictly more.
- The window size is used as given; nothing clamps it to a positive minimum.

## Model

| member | source | states |
|---|---|---|
| Track.Prefill | main.py:198-200 | The prefilled path is exactly the 15 cells (0, 0), (0, 1), ..., (0, 14). |
| Track.PrefillKeepsInvariant | main.py:198-200 | That straight run satisfies the play invariant at row 0. |
| Track.Prune | main.py:209-211 | The list left by the deletion loop is never longer than before; what it keeps is stated by the Prune lemmas below. |
| Track.PruneCounts | main.py:209-211 | Each cell occurs after pruning exactly as often as before if its row is at least the player's row, and not at all otherwise. |
| Track.PruneDropsBehind | main.py:209-211 | No kept cell is behind the player's row. |
| Track.PruneFrom | main.py:209-211 | One back-to-front step: pruning from index i is cell i (kept iff not behind) followed by pruning from i + 1. |
| Track.PruneKeepsAll | main.py:209-211 | When no cell is behind the player, nothing is deleted. |
| Track.PruneAppend | main.py:209-211 | Pruning a concatenation is the concatenation of the pruned parts, so the kept cells of any list keep their relative order. |
| Track.PruneInLanes | main.py:209-211 | Every kept cell is a cell of the original list, so cells inside the lane bounds stay inside them. |
| Track.PruneSortedIsSuffix | main.py:209-211 | On a path whose rows never decrease, pruning removes a prefix whose cells are all behind the player and keeps the rest in order. |
| Track.Direction | main.py:222-226 | A lane at or below -8 forces a right bend, a lane at or above 8 forces a left bend, and in between the draw is used unchanged. |
| Track.NextStart | main.py:229-241 | After a straight the next iteration starts one row on in the same lane; after a bend it starts two rows on, one lane over in the bend's direction. |
| Track.Segment | main.py:220-239 | An iteration appends its start cell, plus for a bend a sideways cell and then a forward cell; the next start is one row in front of the last appended cell. |
| Track.Extend | main.py:219-241 | n iterations append between n and 3n cells, beginning with the start cell. |
| Track.Cursor | main.py:219-241 | n iterations move the loop at least n rows forward. |
| Track.StartCell | main.py:213-216 | The generation loop starts one row in front of the last kept cell, in its lane, or at (0, 0) when nothing was kept. |
| Track.Iterations | main.py:219 | `range(len, NUM_TILES)` runs just enough iterations to bring the count to 12, and none once 12 or more cells were kept. |
| Track.Generate | main.py:202-241 | A generator call leaves the player's row unchanged, leaves at least 12 cells and uses between 0 and 12 draws; the rest of its output is described by GenerateAppends, GenerateInLanes and GenerateWindow. |
| Track.NextRow | main.py:313-317 | One pass of the scroll loop's body moves the player exactly one row ahead and uses between 0 and 12 draws; the path it leaves is described by GenerateAppends and NextRowKeepsInvariant. |
| Track.IterateNextRow | main.py:313-317 | k passes of the loop body move the player exactly k rows ahead. |
| Track.Scroll | main.py:313-317 | k passes of the scroll loop's body leave the player exactly k rows ahead; ScrollStep relates k + 1 passes to k. |
| Track.ScrollStep | main.py:313-317 | k + 1 passes of the scroll loop's body are k passes followed by one more row step and generator run. |
| Track.WellFormedRowsNonDecreasing | main.py:229-241 | Along a well-formed path, rows never decrease. |
| Track.SegmentWellFormed | main.py:222-239 | From a cell inside the lane bounds, the appended cells form a well-formed piece of path and the next start stays inside the bounds. |
| Track.ExtendSnoc | main.py:219-241 | One more loop iteration appends the segment of the cell the loop has reached and moves the loop to that segment's next start. |
| Track.ExtendWellFormed | main.py:219-241 | Starting inside the lane bounds, every appended cell stays inside them and the appended cells form a well-formed path. |
| Track.RowSpread | main.py:229-241 | Along a well-formed path the last row is at least (length - 2) / 2 rows past the first. |
| Track.GenerateAppends | main.py:213-241 | The loop runs max(0, 12 - kept) times, one draw each; it appends 1 to 3 cells per iteration and keeps the kept cells in front. The result has at least 12 cells, and nothing is added when 12 or more were kept. The first appended cell is (last lane, last row + 1), or (0, 0) when nothing was kept. |
| Track.GenerateInLanes | main.py:203-226 | If every cell lies inside lanes -8..8 before a generator call, every cell does afterwards. |
| Track.PruneKeepsTail | main.py:209-216 | Pruning a well-formed path whose last cell is not behind the player keeps a non-empty well-formed suffix with the same last cell. |
| Track.ContinueWellFormed | main.py:213-241 | Generation continuing a non-empty well-formed list yields a well-formed list with the same first cell. |
| Track.NextRowKeepsInvariant | main.py:313-317 | Moving one row ahead and running the generator keeps the play invariant, and pruning never empties the list. |
| Track.GenerateWindow | main.py:202-241 | If pruning keeps a non-empty well-formed list with no cell behind the player, the generator's result satisfies the play invariant. |
| Track.ContinueWindow | main.py:213-241 | Continuing such a list until it has at least 12 cells satisfies the play invariant. |
| Track.WindowInvariant | main.py:229-241 | A well-formed path of at least 12 cells whose first cell is not behind the player ends ahead of the player, with no cell behind. |
| Game.MainWidget.constructor | main.py:85-96 | A new widget has three zero ship points and both flags false, followed by a full reset: the straight prefill, zero offsets and the invariant. |
| Game.MainWidget.ResetGame | main.py:121-131 | The offsets, sideways speed, player row and speed modifier are zero; the path is exactly the prefill; game over is cleared; the invariant holds. |
| Game.MainWidget.PrefillTilesCoordinates | main.py:198-200 | The loop appends exactly (0, 0) ... (0, 14) to the list. |
| Game.MainWidget.OnMenuButtonPressed | main.py:337-343 | Everything a reset does, and the game is now started. |
| Game.MainWidget.GenerateTilesCoordinates | main.py:202-241 | The path and draw count become exactly the generator function's result on the old state. |
| Game.MainWidget.DeleteBehind | main.py:209-211 | The back-to-front deletion loop leaves exactly the pruned list. |
| Game.MainWidget.AppendTiles | main.py:213-241 | The generation loop appends exactly the iterations the specification describes from the start cell, using exactly max(0, 12 - length) draws. |
| Game.GenerateStep | main.py:220-241 | One loop body appends exactly the segment of the current cell and moves to its next start. |
| Game.MainWidget.LineX | main.py:180-185 | With a positive width, vertical line i lies left of the centre (perspective point plus sideways offset) iff i <= 0, so lane 0 straddles the centre; LinesIncrease gives the spacing. |
| Game.MainWidget.LineY | main.py:187-190 | Horizontal line 0 sits at minus the forward offset; with a positive height, line i lies above that offset iff i > 0; LinesIncrease gives the spacing. |
| Game.MainWidget.TileCoordinates | main.py:192-196 | Rows count from the player's row: with a positive width the corner is left of the centre iff the lane is <= 0, and with a positive height and an offset below one spacing, it is at or below y = 0 iff the row is not ahead of the player; TileBoxOrdered orders the corners. |
| Game.MainWidget.LinesIncrease | main.py:180-190 | Lines are one spacing apart; with a positive width and height, line x and line y strictly increase with the index. |
| Game.MainWidget.TileBoxOrdered | main.py:192-196 | With a positive width and height, every tile box has its lower corner strictly below and to the left of its upper corner. |
| Game.MainWidget.ShipPoints | main.py:146-154 | The ship is three points: the apex is at the centre, and both base corners are at the base height. For a positive width the corners are ordered left to right, and for a positive height the apex is above the base. |
| Game.MainWidget.UpdateShip | main.py:146-154 | The three ship points are overwritten with those points. |
| Game.MainWidget.CheckShipCollisionWithTile | main.py:171-178 | Returns true iff one of the three ship points lies in the tile's inclusive box. |
| Game.MainWidget.CheckShipCollision | main.py:162-169 | Returns true iff the in-order scan meets a hit tile before any tile more than one row ahead; an empty path returns false. |
| Game.MainWidget.OnTrackFromExists | main.py:162-169 | The scan from tile i succeeds iff some tile k from i on is hit and no tile from i to k is more than one row ahead. |
| Game.MainWidget.OnTrackExists | main.py:162-169 | The scan succeeds iff some tile it reaches is hit. |
| Game.MainWidget.OnTrackAnyOrder | main.py:162-169 | On a path whose rows never decrease, the scan succeeds iff some tile at most one row ahead is hit. |
| Game.MainWidget.CentredShipHitsLaneZero | main.py:146-196 | A centred ship with no sideways drift and less than one row of forward offset hits lane 0 of the current row or of the next. |
| Game.MainWidget.CentredShipOnStraightTrack | main.py:162-196 | Such a ship is on the track when the path covers lane 0 in those two rows. |
| Game.MainWidget.Update | main.py:301-331 | While the game runs, both offsets advance by speed times dt * 60. Whole row spacings become rows, the generator runs once per row, and the score follows. Otherwise nothing moves. The game is then over iff it was already over or the scan fails, and the transition fires only when the game was not over before. |
| Game.MainWidget.Move | main.py:306-320 | The part of a frame before the collision check: place the ship, and advance only while the game runs. |
| Game.MainWidget.CheckGameOver | main.py:323-331 | Game over becomes true iff it was true or the ship is off the track; the transition fires only on a change from false to true. |
| Game.MainWidget.Advance | main.py:308-320 | The running branch. The forward speed is recomputed. Both offsets move by speed times the time factor. Whole row spacings are removed, leaving 0 <= offset < spacing. The player is exactly that many rows on, the track is that many scroll steps on, and the play invariant is kept. |
| Game.MainWidget.Accelerate | main.py:309-310 | The forward speed is SPEED * height / 100 plus the modifier, and the forward offset grows by speed times the time factor. |
| Game.MainWidget.Drift | main.py:319-320 | The sideways offset grows by current_speed_x * width / 100 times the time factor. |
| Game.MainWidget.ScrollRows | main.py:312-317 | The while loop ends with 0 <= offset < spacing. It has removed exactly `rows` spacings, moved the player exactly `rows` rows, and run the generator once per row. It keeps the play invariant, and the score shows the new row when any row was passed. |
| Game.MainWidget.AdvanceRow | main.py:314-317 | One pass of the loop body: the player row rises by one, the score shows it, the generator runs, and the play invariant is kept. |
| Game.MainWidget.PlayGameOverVoiceSound | main.py:333-335 | The delayed voice plays iff the game is still over when the callback fires. |

## Left out

- Rendering is not modelled. This covers the perspective transform (`src/transforms.py`), the vertical and horizontal lines, the tile quads, `ship.points`, the menu titles and the menu opacity. `src/transforms.py` and `src/input.py` (keyboard and touch input) are not part of this model.
- Audio, `Clock` scheduling, `increment_speed_modifier` and `is_desktop` are not modelled. The speed modifier is a field that the model only requires to be non-negative.
- Coordinates are exact reals, not IEEE floats; rounding is not modelled.
- The score label is a datatype: blank, or the number of rows passed. The "SCORE: " string formatting is not modelled.
- `random.randint(0, 2)` is a stream of draws fixed when the widget is built, plus a count of the draws used.
- Game.MainWidget.Update: requires a positive window height while the game runs. With height 0 the row spacing is 0, the scroll loop's condition `offset >= spacing` stays true, and `update` never returns.
- Game.MainWidget.Update: the number of rows scrolled in a frame is a ghost out-parameter; `update` itself returns nothing.
- Game.MainWidget.AppendTiles: the generation loop appends to a local copy of the list and of the draw count, and writes them back at the end. Nothing else reads the list in between, so the result is the same as appending in place.
- Track.Prune: its own ensures bounds only the length. What it keeps is stated by PruneCounts and PruneDropsBehind, and the order by PruneAppend (any list) and PruneSortedIsSuffix (a path whose rows never decrease, which every path in play is).
- Track.Generate: its own ensures states the player's row, the length bound and the draw count. The cells it produces are characterised by GenerateAppends, GenerateInLanes and GenerateWindow.
- The collision methods require exactly three ship points. The source's list always has three.
