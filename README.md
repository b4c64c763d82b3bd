# Sliding-block puzzle: occupancy grid and box moves

A Dafny model of an early revision of a Klotski-style sliding-block puzzle
(`app.js`). A `Game` owns an occupancy table of four rows; each row is a
JavaScript array indexed by column whose slots hold a box or nothing. Boxes
come in two classes: `Box`, one cell, and `BoxTwoTall`, its anchor cell and
the cell below it. A new box writes itself into its footprint. `move(direction)`
shifts the footprint by a unit vector (`addV` with `UP`, `DOWN`, `LEFT` or
`RIGHT`). If any shifted cell is occupied, it returns `false`; otherwise it
writes the box into every shifted cell. `getClassName` names the box's type at
its anchor only.

Modules:

- `Geometry` (geometry.dfy): coordinates, the direction constants, `addV`, and
  the shift of a list of cells.
- `Shapes` (shapes.dfy): the two box classes as a tagged variant, their
  footprints and type strings.
- `Grids` (grids.dfy): the table as a value. It has four rows, and each row is
  an integer-keyed map. This module gives the cell writes and the
  short-circuiting "is any target occupied" scan of `move`.
- `Puzzle` (puzzle.dfy): the classes `Game` (field `grid`, which is `map` in
  JavaScript) and `Box` (fields `game`, `line`, `column`, `variant`, and
  `typeName` for the JavaScript field `type`). Nothing in the file assigns
  `line` or `column` after the constructor, so they are constants here. The
  module also holds `start`'s board setup.

Modelling decisions, following the code:

- Rows: indexing a row outside 0..3 reads `undefined` and then throws a
  TypeError. Every operation therefore requires that the rows it reads or
  writes lie in 0..3. Columns are unbounded integers, negative ones included.
  Reading an unset column yields `undefined`, so the cell counts as free.
- `move`'s precondition (`ScanSafe`) is exactly the condition under which the
  `some` scan does not throw. The scan stops at the first occupied cell. So a
  two-tall box in row 2 moving down is allowed: it is rejected at its own
  lower cell before the scan reaches row 4.
- `clearSpace` stores `undefined`. Here it removes the key, which reads the
  same.
- `move` returns `false` (`Rejected`) or `undefined` (`Applied`). Both are
  falsy in JavaScript, and the model keeps them apart.
- `move` treats the box's own cells as obstacles. It never clears the old
  cells and never updates `line`/`column`. A successful move therefore leaves
  the box registered in both its old and its new cells.
- `cloneMap` spreads each row (`[...line]`), which copies only array index
  slots 0..2^32-2. Cells at negative columns are therefore missing from the
  clone. The clone agrees with the table cell for cell on every other column.
- Later revisions of the program add a bounds-checked 4×5 grid, moves that
  clear the old cells and update the anchor, rods and a solver. This revision
  has none of these, and the model follows it.
- No operation leaves a once-occupied cell free: `clearSpace` is only called
  right before `setSpace` on the same cell. A box's footprint therefore stays
  occupied once its constructor has run (`Registered`). That is why a
  two-tall box can never move down.

## Model

| member | source | states |
|---|---|---|
| Geometry.DirectionSteps | app.js:58-65 | adding `UP`/`DOWN`/`LEFT`/`RIGHT` moves a cell one step in that direction; `UP`/`DOWN` and `LEFT`/`RIGHT` are opposites |
| Geometry.AddV | app.js:63-65 | the result lies at displacement `b` from `a`; adding a direction constant gives one of the four neighbouring cells |
| Geometry.Shift | app.js:84 | the shifted cell list has the same length and its i-th cell is `addV` of the i-th cell and the direction |
| Shapes.Footprint | app.js:99-110 | `getCurrentSpaces`: one cell for `Box`, two for `BoxTwoTall`; the anchor first, the cell below second, no cell repeated |
| Shapes.TypeTag | app.js:78-80 | `initialize` stores `SQUARE` exactly for a `Box` and `TWOTALL` exactly for a `BoxTwoTall` (app.js:105-107) |
| Shapes.TypeTagIdentifiesVariant | app.js:78-107 | the `type` string set by `initialize` (`SQUARE` / `TWOTALL`) is equal for two boxes exactly when they are of the same class |
| Shapes.ShiftedFootprint | app.js:83-84 | the cells `move` probes are the footprint of the anchor moved by the direction |
| Shapes.TwoTallDownOverlapsItself | app.js:108-110 | a two-tall footprint shifted down starts on its own lower cell |
| Grids.Place | app.js:18-20 | writing a box makes that cell hold it and leaves every other cell as it was |
| Grids.Clear | app.js:14-16 | clearing makes that cell free and leaves every other cell as it was |
| Grids.ClearThenPlace | app.js:87-90 | the `clearSpace` before each `setSpace` in `move` has no effect on the result |
| Grids.PlaceAllAt | app.js:72-74 | after writing a box into a list of cells, exactly those cells hold it and all others are unchanged |
| Grids.ScanSafe | app.js:85 | the no-TypeError condition of the `some(!isFree)` scan: the first cell read lies in rows 0..3, and the condition holds whenever every cell does |
| Grids.AnyOccupied | app.js:85 | the value of the short-circuit scan: true only if some in-range cell is occupied; false only if every cell is in range and free |
| Grids.OccupiedStaysOccupied | app.js:85-90 | cells that are all occupied stay occupied across any change that frees no cell |
| Grids.NoneOccupiedMeansAllFree | app.js:85 | a scan that finds no obstacle has read every target: all lie in rows 0..3 and all are free |
| Grids.OccupiedCellBlocks | app.js:85 | any occupied target makes the scan report an obstacle (with the lemma above: an obstacle is reported if and only if some target is occupied) |
| Puzzle.Game.constructor | app.js:5-8 | a new game has four rows and every cell is free |
| Puzzle.Game.IsFree | app.js:10-12 | true exactly when no box is stored at the cell |
| Puzzle.Game.ClearSpace | app.js:14-16 | the cell becomes free; no other cell changes |
| Puzzle.Game.SetSpace | app.js:18-20 | the cell holds the given box; no other cell changes |
| Puzzle.Game.SomeTaken | app.js:85 | returns the value of the short-circuiting `some(!isFree)` scan over the target cells |
| Puzzle.Game.SetEach | app.js:72-74 | the constructor's `forEach(setSpace)`: exactly the listed cells hold the box afterwards, every other cell is unchanged |
| Puzzle.Game.WriteEach | app.js:87-90 | `move`'s `forEach(clearSpace; setSpace)`: exactly the listed cells hold the box afterwards, every other cell is unchanged |
| Puzzle.Game.CloneMap | app.js:22-24 | four rows equal to the table on every column 0..2^32-2 and empty elsewhere; a value, so later writes to the table do not reach it |
| Puzzle.Box.GetCurrentSpaces | app.js:99-101 | one cell for `Box`, two for `BoxTwoTall` (app.js:108-110), the anchor first, all in the anchor's column and at most one line below it |
| Puzzle.Box.constructor | app.js:68-80 | records game and anchor, sets `type` to `SQUARE` or `TWOTALL`, writes the box into exactly its footprint cells and changes no other cell; the box is registered and no cell is freed |
| Puzzle.Box.Move | app.js:82-91 | rejected (grid unchanged) if and only if some shifted cell is occupied; otherwise the shifted cells hold the box, every other cell (the old ones included) is unchanged; in both cases no cell is freed; the anchor is a constant, so it never moves |
| Puzzle.Box.GetClassName | app.js:93-97 | the box's type at its anchor and `undefined` at every other cell |
| Puzzle.AnchorIsOnlyNamedCell | app.js:93-110 | of a box's own cells, only the anchor has a class name |
| Puzzle.RegistrationPersists | app.js:82-91 | a registered box stays registered across any grid change that frees no cell (every constructor and every `move`) |
| Puzzle.TwoTallDownIsRejected | app.js:85 | every registered two-tall box is rejected moving down, and the scan does not throw even in row 2 |
| Puzzle.OwnCellBlocks | app.js:85 | a registered cell of the box that is also a target blocks the move |
| Puzzle.Start | app.js:119-126 | three new objects: a registered `Box` anchored at (1, 1) and a registered `BoxTwoTall` anchored at (2, 1) on the new game, whose grid holds the box at (1, 1), the two-tall box at (2, 1) and (3, 1), and nothing else |

## Left out

- `HtmlRenderer`, `Game.draw` and the game's `renderer` field (app.js:26-56): DOM creation and styling.
- `start`'s DOM part and `initializeDragHandlers` (app.js:119-131): container lookup, drag setup (an empty stub) and drawing. `Puzzle.Start` keeps only the two box constructions.
- `SquareBox` (app.js:113-117): an empty class with no behaviour.
- `GAMECONTAINERID`: used only by the DOM code.
- Geometry.AddV: `addV` works on arrays of any length. It and the coordinate type `Geometry.Pos` are modelled on pairs, the only coordinates the program builds.
- Coordinates are unbounded integers. JavaScript numbers are doubles, which are exact for the small values used here. Non-integer columns never arise.
- Puzzle.Box.constructor: a footprint row outside 0..3 throws after earlier cells were already written. It is a precondition here, so the partially written grid is not modelled.
- Puzzle.Game.CloneMap: rows are values, so the clone's independence from later writes holds by construction. The model does not track separate row arrays or their aliasing.
- A cleared slot and a never-written slot are not told apart, and neither is the row arrays' `length`. No operation of the model can observe either.
