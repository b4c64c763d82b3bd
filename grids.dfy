/** The occupancy table `Game.map` of app.js as a value: four rows, each a
    JavaScript array indexed by column. Only columns that hold a box are
    keys of a row; a missing key is the `undefined` that JavaScript reads
    from an unset or cleared slot, at any column, negative ones included. */
module Grids {
  import opened Geometry

  datatype Option<T> = None | Some(value: T)

  /** `this.map = [[],[],[],[]]` has four rows; indexing any other row reads
      `undefined`, and indexing that again is a TypeError. */
  const ROWS: int := 4

  type Grid<T> = seq<map<int, T>>

  predicate RowOk(line: int)
  {
    0 <= line < ROWS
  }

  predicate WellFormed<T>(g: Grid<T>)
  {
    |g| == ROWS
  }

  predicate AllRowsOk(cells: seq<Pos>)
  {
    forall p :: p in cells ==> RowOk(p.line)
  }

  /** What `map[line][column]` reads: the box there, or `undefined`. */
  function Occupant<T>(g: Grid<T>, p: Pos): Option<T>
    requires WellFormed(g) && RowOk(p.line)
  {
    if p.column in g[p.line] then Some(g[p.line][p.column]) else None
  }

  /** `!map[line][column]`: a box object is truthy, `undefined` is falsy. */
  predicate Free<T>(g: Grid<T>, p: Pos)
    requires WellFormed(g) && RowOk(p.line)
  {
    p.column !in g[p.line]
  }

  /** The grid after `map[line][column] = x`. */
  function Place<T>(g: Grid<T>, p: Pos, x: T): (r: Grid<T>)
    requires WellFormed(g) && RowOk(p.line)
    ensures WellFormed(r)
    ensures Occupant(r, p) == Some(x)
    ensures forall q: Pos :: RowOk(q.line) && q != p ==> Occupant(r, q) == Occupant(g, q)
  {
    g[p.line := g[p.line][p.column := x]]
  }

  /** The grid after `map[line][column] = undefined`. */
  function Clear<T>(g: Grid<T>, p: Pos): (r: Grid<T>)
    requires WellFormed(g) && RowOk(p.line)
    ensures WellFormed(r)
    ensures Free(r, p)
    ensures forall q: Pos :: RowOk(q.line) && q != p ==> Occupant(r, q) == Occupant(g, q)
  {
    g[p.line := g[p.line] - {p.column}]
  }

  /** Clearing a cell right before writing it makes no difference. */
  lemma ClearThenPlace<T>(g: Grid<T>, p: Pos, x: T)
    requires WellFormed(g) && RowOk(p.line)
    ensures Place(Clear(g, p), p, x) == Place(g, p, x)
  {
    assert (g[p.line] - {p.column})[p.column := x] == g[p.line][p.column := x];
  }

  /** The grid after writing `x` into each of `cells` in order, as the
      `forEach` loops of app.js do. */
  function PlaceAll<T>(g: Grid<T>, cells: seq<Pos>, x: T): (r: Grid<T>)
    requires WellFormed(g) && AllRowsOk(cells)
    ensures WellFormed(r)
    decreases |cells|
  {
    if cells == [] then g
    else Place(PlaceAll(g, cells[..|cells| - 1], x), cells[|cells| - 1], x)
  }

  /** After `PlaceAll` exactly the listed cells hold `x`; every other cell
      holds what it held before. */
  lemma {:induction false} PlaceAllAt<T>(g: Grid<T>, cells: seq<Pos>, x: T, q: Pos)
    requires WellFormed(g) && AllRowsOk(cells) && RowOk(q.line)
    ensures Occupant(PlaceAll(g, cells, x), q) == if q in cells then Some(x) else Occupant(g, q)
    decreases |cells|
  {
    if cells != [] {
      var init, last := cells[..|cells| - 1], cells[|cells| - 1];
      assert cells == init + [last];
      PlaceAllAt(g, init, x, q);
    }
  }

  /** `PlaceAllAt` for every cell of the grid at once. */
  lemma PlaceAllFrame<T>(g: Grid<T>, cells: seq<Pos>, x: T)
    requires WellFormed(g) && AllRowsOk(cells)
    ensures forall q: Pos :: RowOk(q.line) ==>
      Occupant(PlaceAll(g, cells, x), q) == if q in cells then Some(x) else Occupant(g, q)
  {
    forall q: Pos | RowOk(q.line)
      ensures Occupant(PlaceAll(g, cells, x), q) == if q in cells then Some(x) else Occupant(g, q)
    {
      PlaceAllAt(g, cells, x, q);
    }
  }

  /** No cell that is occupied in `g` is free in `h`. */
  ghost predicate NoCellFreed<T>(g: Grid<T>, h: Grid<T>)
    requires WellFormed(g) && WellFormed(h)
  {
    forall q: Pos :: RowOk(q.line) && !Free(g, q) ==> !Free(h, q)
  }

  /** Cells that lie in the four rows and are all occupied. */
  ghost predicate AllOccupied<T>(g: Grid<T>, cells: seq<Pos>)
    requires WellFormed(g)
  {
    AllRowsOk(cells) && forall p :: p in cells ==> !Free(g, p)
  }

  /** Writes never free a cell, so a set of occupied cells stays occupied. */
  lemma {:induction false} OccupiedStaysOccupied<T>(g: Grid<T>, h: Grid<T>, cells: seq<Pos>)
    requires WellFormed(g) && WellFormed(h) && NoCellFreed(g, h)
    requires AllOccupied(g, cells)
    ensures AllOccupied(h, cells)
  {
    forall p | p in cells
      ensures !Free(h, p)
    {
      assert RowOk(p.line) && !Free(g, p);
    }
  }

  /** The scan `cells.some(s => !isFree(...s))` runs to its answer without a
      TypeError: it stops at the first occupied cell, and every cell it
      reads before stopping lies in one of the four rows. In particular it
      cannot fail when every cell lies in the four rows. */
  function ScanSafe<T>(g: Grid<T>, cells: seq<Pos>): (r: bool)
    requires WellFormed(g)
    ensures r ==> cells == [] || RowOk(cells[0].line)
    ensures AllRowsOk(cells) ==> r
    decreases |cells|
  {
    cells == [] || (RowOk(cells[0].line) && (!Free(g, cells[0]) || ScanSafe(g, cells[1..])))
  }

  /** The value of `cells.some(s => !isFree(...s))`, short-circuit and all. */
  function AnyOccupied<T>(g: Grid<T>, cells: seq<Pos>): (r: bool)
    requires WellFormed(g) && ScanSafe(g, cells)
    ensures r ==> exists i :: 0 <= i < |cells| && RowOk(cells[i].line) && !Free(g, cells[i])
    ensures !r ==> forall i :: 0 <= i < |cells| ==> RowOk(cells[i].line) && Free(g, cells[i])
    decreases |cells|
  {
    cells != [] && (!Free(g, cells[0]) || AnyOccupied(g, cells[1..]))
  }

  /** A scan that finds nothing has read every cell: all of them lie in the
      four rows and all of them are free. */
  lemma {:induction false} NoneOccupiedMeansAllFree<T>(g: Grid<T>, cells: seq<Pos>)
    requires WellFormed(g) && ScanSafe(g, cells) && !AnyOccupied(g, cells)
    ensures AllRowsOk(cells)
    ensures forall p :: p in cells ==> Free(g, p)
    decreases |cells|
  {
    if cells != [] {
      NoneOccupiedMeansAllFree(g, cells[1..]);
      assert cells == [cells[0]] + cells[1..];
    }
  }

  /** Conversely, one occupied cell anywhere in the list makes the scan
      report an obstacle. */
  lemma {:induction false} OccupiedCellBlocks<T>(g: Grid<T>, cells: seq<Pos>, p: Pos)
    requires WellFormed(g) && ScanSafe(g, cells)
    requires p in cells && RowOk(p.line) && !Free(g, p)
    ensures AnyOccupied(g, cells)
    decreases |cells|
  {
    if Free(g, cells[0]) {
      assert p in cells[1..];
      OccupiedCellBlocks(g, cells[1..], p);
    }
  }
}
