/** The mutable objects of app.js: the `Game` that owns the occupancy table
    and the boxes that register themselves in it and move through it. */
module Puzzle {
  import opened Geometry
  import opened Shapes
  import opened Grids

  /** What `Box.move` returns: `false` when an obstacle was found, and
      `undefined` (falsy too, but a different value) when the box was written
      into its shifted cells. */
  datatype MoveOutcome = Rejected | Applied

  /** `Game` (app.js:4-29). Its `map` field is `grid` here. */
  class Game {
    var grid: Grid<Box>

    ghost predicate Valid()
      reads this
    {
      WellFormed(grid)
    }

    /** `new Game(renderer)`: four empty rows. */
    constructor ()
      ensures Valid()
      ensures forall p: Pos :: RowOk(p.line) ==> Occupant(grid, p) == None
    {
      grid := [map[], map[], map[], map[]];
    }

    /** `isFree`: true exactly when no box is stored at the cell. */
    function IsFree(line: int, column: int): (r: bool)
      reads this
      requires Valid() && RowOk(line)
      ensures r <==> Occupant(grid, Pos(line, column)) == None
    {
      column !in grid[line]
    }

    /** `clearSpace`: the cell becomes free, no other cell changes. */
    method ClearSpace(line: int, column: int)
      requires Valid() && RowOk(line)
      modifies this
      ensures Valid()
      ensures grid == Clear(old(grid), Pos(line, column))
      ensures IsFree(line, column)
      ensures forall q: Pos :: RowOk(q.line) && q != Pos(line, column) ==>
        Occupant(grid, q) == old(Occupant(grid, q))
    {
      grid := grid[line := grid[line] - {column}];
    }

    /** `setSpace`: the cell holds `box`, no other cell changes. */
    method SetSpace(box: Box, line: int, column: int)
      requires Valid() && RowOk(line)
      modifies this
      ensures Valid()
      ensures grid == Place(old(grid), Pos(line, column), box)
      ensures Occupant(grid, Pos(line, column)) == Some(box)
      ensures forall q: Pos :: RowOk(q.line) && q != Pos(line, column) ==>
        Occupant(grid, q) == old(Occupant(grid, q))
    {
      grid := grid[line := grid[line][column := box]];
    }

    /** `cells.some(s => !this.game.isFree(...s))` inside `move`: walks the
        cells in order and stops at the first occupied one. */
    method SomeTaken(cells: seq<Pos>) returns (taken: bool)
      requires Valid() && ScanSafe(grid, cells)
      ensures taken == AnyOccupied(grid, cells)
    {
      var i := 0;
      while i < |cells|
        invariant 0 <= i <= |cells|
        invariant ScanSafe(grid, cells[i..])
        invariant AnyOccupied(grid, cells) == AnyOccupied(grid, cells[i..])
      {
        assert cells[i..][1..] == cells[i + 1..];
        if !IsFree(cells[i].line, cells[i].column) {
          return true;
        }
        i := i + 1;
      }
      taken := false;
    }

    /** `getCurrentSpaces().forEach(space => this.game.setSpace(this, ...space))`
        in the box constructor: afterwards exactly the listed cells hold `box`. */
    method SetEach(box: Box, cells: seq<Pos>)
      requires Valid() && AllRowsOk(cells)
      modifies this
      ensures Valid()
      ensures grid == PlaceAll(old(grid), cells, box)
      ensures forall q: Pos :: RowOk(q.line) ==>
        Occupant(grid, q) == if q in cells then Some(box) else old(Occupant(grid, q))
      ensures AllOccupied(grid, cells) && NoCellFreed(old(grid), grid)
    {
      ghost var g0 := grid;
      var i := 0;
      while i < |cells|
        invariant 0 <= i <= |cells|
        invariant Valid()
        invariant grid == PlaceAll(g0, cells[..i], box)
      {
        assert cells[..i + 1][..i] == cells[..i];
        assert cells[i] in cells;
        SetSpace(box, cells[i].line, cells[i].column);
        i := i + 1;
      }
      assert cells[..i] == cells;
      PlaceAllFrame(g0, cells, box);
    }

    /** `cells.forEach(space => { clearSpace(...space); setSpace(box, ...space) })`
        inside `move`: afterwards exactly the listed cells hold `box`. */
    method WriteEach(box: Box, cells: seq<Pos>)
      requires Valid() && AllRowsOk(cells)
      modifies this
      ensures Valid()
      ensures grid == PlaceAll(old(grid), cells, box)
      ensures forall q: Pos :: RowOk(q.line) ==>
        Occupant(grid, q) == if q in cells then Some(box) else old(Occupant(grid, q))
    {
      ghost var g0 := grid;
      var i := 0;
      while i < |cells|
        invariant 0 <= i <= |cells|
        invariant Valid()
        invariant grid == PlaceAll(g0, cells[..i], box)
      {
        assert cells[..i + 1][..i] == cells[..i];
        assert cells[i] in cells;
        ghost var before := grid;
        ClearSpace(cells[i].line, cells[i].column);
        SetSpace(box, cells[i].line, cells[i].column);
        ClearThenPlace(before, cells[i], box);
        i := i + 1;
      }
      assert cells[..i] == cells;
      PlaceAllFrame(g0, cells, box);
    }

    /** `cloneMap`: four new rows built with `[...line]`. Spreading an array
        copies only its index slots 0 .. 2^32 - 2, so the copy agrees with
        `map` on every such column and has nothing at the other columns
        (negative ones included). Rows are values here, so later writes to
        `grid` cannot reach the copy. */
    function CloneMap(): (r: Grid<Box>)
      reads this
      requires Valid()
      ensures WellFormed(r)
      ensures forall p: Pos :: RowOk(p.line) && 0 <= p.column <= MAX_ARRAY_INDEX ==>
        Occupant(r, p) == Occupant(grid, p)
      ensures forall p: Pos :: RowOk(p.line) && !(0 <= p.column <= MAX_ARRAY_INDEX) ==>
        Occupant(r, p) == None
    {
      var rows := grid;
      seq(ROWS, l requires 0 <= l < ROWS =>
        map c | c in rows[l] && 0 <= c <= MAX_ARRAY_INDEX :: rows[l][c])
    }
  }

  /** The largest JavaScript array index. */
  const MAX_ARRAY_INDEX: int := 0xFFFF_FFFE

  /** `Box` (app.js:67-102) and, with `variant == TwoTall`, `BoxTwoTall`
      (app.js:104-111). `typeName` is the JavaScript field `type`. Nothing
      assigns `line` or `column` after the constructor, `move` included, so
      they are constants. */
  class Box {
    const game: Game
    const line: int
    const column: int
    const variant: Variant
    var typeName: string

    /** `getCurrentSpaces`: the anchor first, then (for a two-tall box) the
        cell below it, all in the anchor's column. */
    function GetCurrentSpaces(): (r: seq<Pos>)
      reads this
      ensures |r| == (if variant == Square then 1 else 2) && r[0] == Pos(line, column)
      ensures forall p :: p in r ==> p.column == column && line <= p.line <= line + 1
    {
      Footprint(variant, Pos(line, column))
    }

    /** Every cell of the box's footprint lies in the four rows and is
        occupied. The constructor establishes it, and since no operation of
        app.js leaves a cell free once it was occupied, it then holds for good. */
    ghost predicate Registered()
      reads this, game
    {
      game.Valid() && AllOccupied(game.grid, GetCurrentSpaces())
    }

    /** The cells `move(direction)` checks and writes. */
    function Targets(direction: Pos): seq<Pos>
      reads this
    {
      Shift(GetCurrentSpaces(), direction)
    }

    /** `new Box(game, line, column)` or `new BoxTwoTall(game, line, column)`:
        records the anchor, writes the new box into every footprint cell in
        order, then lets `initialize` set the type. A footprint row outside
        the four rows would raise a TypeError, so it is excluded. */
    constructor (game: Game, line: int, column: int, variant: Variant)
      requires game.Valid()
      requires AllRowsOk(Footprint(variant, Pos(line, column)))
      modifies game
      ensures this.game == game && this.variant == variant
      ensures this.line == line && this.column == column
      ensures typeName == TypeTag(variant)
      ensures game.Valid() && Registered()
      ensures NoCellFreed(old(game.grid), game.grid)
      ensures game.grid == PlaceAll(old(game.grid), Footprint(variant, Pos(line, column)), this)
      ensures forall q: Pos :: RowOk(q.line) ==>
        Occupant(game.grid, q) ==
          if q in Footprint(variant, Pos(line, column)) then Some(this) else old(Occupant(game.grid, q))
    {
      this.game := game;
      this.line := line;
      this.column := column;
      this.variant := variant;
      var spaces := Footprint(variant, Pos(line, column));
      new;
      game.SetEach(this, spaces);
      typeName := TypeTag(variant);
      assert GetCurrentSpaces() == spaces;
    }

    /** `move(direction)`: if any shifted footprint cell is occupied (the
        box's own cells included) nothing changes and the result is `false`;
        otherwise each shifted cell is cleared and set to this box. The old
        cells are not cleared and the anchor is not updated. The scan must
        not index a row outside the four, or it would raise a TypeError. */
    method Move(direction: Pos) returns (outcome: MoveOutcome)
      requires game.Valid()
      requires ScanSafe(game.grid, Targets(direction))
      modifies game
      ensures game.Valid()
      ensures NoCellFreed(old(game.grid), game.grid)
      ensures outcome == Rejected <==> AnyOccupied(old(game.grid), Targets(direction))
      ensures outcome == Rejected ==> game.grid == old(game.grid)
      ensures outcome == Applied ==> AllRowsOk(Targets(direction))
      ensures outcome == Applied ==> game.grid == PlaceAll(old(game.grid), Targets(direction), this)
      ensures outcome == Applied ==> forall q: Pos :: RowOk(q.line) ==>
        Occupant(game.grid, q) ==
          if q in Targets(direction) then Some(this) else old(Occupant(game.grid, q))
    {
      var currentSpaces := GetCurrentSpaces();
      var nextSpaces := Shift(currentSpaces, direction);
      var blocked := game.SomeTaken(nextSpaces);
      if blocked {
        return Rejected;
      }
      NoneOccupiedMeansAllFree(game.grid, nextSpaces);
      game.WriteEach(this, nextSpaces);
      outcome := Applied;
    }

    /** `getClassName(line, column)`: the type at the anchor, `undefined`
        at every other cell. */
    function GetClassName(line: int, column: int): (r: Option<string>)
      reads this
      ensures r != None <==> line == this.line && column == this.column
      ensures r != None ==> r.value == typeName
    {
      if line == this.line && column == this.column then Some(typeName) else None
    }
  }

  /** Of the cells a box occupies, only its anchor carries a class name, so a
      renderer walking the grid draws each box once. */
  lemma AnchorIsOnlyNamedCell(b: Box, i: int)
    requires 0 <= i < |b.GetCurrentSpaces()|
    ensures b.GetClassName(b.GetCurrentSpaces()[i].line, b.GetCurrentSpaces()[i].column) != None <==> i == 0
  {
    var spaces := b.GetCurrentSpaces();
    if i != 0 {
      assert spaces[i] != spaces[0];
    }
  }

  /** A registered box stays registered across any change of its game's
      grid that frees no cell: every `setSpace`, every box constructor and
      every `move`. */
  twostate lemma RegistrationPersists(b: Box)
    requires old(b.Registered()) && b.game.Valid()
    requires NoCellFreed(old(b.game.grid), b.game.grid)
    ensures b.Registered()
  {
    OccupiedStaysOccupied(old(b.game.grid), b.game.grid, b.GetCurrentSpaces());
  }

  /** A registered two-tall box can never move down: the scan reads its own
      lower cell first, finds it taken and stops, even when the cell below
      that lies outside the four rows. */
  lemma TwoTallDownIsRejected(b: Box)
    requires b.variant == TwoTall && b.Registered()
    ensures ScanSafe(b.game.grid, b.Targets(DOWN))
    ensures AnyOccupied(b.game.grid, b.Targets(DOWN))
  {
    var spaces, targets := b.GetCurrentSpaces(), b.Targets(DOWN);
    assert spaces[1] in spaces;
    assert targets[0] == spaces[1];
  }

  /** A box is its own obstacle: when one of its registered cells is also a
      target of the move, the move is rejected. */
  lemma OwnCellBlocks(b: Box, direction: Pos, p: Pos)
    requires b.game.Valid()
    requires ScanSafe(b.game.grid, b.Targets(direction))
    requires p in b.GetCurrentSpaces() && p in b.Targets(direction)
    requires RowOk(p.line) && Occupant(b.game.grid, p) == Some(b)
    ensures AnyOccupied(b.game.grid, b.Targets(direction))
  {
    OccupiedCellBlocks(b.game.grid, b.Targets(direction), p);
  }

  /** The board that `start()` builds (app.js:121-124), without the renderer,
      the drag handlers and the drawing: a `Box` at (1, 1) and a `BoxTwoTall`
      at (2, 1). */
  method Start() returns (game: Game, square: Box, tall: Box)
    ensures fresh(game) && fresh(square) && fresh(tall)
    ensures game.Valid() && square.game == game && tall.game == game
    ensures square.line == 1 && square.column == 1 && square.variant == Square
    ensures tall.line == 2 && tall.column == 1 && tall.variant == TwoTall
    ensures square.Registered() && tall.Registered()
    ensures square.typeName == SQUARE && tall.typeName == TWOTALL
    ensures square != tall
    ensures forall p: Pos :: RowOk(p.line) ==>
      Occupant(game.grid, p) ==
        if p == Pos(1, 1) then Some(square)
        else if p == Pos(2, 1) || p == Pos(3, 1) then Some(tall)
        else None
  {
    game := new Game();
    square := new Box(game, 1, 1, Square);
    tall := new Box(game, 2, 1, TwoTall);
  }
}
