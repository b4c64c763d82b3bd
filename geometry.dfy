/** Coordinates of the puzzle board and the four unit moves (app.js:58-65). */
module Geometry {

  /** A cell (line, column) or a displacement: the two-element arrays of app.js. */
  datatype Pos = Pos(line: int, column: int)

  const UP := Pos(-1, 0)
  const DOWN := Pos(1, 0)
  const LEFT := Pos(0, -1)
  const RIGHT := Pos(0, 1)

  /** `addV`: componentwise sum. The result lies at displacement `b` from
      `a`; adding one of the four direction constants gives a neighbouring
      cell. */
  function AddV(a: Pos, b: Pos): (r: Pos)
    ensures r.line - a.line == b.line && r.column - a.column == b.column
    ensures b in {UP, DOWN, LEFT, RIGHT} ==>
      (r.line == a.line && (r.column == a.column - 1 || r.column == a.column + 1)) ||
      (r.column == a.column && (r.line == a.line - 1 || r.line == a.line + 1))
  {
    Pos(a.line + b.line, a.column + b.column)
  }

  /** Adding a direction constant moves the anchor one cell in that direction,
      and opposite constants cancel. */
  lemma DirectionSteps(p: Pos)
    ensures AddV(p, UP) == Pos(p.line - 1, p.column)
    ensures AddV(p, DOWN) == Pos(p.line + 1, p.column)
    ensures AddV(p, LEFT) == Pos(p.line, p.column - 1)
    ensures AddV(p, RIGHT) == Pos(p.line, p.column + 1)
    ensures AddV(UP, DOWN) == Pos(0, 0) && AddV(LEFT, RIGHT) == Pos(0, 0)
  {
  }

  /** `cells.map(s => addV(s, direction))`: every cell of the list moved by `d`. */
  function Shift(cells: seq<Pos>, d: Pos): (r: seq<Pos>)
    ensures |r| == |cells|
    ensures forall i :: 0 <= i < |cells| ==> r[i] == AddV(cells[i], d)
  {
    if cells == [] then [] else [AddV(cells[0], d)] + Shift(cells[1..], d)
  }
}
