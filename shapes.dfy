/** The two box classes of app.js and what each one's overrides decide:
    the footprint (`getCurrentSpaces`) and the type tag (`initialize`). */
module Shapes {
  import opened Geometry

  /** `Box` (app.js:67-102) or its subclass `BoxTwoTall` (app.js:104-111). */
  datatype Variant = Square | TwoTall

  const SQUARE: string := "SQUARE"
  const TWOTALL: string := "TWOTALL"

  /** `getCurrentSpaces`: the anchor alone for a `Box`, the anchor and the
      cell below it for a `BoxTwoTall`. The anchor comes first and no cell
      is listed twice. */
  function Footprint(v: Variant, anchor: Pos): (r: seq<Pos>)
    ensures |r| == (if v == Square then 1 else 2)
    ensures r[0] == anchor
    ensures forall i, j :: 0 <= i < j < |r| ==> r[i] != r[j]
    ensures v == TwoTall ==> r[1] == AddV(anchor, DOWN)
  {
    match v
    case Square => [anchor]
    case TwoTall => [anchor, Pos(anchor.line + 1, anchor.column)]
  }

  /** `initialize`: `Box` stores `SQUARE`, `BoxTwoTall` stores `TWOTALL`. */
  function TypeTag(v: Variant): (r: string)
    ensures r == SQUARE <==> v == Square
    ensures r == TWOTALL <==> v == TwoTall
  {
    match v
    case Square => SQUARE
    case TwoTall => TWOTALL
  }

  /** The stored type tells the two classes apart. */
  lemma TypeTagIdentifiesVariant(v: Variant, w: Variant)
    ensures TypeTag(v) == TypeTag(w) <==> v == w
  {
    if v != w {
      assert TypeTag(v)[0] != TypeTag(w)[0];
    }
  }

  /** The cells `move` probes: the footprint shifted by `d` is the footprint
      the box would have with its anchor moved by `d`. */
  lemma ShiftedFootprint(v: Variant, anchor: Pos, d: Pos)
    ensures Shift(Footprint(v, anchor), d) == Footprint(v, AddV(anchor, d))
  {
    var s := Shift(Footprint(v, anchor), d);
    var f := Footprint(v, AddV(anchor, d));
    assert |s| == |f|;
    forall i | 0 <= i < |s|
      ensures s[i] == f[i]
    {
    }
  }

  /** A two-tall box shifted down lands its upper cell on its own lower cell. */
  lemma TwoTallDownOverlapsItself(anchor: Pos)
    ensures Shift(Footprint(TwoTall, anchor), DOWN)[0] == Footprint(TwoTall, anchor)[1]
  {
  }
}
