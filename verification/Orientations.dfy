/** The orientations of TIFF 6.0 section 8 (tag 274): how a reader turns the stored picture
    before it shows it. */
module Orientations {

  datatype Side = Top | Right | Bottom | Left

  /** Where the reader puts the first row of the stored picture. */
  function FirstRow(o: nat): Side
    requires 1 <= o <= 8
  {
    match o
    case 1 => Top
    case 2 => Top
    case 3 => Bottom
    case 4 => Bottom
    case 5 => Left
    case 6 => Right
    case 7 => Right
    case _ => Left
  }

  /** Where the reader puts the first column of the stored picture. */
  function FirstColumn(o: nat): Side
    requires 1 <= o <= 8
  {
    match o
    case 1 => Left
    case 2 => Right
    case 3 => Right
    case 4 => Left
    case 5 => Top
    case 6 => Top
    case 7 => Bottom
    case _ => Bottom
  }

  /** Column `x` and row `y` of a picture of a width and a height, from the top left. */
  datatype Place = Place(width: int, height: int, x: int, y: int)

  /** Where a place of the stored picture is shown: a row lies as far from the side of the
      first row as it is away from it, a column likewise. */
  function Shown(o: nat, p: Place): Place
    requires 1 <= o <= 8
  {
    match FirstRow(o)
    case Top => Place(p.width, p.height, Across(p.x, p.width, FirstColumn(o)), p.y)
    case Bottom => Place(p.width, p.height, Across(p.x, p.width, FirstColumn(o)), p.height - 1 - p.y)
    case Left => Place(p.height, p.width, p.y, Across(p.x, p.width, FirstColumn(o)))
    case Right => Place(p.height, p.width, p.height - 1 - p.y, Across(p.x, p.width, FirstColumn(o)))
  }

  /** The distance from the top left of what lies `k` from `side`, out of `n`. */
  function Across(k: int, n: int, side: Side): int {
    if side == Left || side == Top then k else n - 1 - k
  }

  /** The picture turned to the left by a quarter. */
  function TurnedLeft(p: Place): Place {
    Place(p.height, p.width, p.y, p.width - 1 - p.x)
  }

  function Turned(p: Place, quarters: nat): Place {
    if quarters == 0 then p else TurnedLeft(Turned(p, quarters - 1))
  }

  /** Left and right exchanged. */
  function Mirrored(p: Place): Place {
    p.(x := p.width - 1 - p.x)
  }

  /** What a camera's settings ask for: quarter turns to the left, then the mirror. */
  function Wanted(p: Place, quarters: nat, mirror: bool): Place {
    if mirror then Mirrored(Turned(p, quarters)) else Turned(p, quarters)
  }

  /** A reader that obeys orientation `o` shows the picture as the settings ask. */
  ghost predicate Obeys(o: nat, quarters: nat, mirror: bool) {
    1 <= o <= 8 && forall p: Place :: Shown(o, p) == Wanted(p, quarters, mirror)
  }

  /** Four quarters are a full turn, and two mirrors undo each other. */
  lemma {:induction false} TurnsAndMirrors(p: Place)
    ensures Turned(p, 4) == p && Mirrored(Mirrored(p)) == p
    ensures Mirrored(TurnedLeft(Mirrored(TurnedLeft(p)))) == p
  {
    assert Turned(p, 1) == TurnedLeft(p);
    assert Turned(p, 2) == TurnedLeft(Turned(p, 1));
    assert Turned(p, 3) == TurnedLeft(Turned(p, 2));
  }
}
