/** Directions and grid positions as the entities use them.
    The Direction and EntityLocation classes themselves are not part of this model;
    only the integer encoding (N=0, E=1, S=2, W=3), clockwise rotation and the
    one-cell step are needed. North decreases y: a player with a smaller y is
    "north" of a monster. */
module Movement {

  datatype Option<T> = None | Some(value: T)

  datatype Dir = North | East | South | West {

    /** The integer encoding used for bit positions and desire indices. */
    function Value(): (v: nat)
      ensures v < 4
    {
      match this
      case North => 0
      case East => 1
      case South => 2
      case West => 3
    }

    /** A quarter turn to the right. */
    function RotateClockwise(): (d: Dir)
      ensures d.Value() == (Value() + 1) % 4
    {
      match this
      case North => East
      case East => South
      case South => West
      case West => North
    }

    function Dx(): int
    {
      match this
      case East => 1
      case West => -1
      case _ => 0
    }

    function Dy(): int
    {
      match this
      case North => -1
      case South => 1
      case _ => 0
    }
  }

  /** Direction.get_constant: the direction with the given encoding. */
  function DirOf(v: nat): (d: Dir)
    requires v < 4
    ensures d.Value() == v
  {
    if v == 0 then North else if v == 1 then East else if v == 2 then South else West
  }

  datatype Pos = Pos(x: int, y: int)

  /** The cell one step away in direction d. */
  function Step(p: Pos, d: Dir): (q: Pos)
    ensures q != p
    ensures (q.x - p.x) * (q.x - p.x) + (q.y - p.y) * (q.y - p.y) == 1
  {
    Pos(p.x + d.Dx(), p.y + d.Dy())
  }

  /** The cell k steps away in direction d. */
  function Offset(p: Pos, d: Dir, k: nat): Pos
  {
    Pos(p.x + k * d.Dx(), p.y + k * d.Dy())
  }
}
