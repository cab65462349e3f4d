/**
  Positions and the six hex directions of the grid.

  The direction type and its neighbour table live in a file that is not part of
  this model (`dir.rs`); what is written here is the only table that reproduces
  both literal rings pinned down by the tests of `map.rs`.  The grid uses offset
  coordinates in which the rows alternate: the neighbours of a cell depend on
  whether its row `y` is even or odd.
 */
module HexDir {

  /** A cell of the grid, `MapPos{v: Vector2{x, y}}` in the source. */
  datatype MapPos = MapPos(x: int, y: int)

  datatype Dir = SouthEast | East | NorthEast | NorthWest | West | SouthWest

  /** The order in which the direction iterator hands out directions; south-east first. */
  const Dirs: seq<Dir> := [SouthEast, East, NorthEast, NorthWest, West, SouthWest]

  /** The cell next to `p` in direction `d`. */
  function Neighbour(p: MapPos, d: Dir): MapPos {
    if p.y % 2 == 0 then
      match d
      case SouthEast => MapPos(p.x + 1, p.y - 1)
      case East => MapPos(p.x + 1, p.y)
      case NorthEast => MapPos(p.x + 1, p.y + 1)
      case NorthWest => MapPos(p.x, p.y + 1)
      case West => MapPos(p.x - 1, p.y)
      case SouthWest => MapPos(p.x, p.y - 1)
    else
      match d
      case SouthEast => MapPos(p.x, p.y - 1)
      case East => MapPos(p.x + 1, p.y)
      case NorthEast => MapPos(p.x, p.y + 1)
      case NorthWest => MapPos(p.x - 1, p.y + 1)
      case West => MapPos(p.x - 1, p.y)
      case SouthWest => MapPos(p.x - 1, p.y - 1)
  }

  /**
    Axial coordinates: `q = x + floor(y / 2)` (Dafny's `/` by a positive divisor
    is floor division).  In them every direction is a constant offset, which is
    what makes a walk around a ring close.
   */
  datatype Axial = Axial(q: int, r: int)

  function ToAxial(p: MapPos): Axial {
    Axial(p.x + p.y / 2, p.y)
  }

  /** `a` moved `m` steps in direction `d`, in axial coordinates. */
  function Shift(a: Axial, d: Dir, m: int): Axial {
    match d
    case SouthEast => Axial(a.q, a.r - m)
    case East => Axial(a.q + m, a.r)
    case NorthEast => Axial(a.q + m, a.r + m)
    case NorthWest => Axial(a.q, a.r + m)
    case West => Axial(a.q - m, a.r)
    case SouthWest => Axial(a.q - m, a.r - m)
  }

  lemma NeighbourShift(p: MapPos, d: Dir)
    ensures ToAxial(Neighbour(p, d)) == Shift(ToAxial(p), d, 1)
  {
    var h := p.y / 2;
    assert p.y == 2 * h + p.y % 2;
    if p.y % 2 == 0 {
      assert (p.y - 1) / 2 == h - 1 && (p.y + 1) / 2 == h;
    } else {
      assert (p.y - 1) / 2 == h && (p.y + 1) / 2 == h + 1;
    }
  }

  lemma ToAxialInjective(p: MapPos, p': MapPos)
    requires ToAxial(p) == ToAxial(p')
    ensures p == p'
  {
  }

  function Abs(a: int): int {
    if a < 0 then -a else a
  }

  /** The hex distance between two cells given in axial coordinates. */
  function HexDistance(a: Axial, b: Axial): int {
    var dq := b.q - a.q;
    var dr := b.r - a.r;
    (Abs(dq) + Abs(dr) + Abs(dq - dr)) / 2
  }
}
