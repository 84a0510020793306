/**
 * The parts of the grid-cell module that the layout core consumes. Only the
 * meaning of each helper is modelled; how cells store words is not.
 */
module PuzModelCell {

  /** A grid coordinate `[row, col]`. Integers: a proposal can run off the grid on either side. */
  datatype Coords = Coords(row: int, col: int)

  /** Index into a coordinate pair: 0 is the row component, 1 the column component. */
  type Direction = d: nat | d < 2

  /** Component `d` of a coordinate pair: the row for 0, the column for 1. */
  function Component(c: Coords, d: Direction): int
  {
    if d == 0 then c.row else c.col
  }

  /** getCoordsGeneric: the pair whose component `sd` is `sp` and whose component `dd` is `v`. */
  function GetCoordsGeneric(sd: Direction, sp: int, dd: Direction, v: int): (c: Coords)
    requires sd != dd
    ensures Component(c, sd) == sp && Component(c, dd) == v
  {
    if sd == 0 then Coords(sp, v) else Coords(v, sp)
  }

  /** One coordinate lies on an `h` by `w` grid. */
  predicate OnModel(h: int, w: int, c: Coords)
  {
    0 <= c.row < h && 0 <= c.col < w
  }

  /** areWordCoordsOnModel: every coordinate lies on an `h` by `w` grid. */
  predicate AreWordCoordsOnModel(h: int, w: int, cs: seq<Coords>)
  {
    forall q | 0 <= q < |cs| :: OnModel(h, w, cs[q])
  }

  /**
   * A grid cell:
   * its position, its letter (`"*"` while empty) and the words crossing it.
   */
  datatype PuzModelCell = PuzModelCell(coords: Coords, content: string, acrossWord: string, downWord: string)

  /** The grid: a sequence of rows. */
  type PuzModel = seq<seq<PuzModelCell>>
}
