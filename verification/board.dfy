/** The board of Colour Cascade: cells, colours, positions and the
    neighbourhood helpers that every other part of the engine uses. */
module Board {

  datatype Option<T> = None | Some(value: T)

  /** Side of the square board. */
  const GridSize: int := 14
  /** Number of paint colours the player can choose from. */
  const PaletteSize: int := 5
  /** Moves available at the start of every level. */
  const MaxMoves: int := 25
  /** Probability that a new board receives a star cell. */
  const StarChance: real := 0.2

  type PaletteIndex = i: nat | i < PaletteSize

  datatype Kind = Normal | Star | Obstacle

  /** A paint colour is an index into the palette; obstacles are gray. */
  datatype Color = Paint(index: PaletteIndex) | Gray

  datatype Cell = Cell(kind: Kind, color: Color)

  const ObstacleCell := Cell(Obstacle, Gray)

  /** A position is a column `x` and a row `y`; it may lie off the board. */
  datatype Pos = Pos(x: int, y: int)

  const Origin := Pos(0, 0)

  /** Rows of cells: `g[y][x]` is the cell in row `y`, column `x`. */
  type Grid = seq<seq<Cell>>

  predicate WellFormed(g: Grid) {
    |g| == GridSize && forall y :: 0 <= y < |g| ==> |g[y]| == GridSize
  }

  predicate InBounds(p: Pos) {
    0 <= p.x < GridSize && 0 <= p.y < GridSize
  }

  function At(g: Grid, p: Pos): Cell
    requires WellFormed(g) && InBounds(p)
  {
    g[p.y][p.x]
  }

  /** The board with the cell at `p` replaced by `c`. */
  function WithCell(g: Grid, p: Pos, c: Cell): (r: Grid)
    requires WellFormed(g) && InBounds(p)
    ensures WellFormed(r)
    ensures forall q :: InBounds(q) ==> At(r, q) == if q == p then c else At(g, q)
  {
    g[p.y := g[p.y][p.x := c]]
  }

  /** Two boards of the right shape that agree on every cell are equal. */
  lemma GridExt(a: Grid, b: Grid)
    requires WellFormed(a) && WellFormed(b)
    requires forall x, y :: 0 <= x < GridSize && 0 <= y < GridSize ==> a[y][x] == b[y][x]
    ensures a == b
  {
    forall y | 0 <= y < GridSize ensures a[y] == b[y] {
      assert forall x :: 0 <= x < GridSize ==> a[y][x] == b[y][x];
    }
  }

  /** Every position on the board. */
  function Cells(): set<Pos> {
    set x, y | 0 <= x < GridSize && 0 <= y < GridSize :: Pos(x, y)
  }

  lemma CellsAreInBounds(p: Pos)
    ensures p in Cells() <==> InBounds(p)
  {
    if InBounds(p) {
      assert p == Pos(p.x, p.y);
    }
  }

  /** `b` is one of the four orthogonal neighbours of `a`. */
  predicate Step(a: Pos, b: Pos) {
    b == Pos(a.x + 1, a.y) || b == Pos(a.x - 1, a.y) || b == Pos(a.x, a.y + 1) || b == Pos(a.x, a.y - 1)
  }

  function Abs(n: int): nat {
    if n < 0 then -n else n
  }

  /** Both coordinate differences are at most `range`: Chebyshev distance. */
  predicate IsWithinRange(x1: int, y1: int, x2: int, y2: int, range: int) {
    Abs(x1 - x2) <= range && Abs(y1 - y2) <= range
  }

  /** The cells within `range` of `(x2, y2)` form the square of side
      `2 * range + 1` centred on it. */
  lemma WithinRangeIff(x1: int, y1: int, x2: int, y2: int, range: int)
    ensures IsWithinRange(x1, y1, x2, y2, range) <==>
      x2 - range <= x1 <= x2 + range && y2 - range <= y1 <= y2 + range
  {
  }

  function KeepInBounds(ps: seq<Pos>): (r: seq<Pos>)
    ensures forall q :: q in r <==> q in ps && InBounds(q)
    ensures |r| <= |ps|
  {
    if ps == [] then []
    else if InBounds(ps[0]) then [ps[0]] + KeepInBounds(ps[1..])
    else KeepInBounds(ps[1..])
  }

  /** The on-board neighbours of `p`, in the order left, right, up, down. */
  function Adjacent(p: Pos): (r: seq<Pos>)
    ensures forall q :: q in r <==> InBounds(q) && Step(p, q)
    ensures |r| <= 4
  {
    KeepInBounds([Pos(p.x - 1, p.y), Pos(p.x + 1, p.y), Pos(p.x, p.y - 1), Pos(p.x, p.y + 1)])
  }

  /** Removing one more member from a finite set shrinks what remains. */
  lemma ShrinkRemaining(r: set<Pos>, done: set<Pos>, p: Pos)
    requires p in r && p !in done
    ensures |r - (done + {p})| < |r - done|
  {
    assert r - (done + {p}) == (r - done) - {p};
  }
}
