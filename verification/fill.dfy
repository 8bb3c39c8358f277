/** The flood fill: recolour the region joined to the origin through cells of
    the origin's colour, walking an explicit stack. */
module Fill {
  import opened Board
  import opened Paths

  /** The board after filling with `c`: every region cell takes colour `c`
      and keeps its kind; every other cell is untouched. */
  ghost function Filled(g: Grid, c: Color): (r: Grid)
    requires WellFormed(g)
    ensures WellFormed(r)
  {
    seq(GridSize, y requires 0 <= y < GridSize =>
      seq(GridSize, x requires 0 <= x < GridSize =>
        if Pos(x, y) in Region(g) then g[y][x].(color := c) else g[y][x]))
  }

  lemma FilledAt(g: Grid, c: Color, p: Pos)
    requires WellFormed(g) && InBounds(p)
    ensures At(Filled(g, c), p) == if p in Region(g) then At(g, p).(color := c) else At(g, p)
  {
  }

  /** The cells whose colour differs between two boards. */
  ghost function Recoloured(g: Grid, h: Grid): set<Pos>
    requires WellFormed(g) && WellFormed(h)
  {
    set p | p in Cells() && At(g, p).color != At(h, p).color
  }

  /** `h` is `g` with exactly the cells of `done` recoloured to `c`. */
  ghost predicate Painted(g: Grid, c: Color, h: Grid, done: set<Pos>)
    requires WellFormed(g)
  {
    WellFormed(h) &&
    forall p :: InBounds(p) ==> At(h, p) == if p in done then At(g, p).(color := c) else At(g, p)
  }

  /** The bookkeeping of the fill's stack walk over the cells open for `c`:
      every open neighbour of a done cell is done or still on the stack, the
      origin is done or still on the stack, and open stack entries lie in the
      region. */
  ghost predicate Frontier(g: Grid, done: set<Pos>, stack: seq<Pos>)
    requires WellFormed(g)
  {
    var c := OriginColor(g);
    done <= Region(g) &&
    (Open(g, c, Origin) ==> Origin in done || Origin in stack) &&
    (forall a, b :: a in done && Step(a, b) && Open(g, c, b) ==> b in done || b in stack) &&
    (forall q :: q in stack && Open(g, c, q) ==> q in Region(g))
  }

  lemma FillStart(g: Grid, c: Color)
    requires WellFormed(g)
    ensures Painted(g, c, g, {}) && Frontier(g, {}, [Origin])
  {
  }

  lemma PaintOne(g: Grid, c: Color, h: Grid, done: set<Pos>, p: Pos)
    requires WellFormed(g) && Painted(g, c, h, done) && InBounds(p)
    ensures Painted(g, c, WithCell(h, p, At(h, p).(color := c)), done + {p})
  {
  }

  /** On a partly painted board, the fill's test on a popped cell (on the
      board, not an obstacle, still the start colour) holds exactly for the
      open cells that are not yet done. */
  lemma PaintedTest(g: Grid, c: Color, h: Grid, done: set<Pos>, p: Pos)
    requires WellFormed(g) && Painted(g, c, h, done) && done <= Region(g)
    requires c != OriginColor(g)
    ensures Open(h, OriginColor(g), p) <==> p !in done && Open(g, OriginColor(g), p)
  {
    if p in done {
      RegionIsOpen(g, p);
    }
  }

  /** A board painted on exactly the region is the filled board. */
  lemma PaintedRegionIsFilled(g: Grid, c: Color, h: Grid)
    requires WellFormed(g) && Painted(g, c, h, Region(g))
    ensures h == Filled(g, c)
  {
    forall x, y | 0 <= x < GridSize && 0 <= y < GridSize ensures h[y][x] == Filled(g, c)[y][x] {
      assert At(h, Pos(x, y)) == h[y][x];
    }
    GridExt(h, Filled(g, c));
  }

  /** Popping a cell that is done or closed keeps the bookkeeping. */
  lemma SkipStep(g: Grid, done: set<Pos>, full: seq<Pos>)
    requires WellFormed(g) && Frontier(g, done, full) && |full| > 0
    requires full[|full| - 1] in done || !Open(g, OriginColor(g), full[|full| - 1])
    ensures Frontier(g, done, full[..|full| - 1])
  {
    var c := OriginColor(g);
    var stack, p := full[..|full| - 1], full[|full| - 1];
    assert full == stack + [p];
    forall q | q in stack ensures q in stack + [p] {
    }
    forall a, b | a in done && Step(a, b) && Open(g, c, b) ensures b in done || b in stack {
      assert b in done || b in stack + [p];
    }
  }

  /** Popping an open cell that is not yet done, marking it done and pushing
      its four neighbours keeps the bookkeeping. */
  lemma PaintStep(g: Grid, done: set<Pos>, full: seq<Pos>, p: Pos)
    requires WellFormed(g) && Frontier(g, done, full) && |full| > 0 && p == full[|full| - 1]
    requires p !in done && Open(g, OriginColor(g), p)
    ensures p in Region(g)
    ensures Frontier(g, done + {p}, full[..|full| - 1] + [Pos(p.x + 1, p.y), Pos(p.x - 1, p.y), Pos(p.x, p.y + 1), Pos(p.x, p.y - 1)])
  {
    var c := OriginColor(g);
    var stack := full[..|full| - 1];
    assert full == stack + [p];
    var pushed := [Pos(p.x + 1, p.y), Pos(p.x - 1, p.y), Pos(p.x, p.y + 1), Pos(p.x, p.y - 1)];
    var stack' := stack + pushed;
    assert p in stack + [p];
    forall n | n in pushed && Open(g, c, n) ensures n in Region(g) {
      ExtendJoin(g, c, Origin, p, n);
      CellsAreInBounds(n);
    }
    forall q | q in stack' && Open(g, c, q) ensures q in Region(g) {
      if q in stack {
        assert q in stack + [p];
      }
    }
    forall a, b | a in done + {p} && Step(a, b) && Open(g, c, b) ensures b in done + {p} || b in stack' {
      if a == p {
        assert b in pushed;
      } else {
        assert b in done || b in stack + [p];
      }
    }
  }

  /** Runs the fill over a copy of `grid`; `changedCells` counts the cells it
      recolours. Pops from the end of the stack and pushes right, left, down,
      up, as the game does. */
  method FloodFillGrid(grid: Grid, newColor: Color) returns (newGrid: Grid, changedCells: nat)
    requires WellFormed(grid)
    requires newColor != OriginColor(grid)
    ensures newGrid == Filled(grid, newColor)
    ensures changedCells == |Region(grid)|
  {
    var startColor := grid[0][0].color;
    newGrid := grid;
    var stack := [Origin];
    changedCells := 0;
    ghost var done: set<Pos> := {};
    FillStart(grid, newColor);
    while |stack| > 0
      invariant Painted(grid, newColor, newGrid, done)
      invariant Frontier(grid, done, stack)
      invariant changedCells == |done|
      decreases |Region(grid) - done|, |stack|
    {
      var p := stack[|stack| - 1];
      PaintedTest(grid, newColor, newGrid, done, p);
      if !Open(newGrid, startColor, p) {
        SkipStep(grid, done, stack);
        stack := stack[..|stack| - 1];
        continue;
      }
      PaintStep(grid, done, stack, p);
      stack := stack[..|stack| - 1];
      PaintOne(grid, newColor, newGrid, done, p);
      ShrinkRemaining(Region(grid), done, p);
      newGrid := WithCell(newGrid, p, newGrid[p.y][p.x].(color := newColor));
      changedCells := changedCells + 1;
      done := done + {p};
      stack := stack + [Pos(p.x + 1, p.y), Pos(p.x - 1, p.y), Pos(p.x, p.y + 1), Pos(p.x, p.y - 1)];
    }
    RegionLeast(grid, done);
    PaintedRegionIsFilled(grid, newColor, newGrid);
  }

  /** Filling never changes a cell's kind, and never touches an obstacle. */
  lemma FilledKeepsKinds(g: Grid, c: Color, p: Pos)
    requires WellFormed(g) && InBounds(p)
    ensures At(Filled(g, c), p).kind == At(g, p).kind
    ensures At(g, p).kind == Obstacle ==> At(Filled(g, c), p) == At(g, p)
  {
    if p in Region(g) {
      RegionIsOpen(g, p);
    }
  }

  /** With a new colour, the recoloured cells are exactly the region, so the
      fill's count is the number of cells whose colour changed. */
  lemma RecolouredIsRegion(g: Grid, c: Color)
    requires WellFormed(g) && c != OriginColor(g)
    ensures Recoloured(g, Filled(g, c)) == Region(g)
    ensures |Recoloured(g, Filled(g, c))| == |Region(g)|
  {
    forall p | p in Region(g) ensures p in Recoloured(g, Filled(g, c)) {
      RegionIsOpen(g, p);
    }
    forall p | p in Recoloured(g, Filled(g, c)) ensures p in Region(g) {
      CellsAreInBounds(p);
    }
  }

  /** Filling with the origin's own colour changes nothing. */
  lemma FillSameColourIsIdentity(g: Grid)
    requires WellFormed(g)
    ensures Filled(g, OriginColor(g)) == g
  {
    forall x, y | 0 <= x < GridSize && 0 <= y < GridSize ensures Filled(g, OriginColor(g))[y][x] == g[y][x] {
      if Pos(x, y) in Region(g) {
        RegionIsOpen(g, Pos(x, y));
      }
    }
    GridExt(Filled(g, OriginColor(g)), g);
  }

  /** The filled area never shrinks: after a fill with `c`, everything that was
      in the region is still joined to the origin, now through colour `c`. */
  lemma RegionGrows(g: Grid, c: Color)
    requires WellFormed(g)
    ensures Region(g) <= Region(Filled(g, c))
  {
    var h := Filled(g, c);
    var c0 := OriginColor(g);
    RegionClosed(g);
    if Origin in Region(g) {
      assert OriginColor(h) == c;
      forall p | p in Region(g) ensures p in Region(h) {
        RegionIsOpen(g, p);
        var w :| IsWalk(g, c0, w) && w[0] == Origin && w[|w| - 1] == p;
        WalkStaysInRegion(g, w);
        forall i | 0 < i < |w| ensures Open(h, c, w[i]) {
          CellsAreInBounds(w[i]);
        }
        assert IsWalk(h, c, w);
        assert Open(h, c, Origin);
        CellsAreInBounds(p);
      }
    }
  }

  /** Every cell of a walk from the origin lies in the region. */
  lemma WalkStaysInRegion(g: Grid, w: seq<Pos>)
    requires WellFormed(g)
    requires IsWalk(g, OriginColor(g), w) && w[0] == Origin && Origin in Region(g)
    ensures forall i :: 0 <= i < |w| ==> w[i] in Region(g)
  {
    RegionClosed(g);
    forall i | 0 <= i < |w| ensures w[i] in Region(g) {
      var u := w[..i + 1];
      assert IsWalk(g, OriginColor(g), u);
      ClosedContainsWalk(g, OriginColor(g), Region(g), u);
    }
  }
}
