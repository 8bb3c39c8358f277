/** Level completion: every cell is an obstacle, a star, or has the origin's
    colour. */
module Completion {
  import opened Board
  import opened Paths
  import opened Fill

  predicate IsLevelComplete(g: Grid)
    requires WellFormed(g)
  {
    forall y, x :: 0 <= y < GridSize && 0 <= x < GridSize ==>
      g[y][x].kind == Obstacle || g[y][x].kind == Star || g[y][x].color == g[0][0].color
  }

  /** With a normal origin, the level is complete exactly when all normal
      cells share one colour; stars and obstacles never block completion. */
  lemma CompleteIffNormalCellsAgree(g: Grid)
    requires WellFormed(g) && At(g, Origin).kind == Normal
    ensures IsLevelComplete(g) <==>
      forall a, b :: InBounds(a) && InBounds(b) && At(g, a).kind == Normal && At(g, b).kind == Normal ==>
        At(g, a).color == At(g, b).color
  {
    if forall a, b :: InBounds(a) && InBounds(b) && At(g, a).kind == Normal && At(g, b).kind == Normal ==>
         At(g, a).color == At(g, b).color
    {
      forall y, x | 0 <= y < GridSize && 0 <= x < GridSize && g[y][x].kind == Normal
        ensures g[y][x].color == g[0][0].color
      {
        assert At(g, Pos(x, y)).color == At(g, Origin).color;
      }
    }
    if IsLevelComplete(g) {
      forall a, b | InBounds(a) && InBounds(b) && At(g, a).kind == Normal && At(g, b).kind == Normal
        ensures At(g, a).color == At(g, b).color
      {
        assert g[a.y][a.x].color == g[0][0].color;
        assert g[b.y][b.x].color == g[0][0].color;
      }
    }
  }

  /** A fill with a new colour `c` completes the level exactly when every
      normal cell outside the filled region already has colour `c`. */
  lemma CompleteAfterFill(g: Grid, c: Color)
    requires WellFormed(g) && At(g, Origin).kind != Obstacle
    ensures IsLevelComplete(Filled(g, c)) <==>
      forall p :: InBounds(p) && At(g, p).kind == Normal && p !in Region(g) ==> At(g, p).color == c
  {
    var h: Grid := Filled(g, c);
    RegionClosed(g);
    FilledAt(g, c, Origin);
    assert h[0][0].color == c;
    if IsLevelComplete(h) {
      forall p | InBounds(p) && At(g, p).kind == Normal && p !in Region(g) ensures At(g, p).color == c {
        FilledAt(g, c, p);
        assert h[p.y][p.x].color == c;
      }
    }
    if forall p :: InBounds(p) && At(g, p).kind == Normal && p !in Region(g) ==> At(g, p).color == c {
      forall y, x | 0 <= y < GridSize && 0 <= x < GridSize
        ensures h[y][x].kind == Obstacle || h[y][x].kind == Star || h[y][x].color == c
      {
        FilledAt(g, c, Pos(x, y));
      }
    }
  }
}
