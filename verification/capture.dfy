/** The star-capture rule, checked on the board after every fill: the star is
    captured once each on-board neighbour is an obstacle, or has the origin's
    colour and is joined back to the origin. */
module Capture {
  import opened Board
  import opened Paths
  import opened Connectivity

  /** Index of the first star in a row, or -1 when the row has none. */
  function FindStarIndex(row: seq<Cell>): (r: int)
    ensures -1 <= r < |row|
    ensures r >= 0 ==> row[r].kind == Star && forall i :: 0 <= i < r ==> row[i].kind != Star
    ensures r == -1 ==> forall i :: 0 <= i < |row| ==> row[i].kind != Star
  {
    if |row| == 0 then -1
    else if row[0].kind == Star then 0
    else
      var k := FindStarIndex(row[1..]);
      if k == -1 then -1 else k + 1
  }

  ghost predicate NoStarInRows(g: Grid, lo: int, hi: int)
    requires WellFormed(g)
  {
    forall q :: InBounds(q) && lo <= q.y < hi ==> At(g, q).kind != Star
  }

  /** `p` holds a star and no star stands before it in its row. */
  ghost predicate FirstStarOfRow(g: Grid, p: Pos)
    requires WellFormed(g)
  {
    InBounds(p) && At(g, p).kind == Star && forall x :: 0 <= x < p.x ==> g[p.y][x].kind != Star
  }

  /** The fold over the rows that locates the star: a row with a star
      replaces what earlier rows found. */
  function ScanRows(g: Grid, y: int, acc: Option<Pos>): (r: Option<Pos>)
    requires WellFormed(g) && 0 <= y <= GridSize
    requires acc.None? ==> NoStarInRows(g, 0, y)
    requires acc.Some? ==> acc.value.y < y && FirstStarOfRow(g, acc.value) && NoStarInRows(g, acc.value.y + 1, y)
    ensures r.None? ==> NoStarInRows(g, 0, GridSize)
    ensures r.Some? ==> FirstStarOfRow(g, r.value) && NoStarInRows(g, r.value.y + 1, GridSize)
    decreases GridSize - y
  {
    if y == GridSize then acc
    else
      var x := FindStarIndex(g[y]);
      ScanRows(g, y + 1, if x != -1 then Some(Pos(x, y)) else acc)
  }

  /** The star the capture check inspects: the first star of the last row
      that holds one; `None` exactly when the board has no star. */
  function LocateStar(g: Grid): (r: Option<Pos>)
    requires WellFormed(g)
    ensures r.None? <==> forall p :: InBounds(p) ==> At(g, p).kind != Star
    ensures r.Some? ==> FirstStarOfRow(g, r.value) && NoStarInRows(g, r.value.y + 1, GridSize)
  {
    ScanRows(g, 0, None)
  }

  /** A neighbour of the star that does not stop the capture. */
  ghost predicate Shielded(g: Grid, n: Pos)
    requires WellFormed(g) && InBounds(n)
  {
    At(g, n).kind == Obstacle ||
    (At(g, n).color == OriginColor(g) && Joins(g, OriginColor(g), n, Origin))
  }

  ghost predicate Captured(g: Grid, star: Pos)
    requires WellFormed(g)
  {
    forall n :: n in Adjacent(star) ==> Shielded(g, n)
  }

  /** Every cell of `cells` is shielded. */
  ghost predicate AllShielded(g: Grid, cells: seq<Pos>)
    requires WellFormed(g) && forall n :: n in cells ==> InBounds(n)
  {
    |cells| == 0 || (AllShielded(g, cells[..|cells| - 1]) && Shielded(g, cells[|cells| - 1]))
  }

  lemma {:induction false} AllShieldedMeans(g: Grid, cells: seq<Pos>)
    requires WellFormed(g) && forall n :: n in cells ==> InBounds(n)
    ensures AllShielded(g, cells) <==> forall n :: n in cells ==> Shielded(g, n)
  {
    if |cells| > 0 {
      var init := cells[..|cells| - 1];
      assert cells == init + [cells[|cells| - 1]];
      AllShieldedMeans(g, init);
    }
  }

  /** The board after the capture check, and whether a star was captured: a
      captured star becomes a normal cell of the same colour. */
  ghost function AfterCapture(g: Grid): (Grid, bool)
    requires WellFormed(g)
  {
    match LocateStar(g)
    case None => (g, false)
    case Some(s) =>
      if Captured(g, s) then (WithCell(g, s, At(g, s).(kind := Normal)), true) else (g, false)
  }

  /** The test `every` applies to one neighbour of the star. */
  method IsShielded(grid: Grid, n: Pos) returns (shielded: bool)
    requires WellFormed(grid) && InBounds(n)
    ensures shielded <==> Shielded(grid, n)
  {
    shielded := grid[n.y][n.x].kind == Obstacle;
    if !shielded && grid[n.y][n.x].color == grid[0][0].color {
      shielded := IsConnectedToStart(grid, n);
    }
  }

  /** Tests the cells in order and stops at the first that is not shielded. */
  method EveryShielded(grid: Grid, cells: seq<Pos>) returns (all: bool)
    requires WellFormed(grid) && forall n :: n in cells ==> InBounds(n)
    ensures all <==> forall n :: n in cells ==> Shielded(grid, n)
  {
    all := true;
    var i := 0;
    while i < |cells| && all
      invariant 0 <= i <= |cells|
      invariant all <==> AllShielded(grid, cells[..i])
    {
      assert cells[i] in cells;
      assert cells[..i + 1][..i] == cells[..i];
      all := IsShielded(grid, cells[i]);
      i := i + 1;
    }
    if all {
      assert cells[..i] == cells;
      AllShieldedMeans(grid, cells);
    } else {
      AllShieldedMeans(grid, cells[..i]);
      ghost var n :| n in cells[..i] && !Shielded(grid, n);
    }
  }

  /** Runs the capture check on `grid`. */
  method CheckStarCapture(grid: Grid) returns (result: Grid, captured: bool)
    requires WellFormed(grid)
    ensures (result, captured) == AfterCapture(grid)
  {
    result, captured := grid, false;
    var star := LocateStar(grid);
    if star.None? {
      return;
    }
    var s := star.value;
    var adjacentCells := Adjacent(s);
    captured := EveryShielded(grid, adjacentCells);
    if captured {
      result := WithCell(grid, s, grid[s.y][s.x].(kind := Normal));
    }
  }

  /** With the origin not an obstacle, the star is captured exactly when each
      on-board neighbour is an obstacle or lies in the origin's region. */
  lemma CapturedIffRegion(g: Grid, star: Pos)
    requires WellFormed(g) && At(g, Origin).kind != Obstacle
    ensures Captured(g, star) <==> forall n :: n in Adjacent(star) ==> At(g, n).kind == Obstacle || n in Region(g)
  {
    var c := OriginColor(g);
    forall n | n in Adjacent(star) && At(g, n).kind != Obstacle
      ensures Shielded(g, n) <==> n in Region(g)
    {
      if n in Region(g) {
        RegionIsOpen(g, n);
        JoinsSymmetric(g, c, Origin, n);
      }
      if Shielded(g, n) {
        JoinsSymmetric(g, c, n, Origin);
        CellsAreInBounds(n);
      }
    }
  }

  /** The capture check changes nothing but the captured star's kind. */
  lemma CaptureChangesOnlyTheStar(g: Grid, p: Pos)
    requires WellFormed(g) && InBounds(p)
    ensures WellFormed(AfterCapture(g).0)
    ensures At(AfterCapture(g).0, p).color == At(g, p).color
    ensures At(AfterCapture(g).0, p).kind == At(g, p).kind ||
            (AfterCapture(g).1 && LocateStar(g) == Some(p) && At(g, p).kind == Star && At(AfterCapture(g).0, p).kind == Normal)
  {
  }

  /** A board without a star is left as it is. */
  lemma NoStarNoCapture(g: Grid)
    requires WellFormed(g)
    requires forall p :: InBounds(p) ==> At(g, p).kind != Star
    ensures AfterCapture(g) == (g, false)
  {
  }

  ghost predicate AtMostOneStar(g: Grid)
    requires WellFormed(g)
  {
    forall a, b :: InBounds(a) && InBounds(b) && At(g, a).kind == Star && At(g, b).kind == Star ==> a == b
  }

  /** On a board with at most one star, a second check with no move in
      between captures nothing and changes nothing. */
  lemma CaptureOnce(g: Grid)
    requires WellFormed(g) && AtMostOneStar(g)
    ensures AfterCapture(AfterCapture(g).0) == (AfterCapture(g).0, false)
  {
    if AfterCapture(g).1 {
      var h := AfterCapture(g).0;
      forall p | InBounds(p) ensures At(h, p).kind != Star {
      }
      NoStarNoCapture(h);
    }
  }

  /** With a usable origin, the check captures exactly when the board has a
      star and each of its neighbours is an obstacle or in the origin's
      region; a check that captures nothing leaves the board as it was. */
  lemma CaptureIffSurrounded(g: Grid)
    requires WellFormed(g) && At(g, Origin).kind != Obstacle
    ensures AfterCapture(g).1 <==>
      LocateStar(g).Some? &&
      forall n :: n in Adjacent(LocateStar(g).value) ==> At(g, n).kind == Obstacle || n in Region(g)
    ensures !AfterCapture(g).1 ==> AfterCapture(g).0 == g
  {
    if LocateStar(g).Some? {
      CapturedIffRegion(g, LocateStar(g).value);
    }
  }
}
