/** Walks over the board: the reachability notion shared by the flood fill,
    the connectivity search and the star-capture rule. */
module Paths {
  import opened Board

  /** A cell a walk of colour `c` may enter: on the board, not an obstacle,
      painted `c`. */
  predicate Open(g: Grid, c: Color, p: Pos)
    requires WellFormed(g)
  {
    InBounds(p) && At(g, p).kind != Obstacle && At(g, p).color == c
  }

  function OriginColor(g: Grid): Color
    requires WellFormed(g)
  {
    At(g, Origin).color
  }

  /** A walk moves one orthogonal step at a time, and every cell after the
      first is open for `c`; the first cell is unconstrained. */
  ghost predicate IsWalk(g: Grid, c: Color, w: seq<Pos>)
    requires WellFormed(g)
  {
    |w| > 0 &&
    (forall i :: 0 < i < |w| ==> Open(g, c, w[i])) &&
    (forall i :: 0 < i < |w| ==> Step(w[i - 1], w[i]))
  }

  ghost predicate Joins(g: Grid, c: Color, a: Pos, b: Pos)
    requires WellFormed(g)
  {
    exists w :: IsWalk(g, c, w) && w[0] == a && w[|w| - 1] == b
  }

  /** The cells a fill from the origin reaches: the origin must itself be
      open, and the cell is joined to it through cells of the origin colour. */
  ghost predicate Reachable(g: Grid, p: Pos)
    requires WellFormed(g)
  {
    Open(g, OriginColor(g), Origin) && Joins(g, OriginColor(g), Origin, p)
  }

  ghost function Region(g: Grid): set<Pos>
    requires WellFormed(g)
  {
    set p | p in Cells() && Reachable(g, p)
  }

  lemma JoinsItself(g: Grid, c: Color, a: Pos)
    requires WellFormed(g)
    ensures Joins(g, c, a, a)
  {
    assert IsWalk(g, c, [a]);
  }

  /** A walk extends by one step into an open cell. */
  lemma ExtendJoin(g: Grid, c: Color, a: Pos, b: Pos, n: Pos)
    requires WellFormed(g)
    requires Joins(g, c, a, b) && Step(b, n) && Open(g, c, n)
    ensures Joins(g, c, a, n)
  {
    var w :| IsWalk(g, c, w) && w[0] == a && w[|w| - 1] == b;
    var w' := w + [n];
    assert IsWalk(g, c, w');
  }

  /** Every cell of the region is open for the origin colour. */
  lemma RegionIsOpen(g: Grid, p: Pos)
    requires WellFormed(g)
    requires p in Region(g)
    ensures Open(g, OriginColor(g), p)
  {
    var w :| IsWalk(g, OriginColor(g), w) && w[0] == Origin && w[|w| - 1] == p;
  }

  /** A set that holds the start of a walk and is closed under open steps
      holds the end of the walk. */
  lemma {:induction false} ClosedContainsWalk(g: Grid, c: Color, s: set<Pos>, w: seq<Pos>)
    requires WellFormed(g)
    requires IsWalk(g, c, w) && w[0] in s
    requires forall a, b :: a in s && Step(a, b) && Open(g, c, b) ==> b in s
    ensures w[|w| - 1] in s
  {
    if |w| > 1 {
      var u := w[..|w| - 1];
      assert IsWalk(g, c, u);
      ClosedContainsWalk(g, c, s, u);
      assert Step(u[|u| - 1], w[|w| - 1]);
    }
  }

  /** The region is the least set of cells that contains an open origin and
      is closed under open steps. */
  lemma RegionLeast(g: Grid, s: set<Pos>)
    requires WellFormed(g)
    requires Open(g, OriginColor(g), Origin) ==> Origin in s
    requires forall a, b :: a in s && Step(a, b) && Open(g, OriginColor(g), b) ==> b in s
    ensures Region(g) <= s
  {
    forall p | p in Region(g) ensures p in s {
      var w :| IsWalk(g, OriginColor(g), w) && w[0] == Origin && w[|w| - 1] == p;
      ClosedContainsWalk(g, OriginColor(g), s, w);
    }
  }

  /** The region contains an open origin and is closed under open steps. */
  lemma RegionClosed(g: Grid)
    requires WellFormed(g)
    ensures Open(g, OriginColor(g), Origin) <==> Origin in Region(g)
    ensures forall a, b :: a in Region(g) && Step(a, b) && Open(g, OriginColor(g), b) ==> b in Region(g)
  {
    CellsAreInBounds(Origin);
    if Open(g, OriginColor(g), Origin) {
      JoinsItself(g, OriginColor(g), Origin);
    }
    forall a, b | a in Region(g) && Step(a, b) && Open(g, OriginColor(g), b) ensures b in Region(g) {
      ExtendJoin(g, OriginColor(g), Origin, a, b);
      CellsAreInBounds(b);
    }
  }

  function Reversed(w: seq<Pos>): (r: seq<Pos>)
    ensures |r| == |w|
    ensures forall i :: 0 <= i < |w| ==> r[i] == w[|w| - 1 - i]
  {
    seq(|w|, i requires 0 <= i < |w| => w[|w| - 1 - i])
  }

  /** Walks run both ways when the cell they start from is open too. */
  lemma JoinsSymmetric(g: Grid, c: Color, a: Pos, b: Pos)
    requires WellFormed(g)
    requires Joins(g, c, a, b) && Open(g, c, a)
    ensures Joins(g, c, b, a)
  {
    var w :| IsWalk(g, c, w) && w[0] == a && w[|w| - 1] == b;
    var r := Reversed(w);
    forall i | 0 < i < |r| ensures Open(g, c, r[i]) && Step(r[i - 1], r[i]) {
      assert r[i] == w[|w| - 1 - i];
      assert Step(w[|w| - 1 - i], w[|w| - i]);
    }
    assert IsWalk(g, c, r);
  }
}
