/** The search the star-capture rule uses: is a cell joined back to the origin
    through cells of the origin's colour? A stack plus a visited set. */
module Connectivity {
  import opened Board
  import opened Paths

  /** The bookkeeping of the search from `start`: every stack entry is joined
      to `start`, the search has not yet visited the origin, and every open
      neighbour of a visited cell is visited or still on the stack. */
  ghost predicate Search(g: Grid, start: Pos, visited: set<Pos>, stack: seq<Pos>)
    requires WellFormed(g)
  {
    var c := OriginColor(g);
    (forall q :: q in stack ==> Joins(g, c, start, q) && (q == start || InBounds(q))) &&
    visited <= Cells() + {start} &&
    Origin !in visited &&
    (start in visited || start in stack) &&
    (forall a, b :: a in visited && Step(a, b) && Open(g, c, b) ==> b in visited || b in stack)
  }

  lemma SearchStart(g: Grid, start: Pos)
    requires WellFormed(g)
    ensures Search(g, start, {}, [start])
  {
    JoinsItself(g, OriginColor(g), start);
  }

  /** Popping a cell that was already visited keeps the bookkeeping. */
  lemma SkipVisited(g: Grid, start: Pos, visited: set<Pos>, full: seq<Pos>)
    requires WellFormed(g) && Search(g, start, visited, full) && |full| > 0
    requires full[|full| - 1] in visited
    ensures Search(g, start, visited, full[..|full| - 1])
  {
    var c := OriginColor(g);
    var stack, q := full[..|full| - 1], full[|full| - 1];
    assert full == stack + [q];
    forall r | r in stack ensures r in full {
    }
    forall a, b | a in visited && Step(a, b) && Open(g, c, b) ensures b in visited || b in stack {
      assert b in visited || b in full;
    }
  }

  /** Every cell pushed while visiting `q` is joined to `start`. */
  lemma PushedAreJoined(g: Grid, start: Pos, stack: seq<Pos>, q: Pos)
    requires WellFormed(g)
    requires forall r :: r in stack + [q] ==> Joins(g, OriginColor(g), start, r) && (r == start || InBounds(r))
    ensures forall r :: r in stack + OpenAmong(g, OriginColor(g), Adjacent(q)) ==>
              Joins(g, OriginColor(g), start, r) && (r == start || InBounds(r))
  {
    var c := OriginColor(g);
    assert q in stack + [q];
    forall r | r in stack + OpenAmong(g, c, Adjacent(q)) ensures Joins(g, c, start, r) && (r == start || InBounds(r)) {
      if r in stack {
        assert r in stack + [q];
      } else {
        ExtendJoin(g, c, start, q, r);
      }
    }
  }

  /** Visiting a popped cell other than the origin and pushing its open
      on-board neighbours keeps the bookkeeping. */
  lemma VisitStep(g: Grid, start: Pos, visited: set<Pos>, full: seq<Pos>, pushed: seq<Pos>)
    requires WellFormed(g) && Search(g, start, visited, full) && |full| > 0
    requires full[|full| - 1] !in visited && full[|full| - 1] != Origin
    requires pushed == full[..|full| - 1] + OpenAmong(g, OriginColor(g), Adjacent(full[|full| - 1]))
    ensures Search(g, start, visited + {full[|full| - 1]}, pushed)
    ensures |(Cells() + {start}) - (visited + {full[|full| - 1]})| < |(Cells() + {start}) - visited|
  {
    var c := OriginColor(g);
    var stack, q := full[..|full| - 1], full[|full| - 1];
    assert full == stack + [q];
    PushedAreJoined(g, start, stack, q);
    forall a, b | a in visited + {q} && Step(a, b) && Open(g, c, b) ensures b in visited + {q} || b in pushed {
      if a != q {
        assert b in visited || b in full;
      }
    }
    CellsAreInBounds(q);
    ShrinkRemaining(Cells() + {start}, visited, q);
  }

  /** A search that emptied its stack without visiting the origin shows that
      no walk joins `start` to the origin. */
  lemma SearchExhausted(g: Grid, start: Pos, visited: set<Pos>)
    requires WellFormed(g) && Search(g, start, visited, [])
    ensures !Joins(g, OriginColor(g), start, Origin)
  {
    var c := OriginColor(g);
    if Joins(g, c, start, Origin) {
      var w :| IsWalk(g, c, w) && w[0] == start && w[|w| - 1] == Origin;
      ClosedContainsWalk(g, c, visited, w);
    }
  }

  /** The cells of `s` that are open for `c`, in order. */
  function OpenAmong(g: Grid, c: Color, s: seq<Pos>): (r: seq<Pos>)
    requires WellFormed(g)
    ensures forall q :: q in r <==> q in s && Open(g, c, q)
  {
    if s == [] then []
    else OpenAmong(g, c, s[..|s| - 1]) + (if Open(g, c, s[|s| - 1]) then [s[|s| - 1]] else [])
  }

  /** Filtering one more cell of `s` appends it when it is open. */
  lemma OpenAmongStep(g: Grid, c: Color, s: seq<Pos>, i: nat)
    requires WellFormed(g) && i < |s|
    ensures OpenAmong(g, c, s[..i + 1]) == OpenAmong(g, c, s[..i]) + (if Open(g, c, s[i]) then [s[i]] else [])
  {
    assert s[..i + 1][..i] == s[..i];
  }

  /** The inner loop of the search: push, in order, each of `cells` that is
      open for `c`. */
  method PushOpen(grid: Grid, c: Color, stack: seq<Pos>, cells: seq<Pos>) returns (pushed: seq<Pos>)
    requires WellFormed(grid)
    requires forall n :: n in cells ==> InBounds(n)
    ensures pushed == stack + OpenAmong(grid, c, cells)
  {
    pushed := stack;
    var i := 0;
    while i < |cells|
      invariant 0 <= i <= |cells|
      invariant pushed == stack + OpenAmong(grid, c, cells[..i])
    {
      var n := cells[i];
      assert n in cells;
      OpenAmongStep(grid, c, cells, i);
      if grid[n.y][n.x].color == c && grid[n.y][n.x].kind != Obstacle {
        assert Open(grid, c, n);
        pushed := pushed + [n];
      } else {
        assert !Open(grid, c, n);
      }
      i := i + 1;
    }
    assert cells[..i] == cells;
  }

  /** Decides whether `start` is joined to the origin: some walk leads from it
      to the origin whose later cells are on the board, not obstacles, and of
      the origin's colour. Each cell is expanded at most once. */
  method IsConnectedToStart(grid: Grid, start: Pos) returns (connected: bool)
    requires WellFormed(grid)
    ensures connected <==> Joins(grid, OriginColor(grid), start, Origin)
  {
    var startColor := grid[0][0].color;
    var visited: set<Pos> := {};
    var stack := [start];
    SearchStart(grid, start);
    while |stack| > 0
      invariant Search(grid, start, visited, stack)
      decreases |(Cells() + {start}) - visited|, |stack|
    {
      var current := stack[|stack| - 1];
      if current in visited {
        SkipVisited(grid, start, visited, stack);
        stack := stack[..|stack| - 1];
        continue;
      }
      if current.x == 0 && current.y == 0 {
        assert current in stack;
        return true;
      }
      ghost var full := stack;
      stack := stack[..|stack| - 1];
      var adjacentCells := Adjacent(current);
      stack := PushOpen(grid, startColor, stack, adjacentCells);
      VisitStep(grid, start, visited, full, stack);
      visited := visited + {current};
    }
    SearchExhausted(grid, start, visited);
    return false;
  }
}
