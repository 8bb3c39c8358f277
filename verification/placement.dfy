/** Board generation: random colours, then obstacles and possibly one star at
    positions drawn until they pass the placement rules. Every random draw is
    a parameter: a colour index per cell, finite streams of drawn positions,
    and the roll that decides whether a star is placed. */
module Placement {
  import opened Board
  import opened Capture

  /** Obstacles on a board for `level`: `min(floor(level / 4), 3)`. Dafny's
      division by a positive divisor rounds down, as `Math.floor` does. */
  function ObstacleCount(level: int): int {
    if level / 4 < 3 then level / 4 else 3
  }

  /** Levels 1-3 get no obstacle, 4-7 one, 8-11 two, and every later level
      three. */
  lemma ObstacleSchedule(level: int)
    requires level >= 1
    ensures 0 <= ObstacleCount(level) <= 3
    ensures ObstacleCount(level) == 0 <==> level < 4
    ensures ObstacleCount(level) == 3 <==> level >= 12
    ensures 4 <= level < 8 ==> ObstacleCount(level) == 1
    ensures 8 <= level < 12 ==> ObstacleCount(level) == 2
  {
  }

  /** How many of `cells` hold an obstacle. */
  function CountObstacles(g: Grid, cells: seq<Pos>): (r: nat)
    requires WellFormed(g) && forall n :: n in cells ==> InBounds(n)
    ensures r <= |cells|
    ensures r == 0 <==> forall n :: n in cells ==> At(g, n).kind != Obstacle
  {
    if cells == [] then 0
    else (if At(g, cells[0]).kind == Obstacle then 1 else 0) + CountObstacles(g, cells[1..])
  }

  predicate IsValidObstaclePosition(g: Grid, p: Pos)
    requires WellFormed(g) && InBounds(p)
  {
    if p.x == 0 && p.y == 0 then false
    else if p.x <= 1 && p.y <= 1 then false
    else CountObstacles(g, Adjacent(p)) == 0
  }

  /** An obstacle may go anywhere outside the 2x2 block at the origin that
      has no obstacle as an orthogonal neighbour. */
  lemma ObstaclePositionIff(g: Grid, p: Pos)
    requires WellFormed(g) && InBounds(p)
    ensures IsValidObstaclePosition(g, p) <==>
      !(p.x <= 1 && p.y <= 1) && forall q :: InBounds(q) && Step(p, q) ==> At(g, q).kind != Obstacle
  {
  }

  /** The rule does not look at the cell itself: on a board whose obstacles
      are apart, an obstacle outside the origin block is itself a valid
      position, so a placement can land on it and add no new obstacle. */
  lemma ObstacleCellMayBeChosen(g: Grid, p: Pos)
    requires WellFormed(g) && ObstaclesApart(g) && InBounds(p)
    requires At(g, p) == ObstacleCell && !(p.x <= 1 && p.y <= 1)
    ensures IsValidObstaclePosition(g, p)
    ensures WithCell(g, p, ObstacleCell) == g
  {
    ObstaclePositionIff(g, p);
    GridExt(WithCell(g, p, ObstacleCell), g);
  }

  predicate IsValidStarPosition(g: Grid, p: Pos)
    requires WellFormed(g) && InBounds(p)
  {
    if IsWithinRange(p.x, p.y, 0, 0, 5) then false
    else if IsWithinRange(p.x, p.y, GridSize - 1, GridSize - 1, 3) then false
    else At(g, p).kind == Normal
  }

  /** On the 14x14 board, a star goes on a normal cell outside the 6x6
      block at the origin and outside the 4x4 block at the far corner. */
  lemma StarPositionIff(g: Grid, p: Pos)
    requires WellFormed(g) && InBounds(p)
    ensures IsValidStarPosition(g, p) <==>
      (p.x >= 6 || p.y >= 6) && (p.x <= 9 || p.y <= 9) && At(g, p).kind == Normal
  {
  }

  /** No obstacle in the 2x2 block at the origin. */
  ghost predicate OriginBlockClear(g: Grid)
    requires WellFormed(g)
  {
    forall p :: InBounds(p) && p.x <= 1 && p.y <= 1 ==> At(g, p).kind != Obstacle
  }

  /** No two obstacles are orthogonal neighbours. */
  ghost predicate ObstaclesApart(g: Grid)
    requires WellFormed(g)
  {
    forall a, b :: InBounds(a) && InBounds(b) && Step(a, b) && At(g, a).kind == Obstacle ==> At(g, b).kind != Obstacle
  }

  /** Every star stands far from both the origin and the far corner. */
  ghost predicate StarsPlaced(g: Grid)
    requires WellFormed(g)
  {
    forall p :: InBounds(p) && At(g, p).kind == Star ==>
      !IsWithinRange(p.x, p.y, 0, 0, 5) && !IsWithinRange(p.x, p.y, GridSize - 1, GridSize - 1, 3)
  }

  /** The placement invariants of a board. */
  ghost predicate Sound(g: Grid) {
    WellFormed(g) && OriginBlockClear(g) && ObstaclesApart(g) && StarsPlaced(g) && AtMostOneStar(g)
  }

  /** On a sound board the origin is a normal cell. */
  lemma SoundOriginIsNormal(g: Grid)
    requires Sound(g)
    ensures At(g, Origin).kind == Normal
  {
    assert IsWithinRange(0, 0, 0, 0, 5);
  }

  ghost function ObstacleSet(g: Grid): set<Pos>
    requires WellFormed(g)
  {
    set p | p in Cells() && At(g, p).kind == Obstacle
  }

  /** Placing one obstacle at a valid position keeps the invariants and adds
      at most one obstacle. */
  lemma PlaceObstacleStep(g: Grid, p: Pos)
    requires WellFormed(g) && InBounds(p) && IsValidObstaclePosition(g, p)
    ensures OriginBlockClear(g) ==> OriginBlockClear(WithCell(g, p, ObstacleCell))
    ensures ObstaclesApart(g) ==> ObstaclesApart(WithCell(g, p, ObstacleCell))
    ensures |ObstacleSet(WithCell(g, p, ObstacleCell))| <= |ObstacleSet(g)| + 1
  {
    var h := WithCell(g, p, ObstacleCell);
    ObstaclePositionIff(g, p);
    assert ObstacleSet(h) <= ObstacleSet(g) + {p};
    assert |ObstacleSet(g) + {p}| <= |ObstacleSet(g)| + 1;
    SubsetCard(ObstacleSet(h), ObstacleSet(g) + {p});
  }

  lemma SubsetCard(a: set<Pos>, b: set<Pos>)
    requires a <= b
    ensures |a| <= |b|
  {
    assert b == a + (b - a);
  }

  /** The two placement rules a drawn position is tested against. */
  datatype Rule = ObstacleRule | StarRule

  predicate Allows(rule: Rule, g: Grid, p: Pos)
    requires WellFormed(g) && InBounds(p)
  {
    match rule
    case ObstacleRule => IsValidObstaclePosition(g, p)
    case StarRule => IsValidStarPosition(g, p)
  }

  /** Where a rejection loop stops: the index of the first draw from `from`
      on that the rule allows, or `|draws|` when the draws run out first. */
  function FirstAllowed(rule: Rule, g: Grid, draws: seq<Pos>, from: nat): (k: nat)
    requires WellFormed(g) && (forall d :: d in draws ==> InBounds(d)) && from <= |draws|
    ensures from <= k <= |draws|
    ensures k < |draws| ==> draws[k] in draws && Allows(rule, g, draws[k])
    decreases |draws| - from
  {
    if from == |draws| then from
    else if (assert draws[from] in draws; Allows(rule, g, draws[from])) then from
    else FirstAllowed(rule, g, draws, from + 1)
  }

  /** The obstacle rounds, read from draw `next` on: while rounds are left,
      each round makes the first allowed draw an obstacle and the next round
      reads on after it. The rounds end early when the draws run out. The
      result is the board and the number of rounds completed. */
  function PlaceAll(g: Grid, count: int, draws: seq<Pos>, next: nat): (r: (Grid, nat))
    requires WellFormed(g) && (forall d :: d in draws ==> InBounds(d)) && next <= |draws|
    ensures WellFormed(r.0)
    decreases |draws| - next
  {
    if count <= 0 then (g, 0)
    else
      var k := FirstAllowed(ObstacleRule, g, draws, next);
      if k == |draws| then (g, 0)
      else
        var rest := PlaceAll(WithCell(g, draws[k], ObstacleCell), count - 1, draws, k + 1);
        (rest.0, rest.1 + 1)
  }

  /** One obstacle round: it ends the rounds when the draws run out and
      otherwise places an obstacle at the first allowed draw. */
  lemma PlaceAllRound(g: Grid, count: int, draws: seq<Pos>, next: nat, k: nat)
    requires WellFormed(g) && (forall d :: d in draws ==> InBounds(d)) && next <= |draws|
    requires count > 0 && k == FirstAllowed(ObstacleRule, g, draws, next)
    ensures k == |draws| ==> PlaceAll(g, count, draws, next) == (g, 0)
    ensures k < |draws| ==>
      PlaceAll(g, count, draws, next).0 == PlaceAll(WithCell(g, draws[k], ObstacleCell), count - 1, draws, k + 1).0 &&
      PlaceAll(g, count, draws, next).1 == PlaceAll(WithCell(g, draws[k], ObstacleCell), count - 1, draws, k + 1).1 + 1
  {
  }

  /** The rounds place at most the requested number of obstacles, all of
      them at drawn positions, and keep both obstacle invariants. */
  lemma {:induction false} PlaceAllKeepsRules(g: Grid, count: int, draws: seq<Pos>, next: nat)
    requires WellFormed(g) && (forall d :: d in draws ==> InBounds(d)) && next <= |draws|
    ensures PlaceAll(g, count, draws, next).1 <= if count > 0 then count else 0
    ensures |ObstacleSet(PlaceAll(g, count, draws, next).0)| <= |ObstacleSet(g)| + PlaceAll(g, count, draws, next).1
    ensures forall p :: InBounds(p) ==>
      At(PlaceAll(g, count, draws, next).0, p) == At(g, p) ||
      (At(PlaceAll(g, count, draws, next).0, p) == ObstacleCell && p in draws)
    ensures OriginBlockClear(g) ==> OriginBlockClear(PlaceAll(g, count, draws, next).0)
    ensures ObstaclesApart(g) ==> ObstaclesApart(PlaceAll(g, count, draws, next).0)
    decreases |draws| - next
  {
    var r := PlaceAll(g, count, draws, next);
    if count > 0 {
      var k := FirstAllowed(ObstacleRule, g, draws, next);
      PlaceAllRound(g, count, draws, next, k);
      if k < |draws| {
        var h := WithCell(g, draws[k], ObstacleCell);
        PlaceObstacleStep(g, draws[k]);
        PlaceAllKeepsRules(h, count - 1, draws, k + 1);
        var rest := PlaceAll(h, count - 1, draws, k + 1);
        assert r.0 == rest.0 && r.1 == rest.1 + 1;
        forall p | InBounds(p)
          ensures At(r.0, p) == At(g, p) || (At(r.0, p) == ObstacleCell && p in draws)
        {
          assert At(h, p) == At(g, p) || p == draws[k];
        }
      }
    }
  }

  /** One round that places an obstacle at draw `k`, stated over the
      counters the next round starts from: `left'` rounds left, reading on
      from draw `next`. */
  lemma PlaceAllStep(g: Grid, left: int, left': int, draws: seq<Pos>, start: nat, k: nat, next: nat)
    requires WellFormed(g) && (forall d :: d in draws ==> InBounds(d)) && start <= |draws|
    requires left > 0 && k == FirstAllowed(ObstacleRule, g, draws, start) && k < |draws|
    requires left' == left - 1 && next == k + 1
    ensures PlaceAll(g, left, draws, start).0 == PlaceAll(WithCell(g, draws[k], ObstacleCell), left', draws, next).0
    ensures PlaceAll(g, left, draws, start).1 == PlaceAll(WithCell(g, draws[k], ObstacleCell), left', draws, next).1 + 1
  {
    PlaceAllRound(g, left, draws, start, k);
    SameRounds(WithCell(g, draws[k], ObstacleCell), left - 1, left', draws, k + 1, next);
  }

  /** Rounds started from equal counters agree. Stated as a lemma so that
      the solver does not have to discover the equal arguments itself. */
  lemma SameRounds(g: Grid, count: int, count': int, draws: seq<Pos>, next: nat, next': nat)
    requires WellFormed(g) && (forall d :: d in draws ==> InBounds(d)) && next <= |draws|
    requires count == count' && next == next'
    ensures PlaceAll(g, count, draws, next) == PlaceAll(g, count', draws, next')
  {
  }

  /** `FirstAllowed` is the index `k` that a scan from `from` stops at:
      every draw before it is refused and the draw at it, if any, allowed. */
  lemma {:induction false} FirstAllowedIs(rule: Rule, g: Grid, draws: seq<Pos>, from: nat, k: nat)
    requires WellFormed(g) && (forall d :: d in draws ==> InBounds(d)) && from <= k <= |draws|
    requires forall j :: from <= j < k ==> !Allows(rule, g, draws[j])
    requires k < |draws| ==> Allows(rule, g, draws[k])
    ensures FirstAllowed(rule, g, draws, from) == k
    decreases k - from
  {
    if from < k {
      FirstAllowedIs(rule, g, draws, from + 1, k);
    }
  }

  /** Every draw a scan from `from` passes over before it stops is refused
      by the rule. */
  lemma {:induction false} FirstAllowedRefuses(rule: Rule, g: Grid, draws: seq<Pos>, from: nat)
    requires WellFormed(g) && (forall d :: d in draws ==> InBounds(d)) && from <= |draws|
    ensures forall j :: from <= j < FirstAllowed(rule, g, draws, from) ==> !Allows(rule, g, draws[j])
    decreases |draws| - from
  {
    if from < |draws| && !Allows(rule, g, draws[from]) {
      FirstAllowedRefuses(rule, g, draws, from + 1);
    }
  }

  /** The rejection loop: reads draws from `from` on until the rule allows
      one, and returns its index, or `|draws|` when the draws run out. */
  method DrawUntilAllowed(rule: Rule, g: Grid, draws: seq<Pos>, from: nat) returns (k: nat)
    requires WellFormed(g) && (forall d :: d in draws ==> InBounds(d)) && from <= |draws|
    ensures k == FirstAllowed(rule, g, draws, from)
  {
    k := from;
    while k < |draws| && !Allows(rule, g, draws[k])
      invariant from <= k <= |draws|
      invariant forall j :: from <= j < k ==> !Allows(rule, g, draws[j])
    {
      k := k + 1;
    }
    FirstAllowedIs(rule, g, draws, from, k);
  }

  /** Places `count` obstacles, drawing positions from `draws` until one is
      valid for each; stops early only when the draws run out. */
  method PlaceObstacles(grid: Grid, count: int, draws: seq<Pos>) returns (result: Grid, placed: nat)
    requires WellFormed(grid) && forall d :: d in draws ==> InBounds(d)
    ensures result == PlaceAll(grid, count, draws, 0).0 && placed == PlaceAll(grid, count, draws, 0).1
  {
    result, placed := grid, 0;
    var next := 0;
    ghost var left := count;
    while placed < count
      invariant WellFormed(result) && next <= |draws| && left == count - placed
      invariant PlaceAll(grid, count, draws, 0).0 == PlaceAll(result, left, draws, next).0
      invariant PlaceAll(grid, count, draws, 0).1 == placed + PlaceAll(result, left, draws, next).1
      decreases |draws| - next
    {
      ghost var before, start, left0 := result, next, left;
      next := DrawUntilAllowed(ObstacleRule, result, draws, next);
      PlaceAllRound(result, left, draws, start, next);
      if next == |draws| {
        break;
      }
      ghost var k := next;
      var p := draws[next];
      result := WithCell(result, p, ObstacleCell);
      next, placed, left := next + 1, placed + 1, left - 1;
      PlaceAllStep(before, left0, left, draws, start, k, next);
    }
  }

  /** The star round: the first draw the star rule allows becomes a star and
      keeps its colour; with no allowed draw the board stays as it is. */
  function WithStar(g: Grid, draws: seq<Pos>): (r: Grid)
    requires WellFormed(g) && forall d :: d in draws ==> InBounds(d)
    ensures WellFormed(r)
  {
    var k := FirstAllowed(StarRule, g, draws, 0);
    if k == |draws| then g else WithCell(g, draws[k], At(g, draws[k]).(kind := Star))
  }

  /** Draws positions until one is valid for the star and makes that cell a
      star, keeping its colour; places nothing if no draw is valid. */
  method PlaceStarCell(grid: Grid, draws: seq<Pos>) returns (result: Grid, star: Option<Pos>)
    requires WellFormed(grid) && forall d :: d in draws ==> InBounds(d)
    ensures result == WithStar(grid, draws)
    ensures star.None? ==> result == grid && forall d :: d in draws ==> !IsValidStarPosition(grid, d)
    ensures star.Some? ==>
      InBounds(star.value) && IsValidStarPosition(grid, star.value) &&
      result == WithCell(grid, star.value, At(grid, star.value).(kind := Star))
    ensures star.Some? ==>
      exists k :: 0 <= k < |draws| && draws[k] == star.value &&
        (forall j :: 0 <= j < k ==> !IsValidStarPosition(grid, draws[j]))
  {
    var next := DrawUntilAllowed(StarRule, grid, draws, 0);
    FirstAllowedRefuses(StarRule, grid, draws, 0);
    if next == |draws| {
      forall d | d in draws ensures !IsValidStarPosition(grid, d) {
        var j :| 0 <= j < |draws| && draws[j] == d;
      }
      return grid, None;
    }
    var p := draws[next];
    assert p in draws;
    result := WithCell(grid, p, grid[p.y][p.x].(kind := Star));
    star := Some(p);
  }

  /** Making a valid position the star of a board without stars keeps the
      invariants. */
  lemma PlaceStarStep(g: Grid, p: Pos)
    requires Sound(g) && InBounds(p) && IsValidStarPosition(g, p)
    requires forall q :: InBounds(q) ==> At(g, q).kind != Star
    ensures Sound(WithCell(g, p, At(g, p).(kind := Star)))
  {
    var h := WithCell(g, p, At(g, p).(kind := Star));
    assert forall q :: InBounds(q) && At(h, q).kind == Star ==> q == p;
  }

  /** A board of normal cells coloured from the palette indices `colours`. */
  function FreshGrid(colours: seq<seq<PaletteIndex>>): (g: Grid)
    requires |colours| == GridSize && forall y :: 0 <= y < GridSize ==> |colours[y]| == GridSize
    ensures WellFormed(g)
    ensures forall p :: InBounds(p) ==> At(g, p) == Cell(Normal, Paint(colours[p.y][p.x]))
  {
    seq(GridSize, y requires 0 <= y < GridSize =>
      seq(GridSize, x requires 0 <= x < GridSize => Cell(Normal, Paint(colours[y][x]))))
  }

  /** The board generated for `level`: the coloured board, then the
      level's obstacle rounds over `obstacleDraws`, then, when `starRoll`
      falls below the star chance, the star round over `starDraws`. */
  function Generated(level: int, colours: seq<seq<PaletteIndex>>, obstacleDraws: seq<Pos>,
                     starRoll: real, starDraws: seq<Pos>): (g: Grid)
    requires |colours| == GridSize && forall y :: 0 <= y < GridSize ==> |colours[y]| == GridSize
    requires forall d :: d in obstacleDraws ==> InBounds(d)
    requires forall d :: d in starDraws ==> InBounds(d)
    ensures WellFormed(g)
  {
    var obstacles := PlaceAll(FreshGrid(colours), ObstacleCount(level), obstacleDraws, 0).0;
    if starRoll < StarChance then WithStar(obstacles, starDraws) else obstacles
  }

  /** The obstacle rounds on a freshly coloured board give a board that
      keeps the placement rules, has no star, at most `count` obstacles, all
      of them gray, and the drawn colour on every other cell. */
  lemma ObstacleBoardIsSound(colours: seq<seq<PaletteIndex>>, count: int, draws: seq<Pos>)
    requires |colours| == GridSize && forall y :: 0 <= y < GridSize ==> |colours[y]| == GridSize
    requires forall d :: d in draws ==> InBounds(d)
    ensures Sound(PlaceAll(FreshGrid(colours), count, draws, 0).0)
    ensures |ObstacleSet(PlaceAll(FreshGrid(colours), count, draws, 0).0)| <= if count > 0 then count else 0
    ensures forall p :: InBounds(p) ==>
      At(PlaceAll(FreshGrid(colours), count, draws, 0).0, p).kind != Star &&
      (At(PlaceAll(FreshGrid(colours), count, draws, 0).0, p).kind == Obstacle ==>
         At(PlaceAll(FreshGrid(colours), count, draws, 0).0, p) == ObstacleCell) &&
      (At(PlaceAll(FreshGrid(colours), count, draws, 0).0, p).kind != Obstacle ==>
         At(PlaceAll(FreshGrid(colours), count, draws, 0).0, p).color == Paint(colours[p.y][p.x]))
  {
    var coloured := FreshGrid(colours);
    assert ObstacleSet(coloured) == {};
    PlaceAllKeepsRules(coloured, count, draws, 0);
  }

  /** The star round on a starless board that keeps the placement rules
      keeps them too, and changes no colour and no obstacle. */
  lemma StarBoardIsSound(g: Grid, draws: seq<Pos>)
    requires Sound(g) && forall d :: d in draws ==> InBounds(d)
    requires forall p :: InBounds(p) ==> At(g, p).kind != Star
    ensures Sound(WithStar(g, draws))
    ensures ObstacleSet(WithStar(g, draws)) == ObstacleSet(g)
    ensures forall p :: InBounds(p) ==>
      At(WithStar(g, draws), p).color == At(g, p).color &&
      (At(WithStar(g, draws), p).kind == Obstacle <==> At(g, p).kind == Obstacle)
  {
    var k := FirstAllowed(StarRule, g, draws, 0);
    if k < |draws| {
      PlaceStarStep(g, draws[k]);
    }
  }

  /** A generated board keeps all placement rules, has at most the level's
      obstacle count, keeps the drawn colour on every cell that is not an
      obstacle, and has no star when the roll misses. */
  lemma GeneratedIsSound(level: int, colours: seq<seq<PaletteIndex>>, obstacleDraws: seq<Pos>,
                         starRoll: real, starDraws: seq<Pos>)
    requires |colours| == GridSize && forall y :: 0 <= y < GridSize ==> |colours[y]| == GridSize
    requires forall d :: d in obstacleDraws ==> InBounds(d)
    requires forall d :: d in starDraws ==> InBounds(d)
    ensures Sound(Generated(level, colours, obstacleDraws, starRoll, starDraws))
    ensures |ObstacleSet(Generated(level, colours, obstacleDraws, starRoll, starDraws))| <=
      if ObstacleCount(level) > 0 then ObstacleCount(level) else 0
    ensures forall p :: InBounds(p) && At(Generated(level, colours, obstacleDraws, starRoll, starDraws), p).kind == Obstacle ==>
      At(Generated(level, colours, obstacleDraws, starRoll, starDraws), p) == ObstacleCell
    ensures forall p :: InBounds(p) && At(Generated(level, colours, obstacleDraws, starRoll, starDraws), p).kind != Obstacle ==>
      At(Generated(level, colours, obstacleDraws, starRoll, starDraws), p).color == Paint(colours[p.y][p.x])
    ensures starRoll >= StarChance ==>
      forall p :: InBounds(p) ==> At(Generated(level, colours, obstacleDraws, starRoll, starDraws), p).kind != Star
  {
    var obstacles := PlaceAll(FreshGrid(colours), ObstacleCount(level), obstacleDraws, 0).0;
    ObstacleBoardIsSound(colours, ObstacleCount(level), obstacleDraws);
    if starRoll < StarChance {
      StarBoardIsSound(obstacles, starDraws);
      var g := WithStar(obstacles, starDraws);
      forall p | InBounds(p) && At(g, p).kind == Obstacle ensures At(g, p) == ObstacleCell {
        assert At(obstacles, p).kind == Obstacle;
      }
    }
  }

  /** Builds the board for `level`: colours from `colours`, then
      `ObstacleCount(level)` obstacles drawn from `obstacleDraws`, then, when
      `starRoll` falls below the star chance, a star drawn from `starDraws`. */
  method InitializeGrid(level: int, colours: seq<seq<PaletteIndex>>, obstacleDraws: seq<Pos>,
                        starRoll: real, starDraws: seq<Pos>) returns (grid: Grid)
    requires |colours| == GridSize && forall y :: 0 <= y < GridSize ==> |colours[y]| == GridSize
    requires forall d :: d in obstacleDraws ==> InBounds(d)
    requires forall d :: d in starDraws ==> InBounds(d)
    ensures grid == Generated(level, colours, obstacleDraws, starRoll, starDraws)
  {
    grid := FreshGrid(colours);
    var placed;
    grid, placed := PlaceObstacles(grid, ObstacleCount(level), obstacleDraws);
    if starRoll < StarChance {
      var star;
      grid, star := PlaceStarCell(grid, starDraws);
    }
  }
}
