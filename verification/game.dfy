/** The game session: the counters a move reads and writes, how one move is
    resolved, and the transitions to the next level and to a new game.

    The source keeps each counter in React state. Every setter inside one
    move computes its value from the state as it was when the move began,
    and when a counter is set twice in one move the later call wins. The
    model follows that literally: a captured star's bonus replaces the fill
    points rather than adding to them, and a running multiplier counts down
    even when a star is captured. */
module Game {
  import opened Board
  import opened Paths
  import opened Fill
  import opened Capture
  import opened Completion
  import opened Placement

  /** What a move led to. `LevelComplete` and `GameOver` are the states the
      source switches to after its animation delay. */
  datatype Outcome = Ignored | Continue | LevelComplete | GameOver

  /** The counters and the board that a move reads and writes. */
  datatype State = State(grid: Grid, moves: int, score: int, baseScore: int, level: int,
                         multiplierTurnsLeft: int, moveRemainingBonus: int)

  /** `points`, doubled while the multiplier has turns left. */
  function Scaled(points: int, multiplierTurnsLeft: int): (r: int)
    ensures multiplierTurnsLeft > 0 ==> r == 2 * points
    ensures multiplierTurnsLeft <= 0 ==> r == points
  {
    if multiplierTurnsLeft > 0 then 2 * points else points
  }

  /** Points for capturing a star, before the multiplier. */
  const StarBonus: int := 150
  /** Points per move left when a level is completed. */
  const MoveBonus: int := 25
  /** Turns of doubled points that a captured star grants. */
  const MultiplierTurns: int := 3

  /** The bonus for the moves left when a level is completed. */
  function RemainingBonus(movesLeft: int): (r: int)
    ensures movesLeft >= 0 ==> r >= 0
  {
    movesLeft * MoveBonus
  }

  /** Does a move with colour `c` change anything? */
  predicate Playable(s: State, c: Color)
    requires WellFormed(s.grid)
  {
    s.moves > 0 && OriginColor(s.grid) != c
  }

  /** The state and outcome after a played move whose fill recoloured
      `changedCells` cells and left the board `g`, with `captured` telling
      whether the star was captured. */
  function Settle(s: State, g: Grid, changedCells: int, captured: bool): (State, Outcome)
    requires WellFormed(g)
  {
    var points := Scaled(changedCells, s.multiplierTurnsLeft);
    var starPoints := Scaled(StarBonus, s.multiplierTurnsLeft);
    var complete := IsLevelComplete(g);
    var next := State(
      g,
      s.moves - 1,
      if captured then s.score + starPoints else s.score + points,
      if captured then s.baseScore + starPoints else s.baseScore + points,
      s.level,
      if s.multiplierTurnsLeft > 0 then s.multiplierTurnsLeft - 1
      else if captured then MultiplierTurns else s.multiplierTurnsLeft,
      if complete then RemainingBonus(s.moves) else s.moveRemainingBonus);
    (next, if complete then LevelComplete else if s.moves <= 1 then GameOver else Continue)
  }

  /** The state after the player picks colour `c`, and the outcome. */
  ghost function Resolve(s: State, c: Color): (State, Outcome)
    requires WellFormed(s.grid)
  {
    if !Playable(s, c) then (s, Ignored)
    else
      var after := AfterCapture(Filled(s.grid, c));
      Settle(s, after.0, |Region(s.grid)|, after.1)
  }

  /** Whether the move captured the star. */
  ghost predicate Captures(s: State, c: Color)
    requires WellFormed(s.grid)
  {
    AfterCapture(Filled(s.grid, c)).1
  }

  /** The invariants the session keeps between moves. */
  ghost predicate ValidState(s: State) {
    Sound(s.grid) &&
    0 <= s.moves <= MaxMoves &&
    0 <= s.multiplierTurnsLeft <= MultiplierTurns &&
    0 <= s.baseScore <= s.score &&
    s.level >= 1 &&
    s.moveRemainingBonus >= 0
  }

  /** A move is ignored exactly when no moves are left or the colour is the
      origin's own; an ignored move changes nothing. */
  lemma IgnoredMoves(s: State, c: Color)
    requires WellFormed(s.grid)
    ensures Resolve(s, c).1 == Ignored <==> s.moves <= 0 || OriginColor(s.grid) == c
    ensures Resolve(s, c).1 == Ignored ==> Resolve(s, c).0 == s
  {
  }

  /** A played move spends one move, keeps the level, and adds the same
      amount to the score and the level score: the fill points, or, when a
      star is captured, the star bonus in their place. */
  lemma MoveBookkeeping(s: State, c: Color)
    requires WellFormed(s.grid) && Playable(s, c)
    ensures Resolve(s, c).0.moves == s.moves - 1
    ensures Resolve(s, c).0.level == s.level
    ensures Resolve(s, c).0.score - s.score == Resolve(s, c).0.baseScore - s.baseScore
    ensures !Captures(s, c) ==>
      Resolve(s, c).0.score == s.score + Scaled(|Region(s.grid)|, s.multiplierTurnsLeft)
    ensures Captures(s, c) ==>
      Resolve(s, c).0.score == s.score + Scaled(StarBonus, s.multiplierTurnsLeft)
  {
  }

  /** A played move strictly raises the score when the origin is not an
      obstacle: the fill recolours at least the origin. */
  lemma ScoreRises(s: State, c: Color)
    requires WellFormed(s.grid) && Playable(s, c) && At(s.grid, Origin).kind != Obstacle
    ensures Resolve(s, c).0.score > s.score
    ensures Resolve(s, c).0.baseScore > s.baseScore
  {
    RegionClosed(s.grid);
    assert |Region(s.grid)| > 0;
  }

  /** The multiplier counts down while it runs, a capture refreshes it only
      when it has run out, and it stays between 0 and 3. */
  lemma MultiplierCountdown(s: State, c: Color)
    requires WellFormed(s.grid) && Playable(s, c)
    ensures 0 <= s.multiplierTurnsLeft <= MultiplierTurns ==>
      0 <= Resolve(s, c).0.multiplierTurnsLeft <= MultiplierTurns
    ensures s.multiplierTurnsLeft > 0 ==> Resolve(s, c).0.multiplierTurnsLeft == s.multiplierTurnsLeft - 1
    ensures s.multiplierTurnsLeft == 0 ==>
      (Resolve(s, c).0.multiplierTurnsLeft == MultiplierTurns <==> Captures(s, c)) &&
      (Resolve(s, c).0.multiplierTurnsLeft == 0 <==> !Captures(s, c))
  {
  }

  /** After a played move, the origin's region carries the new colour, every
      other cell keeps its colour, and every cell keeps its kind except a
      captured star, which becomes normal. */
  lemma MoveGrid(s: State, c: Color, p: Pos)
    requires WellFormed(s.grid) && Playable(s, c) && InBounds(p)
    ensures WellFormed(Resolve(s, c).0.grid)
    ensures At(Resolve(s, c).0.grid, p).color == if p in Region(s.grid) then c else At(s.grid, p).color
    ensures At(Resolve(s, c).0.grid, p).kind == At(s.grid, p).kind ||
            (Captures(s, c) && At(s.grid, p).kind == Star && At(Resolve(s, c).0.grid, p).kind == Normal)
  {
    FilledAt(s.grid, c, p);
    CaptureChangesOnlyTheStar(Filled(s.grid, c), p);
  }

  /** A board whose only change is a star turned normal, or no change of
      kind at all, keeps the placement invariants. */
  lemma SoundAfterStarRemoval(g: Grid, h: Grid)
    requires Sound(g) && WellFormed(h)
    requires forall p :: InBounds(p) ==>
      At(h, p).kind == At(g, p).kind || (At(g, p).kind == Star && At(h, p).kind == Normal)
    ensures Sound(h)
  {
    assert forall p :: InBounds(p) && At(h, p).kind == Obstacle ==> At(g, p).kind == Obstacle;
    assert forall p :: InBounds(p) && At(h, p).kind == Star ==> At(g, p).kind == Star;
  }

  /** How a played move ends: the level is complete exactly when the new
      board is, with a bonus for the moves that were left before the move;
      otherwise the game is over exactly when that was the last move, and
      every later move is ignored. */
  lemma MoveOutcome(s: State, c: Color)
    requires WellFormed(s.grid) && Playable(s, c)
    ensures Resolve(s, c).1 != Ignored
    ensures Resolve(s, c).1 == LevelComplete <==> IsLevelComplete(Resolve(s, c).0.grid)
    ensures Resolve(s, c).1 == LevelComplete ==> Resolve(s, c).0.moveRemainingBonus == RemainingBonus(s.moves)
    ensures Resolve(s, c).1 == GameOver <==> !IsLevelComplete(Resolve(s, c).0.grid) && s.moves == 1
    ensures Resolve(s, c).1 == GameOver ==>
      forall c' :: Resolve(Resolve(s, c).0, c').1 == Ignored
  {
    var t := Resolve(s, c).0;
    MoveGrid(s, c, Origin);
    if Resolve(s, c).1 == GameOver {
      forall c' ensures Resolve(t, c').1 == Ignored {
        IgnoredMoves(t, c');
      }
    }
  }

  /** The counter updates of a played move keep the session invariants on
      any rule-keeping board, and never lower the score. */
  lemma SettleKeepsValid(s: State, g: Grid, changedCells: int, captured: bool)
    requires ValidState(s) && Sound(g) && s.moves > 0 && changedCells >= 0
    ensures ValidState(Settle(s, g, changedCells, captured).0)
    ensures Settle(s, g, changedCells, captured).0.score >= s.score
  {
  }

  /** Once a move is played, the origin carries the chosen colour, so
      picking the same colour again is ignored. */
  lemma RepeatIsIgnored(s: State, c: Color)
    requires WellFormed(s.grid) && Playable(s, c) && At(s.grid, Origin).kind != Obstacle
    ensures Resolve(Resolve(s, c).0, c).1 == Ignored
  {
    RegionClosed(s.grid);
    MoveGrid(s, c, Origin);
    IgnoredMoves(Resolve(s, c).0, c);
  }

  /** Every move keeps the session invariants. */
  lemma MoveKeepsValid(s: State, c: Color)
    requires ValidState(s)
    ensures ValidState(Resolve(s, c).0)
  {
    if Playable(s, c) {
      var t := Resolve(s, c).0;
      forall p | InBounds(p)
        ensures At(t.grid, p).kind == At(s.grid, p).kind ||
                (At(s.grid, p).kind == Star && At(t.grid, p).kind == Normal)
      {
        MoveGrid(s, c, p);
      }
      MoveGrid(s, c, Origin);
      SoundAfterStarRemoval(s.grid, t.grid);
      MultiplierCountdown(s, c);
    }
  }

  /** The board half of a move: the fill, then the capture check on the
      filled board. */
  method PlayBoard(grid: Grid, c: Color) returns (newGrid: Grid, changedCells: nat, captured: bool)
    requires WellFormed(grid) && OriginColor(grid) != c
    ensures changedCells == |Region(grid)|
    ensures (newGrid, captured) == AfterCapture(Filled(grid, c))
  {
    newGrid, changedCells := FloodFillGrid(grid, c);
    newGrid, captured := CheckStarCapture(newGrid);
  }

  /** The session. Its fields are the React state the engine keeps. */
  class Session {
    var grid: Grid
    var moves: int
    var score: int
    var baseScore: int
    var level: int
    var multiplierTurnsLeft: int
    var moveRemainingBonus: int

    ghost function Snapshot(): State
      reads this
    {
      State(grid, moves, score, baseScore, level, multiplierTurnsLeft, moveRemainingBonus)
    }

    ghost predicate Valid()
      reads this
    {
      ValidState(Snapshot())
    }

    /** The state before the first game: an empty board and the initial
        counters. */
    constructor ()
      ensures grid == [] && moves == MaxMoves && score == 0 && baseScore == 0
      ensures level == 1 && multiplierTurnsLeft == 0 && moveRemainingBonus == 0
    {
      grid := [];
      moves := MaxMoves;
      score := 0;
      baseScore := 0;
      level := 1;
      multiplierTurnsLeft := 0;
      moveRemainingBonus := 0;
    }

    /** The player picks palette colour `newColor`. */
    method FloodFill(newColor: PaletteIndex) returns (outcome: Outcome)
      requires WellFormed(grid)
      modifies this
      ensures (Snapshot(), outcome) == Resolve(old(Snapshot()), Paint(newColor))
      ensures old(Valid()) ==> Valid()
    {
      if Valid() {
        MoveKeepsValid(Snapshot(), Paint(newColor));
      }
      if moves <= 0 {
        return Ignored;
      }
      var startColor := grid[0][0].color;
      if startColor == Paint(newColor) {
        return Ignored;
      }
      var newGrid, changedCells, captured := PlayBoard(grid, Paint(newColor));
      outcome := RecordMove(newGrid, changedCells, captured);
    }

    /** The state updates of a played move, given the board it produced,
        the number of cells its fill recoloured and whether it captured the
        star. */
    method RecordMove(newGrid: Grid, changedCells: int, captured: bool) returns (outcome: Outcome)
      requires WellFormed(newGrid)
      modifies this
      ensures (Snapshot(), outcome) == Settle(old(Snapshot()), newGrid, changedCells, captured)
    {
      var pointsEarned := Scaled(changedCells, multiplierTurnsLeft);
      // Each setter below takes its value from the state as the move began;
      // a later setter call for the same counter overrides an earlier one.
      var nextScore, nextBaseScore := score + pointsEarned, baseScore + pointsEarned;
      var nextMultiplier := multiplierTurnsLeft;
      if captured {
        var starBonus := Scaled(StarBonus, multiplierTurnsLeft);
        nextScore, nextBaseScore := score + starBonus, baseScore + starBonus;
        nextMultiplier := MultiplierTurns;
      }
      if multiplierTurnsLeft > 0 {
        nextMultiplier := multiplierTurnsLeft - 1;
      }
      if IsLevelComplete(newGrid) {
        moveRemainingBonus := RemainingBonus(moves);
        outcome := LevelComplete;
      } else if moves <= 1 {
        outcome := GameOver;
      } else {
        outcome := Continue;
      }
      grid := newGrid;
      moves := moves - 1;
      score, baseScore := nextScore, nextBaseScore;
      multiplierTurnsLeft := nextMultiplier;
    }

    /** Moves on to the next level: the bonus joins the score, the level
        score and the moves are reset, and a new board is drawn. The board
        is built for the level being left, since the level counter read by
        the board generator is the one from before this call. */
    method NextLevel(colours: seq<seq<PaletteIndex>>, obstacleDraws: seq<Pos>,
                     starRoll: real, starDraws: seq<Pos>)
      requires |colours| == GridSize && forall y :: 0 <= y < GridSize ==> |colours[y]| == GridSize
      requires forall d :: d in obstacleDraws ==> InBounds(d)
      requires forall d :: d in starDraws ==> InBounds(d)
      modifies this
      ensures score == old(score) + old(moveRemainingBonus)
      ensures baseScore == 0 && moves == MaxMoves && moveRemainingBonus == 0
      ensures level == old(level) + 1
      ensures multiplierTurnsLeft == old(multiplierTurnsLeft)
      ensures grid == Generated(old(level), colours, obstacleDraws, starRoll, starDraws)
      ensures Sound(grid)
      ensures |ObstacleSet(grid)| <= if ObstacleCount(old(level)) > 0 then ObstacleCount(old(level)) else 0
      ensures forall p :: InBounds(p) && At(grid, p).kind != Obstacle ==> At(grid, p).color == Paint(colours[p.y][p.x])
      ensures old(Valid()) ==> Valid()
    {
      var newGrid := InitializeGrid(level, colours, obstacleDraws, starRoll, starDraws);
      GeneratedIsSound(level, colours, obstacleDraws, starRoll, starDraws);
      score := score + moveRemainingBonus;
      baseScore := 0;
      level := level + 1;
      grid := newGrid;
      moves := MaxMoves;
      moveRemainingBonus := 0;
    }

    /** Starts a new game: counters back to their initial values and a new
        board, built for the level the previous game had reached. */
    method InitializeGame(colours: seq<seq<PaletteIndex>>, obstacleDraws: seq<Pos>,
                          starRoll: real, starDraws: seq<Pos>)
      requires |colours| == GridSize && forall y :: 0 <= y < GridSize ==> |colours[y]| == GridSize
      requires forall d :: d in obstacleDraws ==> InBounds(d)
      requires forall d :: d in starDraws ==> InBounds(d)
      modifies this
      ensures moves == MaxMoves && score == 0 && baseScore == 0 && moveRemainingBonus == 0
      ensures level == 1 && multiplierTurnsLeft == 0
      ensures grid == Generated(old(level), colours, obstacleDraws, starRoll, starDraws)
      ensures Valid()
      ensures |ObstacleSet(grid)| <= if ObstacleCount(old(level)) > 0 then ObstacleCount(old(level)) else 0
      ensures forall p :: InBounds(p) && At(grid, p).kind != Obstacle ==> At(grid, p).color == Paint(colours[p.y][p.x])
    {
      grid := InitializeGrid(level, colours, obstacleDraws, starRoll, starDraws);
      GeneratedIsSound(level, colours, obstacleDraws, starRoll, starDraws);
      moves := MaxMoves;
      score := 0;
      baseScore := 0;
      moveRemainingBonus := 0;
      level := 1;
      multiplierTurnsLeft := 0;
    }
  }
}
