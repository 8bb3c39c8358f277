# Colour Cascade engine in Dafny

A model of the game engine of Colour Cascade, a flood-fill puzzle on a 14x14
board. The player repeatedly picks one of five palette colours. Each pick
recolours the region joined to the top-left origin cell through cells of the
origin's colour. The goal is a single-coloured board within 25 moves. Obstacle
cells block the fill. A star cell, once surrounded by the origin's region,
pays a bonus and doubles the fill points for three moves.

The modules follow the engine's parts:

- `board.dfy` (`Board`): cells, colours, positions, the board as rows of
  cells, the Chebyshev range test and the on-board neighbour list.
- `paths.dfy` (`Paths`): walks through open cells (on the board, not an
  obstacle, of a given colour). Also the origin's region: every cell a walk
  from the origin reaches.
- `fill.dfy` (`Fill`): the stack-driven flood fill, proved to recolour
  exactly the origin's region and to count it.
- `connectivity.dfy` (`Connectivity`): the stack-and-visited-set search that
  decides whether a cell is joined back to the origin.
- `capture.dfy` (`Capture`): locating the star and the capture rule.
- `completion.dfy` (`Completion`): the level-completion test.
- `placement.dfy` (`Placement`): board generation, with the obstacle and
  star placement rules. The rounds of placement are stated as functions
  (`PlaceAll`, `WithStar`, `Generated`) that the methods are proved to
  compute. The do-while rejection loop, which the source writes out twice,
  is one method, `DrawUntilAllowed`, that takes the rule as a parameter.
- `game.dfy` (`Game`): how a move is resolved, the session counters (a class
  whose fields the moves update), the next level and a new game.

The source keeps its counters in React state. Every setter call in one move
computes from the values as they were when the move began. When a counter is
set twice, the later call wins. The model follows this literally (see
`Game.Settle` and `Game.Session.RecordMove`). Randomness is injected as
parameters: a colour index per cell, finite streams of candidate positions,
and the roll that decides whether a star is placed.

Some consequences of the code's setter order and data flow, which the
model follows literally:

- A captured star's bonus replaces the move's fill points, because the
  bonus's score setter runs after the fill's and both read the score from
  before the move.
- When the multiplier is still running, a capture's setting of it to 3 is
  overwritten: the countdown's setter runs last, so the count drops by one.
- The completion bonus is 25 times the moves left before the move. It is
  stored as the pending bonus and only joins the score at the next level.
- The completion test skips stars as well as obstacles. The level is
  complete when every normal cell has the origin's colour, whatever the
  star's colour.
- The board built by `nextLevel` and by `initializeGame` uses the level
  counter from before the call. A new game after reaching level 8 starts
  with a board made for level 8.

## Model

| member | source | states |
|---|---|---|
| Board.WithinRangeIff | game.js:32-34 | `IsWithinRange` holds exactly when the first point lies in the square of side 2 * range + 1 centred on the second |
| Board.Adjacent | game.js:36-40 | the list holds exactly the on-board orthogonal neighbours, at most four |
| Paths.RegionClosed | game.js:153-166 | the origin is in its own region exactly when it is not an obstacle; a step from the region to an open cell stays in the region |
| Paths.RegionLeast | game.js:153-166 | any set that holds the open origin and is closed under steps to open cells contains the whole region |
| Paths.ClosedContainsWalk | game.js:153-166 | a set closed under open steps contains the end of every walk that starts in it |
| Paths.JoinsSymmetric | game.js:221-244 | a walk through open cells can be walked backwards when its first cell is open |
| Fill.FilledAt | game.js:150-166 | after the fill, region cells have the new colour and every other cell is unchanged |
| Fill.FloodFillGrid | game.js:143-166 | the stack walk recolours exactly the origin's region, and its counter equals the region's size |
| Fill.FilledKeepsKinds | game.js:156-163 | the fill never changes a cell's kind, and never touches an obstacle |
| Fill.RecolouredIsRegion | game.js:156-163 | with a new colour, the cells whose colour changed are exactly the region, so each is counted once |
| Fill.FillSameColourIsIdentity | game.js:146-147 | filling with the origin's own colour leaves the board as it is |
| Fill.RegionGrows | game.js:143-166 | the region after a fill contains the region before it |
| Fill.WalkStaysInRegion | game.js:153-166 | every cell of an open walk from the origin lies in the region |
| Connectivity.OpenAmong | game.js:236-240 | keeps exactly the given cells that have the origin's colour and are not obstacles |
| Connectivity.PushOpen | game.js:235-240 | the inner loop pushes exactly the open neighbours, in order |
| Connectivity.IsConnectedToStart | game.js:221-244 | returns true exactly when a walk of open, origin-coloured cells leads from the start to the origin; the search terminates |
| Capture.FindStarIndex | game.js:202 | the index of the first star in a row, or -1 when the row has none |
| Capture.ScanRows | game.js:201-204 | the fold keeps the first star of the last row that has a star |
| Capture.LocateStar | game.js:198-204 | none exactly when the board has no star; otherwise the first star of the last row holding one |
| Capture.IsShielded | game.js:207-209 | a neighbour passes when it is an obstacle, or has the origin's colour and is joined to the origin |
| Capture.EveryShielded | game.js:206-210 | true exactly when every listed neighbour passes |
| Capture.CheckStarCapture | game.js:197-219 | the board and the capture flag are those of the capture rule; a captured star becomes a normal cell of the same colour |
| Capture.CapturedIffRegion | game.js:206-210 | with a usable origin, the star is captured exactly when each neighbour is an obstacle or in the origin's region |
| Capture.CaptureChangesOnlyTheStar | game.js:217 | the check changes no colour, and no kind except the captured star's, which becomes normal |
| Capture.NoStarNoCapture | game.js:198-199 | without a star the check changes nothing and captures nothing |
| Capture.CaptureOnce | game.js:197-219 | with at most one star, a second check without a move in between captures nothing and changes nothing |
| Capture.CaptureIffSurrounded | game.js:197-219 | `AfterCapture`: with a usable origin, a capture happens exactly when the board has a star and each of its neighbours is an obstacle or in the region; without a capture the board is unchanged |
| Completion.CompleteIffNormalCellsAgree | game.js:246-253 | `IsLevelComplete`: with a normal origin, the level is complete exactly when all normal cells share one colour |
| Completion.CompleteAfterFill | game.js:246-253 | a fill completes the level exactly when every normal cell outside the region already has the new colour |
| Placement.ObstacleSchedule | game.js:66 | `ObstacleCount`: levels 1-3 get no obstacle, 4-7 one, 8-11 two, later levels three |
| Placement.CountObstacles | game.js:94 | the count is zero exactly when none of the cells is an obstacle |
| Placement.ObstaclePositionIff | game.js:89-96 | `IsValidObstaclePosition`: a position is valid exactly when it is outside the origin's 2x2 block and has no obstacle neighbour |
| Placement.ObstacleCellMayBeChosen | game.js:89-96 | an existing obstacle outside that block passes the test, and placing there adds nothing |
| Placement.StarPositionIff | game.js:108-112 | `IsValidStarPosition`: a position is valid exactly when the cell is normal, outside the 6x6 origin block and outside the 4x4 far-corner block |
| Placement.SoundOriginIsNormal | game.js:89-112 | on a board that keeps the placement rules, the origin is neither an obstacle nor a star |
| Placement.PlaceObstacleStep | game.js:85 | one placement keeps the origin block clear and the obstacles apart, and adds at most one obstacle |
| Placement.FirstAllowedIs | game.js:80-83 | the rejection loop's stopping index is the one whose earlier draws are all refused and whose own draw, if any, is allowed |
| Placement.FirstAllowedRefuses | game.js:80-83 | every draw the rejection loop passes over before it stops fails the rule |
| Placement.DrawUntilAllowed | game.js:80-83 | the loop returns the index of the first allowed draw, or the end of the draws |
| Placement.PlaceAllKeepsRules | game.js:77-87 | the obstacle rounds place at most the requested number, only at drawn cells, and keep the origin block clear and the obstacles apart |
| Placement.PlaceObstacles | game.js:77-87 | the board and count are those of the rounds: each of the `count` rounds makes the first valid draw after the previous round's an obstacle, and the rounds stop short only when the draws run out |
| Placement.PlaceStarCell | game.js:98-106 | the board is that of the star round: the first valid draw becomes a star with its colour kept; with no valid draw the board is unchanged |
| Placement.PlaceStarStep | game.js:105 | turning a valid cell of a starless, rule-keeping board into a star keeps all placement rules |
| Placement.FreshGrid | game.js:58-63 | every cell is normal and has the drawn palette colour |
| Placement.ObstacleBoardIsSound | game.js:57-67 | the rounds on a fresh board keep all placement rules, add at most the requested gray obstacles, and keep the drawn colour elsewhere |
| Placement.StarBoardIsSound | game.js:69-72 | the star round on a starless, rule-keeping board keeps the rules and changes no colour and no obstacle |
| Placement.GeneratedIsSound | game.js:57-75 | a generated board keeps all placement rules, has at most the level's obstacle count, keeps the drawn colours off obstacles, and has no star when the roll misses |
| Placement.InitializeGrid | game.js:57-75 | the board is the generated one: fresh colours, the level's obstacle rounds, then the star round exactly when the roll is below 0.2 |
| Game.IgnoredMoves | game.js:143-147 | a move is ignored exactly when no moves are left or the colour is the origin's; an ignored move changes nothing |
| Game.MoveBookkeeping | game.js:168-173 | a played move spends one move and keeps the level; score and level score gain the same amount: fill points, or the star bonus in their place on a capture |
| Game.ScoreRises | game.js:168-173 | a played move strictly raises the score and the level score |
| Game.MultiplierCountdown | game.js:176-179 | a running multiplier drops by one even on a capture; an idle one becomes 3 exactly on a capture; it stays within 0..3 |
| Game.MoveGrid | game.js:149-175 | after a move, the region has the new colour, other cells keep theirs, and kinds are kept except a captured star |
| Game.SoundAfterStarRemoval | game.js:217 | turning a star normal keeps the placement rules |
| Game.MoveOutcome | game.js:181-194 | level complete exactly when the new board is, with bonus 25 per move left before the move; otherwise game over exactly on the last move, after which every move is ignored |
| Game.SettleKeepsValid | game.js:168-194 | `Settle`: the counter updates of a played move keep moves, multiplier, scores and bonus within the session invariants and never lower the score |
| Game.RepeatIsIgnored | game.js:143-195 | `Resolve`: after a played move the origin has the chosen colour, so picking it again is ignored |
| Game.MoveKeepsValid | game.js:143-195 | every move keeps the session invariants: sound board, moves in 0..25, multiplier in 0..3, 0 <= level score <= score |
| Game.PlayBoard | game.js:149-175 | the board after the fill and the capture check, and the fill's count |
| Game.Session.RecordMove | game.js:168-194 | the counters after a move are those of the snapshot-and-last-write rule |
| Game.Session.FloodFill | game.js:143-195 | the session after a move is the resolved state, and the move keeps the session invariants |
| Game.Session.NextLevel | game.js:255-265 | the bonus joins the score; level score, moves and bonus reset; the level goes up by one; the new board is the one generated for the previous level |
| Game.Session.InitializeGame | game.js:114-126 | counters back to the start, multiplier 0, and the rule-keeping board generated for the previous level |
| Game.Session.constructor | game.js:43-54 | the initial state: empty board, 25 moves, zero scores, level 1 |

## Left out

- Rendering (the grid, the info panel, the menu and the dialogs), the CSS
  and the animations: presentation only.
- The game state machine (menu, playing, level complete, game over), the
  2-second delays and the animation flags. A move returns an `Outcome`
  instead.
- The keyboard listener and the key-to-colour mapping: event plumbing. A
  move takes a palette index.
- The high score, which is never updated.
- `Math.random`: colours, candidate positions and the star roll are
  parameters.
- Placement.PlaceObstacles: the rejection loops draw from a finite stream
  and stop when it runs out. The source's loops draw without end, and
  showing that they stop would need probabilistic reasoning.
- Placement.PlaceStarCell: the same finite-stream stand-in for the
  rejection loop.
- In-place updates of the nested arrays are modelled as replacing a board
  value. The fill and the board generator mutate fresh copies. The one
  mutation of a board already handed to `setGrid` (game.js:168) is the
  capture at game.js:217, inside the same move (game.js:175). The model
  stores the post-capture board and does not model that aliasing.
- Colours are palette indices rather than hex strings, and obstacles have a
  separate gray colour. Counters are unbounded integers rather than
  JavaScript numbers, which stay exact at these sizes.
