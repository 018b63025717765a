# Battleship match engine — a Dafny model

This project models the match engine of a two-player battleship game,
found in backend/models. It has four classes.

- **Ship** knows which cells it covers from its anchor, size and orientation. It records hits without duplicates and decides whether it is sunk.
- **Board** owns the standard fleet of five ships, sized 5, 4, 3, 2 and 2. It enforces the placement rules: along-axis bounds, no overlap, and a one-cell gap checked over all eight neighbours. It resolves incoming shots against the fleet and keeps the log of shots received.
- **Player** owns a board and refers to the opponent's board as its target. It keeps the log of shots it fired. It also carries the scripted opponent's targeting rule: first an orthogonal neighbour of a hit on a ship still afloat, then an untried cell with even row+column, then any untried cell.
- **Game** is the state machine: setup, playing, finished. It holds the turn, the winner and the move history. A hit lets the shooter fire again, a miss passes the turn, defeat is checked after every shot, and each player gets a view that shows only the opponent's sunk ships.

Each class becomes a Dafny `class` holding the fields the engine updates. Board's `size` is the constant 10, and `isValidPosition` is the module-level predicate `Geometry.InBounds`. `initializeShips` is folded into the Board constructor. Game's timestamps are dropped.
Each method is proved against a specification on values.

| Dafny file | What it holds |
|---|---|
| `outcomes.dfy` | `Option`, `Result`, and the `Error` reasons for which operations throw. |
| `geometry.dfy` | The 10×10 grid, the cells a ship covers, and touching cells. |
| `ship.dfy` | `ShipValue` and its rules; the `Ship` class. |
| `board_rules.dfy` | The board rules on a fleet value: placement, shots, the separation invariant, sinking. |
| `board.dfy` | The `Board` class, proved against `BoardRules`. |
| `targeting.dfy` | The targeting rule and the shot statistics, on values. |
| `player.dfy` | The `Player` class. |
| `game_rules.dfy` | Laying out a submitted fleet, the turn rule, and the per-player view. |
| `game.dfy` | The `Game` class. |

Errors the source throws become `Err` results.

`Math.random` is an arbitrary choice within the source's drawn range or candidate list, written with `:|`. A random placement is therefore proved for every possible draw.

## Model

| member | source | states |
|---|---|---|
| Geometry.SegmentsAt | backend/models/Ship.js:18-25 | The list the position loop builds has `size` cells, and the i-th is the anchor moved i steps along the orientation. |
| Geometry.SegmentsMember | backend/models/Ship.js:30-32 | A cell is among a ship's cells iff it is the i-th segment for some i below the size. |
| Geometry.SegmentsDistinct | backend/models/Ship.js:18-25 | No ship covers the same cell twice. |
| Geometry.PlacementInBoundsIff | backend/models/Board.js:23-25 | A ship of positive length lies wholly on the board iff its anchor is on the board and its far end is at most 10 along its axis. |
| Geometry.CellAtIndex | backend/models/Player.js:115-116 | The row-major scan visits on-board cell (r, c) at step 10r + c, within the 100 steps. |
| ShipModel.ToJson | backend/models/Ship.js:62-73 | The serialised `isSunk` flag equals the ship's sunk state. |
| ShipModel.FromJson | backend/models/Ship.js:76-81 | Missing `hits` deserialise to no hits, and missing `placed` to an unplaced ship. |
| ShipModel.PositionsShape | backend/models/Ship.js:13-27 | An unplaced ship covers no cell. A placed ship covers exactly `size` cells, the i-th being (row, col+i) when horizontal and (row+i, col) when vertical. |
| ShipModel.OccupiesIff | backend/models/Ship.js:30-32 | occupiesPosition holds iff the cell is on the ship's line within its length; an unplaced ship occupies nothing. |
| ShipModel.PositionsDistinct | backend/models/Ship.js:13-27 | getPositions never repeats a cell. |
| ShipModel.AfterHitConsistent | backend/models/Ship.js:35-46 | receiveHit keeps the hits free of duplicates and on occupied cells. It changes nothing but the hits, and nothing at all for a cell the ship does not cover. A covered cell ends up among the hits. |
| ShipModel.AfterHitIdempotent | backend/models/Ship.js:39-43 | A second receiveHit on the same cell leaves the ship as the first one left it. |
| ShipModel.SunkIffAllHit | backend/models/Ship.js:49-51 | For a consistent ship, isSunk (placed and as many hits as cells) holds iff the ship is placed and every cell it covers has been hit. |
| ShipModel.JsonRoundTrip | backend/models/Ship.js:62-81 | fromJSON(toJSON(s)) restores id, size, row, col, orientation, hits and placed. |
| ShipModel.Ship.constructor | backend/models/Ship.js:2-10 | A new ship is unplaced and horizontal, with no anchor and no hits. |
| ShipModel.Ship.FromJSON | backend/models/Ship.js:76-81 | The object's fields are the deserialised value. |
| ShipModel.Ship.GetPositions | backend/models/Ship.js:13-27 | The loop yields the ship's cells: `size` of them when placed with an anchor, none otherwise. |
| ShipModel.Ship.OccupiesPosition | backend/models/Ship.js:30-32 | True iff the cell lies on the ship's line within its length. |
| ShipModel.Ship.ReceiveHit | backend/models/Ship.js:35-46 | Returns true iff the ship covers the cell. The new fields are AfterHit of the old ones: the cell is appended to the hits only if it is covered and not yet hit. |
| ShipModel.Ship.IsSunk | backend/models/Ship.js:49-51 | For a consistent ship: true iff placed and every covered cell has been hit. |
| ShipModel.Ship.Place | backend/models/Ship.js:54-59 | Sets the anchor, orientation and placed flag. Id, size and hits are unchanged. |
| ShipModel.Ship.ToJSON | backend/models/Ship.js:62-73 | The output deserialises back to the ship, and its isSunk flag is isSunk(). |
| BoardRules.FindShip | backend/models/Board.js:83-84 | Returns the index of the first ship with that id, or none when no ship has that id. |
| BoardRules.FirstShotAt | backend/models/Board.js:128-131 | Returns the index of the first logged shot at the cell; none iff the cell was never shot. |
| BoardRules.FirstOccupying | backend/models/Board.js:137-145 | Returns the index of the first ship in fleet order that covers the cell; none iff no ship covers it. |
| BoardRules.FirstOccupyingIs | backend/models/Board.js:137-145 | The loop's stopping index is the first covering ship. |
| BoardRules.FirstOccupyingNone | backend/models/Board.js:137-145 | A loop that meets no covering ship finds none. |
| BoardRules.InitialFleetFacts | backend/models/Board.js:12-20 | A new fleet has five unplaced ships with ids 1 to 5, sizes 5, 4, 3, 2, 2 and no hits. It is well placed and consistent, and not sunk. |
| BoardRules.NewBoardSound | backend/models/Board.js:4-20 | A new board, with the standard fleet and an empty log, is sound: every ship's hits are distinct cells it covers, and the log has no repeats. |
| BoardRules.CanPlaceMeans | backend/models/Board.js:36-79 | If canPlaceShip accepts: the along-axis extent fits, no cell of the ship is occupied by another placed ship, and no on-board neighbour of any cell is either. |
| BoardRules.PlacedApart | backend/models/Board.js:82-91 | A ship placed where canPlaceShip accepts is at Chebyshev distance 2 or more from every other ship, both ways round. |
| BoardRules.PlaceAtKeepsWellPlaced | backend/models/Board.js:82-91 | Placing an accepted ship whose cells are on the board keeps the fleet well placed: ids distinct, every ship on the board, and any two ships apart. |
| BoardRules.PlaceShipKeepsWellPlaced | backend/models/Board.js:82-91 | placeShip keeps a well-placed fleet well placed whenever the found ship's cells lie on the board. |
| BoardRules.PlaceShipOutcome | backend/models/Board.js:82-91 | placeShip succeeds iff a ship with that id exists and canPlaceShip accepts the first one. On failure nothing changes. On success only that ship's anchor, orientation and placed flag change. |
| BoardRules.PlaceShipKeepsConsistent | backend/models/Board.js:82-91 | On a fleet without hits, placeShip keeps every ship consistent and hit-free. |
| BoardRules.SingleEntry | backend/models/Board.js:128-148 | In a shot log without repeats, each cell has at most one entry. |
| BoardRules.ReceiveShotRepeat | backend/models/Board.js:126-131 | For a cell already in the log, receiveShot returns the isHit of the first logged entry for that cell, with alreadyShot set and no sunk ship, and changes neither the log nor any ship. When the log has no repeats, every entry for the cell carries that isHit. |
| BoardRules.ReceiveShotNew | backend/models/Board.js:133-150 | For a new cell: exactly one entry is appended, and the shot is a hit iff a placed ship covers the cell. Only the first such ship gains the hit, and a sunk ship is reported only if that ship is now sunk. |
| BoardRules.ReceiveShotKeepsInvariants | backend/models/Board.js:126-151 | receiveShot keeps the ships consistent, keeps the log free of repeated cells, keeps the fleet well placed, and never moves or renames a ship. |
| BoardRules.AllSunkIffEveryCellHit | backend/models/Board.js:154-156 | For a consistent fleet, areAllShipsSunk holds iff every ship is placed and every covered cell has been hit. |
| BoardRules.UnhitFleetNotSunk | backend/models/Board.js:154-156 | A non-empty fleet of non-empty ships with no hits is not all sunk. |
| BoardRules.CanPlaceAcceptsOffBoardRows | backend/models/Board.js:59-65 | canPlaceShip accepts a horizontal ship in row -1 or row 12, and neither placement is on the board: the bounds check covers only the ship's own axis. |
| BoardModel.FleetFromJson | backend/models/Board.js:176 | Each ship is deserialised from its entry, in order. |
| BoardModel.FleetToJson | backend/models/Board.js:167 | Each ship is serialised to its entry, in order. |
| BoardModel.DrawInBounds | backend/models/Board.js:109-114 | Every draw placeShipsRandomly can make for a ship of length at most 10 puts the ship entirely on the board. |
| BoardModel.Board.constructor | backend/models/Board.js:4-20 | A new board holds the standard fleet of five unplaced ships and an empty shot log. |
| BoardModel.Board.FromJSON | backend/models/Board.js:173-179 | The ships are deserialised (none when absent), and the shot log is copied (empty when absent). |
| BoardModel.Board.ToJSON | backend/models/Board.js:164-170 | Size 10, a ship list that deserialises back to the fleet, and the shot log. |
| BoardModel.Board.IsPositionOccupied | backend/models/Board.js:28-33 | True iff some placed ship, other than the excluded id, covers the cell. |
| BoardModel.Board.HasMinimumSeparation | backend/models/Board.js:36-56 | The loops answer true iff no on-board neighbour of any of the ship's cells is occupied. |
| BoardModel.Board.NeighbourhoodClear | backend/models/Board.js:42-53 | The two delta loops answer true iff none of the nine cells around a segment that lie on the board is occupied. |
| BoardModel.Board.CanPlaceShip | backend/models/Board.js:59-79 | Answers the placement rule: along-axis fit, no overlap, separation. |
| BoardModel.Board.PlaceShip | backend/models/Board.js:82-91 | The result and the new fleet are those of the placeShip rule, and the shot log is unchanged. A well-placed fleet stays well placed when the ship's cells are on the board. |
| BoardModel.Board.PlaceShipsRandomly | backend/models/Board.js:94-123 | The shot log is unchanged. Every ship keeps its id and size, is reset, and is placed or not with an anchor exactly when placed. The fleet is consistent, and well placed when the sizes fit and the ids are distinct. |
| BoardModel.Board.ResetShips | backend/models/Board.js:96-101 | Every ship becomes unplaced, without anchor and without hits, and keeps its other fields. |
| BoardModel.Board.PlaceRandomly | backend/models/Board.js:104-121 | The attempts loop leaves the ship reset. If it fails, the fleet is unchanged. If it succeeds, the ship lies at an anchor inside the drawn ranges (0..9 across, 0..10-size along the axis), and canPlaceShip accepted that anchor against the fleet as it was. The fleet stays well placed when the sizes fit. |
| BoardModel.Board.Attempt | backend/models/Board.js:116-119 | One attempt succeeds iff canPlaceShip accepts the draw. A refused draw changes nothing, and an accepted one places exactly that ship there. With a draw inside the ranges, the fleet stays well placed. |
| BoardModel.Board.ReceiveShot | backend/models/Board.js:126-151 | The new board and the answer are exactly those of the receiveShot rule. |
| BoardModel.Board.HitFirstShip | backend/models/Board.js:137-145 | A hit iff some ship covers the cell. Only the first such ship takes the hit, and it is reported as sunk iff it is now sunk. On a miss nothing changes. |
| BoardModel.Board.AreAllShipsSunk | backend/models/Board.js:154-156 | True iff every ship is sunk; for a consistent fleet, iff every ship is placed and every covered cell has been hit. |
| BoardModel.Board.GetShipAt | backend/models/Board.js:159-161 | Finds a ship iff some ship covers the cell; it is the first in fleet order, and it occupies the cell. |
| Targeting.FreeNeighbourSpec | backend/models/Player.js:91-104 | The answer is the neighbour in the first direction, from d on, whose cell is on the board and untried: every earlier direction's neighbour was already fired at or off the board. None is found iff all of them are. |
| Targeting.OrthogonalIsNeighbour | backend/models/Player.js:84-89 | The four directions are exactly the orthogonal neighbours. |
| Targeting.AdjacentTargetSpec | backend/models/Player.js:82-105 | The adjacent target is an untried on-board cell orthogonal to a hit. It is the first untried neighbour of the first hit, in order, that has one: every neighbour of an earlier hit was tried or off the board. There is none iff no hit has an untried neighbour. |
| Targeting.CandidatesMember | backend/models/Player.js:115-128 | After n steps of the row-major scan, a cell is listed iff it is among the first n cells and passes the filter. |
| Targeting.CandidatesOnBoard | backend/models/Player.js:115-143 | A full scan lists exactly the on-board cells that pass the filter. |
| Targeting.PoolSpec | backend/models/Player.js:112-147 | Every candidate is untried. All candidates have even row+col whenever an untried even cell exists. There are no candidates iff all 100 cells have been fired at. |
| Targeting.UnfinishedMembers | backend/models/Player.js:66-70 | The unfinished hits are exactly the logged hits that lie on a ship not yet sunk. |
| Targeting.UnfinishedAppend | backend/models/Player.js:66-70 | Extending the log by one shot extends the filtered list by that shot exactly when it passes the filter. |
| Targeting.BestShotUntried | backend/models/Player.js:62-79 | The cell calculateBestShot picks is on the board and was never fired at, so makeAIShot is never refused. |
| Targeting.CountHits | backend/models/Player.js:166 | The hit count is at most the log length. It is zero iff no shot hit, and equals the length iff every shot hit. |
| Targeting.CountHitsAppend | backend/models/Player.js:166 | One more shot adds one to the count iff it is a hit. |
| Targeting.Percent | backend/models/Player.js:167 | The accuracy is between 0 and 100 and equals hits·100/total exactly. |
| Targeting.StatsOf | backend/models/Player.js:164-175 | totalShots is the log length, hits is the number of hits, and misses is the rest. Accuracy is 0 for an empty log and the exact percentage otherwise. |
| PlayerModel.Player.constructor | backend/models/Player.js:4-11 | A new player has a standard board, no target and an empty log. |
| PlayerModel.Player.FromJSON | backend/models/Player.js:196-201 | The board is rebuilt from its data, the log is copied (empty when absent), and there is no target. |
| PlayerModel.Player.SetTargetBoard | backend/models/Player.js:14-16 | The target becomes the given board. |
| PlayerModel.Player.MakeShot | backend/models/Player.js:19-49 | Without a target board it errs. A cell already in the log is refused, changing nothing. Otherwise the target board receives the shot, exactly one entry with the board's isHit is appended, and the log stays free of repeats. A sound target board stays sound. |
| PlayerModel.Player.MakeAIShot | backend/models/Player.js:52-59 | Errs for a human player. For a scripted one it errs iff every cell was tried, changing nothing. Otherwise it fires at the cell calculateBestShot picks, which is untried, so the shot always lands. A sound target board stays sound. |
| PlayerModel.Player.CalculateBestShot | backend/models/Player.js:62-79 | The cell is the adjacent target when unfinished hits have an untried neighbour, and otherwise a checkerboard candidate. It errs iff every cell was tried. |
| PlayerModel.Player.IsUnfinished | backend/models/Player.js:67-70 | True iff the shot is a hit and the first ship on its cell is not sunk. |
| PlayerModel.Player.UnfinishedHits | backend/models/Player.js:66-70 | The two filters produce the logged hits on ships still afloat, in log order. |
| PlayerModel.Player.GetAdjacentTarget | backend/models/Player.js:82-109 | The answer is the first untried on-board orthogonal neighbour, taking hits in order and directions up, down, left, right. When there is none, it falls back to the checkerboard target. |
| PlayerModel.Player.GetRandomCheckerboardTarget | backend/models/Player.js:112-151 | Returns an on-board untried cell, with even row+col whenever an untried even cell exists. It errs iff all 100 cells were tried. |
| PlayerModel.Player.CollectCandidates | backend/models/Player.js:115-128 | The nested loops list, in row-major order, the untried cells, or only the even untried cells when evenOnly is set. |
| PlayerModel.Player.HasLost | backend/models/Player.js:154-156 | True iff every ship of the own board is sunk. |
| PlayerModel.Player.HasWon | backend/models/Player.js:159-161 | True iff there is a target board and all its ships are sunk. |
| PlayerModel.Player.GetStats | backend/models/Player.js:164-175 | totalShots is the log length and hits + misses = totalShots. hits counts the hits, and the accuracy is between 0 and 100. |
| PlayerModel.Player.ToJSON | backend/models/Player.js:178-193 | Id, name, isAI, the own board (deserialising to the same fleet and log), the shot log and the stats. The target board is present iff asked for and set. |
| GameRules.PlaceShipOnBoardKeepsWellPlaced | backend/models/Game.js:40-53 | With an on-board anchor, a placement keeps the fleet well placed, because the along-axis check then suffices. |
| GameRules.ArrangeKeepsInvariants | backend/models/Game.js:40-53 | The placement loop keeps ids, sizes, consistency and the absence of hits. It keeps the fleet well placed when every anchor is on the board, and the placement it stops at is one of those submitted. |
| GameRules.ArrangePlaces | backend/models/Game.js:40-53 | When no placement fails, the placed ships are exactly those already placed or whose id was submitted. |
| GameRules.SubmittedFleet | backend/models/Game.js:38-53 | A submission yields the five standard ships in order, without hits and consistent. They are well placed when every anchor is on the board, and placed exactly for the submitted ids when nothing failed. |
| GameRules.NextTurnAlternates | backend/models/Game.js:149-151 | The turn always becomes 1 or 2, always changes, and comes back after two switches. |
| GameRules.SunkShips | backend/models/Game.js:170-172 | Every entry is flagged sunk and serialises a sunk ship of the fleet, and every sunk ship is serialised. |
| GameRules.SunkShipsRevealOnlySunk | backend/models/Game.js:168-173 | Every ship exposed in the opponent's view decodes to a ship of the opponent's fleet that is sunk. |
| GameRules.Recent | backend/models/Game.js:176 | The recent moves are the last min(10, n) moves of the history. |
| GameModel.PlaceAll | backend/models/Game.js:40-53 | The loop leaves the board holding the arranged fleet, with its shot log unchanged, and reports the first refused placement. |
| GameModel.Game.constructor | backend/models/Game.js:5-30 | Setup, turn 1, no winner, no moves. Player 1 is human. Player 2 is the scripted "AI" in AI mode and an unnamed human otherwise. Both boards are standard, and each player's target is the other's board. The new game is sound. |
| GameModel.Game.NewPlayers | backend/models/Game.js:15-29 | The two players are fresh, with standard boards and linked targets. |
| GameModel.Game.FromJSON | backend/models/Game.js:182-195 | Fields are copied and the move history defaults to empty. Both players are rebuilt from their data, with their names and isAI, and the targets are linked again. |
| GameModel.Game.PlayersFromJSON | backend/models/Game.js:190-193 | The players are rebuilt from their data, names and isAI included, and cross-referenced. |
| GameModel.Game.AreAllShipsPlaced | backend/models/Game.js:71-75 | True iff every ship on both boards is placed. |
| GameModel.Game.SetPlayerShips | backend/models/Game.js:33-69 | The selected player's board is fresh and holds the submitted arrangement. The first refused placement throws, with status and targets unchanged and the other player's board untouched. On success the targets are linked. In AI mode, a submission by player 1 randomises the opponent's board and starts the game. In two-player mode the game starts iff both fleets are fully placed. A sound game stays sound. |
| GameModel.Game.InstallBoard | backend/models/Game.js:34-53 | The selected player gets a fresh board holding the arrangement; the other board is untouched. |
| GameModel.Game.Relink | backend/models/Game.js:55-56 | Afterwards each player's target is the other's board; no board's contents change. |
| GameModel.Game.Start | backend/models/Game.js:58-65 | In AI mode, player 1's submission randomises player 2's fleet and sets playing. In two-player mode the status becomes playing iff both fleets are placed. |
| GameModel.Game.MakeShot | backend/models/Game.js:77-121 | Throws and changes nothing when not playing, when it is not the caller's turn, or when the shooter already fired at the cell. Otherwise the target board receives the shot and one move is appended. The turn passes iff the shot missed. Player 1's defeat is checked first (winner 2), then player 2's (winner 1). When the targets are linked and neither fleet was sunk before, a finished game's winner is the shooter. A sound game with linked targets stays sound. |
| GameModel.Game.Fire | backend/models/Game.js:81-103 | The same outcome as makeShot once its two guards have passed. With linked targets it keeps the target board sound, and it keeps the shooter's log free of repeats. |
| GameModel.Game.Shoot | backend/models/Game.js:81-84 | The shooter's makeShot, its refusal turned into an error; the game's own fields are unchanged. It keeps a sound target board sound and the shooter's log free of repeats. |
| GameModel.Game.Record | backend/models/Game.js:86-103 | Appends the move, applies the defeat checks with player 1 first, and passes the turn iff the shot missed. |
| GameModel.Game.MakeAIShot | backend/models/Game.js:123-147 | Throws and changes nothing unless in AI mode on player 2's turn, and likewise for a human player 2 or when every cell was tried. Otherwise player 2 fires at its best, untried, cell and one move of player 2 is appended. The game finishes with winner 2 iff the target fleet is sunk, and the turn stays with 2 iff the shot hit. A sound game with linked targets stays sound. |
| GameModel.Game.AIShoot | backend/models/Game.js:127 | Player 2's makeAIShot as seen from the game: the cell chosen, the board updated and the log extended. A sound game with linked targets stays sound. |
| GameModel.Game.RecordAIShot | backend/models/Game.js:129-143 | Appends player 2's move, sets finished with winner 2 iff the target fleet is sunk, and passes the turn iff the shot missed. |
| GameModel.Game.SwitchTurn | backend/models/Game.js:149-151 | The turn always changes, to 1 or 2. |
| GameModel.Game.GetGameState | backend/models/Game.js:153-180 | Echoes the game's fields; isYourTurn iff currentTurn is the caller. The own fleet comes back in full. Of the opponent's fleet only the sunk ships appear, every sunk ship appears, and nothing afloat does. Both shot logs and both players' stats are included, and the recent moves are the last min(10, n). |

## Left out

- The AI timer and its callback in makeShot (backend/models/Game.js:107-118) are not modelled. They are scheduling and I/O. `GameModel.Game.MakeAIShot` is a separate operation the environment may call, and no liveness is claimed.
- `Math.random` is not modelled as a distribution. Each draw is an arbitrary value in the source's range or candidate list, so the contracts hold for every possible draw.
- Timestamps (`createdAt`, `updatedAt`, move and shot timestamps) are dropped.
- Board's `isValidPosition` (backend/models/Board.js:23-25) is not a method of the `Board` class. It is the module-level predicate `Geometry.InBounds`, because it reads nothing but the fixed size 10.
- Board's `initializeShips` (backend/models/Board.js:12-20) is not a separate method. The Board constructor builds the standard fleet itself, and `BoardRules.InitialFleet` is its value. Only the constructor calls it in the source.
- The `sunkShip` of a shot result is the ship's value, not a reference to the live Ship object.
- Targeting.StatsOf: the accuracy is the exact percentage. The source's floating-point rounding to two decimals is not modelled.
- PlayerModel.Player.GetStats: states the same exact accuracy, for the same reason.
- JSON is a field copy; no text format is modelled.
- Board.fromJSON's override of `size` from the data is not modelled. Every board is 10×10, the only size the engine creates.
- Orientation has two values. In the source, any string other than `'horizontal'` behaves as vertical.
- The placement bounds gap is kept as written, not repaired. canPlaceShip (backend/models/Board.js:59-65) checks bounds only along the ship's axis, so a negative anchor, or a horizontal ship in row 10 or beyond, is accepted (`BoardRules.CanPlaceAcceptsOffBoardRows`). The "every ship lies on the board" results are therefore conditional on on-board anchors (`GameRules.AnchorOnBoard`). The request handler in backend/controllers/GameController.js checks shot coordinates but not ship anchors; it is not part of this model.
- GameModel.Game.SetPlayerShips: the status is not checked beforehand, exactly as in the source. So in AI mode a later submission by player 1 sets the status to playing again, even after the game finished.
- A failed placement in setPlayerShips leaves the new board installed and the targets as they were, so the opponent's target may still be the replaced board. `Game.Valid` allows this; `Game.Linked` states when the targets are current.
- GameModel.Game.MakeAIShot: the status is not checked, as in the source.
- The constructor's `player2Name` argument is unused in the source and ignored here.
- The "Player not found" branch of setPlayerShips is dead: any id other than 1 selects player 2. It has no counterpart here.
- PlayerModel.Player.CalculateBestShot: without a target board the source fails reading `targetBoard.size`. The model returns the NoTargetBoard error instead. A game's players always have a target board.
- Game.fromJSON first builds a throw-away game and then replaces its players. Only the resulting state is modelled.
- Integers are unbounded. The engine's values stay far below any JavaScript number limit.
- Everything outside backend/models is not part of this model: the HTTP controller, sockets, services, persistence, the React views and the Java sources.
