/** backend/models/Player.js: a participant with an own board, a reference
    to the opponent's board and the log of shots fired. */
module PlayerModel {
  import opened Outcomes
  import opened Geometry
  import opened ShipModel
  import opened BoardRules
  import opened BoardModel
  import opened Targeting

  /** The two answers of makeShot that do not throw. */
  datatype ShotReport =
    | Refused   // success: false, "Already shot at this position"
    | Landed(row: int, col: int, isHit: bool, sunkShip: Option<ShipValue>, alreadyShot: bool)

  /** Player.toJSON / fromJSON data (timestamps of the logged shots omitted). */
  datatype PlayerJson = PlayerJson(id: int, name: Option<string>, isAI: bool, board: BoardJson,
                                   lastShots: Option<seq<Shot>>, stats: Stats,
                                   targetBoard: Option<BoardJson>)

  /** Every on-board cell has been fired at. */
  ghost predicate Exhausted(shots: seq<Shot>) {
    forall r, c :: InBounds(r, c) ==> Fired(shots, r, c)
  }

  class Player {
    const id: int
    const name: Option<string>
    const isAI: bool
    var board: Board
    var targetBoard: Board?
    var lastShots: seq<Shot>

    ghost predicate Valid()
      reads this
    {
      board.Valid() && (targetBoard != null ==> targetBoard.Valid())
    }

    /** The objects a shot of this player may change. */
    ghost function TargetRepr(): set<object>
      reads this
    {
      if targetBoard == null then {} else targetBoard.Repr()
    }

    /** constructor: a fresh standard board, no target, an empty log. */
    constructor (id: int, name: Option<string>, isAI: bool)
      ensures Valid() && fresh(board.Repr())
      ensures this.id == id && this.name == name && this.isAI == isAI
      ensures board.Value() == BoardValue(InitialFleet(), []) && targetBoard == null && lastShots == []
    {
      this.id := id;
      this.name := name;
      this.isAI := isAI;
      board := new Board();
      targetBoard := null;
      lastShots := [];
    }

    /** Player.fromJSON: the board rebuilt through Board.fromJSON, the shot log
        copied (an empty one when absent); no target board. */
    constructor FromJSON(data: PlayerJson)
      ensures Valid() && fresh(board.Repr())
      ensures id == data.id && name == data.name && isAI == data.isAI && targetBoard == null
      ensures board.Value() == BoardValue(FleetFromJson(data.board.ships.GetOr([])), data.board.shots.GetOr([]))
      ensures lastShots == data.lastShots.GetOr([])
    {
      id := data.id;
      name := data.name;
      isAI := data.isAI;
      board := new Board.FromJSON(data.board);
      targetBoard := null;
      lastShots := data.lastShots.GetOr([]);
    }

    /** setTargetBoard. Every Board satisfies Valid from its constructor on. */
    method SetTargetBoard(b: Board?)
      requires b != null ==> b.Valid()
      requires Valid()
      modifies this`targetBoard
      ensures Valid() && targetBoard == b
    {
      targetBoard := b;
    }

    /** makeShot: throws without a target board; refuses a cell already in
        the log; otherwise the target board receives the shot and the log
        gains one entry with its outcome. */
    method MakeShot(row: int, col: int) returns (r: Result<ShotReport>)
      requires Valid()
      modifies this`lastShots, TargetRepr()
      ensures Valid()
      ensures targetBoard == null ==> r == Err(NoTargetBoard) && lastShots == old(lastShots)
      ensures targetBoard != null && Fired(old(lastShots), row, col) ==>
        r == Ok(Refused) && lastShots == old(lastShots) && targetBoard.Value() == old(targetBoard.Value())
      ensures targetBoard != null && !Fired(old(lastShots), row, col) ==>
        var rec := BoardRules.ReceiveShot(old(targetBoard.Value()), row, col);
        && targetBoard.Value() == rec.board
        && lastShots == old(lastShots) + [Shot(row, col, rec.result.isHit)]
        && r == Ok(Landed(row, col, rec.result.isHit, rec.result.sunkShip, rec.result.alreadyShot))
      ensures ShotsUnique(old(lastShots)) ==> ShotsUnique(lastShots)
      ensures targetBoard != null && SoundBoard(old(targetBoard.Value())) ==> SoundBoard(targetBoard.Value())
      ensures targetBoard == null || Fired(old(lastShots), row, col) ==> unchanged(this) && unchanged(TargetRepr())
    {
      if targetBoard == null {
        return Err(NoTargetBoard);
      }
      ReceiveShotKeepsInvariants(targetBoard.Value(), row, col);
      var alreadyShot := FirstShotAt(lastShots, row, col).Some?;
      if alreadyShot {
        return Ok(Refused);
      }
      var result := targetBoard.ReceiveShot(row, col);
      lastShots := lastShots + [Shot(row, col, result.isHit)];
      r := Ok(Landed(row, col, result.isHit, result.sunkShip, result.alreadyShot));
    }

    /** makeAIShot: only for a scripted player; shoots at calculateBestShot's
        cell, which is never one already in the log, so the shot always lands. */
    method MakeAIShot() returns (r: Result<ShotReport>)
      requires Valid()
      modifies this`lastShots, TargetRepr()
      ensures Valid()
      ensures !isAI ==> r == Err(NotAI) && lastShots == old(lastShots)
      ensures isAI && targetBoard == null ==> r == Err(NoTargetBoard) && lastShots == old(lastShots)
      ensures isAI && targetBoard != null ==>
        (r.Err? <==> Exhausted(old(lastShots))) &&
        (r.Err? ==> r.error == NoAvailablePositions && lastShots == old(lastShots) &&
                    targetBoard.Value() == old(targetBoard.Value()))
      ensures r.Err? ==> unchanged(this) && unchanged(TargetRepr())
      ensures isAI && targetBoard != null && r.Ok? ==> r.value.Landed?
      ensures isAI && targetBoard != null && r.Ok? && r.value.Landed? ==>
        var c := Cell(r.value.row, r.value.col);
        var rec := BoardRules.ReceiveShot(old(targetBoard.Value()), c.row, c.col);
        && BestShot(old(lastShots), old(targetBoard.Fleet()), c)
        && Untried(old(lastShots), c)
        && targetBoard.Value() == rec.board
        && lastShots == old(lastShots) + [Shot(c.row, c.col, rec.result.isHit)]
        && r.value.isHit == rec.result.isHit && r.value.sunkShip == rec.result.sunkShip
      ensures ShotsUnique(old(lastShots)) ==> ShotsUnique(lastShots)
      ensures targetBoard != null && SoundBoard(old(targetBoard.Value())) ==> SoundBoard(targetBoard.Value())
    {
      if !isAI {
        return Err(NotAI);
      }
      var best := CalculateBestShot();
      if best.Err? {
        return Err(best.error);
      }
      BestShotUntried(lastShots, targetBoard.Fleet(), best.value);
      r := MakeShot(best.value.row, best.value.col);
    }

    /** calculateBestShot: adjacent targeting around the hits whose ship is
        still afloat, checkerboard targeting when there are none. */
    method CalculateBestShot() returns (r: Result<Cell>)
      requires Valid()
      ensures targetBoard == null ==> r == Err(NoTargetBoard)
      ensures targetBoard != null ==>
        (r.Ok? ==> BestShot(lastShots, targetBoard.Fleet(), r.value)) &&
        (r.Err? ==> r.error == NoAvailablePositions) &&
        (r.Err? <==> Exhausted(lastShots))
    {
      if targetBoard == null {
        return Err(NoTargetBoard);
      }
      var unfinished := UnfinishedHits();
      PoolSpec(lastShots);
      if |unfinished| > 0 {
        AdjacentTargetSpec(unfinished, lastShots);
        r := GetAdjacentTarget(unfinished);
      } else {
        r := GetRandomCheckerboardTarget();
      }
    }

    /** The test of both filters for one logged shot: a hit whose cell
        getShipAt maps to a ship that is not sunk. */
    function IsUnfinished(shot: Shot): (b: bool)
      requires targetBoard != null && targetBoard.Valid()
      reads this, targetBoard, targetBoard.hulls
      ensures b == (shot.isHit && OnAfloatShip(targetBoard.Fleet(), shot))
    {
      shot.isHit &&
      match targetBoard.GetShipAt(shot.row, shot.col)
      case None => false
      case Some(ship) => !ship.IsSunk()
    }

    /** The two filters of calculateBestShot: the logged hits whose cell
        getShipAt maps to a ship that is not sunk. */
    method UnfinishedHits() returns (unfinished: seq<Shot>)
      requires Valid() && targetBoard != null
      ensures unfinished == Unfinished(lastShots, targetBoard.Fleet())
    {
      ghost var f := targetBoard.Fleet();
      unfinished := [];
      var i := 0;
      while i < |lastShots|
        invariant 0 <= i <= |lastShots|
        invariant unfinished == Unfinished(lastShots[..i], f)
      {
        assert lastShots[..i + 1] == lastShots[..i] + [lastShots[i]];
        UnfinishedAppend(lastShots[..i], f, lastShots[i]);
        if IsUnfinished(lastShots[i]) {
          unfinished := unfinished + [lastShots[i]];
        }
        i := i + 1;
      }
      assert lastShots[..i] == lastShots;
    }

    /** getAdjacentTarget: the hits in order, for each the directions up,
        down, left, right; the first on-board neighbour not in the log, or
        the checkerboard target when there is none. */
    method GetAdjacentTarget(hits: seq<Shot>) returns (r: Result<Cell>)
      requires Valid()
      ensures AdjacentTarget(hits, lastShots).Some? ==> r == Ok(AdjacentTarget(hits, lastShots).value)
      ensures AdjacentTarget(hits, lastShots).None? ==> CheckerboardAnswer(r)
    {
      var k := 0;
      while k < |hits|
        invariant 0 <= k <= |hits|
        invariant AdjacentTarget(hits, lastShots) == AdjacentTarget(hits[k..], lastShots)
      {
        assert hits[k..][0] == hits[k] && hits[k..][1..] == hits[k + 1..];
        var hit := hits[k];
        var d := 0;
        while d < |Directions|
          invariant 0 <= d <= |Directions|
          invariant FreeNeighbour(hit, lastShots, 0) == FreeNeighbour(hit, lastShots, d)
        {
          var newRow := hit.row + Directions[d].row;
          var newCol := hit.col + Directions[d].col;
          if InBounds(newRow, newCol) {
            var alreadyShot := FirstShotAt(lastShots, newRow, newCol).Some?;
            if !alreadyShot {
              return Ok(Cell(newRow, newCol));
            }
          }
          d := d + 1;
        }
        k := k + 1;
      }
      r := GetRandomCheckerboardTarget();
    }

    /** What getRandomCheckerboardTarget may answer. */
    ghost predicate CheckerboardAnswer(r: Result<Cell>)
      reads this
    {
      if targetBoard == null then r == Err(NoTargetBoard)
      else if Pool(lastShots) == [] then r == Err(NoAvailablePositions)
      else r.Ok? && r.value in Pool(lastShots)
    }

    /** getRandomCheckerboardTarget: a cell drawn from the untried even cells,
        or from all untried cells when no even one is left; the draw is an
        arbitrary choice among them. */
    method GetRandomCheckerboardTarget() returns (r: Result<Cell>)
      requires Valid()
      ensures CheckerboardAnswer(r)
      ensures r.Ok? ==> Untried(lastShots, r.value)
      ensures targetBoard != null ==> (r.Err? <==> Exhausted(lastShots))
    {
      if targetBoard == null {
        return Err(NoTargetBoard);
      }
      PoolSpec(lastShots);
      var available := CollectCandidates(true);
      if |available| == 0 {
        available := CollectCandidates(false);
      }
      if |available| == 0 {
        return Err(NoAvailablePositions);
      }
      var index :| 0 <= index < |available|;
      r := Ok(available[index]);
    }

    /** One pass of the nested row/column loops of getRandomCheckerboardTarget
        (with the parity filter when evenOnly). */
    method CollectCandidates(evenOnly: bool) returns (cells: seq<Cell>)
      ensures cells == Candidates(lastShots, evenOnly, Size * Size)
    {
      cells := [];
      var row := 0;
      while row < Size
        invariant 0 <= row <= Size
        invariant cells == Candidates(lastShots, evenOnly, row * Size)
      {
        var col := 0;
        while col < Size
          invariant 0 <= col <= Size
          invariant cells == Candidates(lastShots, evenOnly, row * Size + col)
        {
          CellAtIndex(row, col);
          if (!evenOnly || (row + col) % 2 == 0) && FirstShotAt(lastShots, row, col).None? {
            cells := cells + [Cell(row, col)];
          }
          col := col + 1;
        }
        row := row + 1;
      }
    }

    /** hasLost: every ship of the own board is sunk. */
    function HasLost(): (b: bool)
      requires Valid()
      reads this, board, board.hulls
      ensures b <==> AllSunk(board.Fleet())
    {
      board.AreAllShipsSunk()
    }

    /** hasWon: there is a target board and every ship on it is sunk. */
    function HasWon(): (b: bool)
      requires Valid()
      reads this, targetBoard
      reads if targetBoard == null then {} else targetBoard.hulls
      ensures b <==> targetBoard != null && AllSunk(targetBoard.Fleet())
    {
      targetBoard != null && targetBoard.AreAllShipsSunk()
    }

    /** getStats over the shot log. */
    function GetStats(): (s: Stats)
      reads this
      ensures s.totalShots == |lastShots| && s.hits + s.misses == s.totalShots
      ensures s.hits == CountHits(lastShots) && 0.0 <= s.accuracy <= 100.0
    {
      StatsOf(lastShots)
    }

    /** toJSON: identity, own board, shot log and statistics, plus the target
        board when asked for and present. fromJSON rebuilds the same board
        and log from it. */
    function ToJSON(includeTargetBoard: bool): (j: PlayerJson)
      requires Valid()
      reads this, board, board.hulls, targetBoard
      reads if targetBoard == null then {} else targetBoard.hulls
      ensures j.id == id && j.name == name && j.isAI == isAI
      ensures FleetFromJson(j.board.ships.GetOr([])) == board.Fleet() && j.board.shots.GetOr([]) == board.shots
      ensures j.lastShots.GetOr([]) == lastShots && j.stats == GetStats()
      ensures j.targetBoard.Some? <==> includeTargetBoard && targetBoard != null
    {
      PlayerJson(id, name, isAI, board.ToJSON(), Some(lastShots), GetStats(),
                 if includeTargetBoard && targetBoard != null then Some(targetBoard.ToJSON()) else None)
    }
  }
}
