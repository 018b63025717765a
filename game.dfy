/** backend/models/Game.js: the match state machine (setup, playing,
    finished), the turn, the winner and the move history, over two players
    whose target references point at each other's board. */
module GameModel {
  import opened Outcomes
  import opened Geometry
  import opened ShipModel
  import opened BoardRules
  import opened BoardModel
  import opened Targeting
  import opened PlayerModel
  import opened GameRules

  /** getGameState's answer (timestamps omitted). */
  datatype GameState = GameState(
    gameId: string,
    status: Status,
    currentTurn: int,
    isYourTurn: bool,
    winner: Option<int>,
    isVsAI: bool,
    yourShips: seq<ShipJson>,
    yourShots: seq<Shot>,
    opponentShots: seq<Shot>,
    opponentSunkShips: seq<ShipJson>,
    yourStats: Stats,
    opponentStats: Stats,
    recentMoves: seq<Move>)

  /** The data Game.fromJSON reads. */
  datatype GameJson = GameJson(id: string, status: Status, currentTurn: int, winner: Option<int>,
                               isVsAI: bool, moveHistory: Option<seq<Move>>,
                               player1: PlayerJson, player2: PlayerJson)

  /** The boards are the same object or share no object. */
  ghost predicate Separate(a: Board, b: Board) {
    a == b || a.Repr() !! b.Repr()
  }

  /** The placement loop of setPlayerShips on a fresh board: placeShip for
      each submitted ship in order, stopping at the first refusal. */
  method PlaceAll(b: Board, ships: seq<ShipPlacement>) returns (failed: Option<ShipPlacement>)
    requires b.Valid()
    modifies b.Repr()
    ensures b.Fleet() == Arrange(old(b.Fleet()), ships).fleet && b.shots == old(b.shots)
    ensures failed == Arrange(old(b.Fleet()), ships).failed
  {
    ghost var start := b.Fleet();
    var i := 0;
    while i < |ships|
      invariant 0 <= i <= |ships|
      invariant b.shots == old(b.shots)
      invariant Arrange(b.Fleet(), ships[i..]) == Arrange(start, ships)
    {
      assert ships[i..][0] == ships[i] && ships[i..][1..] == ships[i + 1..];
      var s := ships[i];
      var ok := b.PlaceShip(s.id, s.row, s.col, s.orientation);
      if !ok {
        return Some(s);
      }
      i := i + 1;
    }
    failed := None;
  }

  class Game {
    const id: string
    const isVsAI: bool
    const player1: Player
    const player2: Player
    var status: Status
    var currentTurn: int
    var winner: Option<int>
    var moveHistory: seq<Move>

    ghost function Repr(): set<object>
      reads this, player1, player2
    {
      {this, player1, player2} + player1.board.Repr() + player2.board.Repr() +
      player1.TargetRepr() + player2.TargetRepr()
    }

    /** Two distinct valid players, both with a target board; the four
        boards involved are pairwise the same object or share none, and the
        own boards are distinct. Target boards may be stale (see
        SetPlayerShips); Linked says when they are not. */
    ghost predicate Valid()
      reads this, player1, player2
    {
      && player1 != player2
      && player1.Valid() && player2.Valid()
      && player1.targetBoard != null && player2.targetBoard != null
      && player1.board.Repr() !! player2.board.Repr()
      && Separate(player1.board, player1.targetBoard) && Separate(player1.board, player2.targetBoard)
      && Separate(player2.board, player1.targetBoard) && Separate(player2.board, player2.targetBoard)
      && Separate(player1.targetBoard, player2.targetBoard)
    }

    /** Each player's target is the other player's board. */
    ghost predicate Linked()
      reads this, player1, player2
    {
      player1.targetBoard == player2.board && player2.targetBoard == player1.board
    }

    /** The invariants the shooting rules keep: every ship's hits are
        distinct cells it covers, and neither a board's log of received shots
        nor a player's log of shots fired holds a cell twice. */
    ghost predicate Sound()
      requires player1.Valid() && player2.Valid()
      reads player1, player2, player1.board, player2.board, player1.board.hulls, player2.board.hulls
    {
      SoundBoard(player1.board.Value()) && SoundBoard(player2.board.Value()) &&
      ShotsUnique(player1.lastShots) && ShotsUnique(player2.lastShots)
    }

    /** `playerId === 1 ? this.player1 : this.player2`. */
    function Shooter(playerId: int): Player {
      if playerId == 1 then player1 else player2
    }

    /** The player not selected by playerId. */
    function Other(playerId: int): Player {
      if playerId == 1 then player2 else player1
    }

    /** constructor: setup, turn 1, no winner, no moves; player 2 is the
        scripted opponent named 'AI' in AI mode and an unnamed human
        otherwise (the player2Name argument is not used); the targets are
        linked. */
    constructor (id: string, player1Name: Option<string>, player2Name: Option<string>, isVsAI: bool)
      ensures Valid() && Linked()
      ensures fresh(player1) && fresh(player2) && fresh(player1.board.Repr()) && fresh(player2.board.Repr())
      ensures this.id == id && this.isVsAI == isVsAI
      ensures status == Setup && currentTurn == 1 && winner == None && moveHistory == []
      ensures player1.id == 1 && player1.name == player1Name && !player1.isAI
      ensures player2.id == 2 && player2.isAI == isVsAI && player2.name == (if isVsAI then Some("AI") else None)
      ensures player1.board.Value() == BoardValue(InitialFleet(), []) && player1.lastShots == []
      ensures player2.board.Value() == BoardValue(InitialFleet(), []) && player2.lastShots == []
      ensures Sound()
    {
      NewBoardSound();
      this.id := id;
      this.isVsAI := isVsAI;
      status := Setup;
      currentTurn := 1;
      winner := None;
      moveHistory := [];
      var p1, p2 := NewPlayers(player1Name, isVsAI);
      player1, player2 := p1, p2;
    }

    /** The two players of a new game, their targets linked. */
    static method NewPlayers(player1Name: Option<string>, isVsAI: bool) returns (p1: Player, p2: Player)
      ensures fresh(p1) && fresh(p2) && fresh(p1.board.Repr()) && fresh(p2.board.Repr())
      ensures p1 != p2 && p1.Valid() && p2.Valid() && p1.board.Repr() !! p2.board.Repr()
      ensures p1.targetBoard == p2.board && p2.targetBoard == p1.board
      ensures p1.id == 1 && p1.name == player1Name && !p1.isAI
      ensures p2.id == 2 && p2.isAI == isVsAI && p2.name == (if isVsAI then Some("AI") else None)
      ensures p1.board.Value() == BoardValue(InitialFleet(), []) && p1.lastShots == []
      ensures p2.board.Value() == BoardValue(InitialFleet(), []) && p2.lastShots == []
    {
      p1 := new Player(1, player1Name, false);
      p2 := new Player(2, if isVsAI then Some("AI") else None, isVsAI);
      p1.SetTargetBoard(p2.board);
      p2.SetTargetBoard(p1.board);
    }

    /** Game.fromJSON: fields copied, both players rebuilt through
        Player.fromJSON, and the targets linked again. */
    constructor FromJSON(data: GameJson)
      ensures Valid() && Linked()
      ensures fresh(player1) && fresh(player2) && fresh(player1.board.Repr()) && fresh(player2.board.Repr())
      ensures id == data.id && isVsAI == data.isVsAI && status == data.status
      ensures currentTurn == data.currentTurn && winner == data.winner
      ensures moveHistory == data.moveHistory.GetOr([])
      ensures player1.id == data.player1.id && player2.id == data.player2.id
      ensures player1.name == data.player1.name && player1.isAI == data.player1.isAI
      ensures player2.name == data.player2.name && player2.isAI == data.player2.isAI
      ensures player1.board.Value() ==
              BoardValue(FleetFromJson(data.player1.board.ships.GetOr([])), data.player1.board.shots.GetOr([]))
      ensures player2.board.Value() ==
              BoardValue(FleetFromJson(data.player2.board.ships.GetOr([])), data.player2.board.shots.GetOr([]))
      ensures player1.lastShots == data.player1.lastShots.GetOr([])
      ensures player2.lastShots == data.player2.lastShots.GetOr([])
    {
      id := data.id;
      isVsAI := data.isVsAI;
      status := data.status;
      currentTurn := data.currentTurn;
      winner := data.winner;
      moveHistory := data.moveHistory.GetOr([]);
      var p1, p2 := PlayersFromJSON(data.player1, data.player2);
      player1, player2 := p1, p2;
    }

    /** Player.fromJSON for both players, then the two setTargetBoard calls. */
    static method PlayersFromJSON(d1: PlayerJson, d2: PlayerJson) returns (p1: Player, p2: Player)
      ensures fresh(p1) && fresh(p2) && fresh(p1.board.Repr()) && fresh(p2.board.Repr())
      ensures p1 != p2 && p1.Valid() && p2.Valid() && p1.board.Repr() !! p2.board.Repr()
      ensures p1.targetBoard == p2.board && p2.targetBoard == p1.board
      ensures p1.id == d1.id && p2.id == d2.id
      ensures p1.name == d1.name && p1.isAI == d1.isAI && p2.name == d2.name && p2.isAI == d2.isAI
      ensures p1.board.Value() == BoardValue(FleetFromJson(d1.board.ships.GetOr([])), d1.board.shots.GetOr([]))
      ensures p2.board.Value() == BoardValue(FleetFromJson(d2.board.ships.GetOr([])), d2.board.shots.GetOr([]))
      ensures p1.lastShots == d1.lastShots.GetOr([]) && p2.lastShots == d2.lastShots.GetOr([])
    {
      p1 := new Player.FromJSON(d1);
      p2 := new Player.FromJSON(d2);
      p1.SetTargetBoard(p2.board);
      p2.SetTargetBoard(p1.board);
    }

    /** areAllShipsPlaced: every ship on both boards is placed. */
    function AreAllShipsPlaced(): (b: bool)
      requires Valid()
      reads this, player1, player2, player1.board, player2.board, player1.board.hulls, player2.board.hulls
      ensures b <==> AllPlaced(player1.board.Fleet()) && AllPlaced(player2.board.Fleet())
    {
      (forall i :: 0 <= i < |player1.board.ships| ==> player1.board.ships[i].placed) &&
      (forall i :: 0 <= i < |player2.board.ships| ==> player2.board.ships[i].placed)
    }

    /** setPlayerShips: the selected player (any id other than 1 selects
        player 2) gets a fresh board, the submitted ships are placed in
        order and the first refusal throws, leaving the fresh board installed
        and the targets as they were. Otherwise the targets are linked; in AI
        mode a submission by player 1 also arranges the scripted opponent's
        fleet at random and starts the game; in two-player mode the game
        starts once every ship on both boards is placed. The status is not
        checked beforehand. */
    method SetPlayerShips(playerId: int, ships: seq<ShipPlacement>) returns (r: Result<bool>)
      requires Valid()
      modifies this`status, player1`board, player2`board, player1`targetBoard, player2`targetBoard
      modifies player2.board.Repr()
      ensures Valid()
      ensures currentTurn == old(currentTurn) && winner == old(winner) && moveHistory == old(moveHistory)
      ensures player1.lastShots == old(player1.lastShots) && player2.lastShots == old(player2.lastShots)
      ensures fresh(Shooter(playerId).board.Repr())
      ensures Shooter(playerId).board.Value() == BoardValue(Submitted(ships).fleet, [])
      ensures r == match Submitted(ships).failed
                   case Some(p) => Err(PlacementError(p))
                   case None => Ok(true)
      ensures r.Err? ==>
        (status == old(status) &&
         player1.targetBoard == old(player1.targetBoard) && player2.targetBoard == old(player2.targetBoard) &&
         Other(playerId).board == old(Other(playerId).board) &&
         Other(playerId).board.Value() == old(Other(playerId).board.Value()))
      ensures r.Ok? ==> Linked()
      ensures r.Ok? && isVsAI && playerId == 1 ==>
        status == Playing && player2.board == old(player2.board) && player2.board.shots == old(player2.board.shots) &&
        Randomised(old(player2.board.Fleet()), player2.board.Fleet())
      ensures r.Ok? && !(isVsAI && playerId == 1) ==>
        Other(playerId).board == old(Other(playerId).board) && Other(playerId).board.Value() == old(Other(playerId).board.Value())
      ensures r.Ok? && isVsAI && playerId != 1 ==> status == old(status)
      ensures r.Ok? && !isVsAI ==>
        status == (if AllPlaced(player1.board.Fleet()) && AllPlaced(player2.board.Fleet()) then Playing else old(status))
      ensures old(Sound()) ==> Sound()
    {
      SubmittedFleet(ships);
      var failed := InstallBoard(playerId, ships);
      if failed.Some? {
        return Err(PlacementError(failed.value));
      }
      Relink();
      Start(playerId);
      r := Ok(true);
    }

    /** `player.board = new Board()` followed by the placement loop, on the
        player playerId selects; nothing else changes. */
    method InstallBoard(playerId: int, ships: seq<ShipPlacement>) returns (failed: Option<ShipPlacement>)
      requires Valid()
      modifies Shooter(playerId)`board
      ensures Valid()
      ensures fresh(Shooter(playerId).board.Repr())
      ensures Shooter(playerId).board.Value() == BoardValue(Submitted(ships).fleet, [])
      ensures failed == Submitted(ships).failed
      ensures Other(playerId).board == old(Other(playerId).board)
      ensures Other(playerId).board.Value() == old(Other(playerId).board.Value())
    {
      var b := new Board();
      failed := PlaceAll(b, ships);
      Shooter(playerId).board := b;
    }

    /** The two setTargetBoard calls that cross-reference the boards. */
    method Relink()
      requires Valid()
      modifies player1`targetBoard, player2`targetBoard
      ensures Valid() && Linked()
      ensures player1.board.Value() == old(player1.board.Value()) && player2.board.Value() == old(player2.board.Value())
    {
      player1.SetTargetBoard(player2.board);
      player2.SetTargetBoard(player1.board);
    }

    /** The end of setPlayerShips: in AI mode a submission by player 1
        arranges the scripted opponent's fleet and starts the game; in
        two-player mode the game starts once both fleets are placed. */
    method Start(playerId: int)
      requires Valid() && Linked()
      modifies this`status, if isVsAI && playerId == 1 then player2.board.Repr() else {}
      ensures Valid() && Linked() && unchanged(player1, player2)
      ensures player1.board.Value() == old(player1.board.Value())
      ensures isVsAI && playerId == 1 ==>
        status == Playing && player2.board.shots == old(player2.board.shots) &&
        Randomised(old(player2.board.Fleet()), player2.board.Fleet())
      ensures !(isVsAI && playerId == 1) ==> player2.board.Value() == old(player2.board.Value())
      ensures isVsAI && playerId != 1 ==> status == old(status)
      ensures !isVsAI ==>
        status == (if AllPlaced(player1.board.Fleet()) && AllPlaced(player2.board.Fleet()) then Playing else old(status))
    {
      if isVsAI && playerId == 1 {
        player2.board.PlaceShipsRandomly();
        status := Playing;
      }
      if !isVsAI && AreAllShipsPlaced() {
        status := Playing;
      }
    }

    /** makeShot: only while playing and only by the player whose turn it
        is; a cell the shooter already fired at is refused. A shot that
        lands is appended to the move history; then, if player 1's fleet is
        sunk player 2 wins, else if player 2's fleet is sunk player 1 wins;
        a miss passes the turn. A refused call changes nothing. */
    method MakeShot(playerId: int, row: int, col: int) returns (r: Result<ShotReport>)
      requires Valid()
      modifies this`status, this`winner, this`currentTurn, this`moveHistory
      modifies Shooter(playerId)`lastShots, Shooter(playerId).TargetRepr()
      ensures Valid()
      ensures old(status) != Playing ==> r == Err(NotPlaying) && unchanged(this, player1, player2) && unchanged(Shooter(playerId).TargetRepr())
      ensures old(status) == Playing && playerId != old(currentTurn) ==> r == Err(NotYourTurn) && unchanged(this, player1, player2) && unchanged(Shooter(playerId).TargetRepr())
      ensures old(status) == Playing && playerId == old(currentTurn) && Fired(old(Shooter(playerId).lastShots), row, col) ==>
        r == Err(AlreadyShotHere) && unchanged(this, player1, player2) && unchanged(Shooter(playerId).TargetRepr())
      ensures old(status) == Playing && playerId == old(currentTurn) && !Fired(old(Shooter(playerId).lastShots), row, col) ==>
        var target := Shooter(playerId).targetBoard;
        var rec := ReceiveShot(old(target.Value()), row, col);
        && r == Ok(Landed(row, col, rec.result.isHit, rec.result.sunkShip, rec.result.alreadyShot))
        && target.Value() == rec.board
        && Shooter(playerId).lastShots == old(Shooter(playerId).lastShots) + [Shot(row, col, rec.result.isHit)]
        && moveHistory == old(moveHistory) + [Move(playerId, row, col, rec.result.isHit, rec.result.sunkShip)]
        && currentTurn == (if rec.result.isHit then old(currentTurn) else NextTurn(old(currentTurn)))
        && (status, winner) ==
             if AllSunk(player1.board.Fleet()) then (Finished, Some(2))
             else if AllSunk(player2.board.Fleet()) then (Finished, Some(1))
             else (Playing, old(winner))
      ensures r.Ok? && old(Linked()) ==>
        && Linked()
        && Shooter(playerId).board.Value() == old(Shooter(playerId).board.Value())
        && Other(playerId).lastShots == old(Other(playerId).lastShots)
      ensures r.Ok? && old(Linked()) && old(!AllSunk(player1.board.Fleet()) && !AllSunk(player2.board.Fleet())) ==>
        (status == Finished ==> winner == Some(if playerId == 1 then 1 else 2))
      ensures old(Linked()) && old(Sound()) ==> Sound()
    {
      if status != Playing {
        return Err(NotPlaying);
      }
      if playerId != currentTurn {
        return Err(NotYourTurn);
      }
      r := Fire(playerId, row, col);
    }

    /** The part of makeShot past its two guards: the shooter's makeShot,
        then the bookkeeping. */
    method Fire(playerId: int, row: int, col: int) returns (r: Result<ShotReport>)
      requires Valid() && status == Playing && playerId == currentTurn
      modifies this`status, this`winner, this`currentTurn, this`moveHistory
      modifies Shooter(playerId)`lastShots, Shooter(playerId).TargetRepr()
      ensures Valid()
      ensures Fired(old(Shooter(playerId).lastShots), row, col) ==>
        r == Err(AlreadyShotHere) && unchanged(this, player1, player2) && unchanged(Shooter(playerId).TargetRepr())
      ensures !Fired(old(Shooter(playerId).lastShots), row, col) ==>
        var target := Shooter(playerId).targetBoard;
        var rec := ReceiveShot(old(target.Value()), row, col);
        && r == Ok(Landed(row, col, rec.result.isHit, rec.result.sunkShip, rec.result.alreadyShot))
        && target.Value() == rec.board
        && Shooter(playerId).lastShots == old(Shooter(playerId).lastShots) + [Shot(row, col, rec.result.isHit)]
        && moveHistory == old(moveHistory) + [Move(playerId, row, col, rec.result.isHit, rec.result.sunkShip)]
        && currentTurn == (if rec.result.isHit then old(currentTurn) else NextTurn(old(currentTurn)))
        && (status, winner) ==
             if AllSunk(player1.board.Fleet()) then (Finished, Some(2))
             else if AllSunk(player2.board.Fleet()) then (Finished, Some(1))
             else (Playing, old(winner))
      ensures r.Ok? && old(Linked()) ==>
        && Linked()
        && Shooter(playerId).board.Value() == old(Shooter(playerId).board.Value())
        && Other(playerId).lastShots == old(Other(playerId).lastShots)
      ensures r.Ok? && old(Linked()) && old(!AllSunk(player1.board.Fleet()) && !AllSunk(player2.board.Fleet())) ==>
        (status == Finished ==> winner == Some(if playerId == 1 then 1 else 2))
      ensures old(Linked()) && SoundBoard(old(Other(playerId).board.Value())) ==> SoundBoard(Other(playerId).board.Value())
      ensures ShotsUnique(old(Shooter(playerId).lastShots)) ==> ShotsUnique(Shooter(playerId).lastShots)
    {
      r := Shoot(playerId, row, col);
      if r.Ok? {
        Record(playerId, r.value);
      }
    }

    /** The shooter's makeShot, its refusal turned into an error. */
    method Shoot(playerId: int, row: int, col: int) returns (r: Result<ShotReport>)
      requires Valid()
      modifies Shooter(playerId)`lastShots, Shooter(playerId).TargetRepr()
      ensures Valid() && unchanged(this)
      ensures Fired(old(Shooter(playerId).lastShots), row, col) ==>
        r == Err(AlreadyShotHere) && unchanged(this, player1, player2) && unchanged(Shooter(playerId).TargetRepr())
      ensures !Fired(old(Shooter(playerId).lastShots), row, col) ==>
        var target := Shooter(playerId).targetBoard;
        var rec := ReceiveShot(old(target.Value()), row, col);
        && r == Ok(Landed(row, col, rec.result.isHit, rec.result.sunkShip, rec.result.alreadyShot))
        && target.Value() == rec.board
        && Shooter(playerId).lastShots == old(Shooter(playerId).lastShots) + [Shot(row, col, rec.result.isHit)]
      ensures r.Ok? && old(Linked()) ==>
        && Linked()
        && Shooter(playerId).board.Value() == old(Shooter(playerId).board.Value())
        && Other(playerId).lastShots == old(Other(playerId).lastShots)
      ensures old(Linked()) && SoundBoard(old(Other(playerId).board.Value())) ==> SoundBoard(Other(playerId).board.Value())
      ensures ShotsUnique(old(Shooter(playerId).lastShots)) ==> ShotsUnique(Shooter(playerId).lastShots)
    {
      var shooter := Shooter(playerId);
      r := shooter.MakeShot(row, col);
      assert player1.board == old(player1.board) && player2.board == old(player2.board);
      assert player1.targetBoard == old(player1.targetBoard) && player2.targetBoard == old(player2.targetBoard);
      if r.Err? {
        return;
      }
      if r.value.Refused? {
        return Err(AlreadyShotHere);
      }
    }

    /** The bookkeeping after a shot that landed: the history entry, the
        defeat check (player 1's fleet first) and, on a miss, the turn. */
    method Record(playerId: int, shot: ShotReport)
      requires shot.Landed? && Valid()
      modifies this`status, this`winner, this`currentTurn, this`moveHistory
      ensures moveHistory == old(moveHistory) + [Move(playerId, shot.row, shot.col, shot.isHit, shot.sunkShip)]
      ensures currentTurn == if shot.isHit then old(currentTurn) else NextTurn(old(currentTurn))
      ensures (status, winner) ==
                if AllSunk(player1.board.Fleet()) then (Finished, Some(2))
                else if AllSunk(player2.board.Fleet()) then (Finished, Some(1))
                else (old(status), old(winner))
    {
      moveHistory := moveHistory + [Move(playerId, shot.row, shot.col, shot.isHit, shot.sunkShip)];
      if player1.HasLost() {
        status := Finished;
        winner := Some(2);
      } else if player2.HasLost() {
        status := Finished;
        winner := Some(1);
      }
      if !shot.isHit {
        SwitchTurn();
      }
    }

    /** makeAIShot: only in AI mode and on player 2's turn (the status is
        not looked at); player 2's makeAIShot chooses the cell and fires. The
        shot is logged as a move of player 2, player 2 wins once the fleet it
        targets is sunk, and a miss passes the turn. A refused call changes
        nothing. */
    method MakeAIShot() returns (r: Result<ShotReport>)
      requires Valid()
      modifies this`status, this`winner, this`currentTurn, this`moveHistory
      modifies player2`lastShots, player2.TargetRepr()
      ensures Valid()
      ensures !(isVsAI && old(currentTurn) == 2) ==>
        r == Err(InvalidAIShot) && unchanged(this, player1, player2) && unchanged(player2.TargetRepr())
      ensures isVsAI && old(currentTurn) == 2 && !player2.isAI ==>
        r == Err(NotAI) && unchanged(this, player1, player2) && unchanged(player2.TargetRepr())
      ensures isVsAI && old(currentTurn) == 2 && player2.isAI ==>
        (r.Err? <==> Exhausted(old(player2.lastShots))) &&
        (r.Err? ==> r.error == NoAvailablePositions && unchanged(this, player1, player2) &&
                    unchanged(player2.TargetRepr()))
      ensures r.Ok? ==> isVsAI && old(currentTurn) == 2 && r.value.Landed?
      ensures r.Ok? && r.value.Landed? ==>
        var c := Cell(r.value.row, r.value.col);
        var rec := ReceiveShot(old(player2.targetBoard.Value()), c.row, c.col);
        && BestShot(old(player2.lastShots), old(player2.targetBoard.Fleet()), c)
        && Untried(old(player2.lastShots), c)
        && r.value.isHit == rec.result.isHit && r.value.sunkShip == rec.result.sunkShip
        && player2.targetBoard.Value() == rec.board
        && player2.lastShots == old(player2.lastShots) + [Shot(c.row, c.col, rec.result.isHit)]
        && moveHistory == old(moveHistory) + [Move(2, c.row, c.col, rec.result.isHit, rec.result.sunkShip)]
        && currentTurn == (if rec.result.isHit then 2 else 1)
        && (status, winner) ==
             if AllSunk(player2.targetBoard.Fleet()) then (Finished, Some(2)) else (old(status), old(winner))
      ensures old(Linked()) && old(Sound()) ==> Sound()
    {
      if !isVsAI || currentTurn != 2 {
        return Err(InvalidAIShot);
      }
      r := AIShoot();
      if r.Ok? {
        RecordAIShot(r.value);
      }
    }

    /** Player 2's makeAIShot, seen from the game. */
    method AIShoot() returns (r: Result<ShotReport>)
      requires Valid()
      modifies player2`lastShots, player2.TargetRepr()
      ensures Valid() && unchanged(this)
      ensures !player2.isAI ==> r == Err(NotAI) && unchanged(player1, player2) && unchanged(player2.TargetRepr())
      ensures player2.isAI ==>
        (r.Err? <==> Exhausted(old(player2.lastShots))) &&
        (r.Err? ==> r.error == NoAvailablePositions && unchanged(player1, player2) && unchanged(player2.TargetRepr()))
      ensures r.Ok? ==> r.value.Landed?
      ensures r.Ok? && r.value.Landed? ==>
        var c := Cell(r.value.row, r.value.col);
        var rec := ReceiveShot(old(player2.targetBoard.Value()), c.row, c.col);
        && BestShot(old(player2.lastShots), old(player2.targetBoard.Fleet()), c)
        && Untried(old(player2.lastShots), c)
        && r.value.isHit == rec.result.isHit && r.value.sunkShip == rec.result.sunkShip
        && player2.targetBoard.Value() == rec.board
        && player2.lastShots == old(player2.lastShots) + [Shot(c.row, c.col, rec.result.isHit)]
      ensures old(Linked()) && old(Sound()) ==> Sound()
    {
      r := player2.MakeAIShot();
      assert player1.board == old(player1.board) && player2.board == old(player2.board);
      assert player1.targetBoard == old(player1.targetBoard) && player2.targetBoard == old(player2.targetBoard);
    }

    /** The bookkeeping of makeAIShot: the history entry for player 2, the
        hasWon check and, on a miss, the turn. */
    method RecordAIShot(shot: ShotReport)
      requires shot.Landed? && Valid()
      modifies this`status, this`winner, this`currentTurn, this`moveHistory
      ensures moveHistory == old(moveHistory) + [Move(2, shot.row, shot.col, shot.isHit, shot.sunkShip)]
      ensures currentTurn == if shot.isHit then old(currentTurn) else NextTurn(old(currentTurn))
      ensures (status, winner) ==
                if AllSunk(player2.targetBoard.Fleet()) then (Finished, Some(2)) else (old(status), old(winner))
    {
      moveHistory := moveHistory + [Move(2, shot.row, shot.col, shot.isHit, shot.sunkShip)];
      if player2.HasWon() {
        status := Finished;
        winner := Some(2);
      }
      if !shot.isHit {
        SwitchTurn();
      }
    }

    /** switchTurn. */
    method SwitchTurn()
      modifies this`currentTurn
      ensures currentTurn == NextTurn(old(currentTurn))
      ensures currentTurn != old(currentTurn) && (currentTurn == 1 || currentTurn == 2)
    {
      currentTurn := if currentTurn == 1 then 2 else 1;
    }

    /** getGameState for one player (any id other than 1 selects player 2):
        the own fleet in full but only the sunk ships of the opponent, both
        boards' shot logs, both players' statistics and the last ten moves. */
    function GetGameState(playerId: int): (g: GameState)
      requires Valid()
      reads this, player1, player2, player1.board, player2.board, player1.board.hulls, player2.board.hulls
      ensures g.gameId == id && g.status == status && g.currentTurn == currentTurn
      ensures g.winner == winner && g.isVsAI == isVsAI
      ensures g.isYourTurn <==> currentTurn == playerId
      ensures FleetFromJson(g.yourShips) == Shooter(playerId).board.Fleet()
      ensures g.yourShots == Shooter(playerId).board.shots && g.opponentShots == Other(playerId).board.shots
      ensures forall j :: j in g.opponentSunkShips ==>
        FromJson(j) in Other(playerId).board.Fleet() && Sunk(FromJson(j))
      ensures forall s :: s in Other(playerId).board.Fleet() && Sunk(s) ==> ToJson(s) in g.opponentSunkShips
      ensures g.yourStats == Shooter(playerId).GetStats() && g.opponentStats == Other(playerId).GetStats()
      ensures |g.recentMoves| == (if |moveHistory| < 10 then |moveHistory| else 10)
      ensures moveHistory == moveHistory[..|moveHistory| - |g.recentMoves|] + g.recentMoves
    {
      var you, them := Shooter(playerId), Other(playerId);
      SunkShipsRevealOnlySunk(them.board.Fleet());
      GameState(id, status, currentTurn, currentTurn == playerId, winner, isVsAI,
                you.board.ToJSON().ships.value, you.board.shots,
                them.board.shots, SunkShips(them.board.Fleet()),
                you.GetStats(), them.GetStats(), Recent(moveHistory))
    }
  }
}
