/** The rules of backend/models/Game.js that are computations on values:
    how a submitted fleet is laid out, how the turn passes, and what a
    player's view of the game reveals. The Game class (game.dfy) is proved
    against these. */
module GameRules {
  import opened Outcomes
  import opened Geometry
  import opened ShipModel
  import opened BoardRules

  datatype Status = Setup | Playing | Finished

  /** An entry of the move history (its timestamp omitted). */
  datatype Move = Move(playerId: int, row: int, col: int, isHit: bool, sunkShip: Option<ShipValue>)

  /** One element of the `ships` argument of setPlayerShips. */
  datatype ShipPlacement = ShipPlacement(id: int, row: int, col: int, orientation: Orientation)

  // ---------------------------------------------------------------------
  // Laying out a submitted fleet (the loop of setPlayerShips)
  // ---------------------------------------------------------------------

  /** The fleet after the placement loop and the placement that failed, if
      one did (the loop stops there). */
  datatype Arrangement = Arrangement(fleet: seq<ShipValue>, failed: Option<ShipPlacement>)

  function Arrange(f: seq<ShipValue>, ps: seq<ShipPlacement>): Arrangement
    decreases |ps|
  {
    if ps == [] then Arrangement(f, None)
    else
      var p := PlaceShip(f, ps[0].id, ps[0].row, ps[0].col, ps[0].orientation);
      if !p.ok then Arrangement(f, Some(ps[0])) else Arrange(p.fleet, ps[1..])
  }

  /** What setPlayerShips lays out: the submission applied to a fresh
      board's fleet. */
  function Submitted(ps: seq<ShipPlacement>): Arrangement {
    Arrange(InitialFleet(), ps)
  }

  /** The error setPlayerShips throws for a refused placement. */
  function PlacementError(p: ShipPlacement): Error {
    CannotPlaceShip(p.id, p.row, p.col)
  }

  /** A placement whose anchor cell is on the board (the check
      GameController.js makes for shots but nothing makes for ships). */
  predicate AnchorOnBoard(p: ShipPlacement) {
    InBounds(p.row, p.col)
  }

  /** placeShip with an on-board anchor keeps the fleet well placed: the
      along-axis test of canPlaceShip then suffices for bounds. */
  lemma PlaceShipOnBoardKeepsWellPlaced(f: seq<ShipValue>, p: ShipPlacement)
    requires WellPlaced(f) && AnchorOnBoard(p)
    ensures WellPlaced(PlaceShip(f, p.id, p.row, p.col, p.orientation).fleet)
  {
    var r := FindShip(f, p.id);
    if r.Some? && CanPlace(f, p.row, p.col, f[r.value].size, p.orientation, Some(p.id)) {
      var size := f[r.value].size;
      CanPlaceMeans(f, p.row, p.col, size, p.orientation, Some(p.id));
      if size > 0 {
        PlacementInBoundsIff(p.row, p.col, size, p.orientation);
      }
      PlaceAtKeepsWellPlaced(f, r.value, p.row, p.col, p.orientation, Some(p.id));
    }
  }

  /** The arrangement keeps the fleet's length, ids and sizes, keeps it
      consistent and free of hits, and keeps it well placed when every
      anchor is on the board; a failed placement is one of the submitted ones. */
  lemma {:induction false} ArrangeKeepsInvariants(f: seq<ShipValue>, ps: seq<ShipPlacement>)
    requires FleetConsistent(f) && forall i :: 0 <= i < |f| ==> f[i].hits == []
    decreases |ps|
    ensures var a := Arrange(f, ps);
      && |a.fleet| == |f|
      && (forall i :: 0 <= i < |f| ==> a.fleet[i].id == f[i].id && a.fleet[i].size == f[i].size && a.fleet[i].hits == [])
      && FleetConsistent(a.fleet)
      && (WellPlaced(f) && (forall k :: 0 <= k < |ps| ==> AnchorOnBoard(ps[k])) ==> WellPlaced(a.fleet))
      && (a.failed.Some? ==> a.failed.value in ps)
  {
    if ps != [] {
      var p := PlaceShip(f, ps[0].id, ps[0].row, ps[0].col, ps[0].orientation);
      PlaceShipOutcome(f, ps[0].id, ps[0].row, ps[0].col, ps[0].orientation);
      PlaceShipKeepsConsistent(f, ps[0].id, ps[0].row, ps[0].col, ps[0].orientation);
      if p.ok {
        ArrangeKeepsInvariants(p.fleet, ps[1..]);
        if WellPlaced(f) && (forall k :: 0 <= k < |ps| ==> AnchorOnBoard(ps[k])) {
          PlaceShipOnBoardKeepsWellPlaced(f, ps[0]);
          assert forall k :: 0 <= k < |ps[1..]| ==> AnchorOnBoard(ps[1..][k]) by {
            forall k | 0 <= k < |ps[1..]| ensures AnchorOnBoard(ps[1..][k]) {
              assert ps[1..][k] == ps[k + 1];
            }
          }
        }
        var a := Arrange(p.fleet, ps[1..]);
        if a.failed.Some? {
          assert a.failed.value in ps[1..];
        }
      }
    }
  }

  /** With distinct ids, a completed arrangement has placed exactly the
      ships that were already placed or whose id was submitted. */
  lemma {:induction false} ArrangePlaces(f: seq<ShipValue>, ps: seq<ShipPlacement>)
    requires IdsDistinct(f)
    decreases |ps|
    ensures var a := Arrange(f, ps);
      a.failed.None? ==>
        (|a.fleet| == |f| &&
         forall i :: 0 <= i < |f| ==>
           (a.fleet[i].placed <==> f[i].placed || exists k :: 0 <= k < |ps| && ps[k].id == f[i].id))
  {
    if ps != [] {
      var p := PlaceShip(f, ps[0].id, ps[0].row, ps[0].col, ps[0].orientation);
      PlaceShipOutcome(f, ps[0].id, ps[0].row, ps[0].col, ps[0].orientation);
      if p.ok {
        var k0 := FindShip(f, ps[0].id).value;
        assert p.fleet == f[k0 := PlacedAt(f[k0], ps[0].row, ps[0].col, ps[0].orientation)];
        assert IdsDistinct(p.fleet);
        ArrangePlaces(p.fleet, ps[1..]);
        var a := Arrange(f, ps);
        if a.failed.None? {
          forall i | 0 <= i < |f|
            ensures a.fleet[i].placed <==> f[i].placed || exists k :: 0 <= k < |ps| && ps[k].id == f[i].id
          {
            assert p.fleet[i].id == f[i].id;
            assert p.fleet[i].placed <==> f[i].placed || ps[0].id == f[i].id;
            if exists k :: 0 <= k < |ps| && ps[k].id == f[i].id {
              var k :| 0 <= k < |ps| && ps[k].id == f[i].id;
              if k > 0 {
                assert ps[1..][k - 1].id == f[i].id;
              }
            }
            if exists k :: 0 <= k < |ps[1..]| && ps[1..][k].id == p.fleet[i].id {
              var k :| 0 <= k < |ps[1..]| && ps[1..][k].id == p.fleet[i].id;
              assert ps[k + 1].id == f[i].id;
            }
          }
        }
      }
    }
  }

  /** A submission yields the five ships of a new board, in order, with no
      hits and with a consistent layout; no two of them touch or leave the
      board when every anchor is on the board; and when no placement failed
      the placed ships are exactly those whose id was submitted. */
  lemma SubmittedFleet(ps: seq<ShipPlacement>)
    ensures var a := Submitted(ps);
      && |a.fleet| == 5
      && (forall i :: 0 <= i < 5 ==> a.fleet[i].id == i + 1 && a.fleet[i].size == InitialFleet()[i].size && a.fleet[i].hits == [])
      && FleetConsistent(a.fleet)
      && ((forall k :: 0 <= k < |ps| ==> AnchorOnBoard(ps[k])) ==> WellPlaced(a.fleet))
      && (a.failed.Some? ==> a.failed.value in ps)
      && (a.failed.None? ==>
            forall i :: 0 <= i < 5 ==> (a.fleet[i].placed <==> exists k :: 0 <= k < |ps| && ps[k].id == i + 1))
  {
    InitialFleetFacts();
    ArrangeKeepsInvariants(InitialFleet(), ps);
    ArrangePlaces(InitialFleet(), ps);
  }

  // ---------------------------------------------------------------------
  // Turns
  // ---------------------------------------------------------------------

  /** switchTurn's new value. */
  function NextTurn(t: int): int {
    if t == 1 then 2 else 1
  }

  /** The turn always lands on player 1 or 2, always changes, and two
      switches give the turn back. */
  lemma NextTurnAlternates(t: int)
    ensures NextTurn(t) == 1 || NextTurn(t) == 2
    ensures NextTurn(t) != t
    ensures (t == 1 || t == 2) ==> NextTurn(NextTurn(t)) == t
  {
  }

  // ---------------------------------------------------------------------
  // The per-player view (getGameState)
  // ---------------------------------------------------------------------

  /** `ships.filter(ship => ship.isSunk()).map(ship => ship.toJSON())`. */
  function SunkShips(f: seq<ShipValue>): (v: seq<ShipJson>)
    ensures forall j :: j in v ==> j.isSunk && exists i :: 0 <= i < |f| && Sunk(f[i]) && j == ToJson(f[i])
    ensures forall i :: 0 <= i < |f| && Sunk(f[i]) ==> ToJson(f[i]) in v
  {
    if f == [] then []
    else (if Sunk(f[0]) then [ToJson(f[0])] else []) + SunkShips(f[1..])
  }

  /** The view of the opponent's fleet reveals no ship that is still
      afloat: each exposed entry decodes to a ship of the fleet, and a sunk one. */
  lemma SunkShipsRevealOnlySunk(f: seq<ShipValue>)
    ensures forall j :: j in SunkShips(f) ==> FromJson(j) in f && Sunk(FromJson(j))
  {
    forall j | j in SunkShips(f) ensures FromJson(j) in f && Sunk(FromJson(j)) {
      var i :| 0 <= i < |f| && Sunk(f[i]) && j == ToJson(f[i]);
      JsonRoundTrip(f[i]);
    }
  }

  /** `moveHistory.slice(-10)`: the last ten moves, or all when fewer. */
  function Recent(h: seq<Move>): (r: seq<Move>)
    ensures |r| == if |h| < 10 then |h| else 10
    ensures h == h[..|h| - |r|] + r
  {
    if |h| <= 10 then h else h[|h| - 10..]
  }
}
