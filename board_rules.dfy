/** The rules of backend/models/Board.js stated on values: a fleet is the
    sequence of its ships' fields, a board is its fleet plus its log of
    received shots. The Board class (board.dfy) is proved against these. */
module BoardRules {
  import opened Outcomes
  import opened Geometry
  import opened ShipModel

  /** An entry of a shot log: `{ row, col, isHit }`. */
  datatype Shot = Shot(row: int, col: int, isHit: bool)

  /** The fields of a Board object that change: its ships and its received shots. */
  datatype BoardValue = BoardValue(fleet: seq<ShipValue>, shots: seq<Shot>)

  /** What receiveShot returns: `sunkShip` is the ship's state right after the hit. */
  datatype ShotResult = ShotResult(isHit: bool, sunkShip: Option<ShipValue>, alreadyShot: bool)

  datatype Received = Received(board: BoardValue, result: ShotResult)

  /** placeShip's outcome on a fleet: success and the fleet afterwards. */
  datatype Placement = Placement(ok: bool, fleet: seq<ShipValue>)

  /** initializeShips: carrier, cruiser, submarine and two destroyers. */
  function InitialFleet(): seq<ShipValue> {
    [Unplaced(1, 5), Unplaced(2, 4), Unplaced(3, 3), Unplaced(4, 2), Unplaced(5, 2)]
  }

  // ---------------------------------------------------------------------
  // Placement rules
  // ---------------------------------------------------------------------

  /** isPositionOccupied: some placed ship other than `exclude` covers the cell. */
  predicate Occupied(f: seq<ShipValue>, row: int, col: int, exclude: Option<int>) {
    exists i :: 0 <= i < |f| && f[i].placed && Some(f[i].id) != exclude && Occupies(f[i], row, col)
  }

  /** One neighbour of a segment is off the board or free. */
  predicate NeighbourClear(f: seq<ShipValue>, p: Cell, dr: int, dc: int, exclude: Option<int>) {
    !InBounds(p.row + dr, p.col + dc) || !Occupied(f, p.row + dr, p.col + dc, exclude)
  }

  /** The segment and its 8 neighbours, where on the board, are free. */
  predicate SegmentClear(f: seq<ShipValue>, p: Cell, exclude: Option<int>) {
    forall dr, dc :: -1 <= dr <= 1 && -1 <= dc <= 1 ==> NeighbourClear(f, p, dr, dc, exclude)
  }

  /** hasMinimumSeparation. */
  predicate SeparationOk(f: seq<ShipValue>, row: int, col: int, size: nat, o: Orientation, exclude: Option<int>) {
    forall i :: 0 <= i < size ==> SegmentClear(f, SegmentAt(row, col, o, i), exclude)
  }

  /** The bounds test of canPlaceShip: only the far end along the ship's axis. */
  predicate AxisFits(row: int, col: int, size: nat, o: Orientation) {
    if o == Horizontal then col + size <= Size else row + size <= Size
  }

  /** The overlap test of canPlaceShip: no segment is occupied. */
  predicate NoOverlap(f: seq<ShipValue>, row: int, col: int, size: nat, o: Orientation, exclude: Option<int>) {
    forall i :: 0 <= i < size ==>
      !Occupied(f, SegmentAt(row, col, o, i).row, SegmentAt(row, col, o, i).col, exclude)
  }

  /** canPlaceShip. */
  predicate CanPlace(f: seq<ShipValue>, row: int, col: int, size: nat, o: Orientation, exclude: Option<int>) {
    AxisFits(row, col, size, o) && NoOverlap(f, row, col, size, o, exclude) &&
    SeparationOk(f, row, col, size, o, exclude)
  }

  /** `ships.find(s => s.id === id)`: the first ship with that id. */
  function FindShip(f: seq<ShipValue>, id: int): (r: Option<nat>)
    ensures r.Some? ==> r.value < |f| && f[r.value].id == id &&
                        forall j :: 0 <= j < r.value ==> f[j].id != id
    ensures r.None? ==> forall j :: 0 <= j < |f| ==> f[j].id != id
  {
    if |f| == 0 then None
    else if f[0].id == id then Some(0)
    else match FindShip(f[1..], id)
      case None => None
      case Some(k) => Some(k + 1)
  }

  /** placeShip: unknown id or a failed canPlaceShip changes nothing;
      otherwise that ship alone is placed. */
  function PlaceShip(f: seq<ShipValue>, shipId: int, row: int, col: int, o: Orientation): Placement {
    match FindShip(f, shipId)
    case None => Placement(false, f)
    case Some(k) =>
      if CanPlace(f, row, col, f[k].size, o, Some(shipId))
      then Placement(true, f[k := PlacedAt(f[k], row, col, o)])
      else Placement(false, f)
  }

  // ---------------------------------------------------------------------
  // Shot rules
  // ---------------------------------------------------------------------

  predicate SameCell(s: Shot, row: int, col: int) {
    s.row == row && s.col == col
  }

  /** `shots.some(...)`: the log has an entry for the cell. */
  predicate Fired(shots: seq<Shot>, row: int, col: int) {
    exists i :: 0 <= i < |shots| && SameCell(shots[i], row, col)
  }

  /** `shots.find(...)`: the first entry for the cell. */
  function FirstShotAt(shots: seq<Shot>, row: int, col: int): (r: Option<nat>)
    ensures r.Some? ==> r.value < |shots| && SameCell(shots[r.value], row, col) &&
                        forall j :: 0 <= j < r.value ==> !SameCell(shots[j], row, col)
    ensures r.None? <==> !Fired(shots, row, col)
  {
    if |shots| == 0 then None
    else if SameCell(shots[0], row, col) then Some(0)
    else match FirstShotAt(shots[1..], row, col)
      case None => (assert forall j :: 1 <= j < |shots| ==> shots[j] == shots[1..][j - 1]; None)
      case Some(k) => Some(k + 1)
  }

  /** getShipAt, and the ship whose receiveHit first returns true in
      receiveShot: the first ship in fleet order that covers the cell. */
  function FirstOccupying(f: seq<ShipValue>, row: int, col: int): (r: Option<nat>)
    ensures r.Some? ==> r.value < |f| && Occupies(f[r.value], row, col) &&
                        forall j :: 0 <= j < r.value ==> !Occupies(f[j], row, col)
    ensures r.None? ==> forall j :: 0 <= j < |f| ==> !Occupies(f[j], row, col)
  {
    if |f| == 0 then None
    else if Occupies(f[0], row, col) then Some(0)
    else match FirstOccupying(f[1..], row, col)
      case None => None
      case Some(k) => Some(k + 1)
  }

  /** The first covering ship is the one found by scanning in fleet order. */
  lemma FirstOccupyingIs(f: seq<ShipValue>, row: int, col: int, i: nat)
    requires i < |f| && Occupies(f[i], row, col)
    requires forall j :: 0 <= j < i ==> !Occupies(f[j], row, col)
    ensures FirstOccupying(f, row, col) == Some(i)
  {
    var r := FirstOccupying(f, row, col);
    assert r.Some?;
    assert !(r.value < i);
    assert !(i < r.value);
  }

  lemma FirstOccupyingNone(f: seq<ShipValue>, row: int, col: int)
    requires forall j :: 0 <= j < |f| ==> !Occupies(f[j], row, col)
    ensures FirstOccupying(f, row, col) == None
  {
  }

  /** receiveShot. */
  function ReceiveShot(b: BoardValue, row: int, col: int): Received {
    match FirstShotAt(b.shots, row, col)
    case Some(k) => Received(b, ShotResult(b.shots[k].isHit, None, true))
    case None =>
      match FirstOccupying(b.fleet, row, col)
      case None =>
        Received(BoardValue(b.fleet, b.shots + [Shot(row, col, false)]), ShotResult(false, None, false))
      case Some(i) =>
        var s := AfterHit(b.fleet[i], row, col);
        Received(BoardValue(b.fleet[i := s], b.shots + [Shot(row, col, true)]),
                 ShotResult(true, if Sunk(s) then Some(s) else None, false))
  }

  /** areAllShipsSunk. */
  predicate AllSunk(f: seq<ShipValue>) {
    forall i :: 0 <= i < |f| ==> Sunk(f[i])
  }

  /** `ships.every(ship => ship.placed)`, half of Game.areAllShipsPlaced. */
  predicate AllPlaced(f: seq<ShipValue>) {
    forall i :: 0 <= i < |f| ==> f[i].placed
  }

  // ---------------------------------------------------------------------
  // Invariants
  // ---------------------------------------------------------------------

  predicate IdsDistinct(f: seq<ShipValue>) {
    forall i, j :: 0 <= i < |f| && 0 <= j < |f| && i != j ==> f[i].id != f[j].id
  }

  predicate ShipInBounds(s: ShipValue) {
    forall p :: p in Positions(s) ==> InBounds(p.row, p.col)
  }

  /** No cell of one ship touches (shares or neighbours) a cell of the other:
      every two of their cells are at Chebyshev distance at least 2. */
  predicate Apart(a: ShipValue, b: ShipValue) {
    forall p, q :: p in Positions(a) && q in Positions(b) ==> !Touching(p, q)
  }

  /** The board's placement invariant: distinct ids, every segment on the
      board, ships pairwise non-overlapping and non-adjacent. */
  predicate WellPlaced(f: seq<ShipValue>) {
    IdsDistinct(f) &&
    (forall i :: 0 <= i < |f| ==> ShipInBounds(f[i])) &&
    (forall i, j :: 0 <= i < |f| && 0 <= j < |f| && i != j ==> Apart(f[i], f[j]))
  }

  predicate FleetConsistent(f: seq<ShipValue>) {
    forall i :: 0 <= i < |f| ==> Consistent(f[i])
  }

  /** No two entries of a shot log are for the same cell. */
  predicate ShotsUnique(shots: seq<Shot>) {
    forall i, j :: 0 <= i < j < |shots| ==> !SameCell(shots[j], shots[i].row, shots[i].col)
  }

  /** A board whose ships' hits are distinct cells they cover and whose log
      of received shots holds no cell twice. */
  predicate SoundBoard(b: BoardValue) {
    FleetConsistent(b.fleet) && ShotsUnique(b.shots)
  }

  // ---------------------------------------------------------------------
  // Properties
  // ---------------------------------------------------------------------

  /** A new board: five unplaced ships with ids 1..5 and sizes 5, 4, 3, 2, 2;
      it satisfies every invariant and nothing on it is sunk. */
  lemma InitialFleetFacts()
    ensures |InitialFleet()| == 5
    ensures forall i :: 0 <= i < 5 ==> InitialFleet()[i].id == i + 1 && !InitialFleet()[i].placed &&
                                       InitialFleet()[i].hits == [] && Positions(InitialFleet()[i]) == []
    ensures [InitialFleet()[0].size, InitialFleet()[1].size, InitialFleet()[2].size,
             InitialFleet()[3].size, InitialFleet()[4].size] == [5, 4, 3, 2, 2]
    ensures WellPlaced(InitialFleet()) && FleetConsistent(InitialFleet())
    ensures !AllSunk(InitialFleet())
  {
    assert !Sunk(InitialFleet()[0]);
  }

  /** A new board is sound. */
  lemma NewBoardSound()
    ensures SoundBoard(BoardValue(InitialFleet(), []))
  {
    InitialFleetFacts();
  }

  /** What a successful canPlaceShip guarantees: the far end fits along the
      axis, and no segment and no on-board neighbour of a segment is covered
      by a placed ship other than `exclude`. */
  lemma CanPlaceMeans(f: seq<ShipValue>, row: int, col: int, size: nat, o: Orientation, exclude: Option<int>)
    requires CanPlace(f, row, col, size, o, exclude)
    ensures o == Horizontal ==> col + size <= Size
    ensures o == Vertical ==> row + size <= Size
    ensures forall i :: 0 <= i < size ==>
      !Occupied(f, SegmentAt(row, col, o, i).row, SegmentAt(row, col, o, i).col, exclude)
    ensures forall i, q :: 0 <= i < size && Touching(SegmentAt(row, col, o, i), q) && InBounds(q.row, q.col) ==>
      !Occupied(f, q.row, q.col, exclude)
  {
    forall i, q | 0 <= i < size && Touching(SegmentAt(row, col, o, i), q) && InBounds(q.row, q.col)
      ensures !Occupied(f, q.row, q.col, exclude)
    {
      var p := SegmentAt(row, col, o, i);
      assert SegmentClear(f, p, exclude);
      assert NeighbourClear(f, p, q.row - p.row, q.col - p.col, exclude);
    }
  }

  /** The new ship keeps its distance from every other ship. */
  lemma PlacedApart(f: seq<ShipValue>, k: nat, j: nat, row: int, col: int, o: Orientation, exclude: Option<int>)
    requires WellPlaced(f) && k < |f| && j < |f| && j != k
    requires exclude == None || exclude == Some(f[k].id)
    requires CanPlace(f, row, col, f[k].size, o, exclude)
    ensures Apart(PlacedAt(f[k], row, col, o), f[j]) && Apart(f[j], PlacedAt(f[k], row, col, o))
  {
    var s := PlacedAt(f[k], row, col, o);
    forall p, q | p in Positions(s) && q in Positions(f[j])
      ensures !Touching(p, q) && !Touching(q, p)
    {
      SegmentsMember(row, col, f[k].size, o, p);
      var i :| 0 <= i < f[k].size && p == SegmentAt(row, col, o, i);
      if Touching(p, q) || Touching(q, p) {
        assert Touching(p, q);
        assert InBounds(q.row, q.col);
        CanPlaceMeans(f, row, col, f[k].size, o, exclude);
        assert Occupies(f[j], q.row, q.col);
        assert f[j].placed;
        assert Occupied(f, q.row, q.col, exclude);
        assert false;
      }
    }
  }

  /** Placing ship k where canPlaceShip allows, entirely on the board, keeps
      the fleet well placed. The on-board condition is needed: canPlaceShip
      itself never rejects a negative anchor or a row (column) past the edge
      across the ship's axis. */
  lemma PlaceAtKeepsWellPlaced(f: seq<ShipValue>, k: nat, row: int, col: int, o: Orientation, exclude: Option<int>)
    requires WellPlaced(f) && k < |f|
    requires exclude == None || exclude == Some(f[k].id)
    requires CanPlace(f, row, col, f[k].size, o, exclude)
    requires PlacementInBounds(row, col, f[k].size, o)
    ensures WellPlaced(f[k := PlacedAt(f[k], row, col, o)])
  {
    var s := PlacedAt(f[k], row, col, o);
    var g := f[k := s];
    forall p | p in Positions(s) ensures InBounds(p.row, p.col) {
      SegmentsMember(row, col, f[k].size, o, p);
    }
    forall i, j | 0 <= i < |g| && 0 <= j < |g| && i != j ensures Apart(g[i], g[j]) {
      if i == k {
        PlacedApart(f, k, j, row, col, o, exclude);
      } else if j == k {
        PlacedApart(f, k, i, row, col, o, exclude);
      }
    }
  }

  /** placeShip keeps the placement invariant whenever the requested
      placement lies on the board. */
  lemma PlaceShipKeepsWellPlaced(f: seq<ShipValue>, shipId: int, row: int, col: int, o: Orientation)
    requires WellPlaced(f)
    requires FindShip(f, shipId).Some? ==> PlacementInBounds(row, col, f[FindShip(f, shipId).value].size, o)
    ensures WellPlaced(PlaceShip(f, shipId, row, col, o).fleet)
  {
    var r := FindShip(f, shipId);
    if r.Some? && CanPlace(f, row, col, f[r.value].size, o, Some(shipId)) {
      PlaceAtKeepsWellPlaced(f, r.value, row, col, o, Some(shipId));
    }
  }

  /** placeShip fails and changes nothing for an unknown id or a refused
      placement; on success exactly that ship's anchor, orientation and placed
      flag change. */
  lemma PlaceShipOutcome(f: seq<ShipValue>, shipId: int, row: int, col: int, o: Orientation)
    ensures var p := PlaceShip(f, shipId, row, col, o);
      && (p.ok <==> exists k :: 0 <= k < |f| && f[k].id == shipId &&
                              CanPlace(f, row, col, f[k].size, o, Some(shipId)) &&
                              forall j :: 0 <= j < k ==> f[j].id != shipId)
      && (!p.ok ==> p.fleet == f)
      && |p.fleet| == |f|
      && (p.ok ==> forall j :: 0 <= j < |f| ==>
            if f[j].id == shipId && FindShip(f, shipId) == Some(j)
            then p.fleet[j] == f[j].(row := Some(row), col := Some(col), orientation := o, placed := true)
            else p.fleet[j] == f[j])
  {
    var r := FindShip(f, shipId);
    if r.Some? {
      var k := r.value;
      assert f[k].id == shipId && forall j :: 0 <= j < k ==> f[j].id != shipId;
    }
  }

  /** A consistent placement keeps each ship's hits valid when the placed
      ship had no hits (the case in every caller of placeShip). */
  lemma PlaceShipKeepsConsistent(f: seq<ShipValue>, shipId: int, row: int, col: int, o: Orientation)
    requires FleetConsistent(f)
    requires forall i :: 0 <= i < |f| ==> f[i].hits == []
    ensures FleetConsistent(PlaceShip(f, shipId, row, col, o).fleet)
    ensures forall i :: 0 <= i < |f| ==> PlaceShip(f, shipId, row, col, o).fleet[i].hits == []
  {
  }

  /** In a log without repeats a cell has at most one entry. */
  lemma SingleEntry(shots: seq<Shot>, row: int, col: int, j: nat, k: nat)
    requires ShotsUnique(shots) && j < |shots| && k < |shots|
    requires SameCell(shots[j], row, col) && SameCell(shots[k], row, col)
    ensures j == k
  {
  }

  /** receiveShot at a cell already in the log returns the outcome of the
      first entry for that cell, flags it as already shot, and changes
      nothing; in a log without repeats that is the cell's only entry. */
  lemma ReceiveShotRepeat(b: BoardValue, row: int, col: int)
    requires Fired(b.shots, row, col)
    ensures var r := ReceiveShot(b, row, col);
      && r.board == b
      && r.result.alreadyShot && r.result.sunkShip.None?
      && r.result.isHit == b.shots[FirstShotAt(b.shots, row, col).value].isHit
      && (ShotsUnique(b.shots) ==>
            forall j :: 0 <= j < |b.shots| && SameCell(b.shots[j], row, col) ==> r.result.isHit == b.shots[j].isHit)
  {
    var k := FirstShotAt(b.shots, row, col).value;
    if ShotsUnique(b.shots) {
      forall j | 0 <= j < |b.shots| && SameCell(b.shots[j], row, col)
        ensures j == k
      {
        SingleEntry(b.shots, row, col, j, k);
      }
    }
  }

  /** receiveShot at a new cell appends exactly one entry; the shot is a hit
      iff some placed ship covers the cell; only the first such ship gains the
      hit; a sunk ship is reported only if that ship is now sunk. */
  lemma ReceiveShotNew(b: BoardValue, row: int, col: int)
    requires !Fired(b.shots, row, col)
    ensures var r := ReceiveShot(b, row, col);
      && !r.result.alreadyShot
      && r.board.shots == b.shots + [Shot(row, col, r.result.isHit)]
      && (r.result.isHit <==> exists i :: 0 <= i < |b.fleet| && b.fleet[i].placed && Occupies(b.fleet[i], row, col))
      && |r.board.fleet| == |b.fleet|
      && (forall j :: 0 <= j < |b.fleet| && Some(j) != FirstOccupying(b.fleet, row, col) ==> r.board.fleet[j] == b.fleet[j])
      && (r.result.isHit ==> var i := FirstOccupying(b.fleet, row, col).value;
            r.board.fleet[i] == AfterHit(b.fleet[i], row, col) && Cell(row, col) in r.board.fleet[i].hits)
      && (r.result.sunkShip.Some? ==> var i := FirstOccupying(b.fleet, row, col).value;
            r.result.sunkShip.value == r.board.fleet[i] && Sunk(r.board.fleet[i]))
  {
    var o := FirstOccupying(b.fleet, row, col);
    if o.Some? {
      assert b.fleet[o.value].placed;
    }
  }

  /** receiveShot keeps every board invariant: ships' hits consistent, the
      log free of repeated cells, and the placement (which it never moves). */
  lemma ReceiveShotKeepsInvariants(b: BoardValue, row: int, col: int)
    ensures var r := ReceiveShot(b, row, col);
      && (FleetConsistent(b.fleet) ==> FleetConsistent(r.board.fleet))
      && (ShotsUnique(b.shots) ==> ShotsUnique(r.board.shots))
      && (WellPlaced(b.fleet) ==> WellPlaced(r.board.fleet))
      && (forall i :: 0 <= i < |b.fleet| ==>
            (Positions(r.board.fleet[i]) == Positions(b.fleet[i]) &&
             r.board.fleet[i].id == b.fleet[i].id && r.board.fleet[i].size == b.fleet[i].size))
  {
    var r := ReceiveShot(b, row, col);
    if FleetConsistent(b.fleet) && FirstShotAt(b.shots, row, col).None? {
      match FirstOccupying(b.fleet, row, col)
      case None =>
      case Some(i) => AfterHitConsistent(b.fleet[i], row, col);
    }
    assert forall i :: 0 <= i < |b.fleet| ==>
      Positions(r.board.fleet[i]) == Positions(b.fleet[i]) && r.board.fleet[i].id == b.fleet[i].id;
    if WellPlaced(b.fleet) {
      SamePlacementKeepsWellPlaced(b.fleet, r.board.fleet);
    }
  }

  /** The placement invariant depends only on each ship's id and cells. */
  lemma SamePlacementKeepsWellPlaced(f: seq<ShipValue>, g: seq<ShipValue>)
    requires WellPlaced(f) && |g| == |f|
    requires forall i :: 0 <= i < |f| ==> g[i].id == f[i].id && Positions(g[i]) == Positions(f[i])
    ensures WellPlaced(g)
  {
    forall i, j | 0 <= i < |g| && 0 <= j < |g| && i != j
      ensures Apart(g[i], g[j])
    {
      assert Apart(f[i], f[j]);
    }
    forall i | 0 <= i < |g|
      ensures ShipInBounds(g[i])
    {
      assert ShipInBounds(f[i]);
    }
  }

  /** areAllShipsSunk on a consistent fleet: every ship is placed and every
      one of its cells has been hit. */
  lemma AllSunkIffEveryCellHit(f: seq<ShipValue>)
    ensures FleetConsistent(f) ==> (AllSunk(f) <==> forall i :: 0 <= i < |f| ==>
      f[i].placed && forall p :: p in Positions(f[i]) ==> p in f[i].hits)
  {
    forall i | 0 <= i < |f| && Consistent(f[i]) ensures Sunk(f[i]) <==> f[i].placed && forall p :: p in Positions(f[i]) ==> p in f[i].hits {
      SunkIffAllHit(f[i]);
    }
  }

  /** A non-empty fleet whose ships all have length and no hits is not sunk:
      a freshly placed fleet is never reported as lost. */
  lemma UnhitFleetNotSunk(f: seq<ShipValue>)
    requires |f| > 0 && forall i :: 0 <= i < |f| ==> f[i].hits == [] && f[i].size > 0
    ensures !AllSunk(f)
  {
    assert !Sunk(f[0]);
  }

  /** The bounds gap, exhibited: on a new board canPlaceShip accepts the
      carrier anchored at row -1, and at row 12, lying horizontally. */
  lemma CanPlaceAcceptsOffBoardRows()
    ensures CanPlace(InitialFleet(), -1, 0, 5, Horizontal, Some(1))
    ensures CanPlace(InitialFleet(), 12, 3, 5, Horizontal, Some(1))
    ensures !PlacementInBounds(-1, 0, 5, Horizontal) && !PlacementInBounds(12, 3, 5, Horizontal)
  {
    forall r, c, e ensures !Occupied(InitialFleet(), r, c, e) {
      InitialFleetFacts();
    }
    assert !InBounds(SegmentAt(-1, 0, Horizontal, 0).row, SegmentAt(-1, 0, Horizontal, 0).col);
    assert !InBounds(SegmentAt(12, 3, Horizontal, 0).row, SegmentAt(12, 3, Horizontal, 0).col);
  }
}
