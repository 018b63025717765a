/** backend/models/Board.js: a 10x10 board, its fleet of five Ship objects
    and the log of shots it has received. Each method is proved against the
    value-level rules of module BoardRules. */
module BoardModel {
  import opened Outcomes
  import opened Geometry
  import opened ShipModel
  import opened BoardRules

  /** The plain-object form of a board; fromJSON defaults missing lists to []. */
  datatype BoardJson = BoardJson(size: Option<int>, ships: Option<seq<ShipJson>>, shots: Option<seq<Shot>>)

  /** The fleet a board snapshot describes, ship by ship through Ship.fromJSON. */
  function FleetFromJson(ships: seq<ShipJson>): (f: seq<ShipValue>)
    ensures |f| == |ships| && forall i :: 0 <= i < |ships| ==> f[i] == FromJson(ships[i])
  {
    seq(|ships|, i requires 0 <= i < |ships| => FromJson(ships[i]))
  }

  function FleetToJson(f: seq<ShipValue>): (js: seq<ShipJson>)
    ensures |js| == |f| && forall i :: 0 <= i < |f| ==> js[i] == ToJson(f[i])
  {
    seq(|f|, i requires 0 <= i < |f| => ToJson(f[i]))
  }

  /** Math.floor(Math.random() * max): in [0, max) when max > 0; in [max, 0]
      otherwise (only for a ship longer than the board). */
  predicate InDrawRange(v: int, max: int) {
    if max > 0 then 0 <= v < max else max <= v <= 0
  }

  predicate SizesFit(f: seq<ShipValue>) {
    forall i :: 0 <= i < |f| ==> f[i].size <= Size
  }

  /** The draws of placeShipsRandomly always put a ship of length at most 10
      entirely on the board (they never reach the last column or row along the
      ship's axis, except for a ship of length 10). */
  lemma DrawInBounds(row: int, col: int, size: nat, o: Orientation)
    requires size <= Size
    requires InDrawRange(row, if o == Horizontal then Size else Size - size)
    requires InDrawRange(col, if o == Horizontal then Size - size else Size)
    ensures PlacementInBounds(row, col, size, o)
  {
  }

  /** What placeShipsRandomly makes of a fleet: the same ships (ids and
      sizes, in order), each reset and placed or not, consistent, and well
      placed whenever the sizes fit the board and the ids are distinct. */
  predicate Randomised(before: seq<ShipValue>, after: seq<ShipValue>) {
    && |after| == |before|
    && (forall i :: 0 <= i < |before| ==>
          after[i].id == before[i].id && after[i].size == before[i].size && Board.Reset(after[i]))
    && FleetConsistent(after)
    && (SizesFit(before) && IdsDistinct(before) ==> WellPlaced(after))
  }

  class Board {
    const ships: seq<Ship>
    var shots: seq<Shot>
    /** The ship objects of the fleet, as a set. */
    ghost const hulls: set<Ship>

    ghost function Repr(): set<object> {
      {this} + hulls
    }

    /** The board's ships are distinct objects, all in `hulls`. */
    ghost predicate Valid() {
      && (forall i :: 0 <= i < |ships| ==> ships[i] in hulls)
      && (forall i, j :: 0 <= i < j < |ships| ==> ships[i] != ships[j])
    }

    function Fleet(): (f: seq<ShipValue>)
      requires Valid()
      reads this, hulls
      ensures |f| == |ships| && forall i :: 0 <= i < |ships| ==> f[i] == ships[i].Value()
    {
      seq(|ships|, i reads hulls requires 0 <= i < |ships| => ships[i].Value())
    }

    function Value(): BoardValue
      requires Valid()
      reads this, hulls
    {
      BoardValue(Fleet(), shots)
    }

    /** constructor and initializeShips: the standard fleet, unplaced, and an
        empty shot log. */
    constructor ()
      ensures Valid() && fresh(Repr())
      ensures Value() == BoardValue(InitialFleet(), [])
    {
      var carrier := new Ship(1, 5);
      var cruiser := new Ship(2, 4);
      var submarine := new Ship(3, 3);
      var destroyer1 := new Ship(4, 2);
      var destroyer2 := new Ship(5, 2);
      ships := [carrier, cruiser, submarine, destroyer1, destroyer2];
      hulls := {carrier, cruiser, submarine, destroyer1, destroyer2};
      shots := [];
    }

    /** Board.fromJSON: ships rebuilt through Ship.fromJSON, the shot log copied. */
    constructor FromJSON(data: BoardJson)
      ensures Valid() && fresh(Repr())
      ensures Value() == BoardValue(FleetFromJson(data.ships.GetOr([])), data.shots.GetOr([]))
    {
      var source := data.ships.GetOr([]);
      var built: seq<Ship> := [];
      var i := 0;
      while i < |source|
        invariant 0 <= i <= |source| && |built| == i
        invariant forall k :: 0 <= k < i ==> fresh(built[k]) && built[k].Value() == FromJson(source[k])
        invariant forall k, l :: 0 <= k < l < i ==> built[k] != built[l]
      {
        var s := new Ship.FromJSON(source[i]);
        built := built + [s];
        i := i + 1;
      }
      ships := built;
      hulls := set k | 0 <= k < |built| :: built[k];
      shots := data.shots.GetOr([]);
    }

    /** Board.toJSON: the size, each ship's toJSON and the shot log. */
    function ToJSON(): (j: BoardJson)
      requires Valid()
      reads this, hulls
      ensures j.ships.Some? && j.shots.Some? && j.size == Some(Size)
      ensures FleetFromJson(j.ships.value) == Fleet() && j.shots.value == shots
    {
      var js := FleetToJson(Fleet());
      assert forall i :: 0 <= i < |js| ==> FromJson(js[i]) == Fleet()[i] by {
        forall i | 0 <= i < |js| ensures FromJson(js[i]) == Fleet()[i] { JsonRoundTrip(Fleet()[i]); }
      }
      BoardJson(Some(Size), Some(js), Some(shots))
    }

    /** isPositionOccupied: some placed ship other than `exclude` covers the cell. */
    function IsPositionOccupied(row: int, col: int, exclude: Option<int>): (b: bool)
      requires Valid()
      reads this, hulls
      ensures b == Occupied(Fleet(), row, col, exclude)
    {
      exists i :: 0 <= i < |ships| && ships[i].placed && Some(ships[i].id) != exclude &&
                  Occupies(ships[i].Value(), row, col)
    }

    /** hasMinimumSeparation: the loop over the ship's segments, returning
        false at the first segment with an occupied on-board neighbour. */
    method HasMinimumSeparation(row: int, col: int, size: nat, o: Orientation, exclude: Option<int>)
      returns (ok: bool)
      requires Valid()
      ensures ok == SeparationOk(Fleet(), row, col, size, o, exclude)
    {
      var i := 0;
      while i < size
        invariant 0 <= i <= size
        invariant forall k :: 0 <= k < i ==> SegmentClear(Fleet(), SegmentAt(row, col, o, k), exclude)
      {
        var clear := NeighbourhoodClear(SegmentAt(row, col, o, i), exclude);
        if !clear {
          return false;
        }
        i := i + 1;
      }
      return true;
    }

    /** The two inner loops of hasMinimumSeparation: the row and column
        offsets -1..1 around one segment, skipping cells off the board. */
    method NeighbourhoodClear(p: Cell, exclude: Option<int>) returns (ok: bool)
      requires Valid()
      ensures ok == SegmentClear(Fleet(), p, exclude)
    {
      var dr := -1;
      while dr <= 1
        invariant -1 <= dr <= 2
        invariant forall r, c :: -1 <= r < dr && -1 <= c <= 1 ==> NeighbourClear(Fleet(), p, r, c, exclude)
      {
        var dc := -1;
        while dc <= 1
          invariant -1 <= dc <= 2
          invariant forall r, c :: -1 <= r < dr && -1 <= c <= 1 ==> NeighbourClear(Fleet(), p, r, c, exclude)
          invariant forall c :: -1 <= c < dc ==> NeighbourClear(Fleet(), p, dr, c, exclude)
        {
          var checkRow, checkCol := p.row + dr, p.col + dc;
          if InBounds(checkRow, checkCol) {
            if IsPositionOccupied(checkRow, checkCol, exclude) {
              assert !NeighbourClear(Fleet(), p, dr, dc, exclude);
              return false;
            }
          }
          dc := dc + 1;
        }
        dr := dr + 1;
      }
      return true;
    }

    /** canPlaceShip: the axis bound, then the overlap loop, then the
        separation check. */
    method CanPlaceShip(row: int, col: int, size: nat, o: Orientation, exclude: Option<int>)
      returns (ok: bool)
      requires Valid()
      ensures ok == CanPlace(Fleet(), row, col, size, o, exclude)
    {
      if o == Horizontal {
        if col + size > Size { return false; }
      } else {
        if row + size > Size { return false; }
      }
      var i := 0;
      while i < size
        invariant 0 <= i <= size
        invariant forall k :: 0 <= k < i ==>
          !Occupied(Fleet(), SegmentAt(row, col, o, k).row, SegmentAt(row, col, o, k).col, exclude)
      {
        var p := SegmentAt(row, col, o, i);
        if IsPositionOccupied(p.row, p.col, exclude) {
          return false;
        }
        i := i + 1;
      }
      ok := HasMinimumSeparation(row, col, size, o, exclude);
    }

    /** placeShip: the first ship with that id is placed if canPlaceShip
        allows it (excluding the ship itself); nothing else changes. */
    method PlaceShip(shipId: int, row: int, col: int, o: Orientation) returns (ok: bool)
      requires Valid()
      modifies Repr()
      ensures ok == BoardRules.PlaceShip(old(Fleet()), shipId, row, col, o).ok
      ensures Value() == BoardValue(BoardRules.PlaceShip(old(Fleet()), shipId, row, col, o).fleet, old(shots))
      ensures WellPlaced(old(Fleet())) &&
              (FindShip(old(Fleet()), shipId).Some? ==>
                 PlacementInBounds(row, col, old(Fleet())[FindShip(old(Fleet()), shipId).value].size, o))
              ==> WellPlaced(Fleet())
    {
      ghost var before := Fleet();
      if WellPlaced(before) &&
         (FindShip(before, shipId).Some? ==> PlacementInBounds(row, col, before[FindShip(before, shipId).value].size, o))
      {
        PlaceShipKeepsWellPlaced(before, shipId, row, col, o);
      }
      var found := FindShip(Fleet(), shipId);
      if found.None? {
        return false;
      }
      var ship := ships[found.value];
      ok := CanPlaceShip(row, col, ship.size, o, Some(shipId));
      if ok {
        ship.Place(row, col, o);
        assert Fleet() == before[found.value := PlacedAt(before[found.value], row, col, o)];
      }
    }

    /** placeShipsRandomly: every ship is reset (unplaced, no anchor, no
        hits), then each in fleet order gets up to 100 random draws and is
        placed at the first one canPlaceShip accepts. The random draws are
        arbitrary choices within the source's ranges. A ship whose draws all
        fail stays unplaced. */
    method PlaceShipsRandomly()
      requires Valid()
      modifies Repr()
      ensures shots == old(shots)
      ensures Randomised(old(Fleet()), Fleet())
    {
      ghost var fits := SizesFit(Fleet()) && IdsDistinct(Fleet());
      ResetShips();
      var k := 0;
      assert fits ==> WellPlaced(Fleet()) by {
        if fits {
          forall i | 0 <= i < |ships| ensures Positions(Fleet()[i]) == [] {}
        }
      }
      while k < |ships|
        invariant 0 <= k <= |ships|
        invariant shots == old(shots)
        invariant forall i :: 0 <= i < |ships| ==> Reset(ships[i].Value())
        invariant forall i :: k <= i < |ships| ==> !ships[i].placed
        invariant fits ==> SizesFit(Fleet()) && WellPlaced(Fleet())
      {
        PlaceRandomly(k);
        k := k + 1;
      }
      assert forall i :: 0 <= i < |ships| ==> Consistent(Fleet()[i]);
    }

    /** The reset loop of placeShipsRandomly. */
    method ResetShips()
      requires Valid()
      modifies hulls
      ensures forall i :: 0 <= i < |ships| ==>
        ships[i].Value() == old(ships[i].Value()).(placed := false, row := None, col := None, hits := [])
    {
      var k := 0;
      while k < |ships|
        invariant 0 <= k <= |ships|
        invariant forall i :: 0 <= i < |ships| ==>
          ships[i].Value() == if i < k then old(ships[i].Value()).(placed := false, row := None, col := None, hits := [])
                              else old(ships[i].Value())
      {
        var ship := ships[k];
        ship.placed := false;
        ship.row := None;
        ship.col := None;
        ship.hits := [];
        k := k + 1;
      }
    }

    /** The state placeShipsRandomly leaves a ship in: no hits, and an anchor
        exactly when placed. */
    static predicate Reset(s: ShipValue) {
      s.hits == [] && (s.placed <==> s.row.Some? && s.col.Some?) && (s.row.Some? <==> s.col.Some?)
    }

    /** The attempts loop of placeShipsRandomly for ship k. */
    method PlaceRandomly(k: nat)
      requires Valid() && k < |ships|
      requires Reset(ships[k].Value()) && !ships[k].placed
      modifies ships[k]
      ensures Reset(ships[k].Value())
      ensures !ships[k].placed ==> ships[k].Value() == old(ships[k].Value())
      ensures ships[k].placed ==>
        var s := ships[k].Value();
        && InDrawRange(s.row.value, if s.orientation == Horizontal then Size else Size - s.size)
        && InDrawRange(s.col.value, if s.orientation == Horizontal then Size - s.size else Size)
        && CanPlace(old(Fleet()), s.row.value, s.col.value, s.size, s.orientation, None)
      ensures SizesFit(old(Fleet())) && WellPlaced(old(Fleet())) ==> WellPlaced(Fleet())
    {
      var ship := ships[k];
      var placed := false;
      var attempts := 0;
      ghost var start := Fleet();
      ghost var fits := SizesFit(start) && WellPlaced(start);
      while !placed && attempts < 100
        invariant placed == Fleet()[k].placed && Reset(Fleet()[k])
        invariant !placed ==> Fleet() == start
        invariant placed ==>
          var s := Fleet()[k];
          && InDrawRange(s.row.value, if s.orientation == Horizontal then Size else Size - s.size)
          && InDrawRange(s.col.value, if s.orientation == Horizontal then Size - s.size else Size)
          && CanPlace(start, s.row.value, s.col.value, s.size, s.orientation, None)
        invariant fits ==> WellPlaced(Fleet())
      {
        var horizontal: bool :| true;
        var o := if horizontal then Horizontal else Vertical;
        var maxRow := if o == Horizontal then Size else Size - ship.size;
        var maxCol := if o == Horizontal then Size - ship.size else Size;
        var row :| InDrawRange(row, maxRow);
        var col :| InDrawRange(col, maxCol);
        placed := Attempt(k, row, col, o);
        attempts := attempts + 1;
      }
    }

    /** One attempt of placeShipsRandomly: canPlaceShip on the draw (with no
        ship excluded), then place on success. */
    method Attempt(k: nat, row: int, col: int, o: Orientation) returns (ok: bool)
      requires Valid() && k < |ships|
      modifies ships[k]
      ensures ok == CanPlace(old(Fleet()), row, col, ships[k].size, o, None)
      ensures !ok ==> Fleet() == old(Fleet())
      ensures ok ==> Fleet() == old(Fleet())[k := PlacedAt(old(Fleet())[k], row, col, o)]
      ensures ok && SizesFit(old(Fleet())) && WellPlaced(old(Fleet())) &&
              InDrawRange(row, if o == Horizontal then Size else Size - ships[k].size) &&
              InDrawRange(col, if o == Horizontal then Size - ships[k].size else Size)
              ==> WellPlaced(Fleet())
    {
      ghost var before := Fleet();
      var ship := ships[k];
      ok := CanPlaceShip(row, col, ship.size, o, None);
      if ok {
        if SizesFit(before) && WellPlaced(before) &&
           InDrawRange(row, if o == Horizontal then Size else Size - ship.size) &&
           InDrawRange(col, if o == Horizontal then Size - ship.size else Size)
        {
          assert before[k].size == ship.size <= Size;
          DrawInBounds(row, col, ship.size, o);
          PlaceAtKeepsWellPlaced(before, k, row, col, o, None);
        }
        ship.Place(row, col, o);
        assert Fleet() == before[k := PlacedAt(before[k], row, col, o)];
      }
    }

    /** receiveShot: a repeat cell returns the logged outcome; otherwise the
        ships are tried in fleet order, the first that covers the cell takes
        the hit, and the shot is appended to the log. */
    method ReceiveShot(row: int, col: int) returns (r: ShotResult)
      requires Valid()
      modifies Repr()
      ensures Received(Value(), r) == BoardRules.ReceiveShot(old(Value()), row, col)
    {
      var existing := FirstShotAt(shots, row, col);
      if existing.Some? {
        return ShotResult(shots[existing.value].isHit, None, true);
      }
      var isHit, sunkShip := HitFirstShip(row, col);
      shots := shots + [Shot(row, col, isHit)];
      r := ShotResult(isHit, sunkShip, false);
    }

    /** The loop of receiveShot: receiveHit on each ship in order until one
        reports a hit. */
    method HitFirstShip(row: int, col: int) returns (isHit: bool, sunkShip: Option<ShipValue>)
      requires Valid()
      modifies hulls
      ensures isHit == FirstOccupying(old(Fleet()), row, col).Some?
      ensures !isHit ==> Fleet() == old(Fleet()) && sunkShip.None?
      ensures isHit ==> var i := FirstOccupying(old(Fleet()), row, col).value;
        Fleet() == old(Fleet())[i := AfterHit(old(Fleet())[i], row, col)] &&
        sunkShip == (if Sunk(Fleet()[i]) then Some(Fleet()[i]) else None)
    {
      ghost var before := Fleet();
      var i := 0;
      while i < |ships|
        invariant 0 <= i <= |ships|
        invariant Fleet() == before
        invariant forall j :: 0 <= j < i ==> !Occupies(before[j], row, col)
      {
        var ship := ships[i];
        var hit := ship.ReceiveHit(row, col);
        if hit {
          FirstOccupyingIs(before, row, col, i);
          assert Fleet() == before[i := AfterHit(before[i], row, col)];
          var sunk := ship.IsSunk();
          return true, if sunk then Some(ship.Value()) else None;
        }
        assert Fleet() == before;
        i := i + 1;
      }
      FirstOccupyingNone(before, row, col);
      return false, None;
    }

    /** areAllShipsSunk. */
    function AreAllShipsSunk(): (b: bool)
      requires Valid()
      reads this, hulls
      ensures b == AllSunk(Fleet())
      ensures FleetConsistent(Fleet()) ==>
        (b <==> forall i :: 0 <= i < |ships| ==>
           ships[i].placed && forall p :: p in Positions(Fleet()[i]) ==> p in ships[i].hits)
    {
      AllSunkIffEveryCellHit(Fleet());
      forall i :: 0 <= i < |ships| ==> ships[i].IsSunk()
    }

    /** getShipAt: the first ship in fleet order that covers the cell. */
    function GetShipAt(row: int, col: int): (r: Option<Ship>)
      requires Valid()
      reads this, hulls
      ensures r.Some? <==> exists i :: 0 <= i < |ships| && Occupies(Fleet()[i], row, col)
      ensures r.Some? ==> var i := FirstOccupying(Fleet(), row, col).value;
                          r.value == ships[i] && r.value.OccupiesPosition(row, col)
    {
      match FirstOccupying(Fleet(), row, col)
      case None => None
      case Some(i) => (OccupiesIff(Fleet()[i], row, col); Some(ships[i]))
    }
  }
}
