/** backend/models/Ship.js: one vessel, the cells it covers and the hits it has taken. */
module ShipModel {
  import opened Outcomes
  import opened Geometry

  /** The fields of a Ship object. `row` and `col` are null until the ship is placed. */
  datatype ShipValue = ShipValue(
    id: int,
    size: nat,
    row: Option<int>,
    col: Option<int>,
    orientation: Orientation,
    hits: seq<Cell>,
    placed: bool)

  /** A ship as the Ship constructor creates it: unplaced, horizontal, no hits. */
  function Unplaced(id: int, size: nat): ShipValue {
    ShipValue(id, size, None, None, Horizontal, [], false)
  }

  /** getPositions: no cells unless placed with a row and a column; otherwise
      `size` cells from the anchor along the orientation. */
  function Positions(s: ShipValue): seq<Cell> {
    if !s.placed || s.row.None? || s.col.None? then []
    else Segments(s.row.value, s.col.value, s.size, s.orientation)
  }

  /** occupiesPosition. */
  predicate Occupies(s: ShipValue, row: int, col: int) {
    Cell(row, col) in Positions(s)
  }

  /** The geometric reading of occupancy: on the ship's line, within its length. */
  predicate OnShipLine(s: ShipValue, row: int, col: int) {
    s.placed && s.row.Some? && s.col.Some? &&
    if s.orientation == Horizontal then
      row == s.row.value && s.col.value <= col < s.col.value + s.size
    else
      col == s.col.value && s.row.value <= row < s.row.value + s.size
  }

  /** The effect of receiveHit on the ship's fields. */
  function AfterHit(s: ShipValue, row: int, col: int): ShipValue {
    if Occupies(s, row, col) && Cell(row, col) !in s.hits then s.(hits := s.hits + [Cell(row, col)])
    else s
  }

  /** isSunk. */
  predicate Sunk(s: ShipValue) {
    s.placed && |s.hits| == s.size
  }

  /** The effect of place on the ship's fields. */
  function PlacedAt(s: ShipValue, row: int, col: int, o: Orientation): ShipValue {
    s.(row := Some(row), col := Some(col), orientation := o, placed := true)
  }

  predicate NoDuplicates(cells: seq<Cell>) {
    forall i, j :: 0 <= i < j < |cells| ==> cells[i] != cells[j]
  }

  /** The ship's own invariant: placed ships have an anchor, and hits are
      distinct cells the ship occupies. */
  predicate Consistent(s: ShipValue) {
    (s.placed ==> s.row.Some? && s.col.Some?) &&
    NoDuplicates(s.hits) &&
    forall h :: h in s.hits ==> h in Positions(s)
  }

  /** The plain-object form written by toJSON and read by fromJSON; the two
      optional fields are the ones fromJSON defaults when missing. */
  datatype ShipJson = ShipJson(
    id: int,
    size: nat,
    row: Option<int>,
    col: Option<int>,
    orientation: Orientation,
    hits: Option<seq<Cell>>,
    placed: Option<bool>,
    isSunk: bool)

  function ToJson(s: ShipValue): (j: ShipJson)
    ensures j.isSunk == Sunk(s)
  {
    ShipJson(s.id, s.size, s.row, s.col, s.orientation, Some(s.hits), Some(s.placed), Sunk(s))
  }

  function FromJson(j: ShipJson): (s: ShipValue)
    ensures j.hits.None? ==> s.hits == []
    ensures j.placed.None? ==> !s.placed
  {
    ShipValue(j.id, j.size, j.row, j.col, j.orientation, j.hits.GetOr([]), j.placed.GetOr(false))
  }

  // ---------------------------------------------------------------------
  // Properties of the ship rules
  // ---------------------------------------------------------------------

  /** A placed ship covers exactly `size` cells, the i-th being (row, col+i)
      or (row+i, col); an unplaced ship covers none. */
  lemma PositionsShape(s: ShipValue)
    ensures !s.placed ==> Positions(s) == []
    ensures s.placed && s.row.Some? && s.col.Some? ==>
      |Positions(s)| == s.size &&
      forall i :: 0 <= i < s.size ==>
        Positions(s)[i] == (if s.orientation == Horizontal then Cell(s.row.value, s.col.value + i)
                            else Cell(s.row.value + i, s.col.value))
  {
    if s.placed && s.row.Some? && s.col.Some? {
      SegmentsAt(s.row.value, s.col.value, s.size, s.orientation);
    }
  }

  lemma OccupiesIff(s: ShipValue, row: int, col: int)
    ensures Occupies(s, row, col) <==> OnShipLine(s, row, col)
  {
    if s.placed && s.row.Some? && s.col.Some? {
      var r, c := s.row.value, s.col.value;
      SegmentsMember(r, c, s.size, s.orientation, Cell(row, col));
      if OnShipLine(s, row, col) {
        var i := if s.orientation == Horizontal then col - c else row - r;
        assert Cell(row, col) == SegmentAt(r, c, s.orientation, i);
      }
    }
  }

  lemma PositionsDistinct(s: ShipValue)
    ensures NoDuplicates(Positions(s))
  {
    if s.placed && s.row.Some? && s.col.Some? {
      SegmentsDistinct(s.row.value, s.col.value, s.size, s.orientation);
    }
  }

  /** receiveHit keeps the ship's invariant: it records only occupied cells,
      each at most once, and changes nothing but `hits`. */
  lemma AfterHitConsistent(s: ShipValue, row: int, col: int)
    requires Consistent(s)
    ensures Consistent(AfterHit(s, row, col))
    ensures AfterHit(s, row, col).(hits := s.hits) == s
    ensures !Occupies(s, row, col) ==> AfterHit(s, row, col) == s
    ensures Occupies(s, row, col) ==> Cell(row, col) in AfterHit(s, row, col).hits
  {
  }

  /** A second hit on the same cell changes nothing. */
  lemma AfterHitIdempotent(s: ShipValue, row: int, col: int)
    ensures AfterHit(AfterHit(s, row, col), row, col) == AfterHit(s, row, col)
  {
  }

  lemma {:induction false} DistinctCard(cells: seq<Cell>)
    requires NoDuplicates(cells)
    ensures |set x | x in cells| == |cells|
  {
    if cells != [] {
      var rest := cells[1..];
      assert NoDuplicates(rest) by {
        forall i, j | 0 <= i < j < |rest| ensures rest[i] != rest[j] {
          assert rest[i] == cells[i + 1] && rest[j] == cells[j + 1];
        }
      }
      DistinctCard(rest);
      assert cells[0] !in rest by {
        forall k | 0 <= k < |rest| ensures rest[k] != cells[0] {
          assert rest[k] == cells[k + 1];
        }
      }
      assert (set x | x in cells) == {cells[0]} + (set x | x in rest) by {
        assert cells == [cells[0]] + rest;
      }
    }
  }

  lemma {:induction false} SubsetCard(a: set<Cell>, b: set<Cell>)
    requires a <= b
    ensures |a| <= |b|
    decreases b
  {
    if a != {} {
      var x :| x in a;
      SubsetCard(a - {x}, b - {x});
    }
  }

  lemma SubsetSameCard(a: set<Cell>, b: set<Cell>)
    requires a <= b && |a| == |b|
    ensures a == b
  {
    if exists p :: p in b && p !in a {
      var p :| p in b && p !in a;
      SubsetCard(a, b - {p});
    }
  }

  /** isSunk means every segment has been hit: for a consistent ship,
      `hits.length === size` holds exactly when all of its cells are in `hits`. */
  lemma SunkIffAllHit(s: ShipValue)
    ensures Consistent(s) ==> (Sunk(s) <==> s.placed && forall p :: p in Positions(s) ==> p in s.hits)
  {
    if s.placed && Consistent(s) {
      var ps := Positions(s);
      SegmentsAt(s.row.value, s.col.value, s.size, s.orientation);
      assert |ps| == s.size;
      PositionsDistinct(s);
      DistinctCard(s.hits);
      DistinctCard(ps);
      var H := set x | x in s.hits;
      var P := set x | x in ps;
      assert H <= P;
      if |s.hits| == s.size {
        SubsetSameCard(H, P);
        assert forall p :: p in ps ==> p in P;
      }
      if forall p :: p in ps ==> p in s.hits {
        assert P <= H;
        assert H == P;
        assert |s.hits| == |H| == |P| == s.size;
      }
    }
  }

  /** fromJSON(toJSON(s)) restores every field. */
  lemma JsonRoundTrip(s: ShipValue)
    ensures FromJson(ToJson(s)) == s
  {
  }

  // ---------------------------------------------------------------------
  // The Ship object
  // ---------------------------------------------------------------------

  class Ship {
    const id: int
    const size: nat
    var row: Option<int>
    var col: Option<int>
    var orientation: Orientation
    var hits: seq<Cell>
    var placed: bool

    function Value(): ShipValue
      reads this
    {
      ShipValue(id, size, row, col, orientation, hits, placed)
    }

    constructor (id: int, size: nat)
      ensures Value() == Unplaced(id, size)
    {
      this.id := id;
      this.size := size;
      row, col := None, None;
      orientation := Horizontal;
      hits := [];
      placed := false;
    }

    /** Ship.fromJSON. */
    constructor FromJSON(data: ShipJson)
      ensures Value() == FromJson(data)
    {
      id := data.id;
      size := data.size;
      row, col := data.row, data.col;
      orientation := data.orientation;
      hits := data.hits.GetOr([]);
      placed := data.placed.GetOr(false);
    }

    /** getPositions, built cell by cell as the source's loop does. */
    method GetPositions() returns (positions: seq<Cell>)
      ensures positions == Positions(Value())
      ensures |positions| == (if placed && row.Some? && col.Some? then size else 0)
    {
      if !placed || row.None? || col.None? {
        return [];
      }
      positions := [];
      var i := 0;
      while i < size
        invariant 0 <= i <= size
        invariant positions == Segments(row.value, col.value, i, orientation)
      {
        if orientation == Horizontal {
          positions := positions + [Cell(row.value, col.value + i)];
        } else {
          positions := positions + [Cell(row.value + i, col.value)];
        }
        i := i + 1;
      }
      SegmentsAt(row.value, col.value, size, orientation);
    }

    /** occupiesPosition: the cell is one of getPositions(), i.e. it lies on
        the placed ship's line within its length. */
    function OccupiesPosition(row: int, col: int): (b: bool)
      reads this
      ensures b <==> OnShipLine(Value(), row, col)
    {
      OccupiesIff(Value(), row, col);
      Occupies(Value(), row, col)
    }

    /** receiveHit: true iff the ship occupies the cell; the cell joins `hits`
        only if it is not there yet. */
    method ReceiveHit(row: int, col: int) returns (hit: bool)
      modifies this
      ensures hit == Occupies(old(Value()), row, col)
      ensures Value() == AfterHit(old(Value()), row, col)
    {
      hit := OccupiesPosition(row, col);
      OccupiesIff(Value(), row, col);
      if hit {
        var alreadyHit := Cell(row, col) in hits;
        if !alreadyHit {
          hits := hits + [Cell(row, col)];
        }
      }
    }

    /** isSunk: placed and as many hits as cells; for a consistent ship this
        is "every segment has been hit". */
    function IsSunk(): (b: bool)
      reads this
      ensures Consistent(Value()) ==> (b <==> placed && forall p :: p in Positions(Value()) ==> p in hits)
    {
      SunkIffAllHit(Value());
      placed && |hits| == size
    }

    /** place: sets the anchor, the orientation and the placed flag; id, size
        and hits stay as they were. */
    method Place(row: int, col: int, orientation: Orientation)
      modifies this
      ensures Value() == PlacedAt(old(Value()), row, col, orientation)
      ensures hits == old(hits)
    {
      this.row := Some(row);
      this.col := Some(col);
      this.orientation := orientation;
      placed := true;
    }

    /** toJSON: every field plus the derived isSunk flag. */
    function ToJSON(): (j: ShipJson)
      reads this
      ensures FromJson(j) == Value()
      ensures j.isSunk == IsSunk()
    {
      ToJson(Value())
    }
  }
}
