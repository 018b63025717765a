/** The 10x10 grid: cells, orientations and the cells a ship covers. */
module Geometry {

  /** Board.size: every board is 10 by 10. */
  const Size: int := 10

  datatype Orientation = Horizontal | Vertical

  datatype Cell = Cell(row: int, col: int)

  /** Board.isValidPosition. */
  predicate InBounds(row: int, col: int) {
    0 <= row < Size && 0 <= col < Size
  }

  /** The i-th segment of a ship anchored at (row, col). */
  function SegmentAt(row: int, col: int, o: Orientation, i: int): Cell {
    if o == Horizontal then Cell(row, col + i) else Cell(row + i, col)
  }

  /** The first n segments of a ship anchored at (row, col), in order. */
  function Segments(row: int, col: int, n: nat, o: Orientation): seq<Cell> {
    if n == 0 then [] else Segments(row, col, n - 1, o) + [SegmentAt(row, col, o, n - 1)]
  }

  lemma {:induction false} SegmentsAt(row: int, col: int, n: nat, o: Orientation)
    ensures |Segments(row, col, n, o)| == n
    ensures forall i :: 0 <= i < n ==> Segments(row, col, n, o)[i] == SegmentAt(row, col, o, i)
  {
    if n > 0 {
      SegmentsAt(row, col, n - 1, o);
    }
  }

  /** A cell is a segment iff it is the i-th one for some i below n. */
  lemma SegmentsMember(row: int, col: int, n: nat, o: Orientation, p: Cell)
    ensures p in Segments(row, col, n, o) <==> exists i :: 0 <= i < n && p == SegmentAt(row, col, o, i)
  {
    SegmentsAt(row, col, n, o);
    var s := Segments(row, col, n, o);
    if p in s {
      var k :| 0 <= k < |s| && s[k] == p;
      assert p == SegmentAt(row, col, o, k);
    }
    if exists i :: 0 <= i < n && p == SegmentAt(row, col, o, i) {
      var i :| 0 <= i < n && p == SegmentAt(row, col, o, i);
      assert s[i] == p;
    }
  }

  /** No ship covers a cell twice. */
  lemma SegmentsDistinct(row: int, col: int, n: nat, o: Orientation)
    ensures forall i, j :: 0 <= i < j < |Segments(row, col, n, o)| ==>
      Segments(row, col, n, o)[i] != Segments(row, col, n, o)[j]
  {
    SegmentsAt(row, col, n, o);
  }

  /** Every segment of the placement lies on the board. */
  predicate PlacementInBounds(row: int, col: int, n: nat, o: Orientation) {
    forall i :: 0 <= i < n ==> InBounds(SegmentAt(row, col, o, i).row, SegmentAt(row, col, o, i).col)
  }

  /** The in-bounds condition written out: a ship of length n > 0 lies on the
      board iff its anchor is on the board and its far end is too. This is
      the condition the placement check does NOT fully test: it only bounds
      the far end along the ship's axis. */
  lemma PlacementInBoundsIff(row: int, col: int, n: nat, o: Orientation)
    requires n > 0
    ensures PlacementInBounds(row, col, n, o) <==>
      (InBounds(row, col) &&
       (if o == Horizontal then col + n <= Size else row + n <= Size))
  {
    if InBounds(row, col) && (if o == Horizontal then col + n <= Size else row + n <= Size) {
      forall i | 0 <= i < n
        ensures InBounds(SegmentAt(row, col, o, i).row, SegmentAt(row, col, o, i).col)
      {
      }
    }
    if PlacementInBounds(row, col, n, o) {
      assert InBounds(SegmentAt(row, col, o, 0).row, SegmentAt(row, col, o, 0).col);
      assert InBounds(SegmentAt(row, col, o, n - 1).row, SegmentAt(row, col, o, n - 1).col);
    }
  }

  /** Two cells touch when they are equal or one of the 8 neighbours of each other. */
  predicate Touching(p: Cell, q: Cell) {
    -1 <= q.row - p.row <= 1 && -1 <= q.col - p.col <= 1
  }

  /** The 100 cells in row-major order: cell k is (k / 10, k % 10). */
  function CellAt(k: int): Cell {
    Cell(k / Size, k % Size)
  }

  lemma CellAtIndex(r: int, c: int)
    requires InBounds(r, c)
    ensures CellAt(r * Size + c) == Cell(r, c) && 0 <= r * Size + c < Size * Size
  {
  }
}
