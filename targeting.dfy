/** The scripted opponent's targeting rule and the shot statistics of
    backend/models/Player.js, stated on values. The Player class
    (player.dfy) is proved against these. */
module Targeting {
  import opened Outcomes
  import opened Geometry
  import opened ShipModel
  import opened BoardRules

  // ---------------------------------------------------------------------
  // Adjacent targeting (getAdjacentTarget)
  // ---------------------------------------------------------------------

  /** The four directions in the order getAdjacentTarget tries them: up,
      down, left, right (as row and column offsets). */
  const Directions: seq<Cell> := [Cell(-1, 0), Cell(1, 0), Cell(0, -1), Cell(0, 1)]

  function Neighbour(h: Shot, d: nat): Cell
    requires d < |Directions|
  {
    Cell(h.row + Directions[d].row, h.col + Directions[d].col)
  }

  /** The cell is on the board and the player has not fired at it. */
  predicate Untried(shots: seq<Shot>, c: Cell) {
    InBounds(c.row, c.col) && !Fired(shots, c.row, c.col)
  }

  /** The first untried neighbour of hit h, trying directions d, d+1, ... */
  function FreeNeighbour(h: Shot, shots: seq<Shot>, d: nat): Option<Cell>
    decreases |Directions| - d
  {
    if d >= |Directions| then None
    else if Untried(shots, Neighbour(h, d)) then Some(Neighbour(h, d))
    else FreeNeighbour(h, shots, d + 1)
  }

  /** getAdjacentTarget before its fallback: the first untried neighbour of
      the first hit that has one. */
  function AdjacentTarget(hits: seq<Shot>, shots: seq<Shot>): Option<Cell>
  {
    if hits == [] then None
    else match FreeNeighbour(hits[0], shots, 0)
      case Some(c) => Some(c)
      case None => AdjacentTarget(hits[1..], shots)
  }

  /** Orthogonal neighbours: one step up, down, left or right. */
  predicate Orthogonal(h: Shot, c: Cell) {
    (c.row == h.row && (c.col == h.col - 1 || c.col == h.col + 1)) ||
    (c.col == h.col && (c.row == h.row - 1 || c.row == h.row + 1))
  }

  /** The answer is the neighbour in the first direction from d on whose
      cell is untried: every direction tried before it was fired at or off
      the board, and there is none only when that holds for all of them. */
  lemma {:induction false} FreeNeighbourSpec(h: Shot, shots: seq<Shot>, d: nat)
    ensures var r := FreeNeighbour(h, shots, d);
      && (r.Some? ==> Untried(shots, r.value) && Orthogonal(h, r.value))
      && (r.Some? ==> exists e :: d <= e < |Directions| && r.value == Neighbour(h, e) &&
                                 forall e' :: d <= e' < e ==> !Untried(shots, Neighbour(h, e')))
      && (r.None? ==> forall e :: d <= e < |Directions| ==> !Untried(shots, Neighbour(h, e)))
    decreases |Directions| - d
  {
    if d < |Directions| {
      FreeNeighbourSpec(h, shots, d + 1);
      if Untried(shots, Neighbour(h, d)) {
        assert FreeNeighbour(h, shots, d).value == Neighbour(h, d);
      } else if FreeNeighbour(h, shots, d).Some? {
        var e :| d + 1 <= e < |Directions| && FreeNeighbour(h, shots, d).value == Neighbour(h, e) &&
                 forall e' :: d + 1 <= e' < e ==> !Untried(shots, Neighbour(h, e'));
        assert forall e' :: d <= e' < e ==> !Untried(shots, Neighbour(h, e'));
      }
    }
  }

  /** Every orthogonal neighbour is one of the four directions. */
  lemma OrthogonalIsNeighbour(h: Shot, c: Cell)
    requires Orthogonal(h, c)
    ensures exists d :: 0 <= d < |Directions| && c == Neighbour(h, d)
  {
    if c.row == h.row - 1 { assert c == Neighbour(h, 0); }
    else if c.row == h.row + 1 { assert c == Neighbour(h, 1); }
    else if c.col == h.col - 1 { assert c == Neighbour(h, 2); }
    else { assert c == Neighbour(h, 3); }
  }

  /** The adjacent target is an untried on-board cell next to one of the
      hits, namely the first untried neighbour of the first hit, in order,
      that has one; there is none exactly when every on-board orthogonal
      neighbour of every hit has been fired at. */
  lemma {:induction false} AdjacentTargetSpec(hits: seq<Shot>, shots: seq<Shot>)
    ensures var r := AdjacentTarget(hits, shots);
      && (r.Some? ==> Untried(shots, r.value) && exists k :: 0 <= k < |hits| && Orthogonal(hits[k], r.value))
      && (r.Some? ==> exists k :: 0 <= k < |hits| && FreeNeighbour(hits[k], shots, 0) == r &&
                                 forall k' :: 0 <= k' < k ==> FreeNeighbour(hits[k'], shots, 0).None?)
      && (r.None? <==> forall k, c :: 0 <= k < |hits| && Orthogonal(hits[k], c) ==> !Untried(shots, c))
  {
    if hits != [] {
      FreeNeighbourSpec(hits[0], shots, 0);
      AdjacentTargetSpec(hits[1..], shots);
      var r := AdjacentTarget(hits, shots);
      if FreeNeighbour(hits[0], shots, 0).None? {
        forall k, c | 0 <= k < |hits| && Orthogonal(hits[k], c) && AdjacentTarget(hits[1..], shots).None?
          ensures !Untried(shots, c)
        {
          if k == 0 {
            OrthogonalIsNeighbour(hits[0], c);
          } else {
            assert hits[k] == hits[1..][k - 1];
          }
        }
        if r.Some? {
          var k :| 0 <= k < |hits[1..]| && Orthogonal(hits[1..][k], r.value);
          assert Orthogonal(hits[k + 1], r.value);
          var j :| 0 <= j < |hits[1..]| && FreeNeighbour(hits[1..][j], shots, 0) == r &&
                   forall k' :: 0 <= k' < j ==> FreeNeighbour(hits[1..][k'], shots, 0).None?;
          assert hits[1..][j] == hits[j + 1];
          assert forall k' :: 0 <= k' < j + 1 ==> FreeNeighbour(hits[k'], shots, 0).None? by {
            forall k' | 0 <= k' < j + 1 ensures FreeNeighbour(hits[k'], shots, 0).None? {
              if k' > 0 { assert hits[k'] == hits[1..][k' - 1]; }
            }
          }
        }
        if r.None? {
          assert forall k, c :: 0 <= k < |hits[1..]| && Orthogonal(hits[1..][k], c) ==> !Untried(shots, c) by {
            forall k, c | 0 <= k < |hits[1..]| && Orthogonal(hits[1..][k], c) ensures !Untried(shots, c) {
              assert hits[1..][k] == hits[k + 1];
            }
          }
        }
      } else {
        assert Orthogonal(hits[0], r.value);
        assert FreeNeighbour(hits[0], shots, 0) == r;
      }
    }
  }

  // ---------------------------------------------------------------------
  // Checkerboard targeting (getRandomCheckerboardTarget)
  // ---------------------------------------------------------------------

  predicate Even(c: Cell) {
    (c.row + c.col) % 2 == 0
  }

  predicate Eligible(shots: seq<Shot>, evenOnly: bool, c: Cell) {
    (!evenOnly || Even(c)) && !Fired(shots, c.row, c.col)
  }

  /** The candidate list the nested row/col loops build after visiting the
      first n cells in row-major order. */
  function Candidates(shots: seq<Shot>, evenOnly: bool, n: nat): seq<Cell> {
    if n == 0 then []
    else Candidates(shots, evenOnly, n - 1) +
         (if Eligible(shots, evenOnly, CellAt(n - 1)) then [CellAt(n - 1)] else [])
  }

  /** availablePositions after both passes: untried even cells, or, when
      there are none, every untried cell. */
  function Pool(shots: seq<Shot>): seq<Cell> {
    var even := Candidates(shots, true, Size * Size);
    if even != [] then even else Candidates(shots, false, Size * Size)
  }

  lemma {:induction false} CandidatesMember(shots: seq<Shot>, evenOnly: bool, n: nat, c: Cell)
    ensures c in Candidates(shots, evenOnly, n) <==>
            exists k :: 0 <= k < n && c == CellAt(k) && Eligible(shots, evenOnly, c)
  {
    if n > 0 {
      CandidatesMember(shots, evenOnly, n - 1, c);
    }
  }

  /** A cell is a candidate of the full scan iff it is on the board and eligible. */
  lemma CandidatesOnBoard(shots: seq<Shot>, evenOnly: bool, c: Cell)
    ensures c in Candidates(shots, evenOnly, Size * Size) <==> InBounds(c.row, c.col) && Eligible(shots, evenOnly, c)
  {
    CandidatesMember(shots, evenOnly, Size * Size, c);
    if InBounds(c.row, c.col) {
      CellAtIndex(c.row, c.col);
      assert c == CellAt(c.row * Size + c.col);
    }
  }

  /** What getRandomCheckerboardTarget may return: every pool cell is on the
      board and untried; it is even whenever some untried even cell exists;
      the pool is empty (the source throws) only when all 100 cells have
      been fired at. */
  lemma PoolSpec(shots: seq<Shot>)
    ensures forall c :: c in Pool(shots) ==> Untried(shots, c)
    ensures (exists c :: Untried(shots, c) && Even(c)) ==> forall c :: c in Pool(shots) ==> Even(c)
    ensures Pool(shots) == [] <==> forall r, c :: InBounds(r, c) ==> Fired(shots, r, c)
  {
    forall c ensures c in Pool(shots) ==> Untried(shots, c) {
      CandidatesOnBoard(shots, true, c);
      CandidatesOnBoard(shots, false, c);
    }
    if exists c :: Untried(shots, c) && Even(c) {
      var c :| Untried(shots, c) && Even(c);
      CandidatesOnBoard(shots, true, c);
      forall x | x in Pool(shots) ensures Even(x) {
        CandidatesOnBoard(shots, true, x);
      }
    }
    if Pool(shots) == [] {
      forall r, c | InBounds(r, c) ensures Fired(shots, r, c) {
        CandidatesOnBoard(shots, false, Cell(r, c));
      }
    }
    if forall r, c :: InBounds(r, c) ==> Fired(shots, r, c) {
      if Pool(shots) != [] {
        var x := Pool(shots)[0];
        CandidatesOnBoard(shots, true, x);
        CandidatesOnBoard(shots, false, x);
        assert false;
      }
    }
  }

  // ---------------------------------------------------------------------
  // Choice of strategy (calculateBestShot)
  // ---------------------------------------------------------------------

  /** The hit lies on a ship of the target board (the first one there, as
      getShipAt finds it) that is not sunk. */
  predicate OnAfloatShip(f: seq<ShipValue>, s: Shot) {
    match FirstOccupying(f, s.row, s.col)
    case None => false
    case Some(i) => !Sunk(f[i])
  }

  /** unfinishedHits: the player's hits, in order, that lie on a ship not yet sunk. */
  function Unfinished(shots: seq<Shot>, f: seq<ShipValue>): seq<Shot> {
    if shots == [] then []
    else (if shots[0].isHit && OnAfloatShip(f, shots[0]) then [shots[0]] else []) + Unfinished(shots[1..], f)
  }

  /** unfinishedHits holds exactly the logged hits on ships still afloat. */
  lemma {:induction false} UnfinishedMembers(shots: seq<Shot>, f: seq<ShipValue>)
    ensures forall x :: x in Unfinished(shots, f) <==> x in shots && x.isHit && OnAfloatShip(f, x)
  {
    if shots != [] {
      UnfinishedMembers(shots[1..], f);
      assert shots == [shots[0]] + shots[1..];
    }
  }

  /** Filtering a log extended by one shot extends the filtered log by at
      most that shot. */
  lemma {:induction false} UnfinishedAppend(shots: seq<Shot>, f: seq<ShipValue>, s: Shot)
    ensures Unfinished(shots + [s], f) ==
      Unfinished(shots, f) + (if s.isHit && OnAfloatShip(f, s) then [s] else [])
  {
    if shots == [] {
      assert [s][1..] == [];
    } else {
      assert (shots + [s])[1..] == shots[1..] + [s];
      UnfinishedAppend(shots[1..], f, s);
    }
  }

  /** The cell calculateBestShot may choose: the adjacent target when there
      are unfinished hits and one of them has an untried neighbour, otherwise
      any cell of the checkerboard pool. */
  predicate BestShot(shots: seq<Shot>, f: seq<ShipValue>, c: Cell) {
    var u := Unfinished(shots, f);
    if u != [] && AdjacentTarget(u, shots).Some? then c == AdjacentTarget(u, shots).value
    else c in Pool(shots)
  }

  /** The chosen cell is never one the player already fired at, and it is on
      the board: makeAIShot never meets "Already shot at this position". */
  lemma BestShotUntried(shots: seq<Shot>, f: seq<ShipValue>, c: Cell)
    requires BestShot(shots, f, c)
    ensures Untried(shots, c)
  {
    var u := Unfinished(shots, f);
    if u != [] && AdjacentTarget(u, shots).Some? {
      AdjacentTargetSpec(u, shots);
    } else {
      PoolSpec(shots);
    }
  }

  // ---------------------------------------------------------------------
  // Statistics (getStats)
  // ---------------------------------------------------------------------

  /** `lastShots.filter(shot => shot.isHit).length`. */
  function CountHits(shots: seq<Shot>): (n: nat)
    ensures n <= |shots|
    ensures n == 0 <==> forall i :: 0 <= i < |shots| ==> !shots[i].isHit
    ensures n == |shots| <==> forall i :: 0 <= i < |shots| ==> shots[i].isHit
  {
    if shots == [] then 0
    else (if shots[0].isHit then 1 else 0) + CountHits(shots[1..])
  }

  lemma CountHitsAppend(shots: seq<Shot>, s: Shot)
    ensures CountHits(shots + [s]) == CountHits(shots) + (if s.isHit then 1 else 0)
  {
    if shots != [] {
      assert (shots + [s])[1..] == shots[1..] + [s];
      CountHitsAppend(shots[1..], s);
    } else {
      assert [s][1..] == [];
    }
  }

  /** getStats; the accuracy is the exact percentage (the source rounds it
      to two decimals in floating point). */
  datatype Stats = Stats(totalShots: nat, hits: nat, misses: nat, accuracy: real)

  /** The percentage h of t, for 0 < t. */
  function Percent(h: nat, t: nat): (q: real)
    requires 0 < t && h <= t
    ensures 0.0 <= q <= 100.0
    ensures q * (t as real) == (h as real) * 100.0
  {
    var q := (h as real * 100.0) / (t as real);
    assert q * (t as real) == (h as real) * 100.0;
    assert (h as real) * 100.0 <= (t as real) * 100.0;
    q
  }

  function StatsOf(shots: seq<Shot>): (s: Stats)
    ensures s.totalShots == |shots| && s.hits == CountHits(shots)
    ensures s.hits + s.misses == s.totalShots
    ensures s.totalShots == 0 ==> s.accuracy == 0.0
    ensures 0.0 <= s.accuracy <= 100.0
    ensures s.totalShots > 0 ==> s.accuracy * (s.totalShots as real) == (s.hits as real) * 100.0
  {
    var total := |shots|;
    var hits := CountHits(shots);
    Stats(total, hits, total - hits, if total > 0 then Percent(hits, total) else 0.0)
  }
}
