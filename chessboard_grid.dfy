/**
 * The chessboard's object points, in square units (before scaling by the
 * square size): `objp = zeros((9*6, 3)); objp[:, :2] = indices((9, 6)).T.reshape(-1, 2)`.
 */
module ChessboardGrid {

  /** Inner corners per chessboard row and column: PATTERN = (9, 6). */
  const PatternCols: nat := 9
  const PatternRows: nat := 6
  const PatternPoints: nat := PatternCols * PatternRows

  /** `np.indices((9, 6))[k, i, j]`: the k-th coordinate of grid position (i, j). */
  function Indices(k: nat, i: nat, j: nat): nat
    requires k < 2
  {
    if k == 0 then i else j
  }

  /** `.T` reverses the axes: shape (6, 9, 2), element [j, i, k] is Indices[k, i, j]. */
  function IndicesT(j: nat, i: nat, k: nat): nat
    requires k < 2
  {
    Indices(k, i, j)
  }

  /**
   * `.reshape(-1, 2)` of the (6, 9, 2) array, read in C order: entry (r, c)
   * is flat element 2r + c, which sits at position
   * (f / 18, (f / 2) % 9, f % 2) of the transposed array.
   */
  function Reshaped(r: nat, c: nat): nat
    requires c < 2
  {
    var f := 2 * r + c;
    IndicesT(f / (2 * PatternCols), (f / 2) % PatternCols, f % 2)
  }

  /** Row r of the grid is (r mod 9, r div 9): x varies fastest. */
  lemma ReshapedIsModDiv(r: nat, c: nat)
    requires c < 2
    ensures Reshaped(r, c) == if c == 0 then r % PatternCols else r / PatternCols
  {
  }

  /** The grid cell (x, y) that row r of objp holds. */
  function Cell(r: nat): (nat, nat)
  {
    (Reshaped(r, 0), Reshaped(r, 1))
  }

  /** x runs fastest: the next row moves one column right, or wraps to the next grid row. */
  lemma CellSuccessor(r: nat)
    ensures Cell(r + 1) == if Cell(r).0 + 1 < PatternCols then (Cell(r).0 + 1, Cell(r).1) else (0, Cell(r).1 + 1)
  {
    ReshapedIsModDiv(r, 0);
    ReshapedIsModDiv(r, 1);
    ReshapedIsModDiv(r + 1, 0);
    ReshapedIsModDiv(r + 1, 1);
    var q, m := r / PatternCols, r % PatternCols;
    if m + 1 < PatternCols {
      assert r + 1 == PatternCols * q + (m + 1);
      assert (r + 1) / PatternCols == q && (r + 1) % PatternCols == m + 1;
    } else {
      assert r + 1 == PatternCols * (q + 1);
      assert (r + 1) / PatternCols == q + 1 && (r + 1) % PatternCols == 0;
    }
  }

  /** Every one of the 9 x 6 cells is held by exactly one of the 54 rows. */
  lemma CellBijection(r: nat, r': nat, x: nat, y: nat)
    ensures r < PatternPoints ==> Cell(r).0 < PatternCols && Cell(r).1 < PatternRows
    ensures Cell(r) == Cell(r') ==> r == r'
    ensures x < PatternCols && y < PatternRows ==> PatternCols * y + x < PatternPoints && Cell(PatternCols * y + x) == (x, y)
  {
    ReshapedIsModDiv(r, 0);
    ReshapedIsModDiv(r, 1);
    ReshapedIsModDiv(r', 0);
    ReshapedIsModDiv(r', 1);
    ReshapedIsModDiv(PatternCols * y + x, 0);
    ReshapedIsModDiv(PatternCols * y + x, 1);
    if x < PatternCols {
      assert (PatternCols * y + x) / PatternCols == y && (PatternCols * y + x) % PatternCols == x;
    }
  }

  /**
   * Builds objp in place: a zero-filled 54 x 3 array whose first two columns
   * are overwritten by the reshaped index grid.
   */
  method ObjectPoints() returns (objp: array2<int>)
    ensures fresh(objp)
    ensures objp.Length0 == PatternPoints && objp.Length1 == 3
    ensures forall r :: 0 <= r < PatternPoints ==>
      objp[r, 0] == r % PatternCols && objp[r, 1] == r / PatternCols && objp[r, 2] == 0
  {
    objp := new int[PatternPoints, 3]((_, _) => 0);
    for r := 0 to PatternPoints
      invariant forall q :: 0 <= q < r ==> objp[q, 0] == q % PatternCols && objp[q, 1] == q / PatternCols
      invariant forall q :: 0 <= q < PatternPoints ==> objp[q, 2] == 0
    {
      ReshapedIsModDiv(r, 0);
      ReshapedIsModDiv(r, 1);
      objp[r, 0] := Reshaped(r, 0);
      objp[r, 1] := Reshaped(r, 1);
    }
  }
}
