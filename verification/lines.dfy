/** The candidate winning lines of an N×N board, as lists of row-major square
    indices: every row, every column, the main diagonal and the anti-diagonal. */
module WinLines {

  /** A line: square indices in the order they are checked. */
  type Line = seq<int>

  /** Row `i`: `i*n, i*n + 1, …, i*n + n - 1`. */
  function Row(n: nat, i: int): Line
  {
    seq(n, j => i * n + j)
  }

  /** Column `i`: `i, n + i, …, (n - 1)*n + i`. */
  function Column(n: nat, i: int): Line
  {
    seq(n, j => j * n + i)
  }

  /** Main diagonal: `i*n + i` for each row `i`. */
  function MainDiagonal(n: nat): Line
  {
    seq(n, i => i * n + i)
  }

  /** Anti-diagonal: `(i + 1)*n - (i + 1)` for each row `i`. */
  function AntiDiagonal(n: nat): Line
  {
    seq(n, i => (i + 1) * n - (i + 1))
  }

  /** All candidate lines in scan order: rows, columns, main diagonal,
      anti-diagonal. */
  function Lines(n: nat): seq<Line>
  {
    seq(n, i => Row(n, i)) + seq(n, i => Column(n, i)) + [MainDiagonal(n), AntiDiagonal(n)]
  }

  /** Builds the lines the way the game does: one pass over the rows filling
      both diagonals, and an inner pass filling row `i` and column `i`. */
  method GenerateWinningLines(boardSize: nat) returns (winningLines: seq<Line>)
    ensures winningLines == Lines(boardSize)
  {
    var n := boardSize;
    var mainDiagonal: Line := [];
    var antiDiagonal: Line := [];
    var rows: seq<Line> := [];
    var columns: seq<Line> := [];
    for i := 0 to n
      invariant |mainDiagonal| == i && forall t :: 0 <= t < i ==> mainDiagonal[t] == t * n + t
      invariant |antiDiagonal| == i && forall t :: 0 <= t < i ==> antiDiagonal[t] == (t + 1) * n - (t + 1)
      invariant |rows| == i && forall r :: 0 <= r < i ==> rows[r] == Row(n, r)
      invariant |columns| == i && forall c :: 0 <= c < i ==> columns[c] == Column(n, c)
    {
      mainDiagonal := mainDiagonal + [i * n + i];
      antiDiagonal := antiDiagonal + [(i + 1) * n - (i + 1)];
      rows := rows + [[]];
      columns := columns + [[]];
      for j := 0 to n
        invariant |rows| == i + 1 && forall r :: 0 <= r < i ==> rows[r] == Row(n, r)
        invariant |columns| == i + 1 && forall c :: 0 <= c < i ==> columns[c] == Column(n, c)
        invariant |rows[i]| == j && forall t :: 0 <= t < j ==> rows[i][t] == i * n + t
        invariant |columns[i]| == j && forall t :: 0 <= t < j ==> columns[i][t] == t * n + i
      {
        rows := rows[i := rows[i] + [i * n + j]];
        columns := columns[i := columns[i] + [j * n + i]];
      }
      assert rows[i] == Row(n, i);
      assert columns[i] == Column(n, i);
    }
    assert rows == seq(n, i => Row(n, i));
    assert columns == seq(n, i => Column(n, i));
    assert mainDiagonal == MainDiagonal(n);
    assert antiDiagonal == AntiDiagonal(n);
    winningLines := rows + columns + [mainDiagonal, antiDiagonal];
  }

  /** Row-major index arithmetic: square `q*n + r` with `0 <= r < n` lies in
      row `q`, column `r`. */
  lemma DivMod(n: nat, q: int, r: int)
    requires 0 <= r < n
    ensures (q * n + r) / n == q && (q * n + r) % n == r
  {
    var k := q * n + r;
    var d, m := k / n, k % n;
    assert k == d * n + m;
    var e := q - d;
    assert e * n == q * n - d * n;
    assert e * n == m - r;
    if e > 0 {
      AtLeastOnce(e, n);
    } else if e < 0 {
      AtLeastOnce(-e, n);
    }
  }

  /** A positive multiple of `n` is at least `n`. */
  lemma AtLeastOnce(a: int, n: nat)
    requires a >= 1
    ensures a * n >= n
  {
    assert a * n == (a - 1) * n + n;
  }

  /** A square inside an N×N board sits in row `q` and column `r` with both
      below `n`. */
  lemma Inside(n: nat, q: int, r: int)
    requires 0 <= q < n && 0 <= r < n
    ensures 0 <= q * n + r < n * n
  {
    assert q * n <= (n - 1) * n;
  }

  /** Every square index of a board splits back into its row and column. */
  lemma Split(n: nat, k: int)
    requires 0 <= k < n * n
    ensures 0 <= k / n < n && 0 <= k % n < n && k == (k / n) * n + k % n
  {
  }

  /** Row `i` holds exactly the board squares whose row is `i`. */
  lemma RowCells(n: nat, i: int, k: int)
    requires 0 <= i < n
    ensures k in Row(n, i) <==> 0 <= k < n * n && k / n == i
  {
    if k in Row(n, i) {
      var j :| 0 <= j < n && Row(n, i)[j] == k;
      DivMod(n, i, j);
      Inside(n, i, j);
    }
    if 0 <= k < n * n && k / n == i {
      Split(n, k);
      assert Row(n, i)[k % n] == k;
    }
  }

  /** Column `i` holds exactly the board squares whose column is `i`. */
  lemma ColumnCells(n: nat, i: int, k: int)
    requires 0 <= i < n
    ensures k in Column(n, i) <==> 0 <= k < n * n && k % n == i
  {
    if k in Column(n, i) {
      var j :| 0 <= j < n && Column(n, i)[j] == k;
      DivMod(n, j, i);
      Inside(n, j, i);
    }
    if 0 <= k < n * n && k % n == i {
      Split(n, k);
      assert Column(n, i)[k / n] == k;
    }
  }

  /** The main diagonal holds exactly the board squares whose row equals
      their column. */
  lemma MainDiagonalCells(n: nat, k: int)
    ensures k in MainDiagonal(n) <==> 0 <= k < n * n && k / n == k % n
  {
    if k in MainDiagonal(n) {
      var i :| 0 <= i < n && MainDiagonal(n)[i] == k;
      DivMod(n, i, i);
      Inside(n, i, i);
    }
    if 0 <= k < n * n && k / n == k % n {
      Split(n, k);
      assert MainDiagonal(n)[k / n] == k;
    }
  }

  /** Entry `i` of the anti-diagonal is the square in row `i`, column
      `n - 1 - i`. */
  lemma AntiDiagonalAt(n: nat, i: int)
    ensures (i + 1) * n - (i + 1) == i * n + (n - 1 - i)
  {
    assert (i + 1) * n == i * n + n;
  }

  /** The anti-diagonal holds exactly the board squares whose row and column
      add up to `n - 1`. */
  lemma AntiDiagonalCells(n: nat, k: int)
    ensures k in AntiDiagonal(n) <==> 0 <= k < n * n && k / n + k % n == n - 1
  {
    if k in AntiDiagonal(n) {
      var i :| 0 <= i < n && AntiDiagonal(n)[i] == k;
      AntiDiagonalAt(n, i);
      DivMod(n, i, n - 1 - i);
      Inside(n, i, n - 1 - i);
    }
    if 0 <= k < n * n && k / n + k % n == n - 1 {
      Split(n, k);
      var i := k / n;
      AntiDiagonalAt(n, i);
      assert AntiDiagonal(n)[i] == k;
    }
  }

  /** There are 2N+2 lines (N rows, N columns, two diagonals, in that order),
      each of exactly N squares, all inside the N×N board. */
  lemma LinesShape(n: nat)
    ensures |Lines(n)| == 2 * n + 2
    ensures forall i :: 0 <= i < n ==> Lines(n)[i] == Row(n, i) && Lines(n)[n + i] == Column(n, i)
    ensures Lines(n)[2 * n] == MainDiagonal(n) && Lines(n)[2 * n + 1] == AntiDiagonal(n)
    ensures forall t :: 0 <= t < |Lines(n)| ==> |Lines(n)[t]| == n
    ensures forall t, u :: 0 <= t < |Lines(n)| && 0 <= u < |Lines(n)[t]| ==> 0 <= Lines(n)[t][u] < n * n
  {
    forall t, u | 0 <= t < |Lines(n)| && 0 <= u < |Lines(n)[t]|
      ensures 0 <= Lines(n)[t][u] < n * n
    {
      var k := Lines(n)[t][u];
      assert k in Lines(n)[t];
      if t < n {
        RowCells(n, t, k);
      } else if t < 2 * n {
        ColumnCells(n, t - n, k);
      } else if t == 2 * n {
        MainDiagonalCells(n, k);
      } else {
        AntiDiagonalCells(n, k);
      }
    }
  }
}
