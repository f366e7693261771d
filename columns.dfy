/**
 * Column rules shared by the two engines: where a dropped disc lands, how cleared discs
 * are tallied, where a magnetic disc looks for its partner, and the settledness invariant
 * (owned cells of a column form a block starting at row 0).
 */
module Columns {
  import opened Grids

  /**
   * The first row at or above `i` whose cell in column `col` is unowned (owner 0), or -1
   * when there is none: the `for (i = 0; i < Rows; i++) if (Board[i, col] == 0)` scan.
   */
  function FirstEmptyFrom(board: Grid<int>, col: int, i: nat): (row: int)
    requires HasColumn(board, col)
    ensures row == -1 || i <= row < |board|
    ensures row == -1 <==> forall k :: i <= k < |board| ==> board[k][col] != 0
    ensures row != -1 ==> board[row][col] == 0 && forall k :: i <= k < row ==> board[k][col] != 0
    decreases |board| - i
  {
    if i >= |board| then -1
    else if board[i][col] == 0 then i
    else FirstEmptyFrom(board, col, i + 1)
  }

  /** The landing row of a disc dropped in `col`, or -1 when the column has no unowned cell. */
  function LowestEmpty(board: Grid<int>, col: int): int
    requires HasColumn(board, col)
  {
    FirstEmptyFrom(board, col, 0)
  }

  /** The number of rows below `n`, other than `skip`, whose cell in `col` belongs to `p`. */
  function CountOwned(board: Grid<int>, col: int, skip: int, p: int, n: nat): (k: nat)
    requires HasColumn(board, col) && n <= |board|
    ensures k <= n
  {
    if n == 0 then 0
    else CountOwned(board, col, skip, p, n - 1) + (if n - 1 != skip && board[n - 1][col] == p then 1 else 0)
  }

  /** A column of which `p` owns none of the rows below `n` contributes nothing to the tally. */
  lemma {:induction false} CountOwnedNone(board: Grid<int>, col: int, skip: int, p: int, n: nat)
    requires HasColumn(board, col) && n <= |board|
    requires forall k :: 0 <= k < n && k != skip ==> board[k][col] != p
    ensures CountOwned(board, col, skip, p, n) == 0
  {
    if n > 0 {
      CountOwnedNone(board, col, skip, p, n - 1);
    }
  }

  /**
   * Scanning down from row `i` to row 0, the first row whose cell in `col` belongs to
   * `owner` and has kind `plain`, or -1 when there is none.
   */
  function MagnetTarget<K(==)>(board: Grid<int>, kinds: Grid<K>, col: int, owner: int, plain: K, i: int): (j: int)
    requires HasColumn(board, col) && HasColumn(kinds, col) && -1 <= i < |board| && i < |kinds|
    ensures -1 <= j && j <= i
    ensures j >= 0 ==> board[j][col] == owner && kinds[j][col] == plain
    ensures forall k :: j < k <= i && 0 <= k ==> !(board[k][col] == owner && kinds[k][col] == plain)
    decreases i + 1
  {
    if i < 0 then -1
    else if board[i][col] == owner && kinds[i][col] == plain then i
    else MagnetTarget(board, kinds, col, owner, plain, i - 1)
  }

  /** No owned cell rests on an unowned one. */
  ghost predicate Settled(board: Grid<int>) {
    forall r, c :: InGrid(board, r, c) && InGrid(board, r - 1, c) && board[r][c] != 0 ==> board[r - 1][c] != 0
  }

  /** Unowned cells carry the plain kind: no stale kind is left behind on a cleared cell. */
  ghost predicate KindsCleared<K>(board: Grid<int>, kinds: Grid<K>, plain: K) {
    forall r, c :: InGrid(board, r, c) && InGrid(kinds, r, c) && board[r][c] == 0 ==> kinds[r][c] == plain
  }

  /** In a settled rectangular grid every cell below an owned cell is owned too. */
  lemma {:induction false} OwnedBelow(board: Grid<int>, rows: int, cols: int, r: int, c: int, k: int)
    requires IsRect(board, rows, cols) && Settled(board)
    requires InGrid(board, r, c) && board[r][c] != 0 && 0 <= k <= r
    ensures board[k][c] != 0
    decreases r - k
  {
    if k < r {
      assert InGrid(board, r - 1, c);
      OwnedBelow(board, rows, cols, r - 1, c, k);
    }
  }

  /** So the owned cells of a column are exactly the rows below its lowest unowned cell. */
  lemma SettledColumnIsPrefix(board: Grid<int>, rows: int, cols: int, col: int)
    requires IsRect(board, rows, cols) && 0 <= col < cols && Settled(board)
    ensures var e := LowestEmpty(board, col);
            forall r :: 0 <= r < rows ==> (board[r][col] != 0 <==> (e == -1 || r < e))
  {
    var e := LowestEmpty(board, col);
    forall r | 0 <= r < rows && e != -1 && r >= e
      ensures board[r][col] == 0
    {
      if board[r][col] != 0 {
        OwnedBelow(board, rows, cols, r, col, e);
      }
    }
  }

  /** Filling the lowest unowned cell of a column with an owner keeps the grid settled. */
  lemma PlaceKeepsSettled(board: Grid<int>, rows: int, cols: int, col: int, v: int)
    requires IsRect(board, rows, cols) && 0 <= col < cols && Settled(board)
    requires LowestEmpty(board, col) != -1 && v != 0
    ensures Settled(Set(board, LowestEmpty(board, col), col, v))
  {
  }

  /** Emptying a column and putting one owned disc at its bottom keeps the grid settled. */
  lemma ResetColumnKeepsSettled(board: Grid<int>, rows: int, cols: int, col: int, v: int)
    requires IsRect(board, rows, cols) && 0 <= col < cols && 0 < rows && Settled(board)
    ensures Settled(Set(ClearColumn(board, col, 0), 0, col, v))
  {
  }

  /** Exchanging two owned cells of a column keeps the grid settled. */
  lemma SwapKeepsSettled(board: Grid<int>, rows: int, cols: int, i: int, col: int)
    requires IsRect(board, rows, cols) && 0 <= col < cols && 0 <= i && i + 1 < rows && Settled(board)
    requires board[i][col] != 0 && board[i + 1][col] != 0
    ensures Settled(SwapUp(board, i, col))
  {
  }

  /** Every cell of the row is owned. */
  predicate RowFull(row: seq<int>) {
    forall j :: 0 <= j < |row| ==> row[j] != 0
  }

  /**
   * On a settled board the top row is full exactly when every cell is owned: the top-row
   * test of the full-board checks sees the whole board.
   */
  lemma TopRowFull(board: Grid<int>, rows: int, cols: int)
    requires IsRect(board, rows, cols) && 0 < rows && Settled(board)
    ensures RowFull(board[rows - 1]) <==> forall r, c :: 0 <= r < rows && 0 <= c < cols ==> board[r][c] != 0
  {
    if RowFull(board[rows - 1]) {
      forall r, c | 0 <= r < rows && 0 <= c < cols
        ensures board[r][c] != 0
      {
        OwnedBelow(board, rows, cols, rows - 1, c, r);
      }
    }
  }
}
