/**
 * The stand-alone win rule: the line check and the full-board check on an owner array, and
 * the same checks on a cell-grid Board, where the owner of a cell is the owner of its disc.
 */
module WinRules {
  import opened Grids
  import opened Discs
  import opened Boards
  import opened Lines
  import opened Columns

  /** The owner of the disc a cell holds, 0 for an empty cell. */
  function OwnerOf(cell: Cell): int {
    if cell.disc.Some? then cell.disc.value.owner else 0
  }

  /** The owner array of a cell grid. */
  function OwnerGrid(cells: Grid<Cell>): (g: Grid<int>)
    ensures SameShape(cells, g)
    ensures forall r, c :: InGrid(cells, r, c) ==> g[r][c] == OwnerOf(cells[r][c])
  {
    seq(|cells|, r requires 0 <= r < |cells| =>
      seq(|cells[r]|, c requires 0 <= c < |cells[r]| => OwnerOf(cells[r][c])))
  }

  /** The coordinates the listed cells carry. */
  function Coords(cells: seq<Cell>): (cs: seq<(int, int)>)
    ensures |cs| == |cells|
    ensures forall i :: 0 <= i < |cells| ==> cs[i] == (cells[i].row, cells[i].col)
  {
    seq(|cells|, i requires 0 <= i < |cells| => (cells[i].row, cells[i].col))
  }

  /** The owner at the coordinates `rc`, 0 off the grid. */
  function At(g: Grid<int>, rc: (int, int)): int {
    if InGrid(g, rc.0, rc.1) then g[rc.0][rc.1] else 0
  }

  /** The owner of the first listed cell that has one, or 0 when every listed cell is unowned. */
  function FirstOwner(g: Grid<int>, cs: seq<(int, int)>): (p: int)
    ensures p == 0 <==> forall i :: 0 <= i < |cs| ==> At(g, cs[i]) == 0
    ensures p != 0 ==> exists i :: 0 <= i < |cs| && At(g, cs[i]) == p && forall k :: 0 <= k < i ==> At(g, cs[k]) == 0
    decreases |cs|
  {
    if |cs| == 0 then 0
    else if At(g, cs[0]) != 0 then At(g, cs[0])
    else
      var p := FirstOwner(g, cs[1..]);
      assert forall i :: 1 <= i < |cs| ==> cs[i] == cs[1..][i - 1];
      p
  }

  /** A list of unowned cells holds no winning cell of anyone. */
  lemma UnownedListNoWin(g: Grid<int>, winLen: int, cs: seq<(int, int)>, p: int)
    requires FirstOwner(g, cs) == 0
    ensures !AnyWinFor(g, winLen, cs, p)
  {
  }

  class WinRule {
    const WinLen: int

    constructor (winLen: int)
      ensures WinLen == winLen
    {
      WinLen := winLen;
    }

    /** The owner of the disc in cell (row, col), 0 when the cell is empty. */
    function OwnerAt(board: Board, row: int, col: int): (p: int)
      reads board
      requires board.Valid() && board.InBounds(row, col)
      ensures board.Cells[row][col].IsEmpty() ==> p == 0
      ensures !board.Cells[row][col].IsEmpty() ==> p == board.Cells[row][col].disc.value.owner
      ensures p == OwnerGrid(board.Cells)[row][col]
    {
      var disc := board.GetCell(row, col).value.disc;
      if disc.Some? then disc.value.owner else 0
    }

    /**
     * Whether the owned cell (row, col) of the owner array `a` lies on a line of at least
     * WinLen cells of its owner; the array's dimensions are passed as `rows` and `cols`.
     */
    method CheckCellWin(a: array2<int>, rows: int, cols: int, row: int, col: int) returns (win: bool)
      requires rows == a.Length0 && cols == a.Length1
      requires 0 <= row < rows && 0 <= col < cols
      ensures win == CellWins(Contents(a), WinLen, row, col)
    {
      ContentsHolds(a);
      win := CheckCell(a, Contents(a), WinLen, row, col);
    }

    /**
     * The changed cells that win, sorted by owner: `curWin` when one belongs to
     * `currentPlayer`, `oppWin` when one belongs to the other player. Cells off the board
     * and unowned cells are skipped.
     */
    method WinCheck(a: array2<int>, rows: int, cols: int, currentPlayer: int, changedCells: seq<(int, int)>)
      returns (curWin: bool, oppWin: bool)
      requires rows == a.Length0 && cols == a.Length1
      ensures curWin == AnyWinFor(Contents(a), WinLen, changedCells, currentPlayer)
      ensures oppWin == AnyWinFor(Contents(a), WinLen, changedCells, Other(currentPlayer))
    {
      ghost var g := Contents(a);
      ContentsHolds(a);
      curWin, oppWin := false, false;
      if |changedCells| == 0 {
        return;
      }
      var cur := currentPlayer;
      var opp := if currentPlayer == 1 then 2 else 1;
      for k := 0 to |changedCells|
        invariant curWin <==> exists i :: 0 <= i < k && WinsFor(g, WinLen, changedCells[i].0, changedCells[i].1, cur)
        invariant oppWin <==> exists i :: 0 <= i < k && WinsFor(g, WinLen, changedCells[i].0, changedCells[i].1, opp)
      {
        var (r, c) := changedCells[k];
        if r < 0 || r >= rows || c < 0 || c >= cols {
          continue;
        }
        var owner := a[r, c];
        if owner == 0 {
          continue;
        }
        var win := CheckCellWin(a, rows, cols, r, c);
        if win {
          if owner == cur {
            curWin := true;
          } else if owner == opp {
            oppWin := true;
          }
          if curWin && oppWin {
            return;
          }
        }
      }
    }

    /** The board is full when no cell of its top row is owned by nobody. */
    method IsBoardFull(a: array2<int>, rows: int, cols: int) returns (full: bool)
      requires rows == a.Length0 && cols == a.Length1 && (cols > 0 ==> rows > 0)
      ensures full <==> cols == 0 || RowFull(Contents(a)[rows - 1])
    {
      ContentsHolds(a);
      for j := 0 to cols
        invariant cols > 0 ==> RowFull(Contents(a)[rows - 1][..j])
      {
        if a[rows - 1, j] == 0 {
          return false;
        }
      }
      return true;
    }

    /** Count the cells of `board` owned by `p` from (r, c) on, walking by (dr, dc). */
    method WalkBoard(board: Board, ghost g: Grid<int>, p: int, r: int, c: int, dr: int, dc: int) returns (n: nat)
      requires board.Valid() && g == OwnerGrid(board.Cells) && IsStep(dr, dc)
      ensures n == Ray(g, p, r, c, dr, dc)
    {
      n := 0;
      var i, j := r, c;
      while 0 <= i < board.Rows && 0 <= j < board.Cols && OwnerAt(board, i, j) == p
        invariant n + Ray(g, p, i, j, dr, dc) == Ray(g, p, r, c, dr, dc)
        decreases Distance(g, i, j, dr, dc)
      {
        assert Owns(g, p, i, j);
        n, i, j := n + 1, i + dr, j + dc;
      }
    }

    /**
     * The Board overload of the line check, at the coordinates `cell` carries: the same
     * rule as on an owner array, read through the owners of the board's discs.
     */
    method CheckBoardCellWin(board: Board, cell: Cell) returns (win: bool)
      requires board.Valid() && board.InBounds(cell.row, cell.col)
      ensures win == CellWins(OwnerGrid(board.Cells), WinLen, cell.row, cell.col)
    {
      ghost var g := OwnerGrid(board.Cells);
      var row, col := cell.row, cell.col;
      var player := OwnerAt(board, row, col);
      if player == 0 {
        return false;
      }
      assert InGrid(g, row, col) && player == g[row][col];
      var count := AxisCount(board, g, player, row, col, Vertical);
      if count >= WinLen {
        return true;
      }
      count := AxisCount(board, g, player, row, col, Horizontal);
      if count >= WinLen {
        return true;
      }
      count := AxisCount(board, g, player, row, col, Diagonal);
      if count >= WinLen {
        return true;
      }
      count := AxisCount(board, g, player, row, col, AntiDiagonal);
      if count >= WinLen {
        return true;
      }
      assert forall x: Axis :: AxisRun(g, row, col, x) < WinLen by {
        forall x: Axis ensures AxisRun(g, row, col, x) < WinLen {
          match x
          case Vertical =>
          case Horizontal =>
          case Diagonal =>
          case AntiDiagonal =>
        }
      }
      return false;
    }

    /** One axis of the Board line check: the cell, then the walks backwards and forwards. */
    method AxisCount(board: Board, ghost g: Grid<int>, player: int, row: int, col: int, a: Axis) returns (count: nat)
      requires board.Valid() && g == OwnerGrid(board.Cells)
      requires InGrid(g, row, col) && player == g[row][col]
      ensures count == AxisRun(g, row, col, a)
    {
      AxisSteps(a);
      count := 1;
      var back := WalkBoard(board, g, player, row - a.DR(), col - a.DC(), -a.DR(), -a.DC());
      var forth := WalkBoard(board, g, player, row + a.DR(), col + a.DC(), a.DR(), a.DC());
      count := count + back + forth;
    }

    /**
     * The Board overload of WinCheck: the current player is the owner of the first changed
     * cell that has one, and the result is what the array overload gives for that player.
     */
    method BoardWinCheck(board: Board, changedCells: seq<Cell>) returns (curWin: bool, oppWin: bool)
      requires board.Valid()
      requires forall i :: 0 <= i < |changedCells| ==> board.InBounds(changedCells[i].row, changedCells[i].col)
      ensures var g := OwnerGrid(board.Cells);
              var p := FirstOwner(g, Coords(changedCells));
              && curWin == AnyWinFor(g, WinLen, Coords(changedCells), p)
              && oppWin == AnyWinFor(g, WinLen, Coords(changedCells), Other(p))
    {
      curWin, oppWin := false, false;
      if |changedCells| == 0 {
        return;
      }
      var curOwner := FindFirstOwner(board, changedCells);
      if curOwner == 0 {
        UnownedListNoWin(OwnerGrid(board.Cells), WinLen, Coords(changedCells), Other(0));
        return;
      }
      var oppOwner := if curOwner == 1 then 2 else 1;
      curWin, oppWin := ScanWins(board, changedCells, curOwner, oppOwner);
    }

    /** The first loop of the Board WinCheck: the owner of the first changed cell that has one. */
    method FindFirstOwner(board: Board, changedCells: seq<Cell>) returns (curOwner: int)
      requires board.Valid()
      requires forall i :: 0 <= i < |changedCells| ==> board.InBounds(changedCells[i].row, changedCells[i].col)
      ensures curOwner == FirstOwner(OwnerGrid(board.Cells), Coords(changedCells))
    {
      ghost var g := OwnerGrid(board.Cells);
      ghost var cs := Coords(changedCells);
      curOwner := 0;
      var n := 0;
      while n < |changedCells| && curOwner == 0
        invariant 0 <= n <= |changedCells|
        invariant curOwner == 0 ==> FirstOwner(g, cs) == FirstOwner(g, cs[n..])
        invariant curOwner != 0 ==> curOwner == FirstOwner(g, cs)
      {
        curOwner := OwnerAt(board, changedCells[n].row, changedCells[n].col);
        assert cs[n..][1..] == cs[n + 1..];
        n := n + 1;
      }
    }

    /** The second loop of the Board WinCheck: the winning changed cells of `cur` and of `opp`. */
    method ScanWins(board: Board, changedCells: seq<Cell>, cur: int, opp: int) returns (curWin: bool, oppWin: bool)
      requires board.Valid() && cur != opp
      requires forall i :: 0 <= i < |changedCells| ==> board.InBounds(changedCells[i].row, changedCells[i].col)
      ensures curWin == AnyWinFor(OwnerGrid(board.Cells), WinLen, Coords(changedCells), cur)
      ensures oppWin == AnyWinFor(OwnerGrid(board.Cells), WinLen, Coords(changedCells), opp)
    {
      ghost var g := OwnerGrid(board.Cells);
      ghost var cs := Coords(changedCells);
      curWin, oppWin := false, false;
      for k := 0 to |changedCells|
        invariant curWin == AnyWinFor(g, WinLen, cs[..k], cur)
        invariant oppWin == AnyWinFor(g, WinLen, cs[..k], opp)
      {
        AnyWinForStep(g, WinLen, cs, k, cur);
        AnyWinForStep(g, WinLen, cs, k, opp);
        var curHit, oppHit := TallyCell(board, g, changedCells[k], cur, opp);
        curWin, oppWin := curWin || curHit, oppWin || oppHit;
        if curWin && oppWin {
          AnyWinForPrefix(g, WinLen, cs, k + 1, cur);
          AnyWinForPrefix(g, WinLen, cs, k + 1, opp);
          return;
        }
      }
      assert cs[..|cs|] == cs;
    }

    /**
     * The body of the second loop of the Board WinCheck, for one changed cell: an owned cell
     * that passes the line check counts for its owner when that is `cur` or `opp`.
     */
    method TallyCell(board: Board, ghost g: Grid<int>, cell: Cell, cur: int, opp: int) returns (curHit: bool, oppHit: bool)
      requires board.Valid() && g == OwnerGrid(board.Cells) && board.InBounds(cell.row, cell.col) && cur != opp
      ensures curHit == WinsFor(g, WinLen, cell.row, cell.col, cur)
      ensures oppHit == WinsFor(g, WinLen, cell.row, cell.col, opp)
    {
      curHit, oppHit := false, false;
      var owner := OwnerAt(board, cell.row, cell.col);
      if owner == 0 {
        return;
      }
      var win := CheckBoardCellWin(board, cell);
      if win {
        if owner == cur {
          curHit := true;
        } else if owner == opp {
          oppHit := true;
        }
      }
    }
  }
}
