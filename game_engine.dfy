/**
 * The earlier engine (GameEngine): a board of owners, a board of disc kinds of its own
 * enum (Boring, Magnetic, Drill), the player to move and each player's stock. It has no
 * record/roll-back and no automated opponent.
 */
module Engine {
  import opened Grids
  import opened DiscStock
  import opened Columns
  import opened Lines
  import opened EngineState
  import opened EngineRules

  class GameEngine {
    const Rows: int
    const Cols: int
    const WinLen: int

    var Board: array2<int>
    var BoardType: array2<DiscType>
    var CurrentPlayer: int
    var Player1: Stock
    var Player2: Stock

    ghost predicate Valid()
      reads this
    {
      && 0 <= Rows && 0 <= Cols
      && Board.Length0 == Rows && Board.Length1 == Cols
      && BoardType.Length0 == Rows && BoardType.Length1 == Cols
      && (CurrentPlayer == 1 || CurrentPlayer == 2)
    }

    function Cfg(): Config {
      Config(Rows, Cols, WinLen)
    }

    /** The game state, as a value. */
    ghost function Model(): (s: State<DiscType>)
      reads this, Board, BoardType
      ensures Valid() ==> WellFormed(Cfg(), s)
    {
      State(Contents(Board), Contents(BoardType), CurrentPlayer, Player1, Player2)
    }

    /** An empty board whose kinds are all the default Boring, player 1 to move, full stocks. */
    constructor (rows: int, cols: int, winLen: int)
      requires 0 <= rows && 0 <= cols
      ensures Valid()
      ensures Rows == rows && Cols == cols && WinLen == winLen
      ensures Model() == State(Filled(rows, cols, 0), Filled(rows, cols, Boring), 1,
                               InitialStock(rows * cols), InitialStock(rows * cols))
    {
      Rows, Cols, WinLen := rows, cols, winLen;
      Board := new int[rows, cols]((r, c) => 0);
      BoardType := new DiscType[rows, cols]((r, c) => Boring);
      CurrentPlayer := 1;
      Player1 := InitialStock(rows * cols);
      Player2 := InitialStock(rows * cols);
      new;
      ContentsOf(Board, Filled(rows, cols, 0));
      ContentsOf(BoardType, Filled(rows, cols, Boring));
    }

    /** The row the scan of DropDisc finds: the lowest empty cell of `col`, or -1. */
    method FindTargetRow(col: int) returns (targetRow: int)
      requires Valid() && 0 <= col < Cols
      ensures targetRow == LowestEmpty(Model().board, col)
    {
      ghost var g := Model().board;
      ContentsHolds(Board);
      targetRow := -1;
      for i := 0 to Rows
        invariant FirstEmptyFrom(g, col, 0) == FirstEmptyFrom(g, col, i)
      {
        if Board[i, col] == 0 {
          return i;
        }
      }
    }

    /**
     * Drops a disc of the current player in `col`: it fails, changing nothing, when the column
     * is out of range or full or the player holds no disc of that kind; otherwise the disc lands
     * on the lowest empty cell and one disc of that kind leaves the player's stock.
     */
    method DropDisc(col: int, kind: DiscType) returns (ok: bool, placedRow: int)
      requires Valid()
      modifies this, Board, BoardType
      ensures Valid() && Board == old(Board) && BoardType == old(BoardType)
      ensures var d := Drop(Cfg(), old(Model()), col, kind, SlotOf(kind));
              && ok == d.Dropped?
              && placedRow == (if ok then d.row else -1)
              && Model() == (if ok then d.after else old(Model()))
    {
      ok, placedRow := false, -1;
      if 0 <= col < Cols {
        var targetRow := FindTargetRow(col);
        var p := if CurrentPlayer == 1 then Player1 else Player2;
        if targetRow != -1 && Has(p, SlotOf(kind)) {
          if CurrentPlayer == 1 {
            Player1 := Consume(Player1, SlotOf(kind));
          } else {
            Player2 := Consume(Player2, SlotOf(kind));
          }
          PutCell(targetRow, col, CurrentPlayer, kind);
          ok, placedRow := true, targetRow;
        }
      }
    }

    /** Writes one cell of both matrices. */
    method PutCell(row: int, col: int, owner: int, kind: DiscType)
      requires Valid() && 0 <= row < Rows && 0 <= col < Cols
      modifies Board, BoardType
      ensures Model() == old(Model()).(board := Set(old(Model()).board, row, col, owner),
                                      kinds := Set(old(Model()).kinds, row, col, kind))
    {
      ghost var s := Model();
      ContentsHolds(Board);
      ContentsHolds(BoardType);
      Board[row, col] := owner;
      BoardType[row, col] := kind;
      ContentsOf(Board, Set(s.board, row, col, owner));
      ContentsOf(BoardType, Set(s.kinds, row, col, kind));
    }

    /** Applies the effect of the disc at (row, col); `newRow` is where the acting disc ends. */
    method ApplyDiscEffect(row: int, col: int) returns (newRow: int)
      requires Valid() && 0 <= row < Rows && 0 <= col < Cols
      modifies this, Board, BoardType
      ensures Valid() && Board == old(Board) && BoardType == old(BoardType)
      ensures var e := Effect(Cfg(), old(Model()), row, col);
              newRow == e.newRow && Model() == e.after
    {
      ContentsHolds(Board);
      ContentsHolds(BoardType);
      newRow := row;
      var kind := BoardType[row, col];
      var owner := Board[row, col];
      if owner != 0 {
        if kind == Drill {
          DrillColumn(row, col, owner);
          newRow := 0;
        } else if kind == Magnetic {
          Attract(row, col, owner);
          newRow := row;
        }
      }
    }

    /** The drill effect of the disc at (row, col), owned by `owner`. */
    method DrillColumn(row: int, col: int, owner: int)
      requires Valid() && 0 <= row < Rows && 0 <= col < Cols
      requires owner == Board[row, col] && owner != 0 && BoardType[row, col] == Drill
      modifies this, Board, BoardType
      ensures Valid() && Board == old(Board) && BoardType == old(BoardType)
      ensures Model() == DrillOutcome(Cfg(), old(Model()), row, col).after
    {
      ghost var s := Model();
      ContentsHolds(Board);
      var countP1, countP2 := SweepColumn(row, col);
      Player1 := ReturnDisc(Player1, countP1);
      Player2 := ReturnDisc(Player2, countP2);
      Board[0, col] := owner;
      BoardType[0, col] := Boring;
      ContentsOf(Board, Set(ClearColumn(s.board, col, 0), 0, col, owner));
      ContentsOf(BoardType, Set(ClearColumn(s.kinds, col, Boring), 0, col, Boring));
    }

    /**
     * The sweep of the drill effect: empties every cell of `col` (kind back to Boring),
     * counting the discs of each player it takes off, the driller's own disc at `row` excepted.
     */
    method SweepColumn(row: int, col: int) returns (countP1: int, countP2: int)
      requires Valid() && 0 <= row < Rows && 0 <= col < Cols
      modifies Board, BoardType
      ensures countP1 == CountOwned(old(Model()).board, col, row, 1, Rows)
      ensures countP2 == CountOwned(old(Model()).board, col, row, 2, Rows)
      ensures Holds(Board, ClearColumn(old(Model()).board, col, 0))
      ensures Holds(BoardType, ClearColumn(old(Model()).kinds, col, Boring))
    {
      ghost var s := Model();
      ContentsHolds(Board);
      ContentsHolds(BoardType);
      countP1, countP2 := 0, 0;
      for i := 0 to Rows
        invariant countP1 == CountOwned(s.board, col, row, 1, i)
        invariant countP2 == CountOwned(s.board, col, row, 2, i)
        invariant forall r, c :: 0 <= r < Rows && 0 <= c < Cols ==>
                    Board[r, c] == (if c == col && r < i then 0 else s.board[r][c])
        invariant forall r, c :: 0 <= r < Rows && 0 <= c < Cols ==>
                    BoardType[r, c] == (if c == col && r < i then Boring else s.kinds[r][c])
      {
        if i != row && Board[i, col] != 0 {
          if Board[i, col] == 1 {
            countP1 := countP1 + 1;
          }
          if Board[i, col] == 2 {
            countP2 := countP2 + 1;
          }
        }
        Board[i, col] := 0;
        BoardType[i, col] := Boring;
      }
    }

    /** The magnetic effect of the disc at (row, col), owned by `owner`. */
    method Attract(row: int, col: int, owner: int)
      requires Valid() && 0 <= row < Rows && 0 <= col < Cols
      requires owner == Board[row, col] && owner != 0 && BoardType[row, col] == Magnetic
      modifies Board, BoardType
      ensures Model() == MagnetOutcome(Cfg(), old(Model()), row, col).after
    {
      ContentsHolds(Board);
      var i := FindMagnet(row, col, owner);
      if i >= 0 {
        SwapWithAbove(i, col);
      }
      SetKind(row, col, Boring);
    }

    /** The search of the magnetic effect: PullRow, scanned down from row - 2. */
    method FindMagnet(row: int, col: int, owner: int) returns (i: int)
      requires Valid() && 0 <= row < Rows && 0 <= col < Cols && owner == Board[row, col]
      ensures i == PullRow(Cfg(), Model(), row, col)
    {
      ghost var s := Model();
      ContentsHolds(Board);
      ContentsHolds(BoardType);
      if row == 0 {
        return -1;
      }
      ghost var target := MagnetTarget(s.board, s.kinds, col, owner, Boring, row - 2);
      i := row - 2;
      while i >= 0
        invariant -1 <= i <= row - 2
        invariant MagnetTarget(s.board, s.kinds, col, owner, Boring, i) == target
      {
        if Board[i, col] == owner && BoardType[i, col] == Boring {
          return;
        }
        i := i - 1;
      }
    }

    /** Exchanges cell (i, col) with the cell above it, in both matrices. */
    method SwapWithAbove(i: int, col: int)
      requires Valid() && 0 <= i && i + 1 < Rows && 0 <= col < Cols
      modifies Board, BoardType
      ensures Model() == old(Model()).(board := SwapUp(old(Model()).board, i, col),
                                      kinds := SwapUp(old(Model()).kinds, i, col))
    {
      ghost var s := Model();
      ContentsHolds(Board);
      ContentsHolds(BoardType);
      Board[i + 1, col], Board[i, col] := Board[i, col], Board[i + 1, col];
      BoardType[i + 1, col], BoardType[i, col] := BoardType[i, col], BoardType[i + 1, col];
      ContentsOf(Board, SwapUp(s.board, i, col));
      ContentsOf(BoardType, SwapUp(s.kinds, i, col));
    }

    /** Sets the kind of cell (row, col). */
    method SetKind(row: int, col: int, kind: DiscType)
      requires Valid() && 0 <= row < Rows && 0 <= col < Cols
      modifies BoardType
      ensures Model() == old(Model()).(kinds := Set(old(Model()).kinds, row, col, kind))
    {
      ghost var s := Model();
      ContentsHolds(BoardType);
      BoardType[row, col] := kind;
      ContentsOf(BoardType, Set(s.kinds, row, col, kind));
    }

    /** Whether the disc at (row, col) completes a line of WinLen along some axis. */
    method WinCheck(row: int, col: int) returns (win: bool)
      requires Valid() && 0 <= row < Rows && 0 <= col < Cols
      ensures win == CellWins(Model().board, WinLen, row, col)
    {
      ContentsHolds(Board);
      win := CheckCell(Board, Model().board, WinLen, row, col);
    }

    /** Passes the turn to the other player. */
    method SwitchPlayer()
      requires Valid()
      modifies this
      ensures Valid() && Board == old(Board) && BoardType == old(BoardType)
      ensures Model() == old(Model()).(current := Other(old(CurrentPlayer)))
    {
      CurrentPlayer := if CurrentPlayer == 1 then 2 else 1;
    }

    /** The board is full when no column has room left in its top row. */
    method IsBoardFull() returns (full: bool)
      requires Valid() && (Rows > 0 || Cols == 0)
      ensures full <==> forall j :: 0 <= j < Cols ==> !ColumnPlayable(Cfg(), Model(), j)
    {
      ContentsHolds(Board);
      for j := 0 to Cols
        invariant forall k :: 0 <= k < j ==> !ColumnPlayable(Cfg(), Model(), k)
      {
        if Board[Rows - 1, j] == 0 {
          assert ColumnPlayable(Cfg(), Model(), j);
          return false;
        }
      }
      return true;
    }
  }
}
