/**
 * The live engine: a board of owners (0 empty, 1 and 2 the players), a board of disc kinds,
 * the player to move, each player's stock, and a one-level record/roll-back used by the
 * automated opponent to probe moves.
 */
module Classic {
  import opened Options
  import opened Grids
  import opened DiscStock
  import opened Columns
  import opened Lines
  import opened EngineState
  import opened ClassicRules

  /** What BeginRecord keeps: copies of both boards, the player to move and both stocks. */
  datatype Record = Record(board: array2<int>, boardType: array2<DiscType>, cp: int, p1: Stock, p2: Stock)

  class LineUpClassic {
    const Rows: int
    const Cols: int
    const WinLen: int
    const IsVsComputer: bool

    var Board: array2<int>
    var BoardType: array2<DiscType>
    var CurrentPlayer: int
    var Player1: Stock
    var Player2: Stock

    /** The recorded state while a record is active (the `recording` flag of the engine). */
    var backup: Option<Record>

    ghost predicate Valid()
      reads this
    {
      Shaped() && (CurrentPlayer == 1 || CurrentPlayer == 2) && RecordFits()
    }

    /** Both boards have the engine's dimensions. */
    ghost predicate Shaped()
      reads this
    {
      && 0 <= Rows && 0 <= Cols
      && Board.Length0 == Rows && Board.Length1 == Cols
      && BoardType.Length0 == Rows && BoardType.Length1 == Cols
    }

    /** An active record holds copies of the engine's dimensions, apart from the live boards. */
    ghost predicate RecordFits()
      reads this
    {
      backup.Some? ==>
        && backup.value.board.Length0 == Rows && backup.value.board.Length1 == Cols
        && backup.value.boardType.Length0 == Rows && backup.value.boardType.Length1 == Cols
        && backup.value.board != Board && backup.value.boardType != BoardType
        && (backup.value.cp == 1 || backup.value.cp == 2)
    }

    function Cfg(): Config {
      Config(Rows, Cols, WinLen)
    }

    /** The game state, as a value. */
    ghost function Model(): (s: State<DiscType>)
      reads this, Board, BoardType
      ensures Valid() ==> WellFormed(Cfg(), s)
    {
      State(Contents(Board), Contents(BoardType), CurrentPlayer, Player1, Player2)
    }

    /** The state kept by the active record. */
    ghost function Backup(): State<DiscType>
      reads this, if backup.Some? then {backup.value.board, backup.value.boardType} else {}
      requires backup.Some?
    {
      var rec := backup.value;
      State(Contents(rec.board), Contents(rec.boardType), rec.cp, rec.p1, rec.p2)
    }

    /** An empty board of ordinary kinds, player 1 to move, both stocks for rows * cols cells. */
    constructor (rows: int, cols: int, winLen: int, isVsComputer: bool)
      requires 0 <= rows && 0 <= cols
      ensures Valid() && backup.None? && fresh(Board) && fresh(BoardType)
      ensures Rows == rows && Cols == cols && WinLen == winLen && IsVsComputer == isVsComputer
      ensures Model() == State(Filled(rows, cols, 0), Filled(rows, cols, Ordinary), 1,
                               InitialStock(rows * cols), InitialStock(rows * cols))
    {
      Rows, Cols, WinLen, IsVsComputer := rows, cols, winLen, isVsComputer;
      Board := new int[rows, cols]((r, c) => 0);
      BoardType := new DiscType[rows, cols]((r, c) => Ordinary);
      CurrentPlayer := 1;
      Player1 := InitialStock(rows * cols);
      Player2 := InitialStock(rows * cols);
      backup := None;
      new;
      ContentsOf(Board, Filled(rows, cols, 0));
      ContentsOf(BoardType, Filled(rows, cols, Ordinary));
    }

    /** Records a copy of the whole state. */
    method BeginRecord()
      requires Valid()
      modifies this
      ensures Valid() && Board == old(Board) && BoardType == old(BoardType)
      ensures Model() == old(Model()) && backup.Some? && Backup() == Model()
    {
      var b := Clone(Board);
      var bt := Clone(BoardType);
      backup := Some(Record(b, bt, CurrentPlayer, Player1, Player2));
    }

    /** Restores the recorded state and ends the record; without a record, does nothing. */
    method RollBack()
      requires Valid()
      modifies this
      ensures Valid() && backup.None?
      ensures old(backup).Some? ==> Model() == old(Backup()) && fresh(Board) && fresh(BoardType)
      ensures old(backup).None? ==> unchanged(this)
    {
      if backup.None? {
        return;
      }
      var rec := backup.value;
      var b := Clone(rec.board);
      var bt := Clone(rec.boardType);
      Board, BoardType, CurrentPlayer, Player1, Player2 := b, bt, rec.cp, rec.p1, rec.p2;
      backup := None;
    }

    /** The row the loop of DropDisc finds: the lowest empty cell of `col`, or -1. */
    method FindTargetRow(col: int) returns (targetRow: int)
      requires Valid() && 0 <= col < Cols
      ensures targetRow == LowestEmpty(Model().board, col)
    {
      ghost var g := Model().board;
      ContentsHolds(Board);
      targetRow := -1;
      var i := 0;
      while i < Rows && targetRow == -1
        invariant 0 <= i <= Rows
        invariant targetRow == -1 ==> FirstEmptyFrom(g, col, i) == LowestEmpty(g, col)
        invariant targetRow != -1 ==> targetRow == LowestEmpty(g, col)
      {
        if Board[i, col] == 0 {
          targetRow := i;
        }
        i := i + 1;
      }
    }

    /**
     * Drops a disc of the current player in `col`: it fails, changing nothing, when the column
     * is out of range or full or the player holds no disc of that kind; otherwise the disc lands
     * on the lowest empty cell and one disc of that kind leaves the player's stock.
     */
    method DropDisc(col: int, kind: DiscType) returns (ok: bool, placedRow: int)
      requires Valid()
      modifies this, Board, BoardType
      ensures Valid() && Board == old(Board) && BoardType == old(BoardType) && backup == old(backup)
      ensures var d := Drop(Cfg(), old(Model()), col, kind, SlotOf(kind));
              && ok == d.Dropped?
              && placedRow == (if ok then d.row else -1)
              && Model() == (if ok then d.after else old(Model()))
    {
      ok, placedRow := false, -1;
      if 0 <= col < Cols {
        var targetRow := FindTargetRow(col);
        var p := if CurrentPlayer == 1 then Player1 else Player2;
        if targetRow != -1 && Has(p, SlotOf(kind)) {
          if CurrentPlayer == 1 {
            Player1 := Consume(Player1, SlotOf(kind));
          } else {
            Player2 := Consume(Player2, SlotOf(kind));
          }
          PutCell(targetRow, col, CurrentPlayer, kind);
          ok, placedRow := true, targetRow;
        }
      }
    }

    /** Writes one cell of both matrices. */
    method PutCell(row: int, col: int, owner: int, kind: DiscType)
      requires Valid() && 0 <= row < Rows && 0 <= col < Cols
      modifies Board, BoardType
      ensures Model() == old(Model()).(board := Set(old(Model()).board, row, col, owner),
                                      kinds := Set(old(Model()).kinds, row, col, kind))
    {
      ghost var s := Model();
      ContentsHolds(Board);
      ContentsHolds(BoardType);
      Board[row, col] := owner;
      BoardType[row, col] := kind;
      ContentsOf(Board, Set(s.board, row, col, owner));
      ContentsOf(BoardType, Set(s.kinds, row, col, kind));
    }

    /** Applies the effect of the disc at (row, col) and reports the cells to check for a win. */
    method ApplyDiscEffect(row: int, col: int) returns (changedDisc: seq<(int, int)>)
      requires Valid() && 0 <= row < Rows && 0 <= col < Cols
      modifies this, Board, BoardType
      ensures Valid() && Board == old(Board) && BoardType == old(BoardType) && backup == old(backup)
      ensures var e := Effect(Cfg(), old(Model()), row, col);
              changedDisc == e.changed && Model() == e.after
    {
      ContentsHolds(Board);
      ContentsHolds(BoardType);
      changedDisc := [];
      var kind := BoardType[row, col];
      var owner := Board[row, col];
      if owner == 0 {
        return;
      }
      if kind == Ordinary {
        changedDisc := changedDisc + [(row, col)];
        return;
      }
      if kind == Boring {
        Bore(row, col, owner);
        changedDisc := changedDisc + [(0, col)];
        return;
      }
      changedDisc := changedDisc + [(row, col)];
      var more := Attract(row, col, owner);
      changedDisc := changedDisc + more;
    }

    /** The boring effect of the disc at (row, col), owned by `owner`. */
    method Bore(row: int, col: int, owner: int)
      requires Valid() && 0 <= row < Rows && 0 <= col < Cols
      requires owner == Board[row, col] && owner != 0 && BoardType[row, col] == Boring
      modifies this, Board, BoardType
      ensures Valid() && Board == old(Board) && BoardType == old(BoardType) && backup == old(backup)
      ensures Model() == BoringOutcome(Cfg(), old(Model()), row, col).after
    {
      ghost var s := Model();
      ContentsHolds(Board);
      var countP1, countP2 := SweepColumn(row, col);
      Player1 := ReturnDisc(Player1, countP1);
      Player2 := ReturnDisc(Player2, countP2);
      Board[0, col] := owner;
      BoardType[0, col] := Ordinary;
      ContentsOf(Board, Set(ClearColumn(s.board, col, 0), 0, col, owner));
      ContentsOf(BoardType, Set(ClearColumn(s.kinds, col, Ordinary), 0, col, Ordinary));
    }

    /**
     * The sweep of the boring effect: empties every cell of `col`, counting the discs of
     * each player it takes off the column, the driller's own disc at `row` excepted.
     */
    method SweepColumn(row: int, col: int) returns (countP1: int, countP2: int)
      requires Valid() && 0 <= row < Rows && 0 <= col < Cols
      modifies Board, BoardType
      ensures countP1 == CountOwned(old(Model()).board, col, row, 1, Rows)
      ensures countP2 == CountOwned(old(Model()).board, col, row, 2, Rows)
      ensures Holds(Board, ClearColumn(old(Model()).board, col, 0))
      ensures Holds(BoardType, ClearColumn(old(Model()).kinds, col, Ordinary))
    {
      ghost var s := Model();
      ContentsHolds(Board);
      ContentsHolds(BoardType);
      countP1, countP2 := 0, 0;
      for i := 0 to Rows
        invariant countP1 == CountOwned(s.board, col, row, 1, i)
        invariant countP2 == CountOwned(s.board, col, row, 2, i)
        invariant forall r, c :: 0 <= r < Rows && 0 <= c < Cols ==>
                    Board[r, c] == (if c == col && r < i then 0 else s.board[r][c])
        invariant forall r, c :: 0 <= r < Rows && 0 <= c < Cols ==>
                    BoardType[r, c] == (if c == col && r < i then Ordinary else s.kinds[r][c])
      {
        if i != row && Board[i, col] != 0 {
          if Board[i, col] == 1 {
            countP1 := countP1 + 1;
          } else if Board[i, col] == 2 {
            countP2 := countP2 + 1;
          }
        }
        Board[i, col] := 0;
        BoardType[i, col] := Ordinary;
      }
    }

    /**
     * The magnetic effect of the disc at (row, col), owned by `owner`, past the report of the
     * disc itself: the cells the pull exchanged, if any.
     */
    method Attract(row: int, col: int, owner: int) returns (pulled: seq<(int, int)>)
      requires Valid() && 0 <= row < Rows && 0 <= col < Cols
      requires owner == Board[row, col] && owner != 0 && BoardType[row, col] == Magnetic
      modifies Board, BoardType
      ensures var e := MagneticOutcome(Cfg(), old(Model()), row, col);
              [(row, col)] + pulled == e.changed && Model() == e.after
    {
      ContentsHolds(Board);
      pulled := [];
      if row == 0 || (row > 0 && Board[row - 1, col] == owner) {
        SetKind(row, col, Ordinary);
        return;
      }
      var i := FindMagnet(row, col, owner);
      if i >= 0 {
        SwapWithAbove(i, col);
        pulled := [(i + 1, col), (i, col)];
      }
      SetKind(row, col, Ordinary);
    }

    /** Exchanges cell (i, col) with the cell above it, in both matrices. */
    method SwapWithAbove(i: int, col: int)
      requires Valid() && 0 <= i && i + 1 < Rows && 0 <= col < Cols
      modifies Board, BoardType
      ensures Model() == old(Model()).(board := SwapUp(old(Model()).board, i, col),
                                      kinds := SwapUp(old(Model()).kinds, i, col))
    {
      ghost var s := Model();
      ContentsHolds(Board);
      ContentsHolds(BoardType);
      Board[i + 1, col], Board[i, col] := Board[i, col], Board[i + 1, col];
      BoardType[i + 1, col], BoardType[i, col] := BoardType[i, col], BoardType[i + 1, col];
      ContentsOf(Board, SwapUp(s.board, i, col));
      ContentsOf(BoardType, SwapUp(s.kinds, i, col));
    }

    /** Sets the kind of cell (row, col). */
    method SetKind(row: int, col: int, kind: DiscType)
      requires Valid() && 0 <= row < Rows && 0 <= col < Cols
      modifies BoardType
      ensures Model() == old(Model()).(kinds := Set(old(Model()).kinds, row, col, kind))
    {
      ghost var s := Model();
      ContentsHolds(BoardType);
      BoardType[row, col] := kind;
      ContentsOf(BoardType, Set(s.kinds, row, col, kind));
    }

    /**
     * The search of the magnetic effect: the highest row below `row - 1` whose disc is
     * `owner`'s and ordinary, or -1.
     */
    method FindMagnet(row: int, col: int, owner: int) returns (i: int)
      requires Valid() && 1 <= row < Rows && 0 <= col < Cols
      ensures i == MagnetTarget(Model().board, Model().kinds, col, owner, Ordinary, row - 2)
    {
      ghost var s := Model();
      ContentsHolds(Board);
      ContentsHolds(BoardType);
      ghost var target := MagnetTarget(s.board, s.kinds, col, owner, Ordinary, row - 2);
      i := row - 2;
      while i >= 0
        invariant -1 <= i <= row - 2
        invariant MagnetTarget(s.board, s.kinds, col, owner, Ordinary, i) == target
      {
        if Board[i, col] == owner && BoardType[i, col] == Ordinary {
          return;
        }
        i := i - 1;
      }
    }

    /** Whether the disc at (row, col) completes a line of WinLen along some axis. */
    method CheckCellWin(row: int, col: int) returns (win: bool)
      requires Valid() && 0 <= row < Rows && 0 <= col < Cols
      ensures win == CellWins(Model().board, WinLen, row, col)
    {
      ContentsHolds(Board);
      win := CheckCell(Board, Model().board, WinLen, row, col);
    }

    /**
     * Scans the changed cells: `curWin` when one of them is a winning disc of the player to
     * move, `oppWin` when one is a winning disc of the other player. Cells off the board are
     * skipped.
     */
    method WinCheck(changedDisc: seq<(int, int)>) returns (curWin: bool, oppWin: bool)
      requires Valid()
      ensures curWin == AnyWinFor(Model().board, WinLen, changedDisc, CurrentPlayer)
      ensures oppWin == AnyWinFor(Model().board, WinLen, changedDisc, Other(CurrentPlayer))
    {
      ghost var g := Model().board;
      ContentsHolds(Board);
      curWin, oppWin := false, false;
      if |changedDisc| == 0 {
        return;
      }
      var cur := CurrentPlayer;
      var opp := if CurrentPlayer == 1 then 2 else 1;
      for k := 0 to |changedDisc|
        invariant curWin <==> exists i :: 0 <= i < k && WinsFor(g, WinLen, changedDisc[i].0, changedDisc[i].1, cur)
        invariant oppWin <==> exists i :: 0 <= i < k && WinsFor(g, WinLen, changedDisc[i].0, changedDisc[i].1, opp)
      {
        var (r, c) := changedDisc[k];
        if r < 0 || r >= Rows || c < 0 || c >= Cols {
          continue;
        }
        var owner := Board[r, c];
        if owner == 0 {
          continue;
        }
        var win := CheckCellWin(r, c);
        if win {
          if owner == cur {
            curWin := true;
          } else if owner == opp {
            oppWin := true;
          }
          if curWin && oppWin {
            return;
          }
        }
      }
    }

    /** Passes the turn to the other player. */
    method SwitchPlayer()
      requires Valid()
      modifies this
      ensures Valid() && Board == old(Board) && BoardType == old(BoardType) && backup == old(backup)
      ensures Model() == old(Model()).(current := Other(old(CurrentPlayer)))
    {
      CurrentPlayer := if CurrentPlayer == 1 then 2 else 1;
    }

    /** The board is full when no column has room left in its top row. */
    method IsBoardFull() returns (full: bool)
      requires Valid() && (Rows > 0 || Cols == 0)
      ensures full <==> forall j :: 0 <= j < Cols ==> !ColumnPlayable(Cfg(), Model(), j)
    {
      ContentsHolds(Board);
      for j := 0 to Cols
        invariant forall k :: 0 <= k < j ==> !ColumnPlayable(Cfg(), Model(), k)
      {
        if Board[Rows - 1, j] == 0 {
          assert ColumnPlayable(Cfg(), Model(), j);
          return false;
        }
      }
      return true;
    }

    /** A column is playable when it is on the board and its top cell is empty. */
    function IsColumnPlayable(col: int): (playable: bool)
      requires Valid() && (0 <= col < Cols ==> Rows > 0)
      reads this, Board, BoardType
      ensures playable == ColumnPlayable(Cfg(), Model(), col)
    {
      ContentsHolds(Board);
      0 <= col < Cols && Board[Rows - 1, col] == 0
    }

    /** The kinds the player to move holds, in the order Ordinary, Magnetic, Boring. */
    function PlayableTypes(): (types: seq<DiscType>)
      reads this
      ensures forall t :: t in types <==> Has(if CurrentPlayer == 1 then Player1 else Player2, SlotOf(t))
    {
      HeldKinds(if CurrentPlayer == 1 then Player1 else Player2)
    }

    /**
     * Probes a move: whether dropping `kind` in `col` and applying its effect gives the player
     * to move a winning cell and the opponent none. The state is the same afterwards. When the
     * column is playable and the kind is held the probe records and rolls back, so no record
     * remains; otherwise the record is left as it was.
     */
    method TryMoveWins(col: int, kind: DiscType) returns (wins: bool)
      requires Valid() && (0 <= col < Cols ==> Rows > 0)
      modifies this, Board, BoardType
      ensures Valid() && Model() == old(Model())
      ensures wins == WinsNow(Cfg(), old(Model()), col, kind)
      ensures ColumnPlayable(Cfg(), old(Model()), col) && Has(CurrentStock(old(Model())), SlotOf(kind)) ==> backup.None?
      ensures !(ColumnPlayable(Cfg(), old(Model()), col) && Has(CurrentStock(old(Model())), SlotOf(kind))) ==> backup == old(backup)
      ensures (Board == old(Board) || fresh(Board)) && (BoardType == old(BoardType) || fresh(BoardType))
    {
      wins := false;
      var p := if CurrentPlayer == 1 then Player1 else Player2;
      if IsColumnPlayable(col) && Has(p, SlotOf(kind)) {
        var targetRow := FindTargetRow(col);
        if targetRow != -1 {
          BeginRecord();
          wins := PlayAndCheck(col, kind);
          RollBack();
        }
      }
    }

    /** The recorded part of the probe: drop, effect, and the win check on the changed cells. */
    method PlayAndCheck(col: int, kind: DiscType) returns (wins: bool)
      requires Valid() && ColumnPlayable(Cfg(), Model(), col)
      modifies this, Board, BoardType
      ensures Valid() && Board == old(Board) && BoardType == old(BoardType) && backup == old(backup)
      ensures wins == WinsNow(Cfg(), old(Model()), col, kind)
    {
      wins := false;
      var ok, placedRow := DropDisc(col, kind);
      if ok {
        var changedDisc := ApplyDiscEffect(placedRow, col);
        var curWin, oppWin := WinCheck(changedDisc);
        wins := curWin && !oppWin;
      }
    }

    /**
     * Searches the columns from 0 upwards and, in each playable column, the held kinds in the
     * order Ordinary, Magnetic, Boring, for the first probe that wins; (false, -1, Ordinary)
     * when none does. The state is the same afterwards.
     */
    method FindWinningMove() returns (found: bool, col: int, kind: DiscType)
      requires Valid() && (Rows > 0 || Cols == 0)
      modifies this, Board, BoardType
      ensures Valid() && Model() == old(Model())
      ensures found ==> WinsNow(Cfg(), old(Model()), col, kind)
      ensures found ==> forall j, t :: MoveBefore(j, t, col, kind) ==> !WinsNow(Cfg(), old(Model()), j, t)
      ensures !found ==> col == -1 && kind == Ordinary && forall j, t :: !WinsNow(Cfg(), old(Model()), j, t)
      ensures (exists j :: ColumnPlayable(Cfg(), old(Model()), j)) && |HeldKinds(CurrentStock(old(Model())))| > 0 ==> backup.None?
      ensures !((exists j :: ColumnPlayable(Cfg(), old(Model()), j)) && |HeldKinds(CurrentStock(old(Model())))| > 0) ==> backup == old(backup)
    {
      ghost var s := Model();
      for j := 0 to Cols
        invariant Valid() && Model() == s
        invariant (Board == old(Board) || fresh(Board)) && (BoardType == old(BoardType) || fresh(BoardType))
        invariant (exists j' :: 0 <= j' < j && ColumnPlayable(Cfg(), s, j')) && |HeldKinds(CurrentStock(s))| > 0 ==> backup.None?
        invariant !((exists j' :: 0 <= j' < j && ColumnPlayable(Cfg(), s, j')) && |HeldKinds(CurrentStock(s))| > 0) ==> backup == old(backup)
        invariant forall j', t :: j' < j ==> !WinsNow(Cfg(), s, j', t)
      {
        var wins, t := FindInColumn(j);
        if wins {
          return true, j, t;
        }
        EarlierColumnsLose(Cfg(), s, j);
      }
      return false, -1, Ordinary;
    }

    /** The inner loop of FindWinningMove: the first winning kind in column `j`, if any. */
    method FindInColumn(j: int) returns (found: bool, kind: DiscType)
      requires Valid() && (Rows > 0 || Cols == 0)
      modifies this, Board, BoardType
      ensures Valid() && Model() == old(Model())
      ensures (Board == old(Board) || fresh(Board)) && (BoardType == old(BoardType) || fresh(BoardType))
      ensures found ==> WinsNow(Cfg(), old(Model()), j, kind)
      ensures found ==> forall u :: KindBefore(u, kind) ==> !WinsNow(Cfg(), old(Model()), j, u)
      ensures !found ==> forall t :: !WinsNow(Cfg(), old(Model()), j, t)
      ensures ColumnPlayable(Cfg(), old(Model()), j) && |HeldKinds(CurrentStock(old(Model())))| > 0 ==> backup.None?
      ensures !(ColumnPlayable(Cfg(), old(Model()), j) && |HeldKinds(CurrentStock(old(Model())))| > 0) ==> backup == old(backup)
    {
      ghost var s := Model();
      found, kind := false, Ordinary;
      if !IsColumnPlayable(j) {
        return;
      }
      var playableTypes := PlayableTypes();
      for k := 0 to |playableTypes|
        invariant Valid() && Model() == s
        invariant (Board == old(Board) || fresh(Board)) && (BoardType == old(BoardType) || fresh(BoardType))
        invariant k > 0 ==> backup.None?
        invariant k == 0 ==> backup == old(backup)
        invariant forall i :: 0 <= i < k ==> !WinsNow(Cfg(), s, j, playableTypes[i])
      {
        var t := playableTypes[k];
        var wins := TryMoveWins(j, t);
        if wins {
          EarlierKindsLose(Cfg(), s, j, playableTypes, k);
          return true, t;
        }
        assert !WinsNow(Cfg(), s, j, playableTypes[k]);
      }
      HeldKindsLose(Cfg(), s, j, playableTypes);
    }

    /**
     * A random move: some playable column and some held kind, or (false, -1, Ordinary) when
     * there is no playable column or no held kind. The random choice is left open.
     */
    method RandomMove() returns (ok: bool, col: int, kind: DiscType)
      requires Valid() && (Rows > 0 || Cols == 0)
      ensures ok <==> (exists j :: ColumnPlayable(Cfg(), Model(), j)) && |PlayableTypes()| > 0
      ensures ok ==> ColumnPlayable(Cfg(), Model(), col) && Has(CurrentStock(Model()), SlotOf(kind))
      ensures !ok ==> col == -1 && kind == Ordinary
    {
      var playableCol: seq<int> := [];
      for j := 0 to Cols
        invariant forall x :: x in playableCol <==> 0 <= x < j && ColumnPlayable(Cfg(), Model(), x)
      {
        if IsColumnPlayable(j) {
          playableCol := playableCol + [j];
        }
      }
      if |playableCol| == 0 {
        return false, -1, Ordinary;
      }
      var playableTypes := PlayableTypes();
      if |playableTypes| == 0 {
        return false, -1, Ordinary;
      }
      ghost var c0, t0 := playableCol[0], playableTypes[0];
      assert c0 in playableCol && t0 in playableTypes;
      col :| col in playableCol;
      kind :| kind in playableTypes;
      ok := true;
    }

    /**
     * Loads a saved state: the board and the kinds are copied cell by cell, the stocks are set,
     * and the player to move is 1 when `currentPlayer` is 1 and 2 otherwise. Arrays of the wrong
     * size are refused (ok is false) and nothing changes.
     */
    method RestoreState(board: array2<int>, boardType: array2<DiscType>, currentPlayer: int, p1: Stock, p2: Stock)
      returns (ok: bool)
      requires Valid()
      modifies this, Board, BoardType
      ensures Valid() && Board == old(Board) && BoardType == old(BoardType) && backup == old(backup)
      ensures ok <==> board.Length0 == Rows && board.Length1 == Cols
                      && boardType.Length0 == Rows && boardType.Length1 == Cols
      ensures ok ==> Model() == State(old(Contents(board)), old(Contents(boardType)),
                                      if currentPlayer == 1 then 1 else 2, p1, p2)
      ensures !ok ==> Model() == old(Model())
    {
      if board.Length0 != Rows || board.Length1 != Cols {
        return false;
      }
      if boardType.Length0 != Rows || boardType.Length1 != Cols {
        return false;
      }
      CopyInto(Board, board);
      CopyInto(BoardType, boardType);
      Player1, Player2 := p1, p2;
      CurrentPlayer := if currentPlayer == 1 then 1 else 2;
      ok := true;
    }
  }
}
