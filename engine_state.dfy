/**
 * The mutable state both engines share, as a value: owner matrix, kind matrix, the player
 * to move and both players' stocks; and the drop rule, which is the same in both engines.
 */
module EngineState {
  import opened Grids
  import opened DiscStock
  import opened Columns

  /** The fixed dimensions and win length an engine is built with. */
  datatype Config = Config(rows: int, cols: int, winLen: int)

  datatype State<K> = State(board: Grid<int>, kinds: Grid<K>, current: int, p1: Stock, p2: Stock)

  ghost predicate WellFormed<K>(cfg: Config, s: State<K>) {
    IsRect(s.board, cfg.rows, cfg.cols) && IsRect(s.kinds, cfg.rows, cfg.cols)
  }

  /** The stock of the player to move (player 1's when `current` is 1, player 2's otherwise). */
  function CurrentStock<K>(s: State<K>): Stock {
    if s.current == 1 then s.p1 else s.p2
  }

  function WithCurrentStock<K>(s: State<K>, st: Stock): (t: State<K>)
    ensures CurrentStock(t) == st && t.current == s.current
    ensures s.current == 1 ==> t.p2 == s.p2
    ensures s.current != 1 ==> t.p1 == s.p1
  {
    if s.current == 1 then s.(p1 := st) else s.(p2 := st)
  }

  /** A column the search may play: in range and with an unowned top cell. */
  predicate ColumnPlayable<K>(cfg: Config, s: State<K>, col: int)
    requires WellFormed(cfg, s)
  {
    0 <= col < cfg.cols && 0 < cfg.rows && s.board[cfg.rows - 1][col] == 0
  }

  datatype DropOutcome<K> = Rejected | Dropped(row: int, after: State<K>)

  /**
   * Dropping a disc of kind `t` (stock counter `slot`) in `col`: rejected for a column out
   * of range, a column without an unowned cell, or a kind the mover has run out of;
   * otherwise the lowest unowned cell gets the mover and the kind, and one disc is consumed.
   */
  function Drop<K>(cfg: Config, s: State<K>, col: int, t: K, slot: Slot): (d: DropOutcome<K>)
    requires WellFormed(cfg, s)
    ensures d.Dropped? ==> 0 <= d.row < cfg.rows && WellFormed(cfg, d.after)
  {
    if col < 0 || col >= cfg.cols then Rejected
    else
      var row := LowestEmpty(s.board, col);
      if row == -1 then Rejected
      else if !Has(CurrentStock(s), slot) then Rejected
      else
        var placed := s.(board := Set(s.board, row, col, s.current), kinds := Set(s.kinds, row, col, t));
        Dropped(row, WithCurrentStock(placed, Consume(CurrentStock(s), slot)))
  }

  /** The drop rule, stated cell by cell and counter by counter. */
  lemma DropContract<K>(cfg: Config, s: State<K>, col: int, t: K, slot: Slot)
    requires WellFormed(cfg, s)
    ensures var d := Drop(cfg, s, col, t, slot);
            && (d.Dropped? <==> 0 <= col < cfg.cols && (exists r :: 0 <= r < cfg.rows && s.board[r][col] == 0)
                                && Has(CurrentStock(s), slot))
            && (d.Dropped? ==>
                  && 0 <= d.row < cfg.rows
                  && s.board[d.row][col] == 0
                  && (forall r :: 0 <= r < d.row ==> s.board[r][col] != 0)
                  && WellFormed(cfg, d.after)
                  && d.after.board[d.row][col] == s.current && d.after.kinds[d.row][col] == t
                  && (forall r, c :: 0 <= r < cfg.rows && 0 <= c < cfg.cols && (r != d.row || c != col) ==>
                        d.after.board[r][c] == s.board[r][c] && d.after.kinds[r][c] == s.kinds[r][c])
                  && d.after.current == s.current
                  && Count(CurrentStock(d.after), slot) == Count(CurrentStock(s), slot) - 1
                  && (forall j: Slot :: j != slot ==> Count(CurrentStock(d.after), j) == Count(CurrentStock(s), j))
                  && (s.current == 1 ==> d.after.p2 == s.p2)
                  && (s.current != 1 ==> d.after.p1 == s.p1))
  {
    if 0 <= col < cfg.cols {
      if exists r :: 0 <= r < cfg.rows && s.board[r][col] == 0 {
        var r :| 0 <= r < cfg.rows && s.board[r][col] == 0;
        assert LowestEmpty(s.board, col) != -1;
      }
    }
  }

  /** A playable column accepts any kind the mover still holds. */
  lemma PlayableDropSucceeds<K>(cfg: Config, s: State<K>, col: int, t: K, slot: Slot)
    requires WellFormed(cfg, s) && ColumnPlayable(cfg, s, col) && Has(CurrentStock(s), slot)
    ensures Drop(cfg, s, col, t, slot).Dropped?
  {
    assert s.board[cfg.rows - 1][col] == 0;
  }

  /**
   * Dropping keeps the board settled and leaves no stale kind on an unowned cell, as long
   * as the mover is a real player (not 0).
   */
  lemma DropKeepsInvariant<K>(cfg: Config, s: State<K>, col: int, t: K, slot: Slot, plain: K)
    requires WellFormed(cfg, s) && Settled(s.board) && KindsCleared(s.board, s.kinds, plain)
    requires s.current != 0
    ensures var d := Drop(cfg, s, col, t, slot);
            d.Dropped? ==> Settled(d.after.board) && KindsCleared(d.after.board, d.after.kinds, plain)
  {
    if Drop(cfg, s, col, t, slot).Dropped? {
      PlaceKeepsSettled(s.board, cfg.rows, cfg.cols, col, s.current);
    }
  }
}
