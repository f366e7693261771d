/**
 * The rules of the earlier engine (GameEngine) on state values. Its disc kinds are Boring
 * (the plain disc and the enum's default value), Magnetic and Drill (the column-clearing
 * disc); an unowned cell carries the default kind Boring.
 */
module EngineRules {
  import opened Grids
  import opened DiscStock
  import opened Columns
  import opened EngineState

  datatype DiscType = Boring | Magnetic | Drill

  /** The stock counter of a kind: the kind's underlying enum value. */
  function SlotOf(t: DiscType): (k: Slot)
    ensures t == Boring <==> k == 0
    ensures t == Drill <==> k == 2
  {
    match t
    case Boring => 0
    case Magnetic => 1
    case Drill => 2
  }

  /** The state after an effect and the row where the effect leaves the acting disc. */
  datatype EffectResult = EffectResult(newRow: int, after: State<DiscType>)

  /**
   * The effect of the disc at (row, col). An unowned cell and a Boring disc: nothing.
   * Drill: the column is emptied, each player gets back as plain discs as many as were
   * cleared of theirs (the drill itself excepted), and the mover's disc lies at row 0 as a
   * plain disc. Magnetic: the owner's nearest plain disc at or below row - 2 exchanges places
   * with the cell just above it, and the magnetic disc becomes plain where it is.
   */
  function Effect(cfg: Config, s: State<DiscType>, row: int, col: int): (e: EffectResult)
    requires WellFormed(cfg, s) && 0 <= row < cfg.rows && 0 <= col < cfg.cols
    ensures WellFormed(cfg, e.after)
  {
    if s.board[row][col] == 0 then EffectResult(row, s)
    else
      match s.kinds[row][col]
      case Boring => EffectResult(row, s)
      case Drill => DrillOutcome(cfg, s, row, col)
      case Magnetic => MagnetOutcome(cfg, s, row, col)
  }

  /** The drill effect of the disc at (row, col). */
  function DrillOutcome(cfg: Config, s: State<DiscType>, row: int, col: int): (e: EffectResult)
    requires WellFormed(cfg, s) && 0 <= row < cfg.rows && 0 <= col < cfg.cols
    ensures WellFormed(cfg, e.after)
  {
    var owner := s.board[row][col];
    var n1 := CountOwned(s.board, col, row, 1, cfg.rows);
    var n2 := CountOwned(s.board, col, row, 2, cfg.rows);
    var board := Set(ClearColumn(s.board, col, 0), 0, col, owner);
    var kinds := Set(ClearColumn(s.kinds, col, Boring), 0, col, Boring);
    EffectResult(0, s.(board := board, kinds := kinds, p1 := ReturnDisc(s.p1, n1), p2 := ReturnDisc(s.p2, n2)))
  }

  /** The row the magnetic disc at (row, col) pulls from, or -1: the scan starts at row - 2. */
  function PullRow(cfg: Config, s: State<DiscType>, row: int, col: int): (i: int)
    requires WellFormed(cfg, s) && 0 <= row < cfg.rows && 0 <= col < cfg.cols
    ensures i == -1 || 0 <= i <= row - 2
  {
    if row == 0 then -1 else MagnetTarget(s.board, s.kinds, col, s.board[row][col], Boring, row - 2)
  }

  /** The magnetic effect of the disc at (row, col). */
  function MagnetOutcome(cfg: Config, s: State<DiscType>, row: int, col: int): (e: EffectResult)
    requires WellFormed(cfg, s) && 0 <= row < cfg.rows && 0 <= col < cfg.cols
    ensures WellFormed(cfg, e.after)
  {
    var i := PullRow(cfg, s, row, col);
    if i == -1 then EffectResult(row, s.(kinds := Set(s.kinds, row, col, Boring)))
    else
      EffectResult(row, s.(board := SwapUp(s.board, i, col), kinds := Set(SwapUp(s.kinds, i, col), row, col, Boring)))
  }

  /** An unowned cell or a plain disc has no effect. */
  lemma PlainEffect(cfg: Config, s: State<DiscType>, row: int, col: int)
    requires WellFormed(cfg, s) && 0 <= row < cfg.rows && 0 <= col < cfg.cols
    requires s.board[row][col] == 0 || s.kinds[row][col] == Boring
    ensures Effect(cfg, s, row, col) == EffectResult(row, s)
  {
  }

  /**
   * The drill effect, cell by cell: one disc of the driller at row 0, the rest of the column
   * empty and plain, other columns untouched, and each stock credited with its cleared discs.
   */
  lemma DrillEffect(cfg: Config, s: State<DiscType>, row: int, col: int)
    requires WellFormed(cfg, s) && 0 <= row < cfg.rows && 0 <= col < cfg.cols
    requires s.board[row][col] != 0 && s.kinds[row][col] == Drill
    ensures var e := Effect(cfg, s, row, col);
            && e.newRow == 0
            && e.after.board[0][col] == s.board[row][col] && e.after.kinds[0][col] == Boring
            && (forall r :: 0 < r < cfg.rows ==> e.after.board[r][col] == 0 && e.after.kinds[r][col] == Boring)
            && (forall r, c :: 0 <= r < cfg.rows && 0 <= c < cfg.cols && c != col ==>
                  e.after.board[r][c] == s.board[r][c] && e.after.kinds[r][c] == s.kinds[r][c])
            && e.after.p1 == ReturnDisc(s.p1, CountOwned(s.board, col, row, 1, cfg.rows))
            && e.after.p2 == ReturnDisc(s.p2, CountOwned(s.board, col, row, 2, cfg.rows))
            && e.after.current == s.current
  {
  }

  /**
   * The magnetic effect, cell by cell. Unlike the live engine there is no shortcut for a disc
   * resting on one of its owner's: the scan always starts two rows down.
   */
  lemma MagneticEffect(cfg: Config, s: State<DiscType>, row: int, col: int)
    requires WellFormed(cfg, s) && 0 <= row < cfg.rows && 0 <= col < cfg.cols
    requires s.board[row][col] != 0 && s.kinds[row][col] == Magnetic
    ensures var e := Effect(cfg, s, row, col);
            var owner := s.board[row][col];
            var i := PullRow(cfg, s, row, col);
            && e.newRow == row
            && e.after.kinds[row][col] == Boring && e.after.board[row][col] == owner
            && e.after.current == s.current && e.after.p1 == s.p1 && e.after.p2 == s.p2
            && (forall k :: i < k <= row - 2 ==> !(s.board[k][col] == owner && s.kinds[k][col] == Boring))
            && (i == -1 ==> e.after.board == s.board && e.after.kinds == Set(s.kinds, row, col, Boring))
            && (i != -1 ==>
                  && 0 <= i <= row - 2
                  && e.after.board[i + 1][col] == owner && e.after.kinds[i + 1][col] == Boring
                  && e.after.board[i][col] == s.board[i + 1][col] && e.after.kinds[i][col] == s.kinds[i + 1][col]
                  && (forall r, c ::
                        (0 <= r < cfg.rows && 0 <= c < cfg.cols && (c != col || (r != i && r != i + 1 && r != row)))
                        ==> e.after.board[r][c] == s.board[r][c] && e.after.kinds[r][c] == s.kinds[r][c]))
  {
  }

  /** Every effect keeps the board settled and leaves no stale kind on an unowned cell. */
  lemma EffectKeepsInvariant(cfg: Config, s: State<DiscType>, row: int, col: int)
    requires WellFormed(cfg, s) && 0 <= row < cfg.rows && 0 <= col < cfg.cols
    requires Settled(s.board) && KindsCleared(s.board, s.kinds, Boring)
    ensures var e := Effect(cfg, s, row, col);
            Settled(e.after.board) && KindsCleared(e.after.board, e.after.kinds, Boring)
  {
    var owner := s.board[row][col];
    if owner != 0 {
      match s.kinds[row][col]
      case Boring =>
      case Drill =>
        ResetColumnKeepsSettled(s.board, cfg.rows, cfg.cols, col, owner);
      case Magnetic =>
        MagnetKeepsInvariant(cfg, s, row, col);
    }
  }

  /** The magnetic part of EffectKeepsInvariant: the pull only exchanges two owned cells. */
  lemma MagnetKeepsInvariant(cfg: Config, s: State<DiscType>, row: int, col: int)
    requires WellFormed(cfg, s) && 0 <= row < cfg.rows && 0 <= col < cfg.cols
    requires Settled(s.board) && KindsCleared(s.board, s.kinds, Boring) && s.board[row][col] != 0
    ensures var e := MagnetOutcome(cfg, s, row, col);
            Settled(e.after.board) && KindsCleared(e.after.board, e.after.kinds, Boring)
  {
    var i := PullRow(cfg, s, row, col);
    if i != -1 {
      OwnedBelow(s.board, cfg.rows, cfg.cols, row, col, i + 1);
      SwapKeepsSettled(s.board, cfg.rows, cfg.cols, i, col);
    }
  }
}
