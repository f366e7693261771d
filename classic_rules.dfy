/**
 * The rules of the live engine (LineUpClassic) on state values: the disc effects, and the
 * one-move probe used by the automated opponent.
 */
module ClassicRules {
  import opened Grids
  import opened DiscStock
  import opened Columns
  import opened Lines
  import opened EngineState

  /** The three disc kinds; Ordinary is the enum's default value. */
  datatype DiscType = Ordinary | Magnetic | Boring

  /** The stock counter of a kind: the kind's underlying enum value. */
  function SlotOf(t: DiscType): (k: Slot)
    ensures t == Ordinary ==> k == 0
  {
    match t
    case Ordinary => 0
    case Magnetic => 1
    case Boring => 2
  }

  /** Whether kind `t` is tried before kind `u`: Ordinary, then Magnetic, then Boring. */
  predicate KindBefore(t: DiscType, u: DiscType) {
    SlotOf(t) < SlotOf(u)
  }

  /** The kinds the stock holds, in the order Ordinary, Magnetic, Boring. */
  function HeldKinds(st: Stock): (kinds: seq<DiscType>)
    ensures forall t :: t in kinds <==> Has(st, SlotOf(t))
    ensures forall i, j :: 0 <= i < j < |kinds| ==> KindBefore(kinds[i], kinds[j])
  {
    (if Has(st, 0) then [Ordinary] else [])
      + (if Has(st, 1) then [Magnetic] else [])
      + (if Has(st, 2) then [Boring] else [])
  }

  datatype EffectOutcome = EffectOutcome(changed: seq<(int, int)>, after: State<DiscType>)

  /**
   * The effect of the disc at (row, col), and the cells to check for a win afterwards.
   * Ordinary: nothing happens. Boring: the column is emptied, each player gets back as
   * ordinary discs as many as were cleared of theirs (the boring disc itself excepted), and
   * the mover's disc lies at row 0 as an ordinary disc. Magnetic: the disc becomes ordinary
   * where it is; unless it is at row 0 or rests on a disc of its owner, the owner's nearest
   * ordinary disc at or below row - 2 exchanges places with the cell just above it.
   */
  function Effect(cfg: Config, s: State<DiscType>, row: int, col: int): (e: EffectOutcome)
    requires WellFormed(cfg, s) && 0 <= row < cfg.rows && 0 <= col < cfg.cols
    ensures WellFormed(cfg, e.after)
  {
    if s.board[row][col] == 0 then EffectOutcome([], s)
    else
      match s.kinds[row][col]
      case Ordinary => EffectOutcome([(row, col)], s)
      case Boring => BoringOutcome(cfg, s, row, col)
      case Magnetic => MagneticOutcome(cfg, s, row, col)
  }

  /** The boring effect of the disc at (row, col). */
  function BoringOutcome(cfg: Config, s: State<DiscType>, row: int, col: int): (e: EffectOutcome)
    requires WellFormed(cfg, s) && 0 <= row < cfg.rows && 0 <= col < cfg.cols
    ensures WellFormed(cfg, e.after)
  {
    var owner := s.board[row][col];
    var n1 := CountOwned(s.board, col, row, 1, cfg.rows);
    var n2 := CountOwned(s.board, col, row, 2, cfg.rows);
    var board := Set(ClearColumn(s.board, col, 0), 0, col, owner);
    var kinds := Set(ClearColumn(s.kinds, col, Ordinary), 0, col, Ordinary);
    EffectOutcome([(0, col)],
      s.(board := board, kinds := kinds, p1 := ReturnDisc(s.p1, n1), p2 := ReturnDisc(s.p2, n2)))
  }

  /** The magnetic effect of the disc at (row, col). */
  function MagneticOutcome(cfg: Config, s: State<DiscType>, row: int, col: int): (e: EffectOutcome)
    requires WellFormed(cfg, s) && 0 <= row < cfg.rows && 0 <= col < cfg.cols
    ensures WellFormed(cfg, e.after)
  {
    var owner := s.board[row][col];
    var settled := s.(kinds := Set(s.kinds, row, col, Ordinary));
    if row == 0 || s.board[row - 1][col] == owner then EffectOutcome([(row, col)], settled)
    else
      var i := MagnetTarget(s.board, s.kinds, col, owner, Ordinary, row - 2);
      if i == -1 then EffectOutcome([(row, col)], settled)
      else
        EffectOutcome([(row, col), (i + 1, col), (i, col)],
          s.(board := SwapUp(s.board, i, col), kinds := Set(SwapUp(s.kinds, i, col), row, col, Ordinary)))
  }

  /** An empty cell has no effect and reports nothing; an ordinary disc reports only itself. */
  lemma PlainEffect(cfg: Config, s: State<DiscType>, row: int, col: int)
    requires WellFormed(cfg, s) && 0 <= row < cfg.rows && 0 <= col < cfg.cols
    ensures s.board[row][col] == 0 ==> Effect(cfg, s, row, col) == EffectOutcome([], s)
    ensures s.board[row][col] != 0 && s.kinds[row][col] == Ordinary ==>
              Effect(cfg, s, row, col) == EffectOutcome([(row, col)], s)
  {
  }

  /** The boring effect, cell by cell. */
  lemma BoringEffect(cfg: Config, s: State<DiscType>, row: int, col: int)
    requires WellFormed(cfg, s) && 0 <= row < cfg.rows && 0 <= col < cfg.cols
    requires s.board[row][col] != 0 && s.kinds[row][col] == Boring
    ensures var e := Effect(cfg, s, row, col);
            && e.changed == [(0, col)]
            && e.after.board[0][col] == s.board[row][col] && e.after.kinds[0][col] == Ordinary
            && (forall r :: 0 < r < cfg.rows ==> e.after.board[r][col] == 0 && e.after.kinds[r][col] == Ordinary)
            && (forall r, c :: 0 <= r < cfg.rows && 0 <= c < cfg.cols && c != col ==>
                  e.after.board[r][c] == s.board[r][c] && e.after.kinds[r][c] == s.kinds[r][c])
            && e.after.p1 == ReturnDisc(s.p1, CountOwned(s.board, col, row, 1, cfg.rows))
            && e.after.p2 == ReturnDisc(s.p2, CountOwned(s.board, col, row, 2, cfg.rows))
            && e.after.current == s.current
  {
  }

  /** The magnetic effect, cell by cell. */
  lemma MagneticEffect(cfg: Config, s: State<DiscType>, row: int, col: int)
    requires WellFormed(cfg, s) && 0 <= row < cfg.rows && 0 <= col < cfg.cols
    requires s.board[row][col] != 0 && s.kinds[row][col] == Magnetic
    ensures var e := Effect(cfg, s, row, col);
            var owner := s.board[row][col];
            && e.after.kinds[row][col] == Ordinary
            && e.after.current == s.current && e.after.p1 == s.p1 && e.after.p2 == s.p2
            && (row == 0 || s.board[row - 1][col] == owner ==>
                  && e.changed == [(row, col)]
                  && e.after.board == s.board
                  && e.after.kinds == Set(s.kinds, row, col, Ordinary))
            && (row > 0 && s.board[row - 1][col] != owner ==>
                  var i := MagnetTarget(s.board, s.kinds, col, owner, Ordinary, row - 2);
                  && (forall k :: i < k <= row - 2 ==> !(s.board[k][col] == owner && s.kinds[k][col] == Ordinary))
                  && (i == -1 ==>
                        e.changed == [(row, col)] && e.after.board == s.board
                        && e.after.kinds == Set(s.kinds, row, col, Ordinary))
                  && (i != -1 ==>
                        && 0 <= i <= row - 2
                        && e.changed == [(row, col), (i + 1, col), (i, col)]
                        && e.after.board[i + 1][col] == owner && e.after.kinds[i + 1][col] == Ordinary
                        && e.after.board[i][col] == s.board[i + 1][col] && e.after.kinds[i][col] == s.kinds[i + 1][col]
                        && e.after.board[row][col] == owner
                        && (forall r, c ::
                              (0 <= r < cfg.rows && 0 <= c < cfg.cols && (c != col || (r != i && r != i + 1 && r != row)))
                              ==> e.after.board[r][c] == s.board[r][c] && e.after.kinds[r][c] == s.kinds[r][c])))
  {
  }

  /** Every effect keeps the board settled and leaves no stale kind on an unowned cell. */
  lemma EffectKeepsInvariant(cfg: Config, s: State<DiscType>, row: int, col: int)
    requires WellFormed(cfg, s) && 0 <= row < cfg.rows && 0 <= col < cfg.cols
    requires Settled(s.board) && KindsCleared(s.board, s.kinds, Ordinary)
    ensures var e := Effect(cfg, s, row, col);
            Settled(e.after.board) && KindsCleared(e.after.board, e.after.kinds, Ordinary)
  {
    var owner := s.board[row][col];
    if owner != 0 {
      match s.kinds[row][col]
      case Ordinary =>
      case Boring =>
        ResetColumnKeepsSettled(s.board, cfg.rows, cfg.cols, col, owner);
      case Magnetic =>
        MagneticKeepsInvariant(cfg, s, row, col);
    }
  }

  /** The magnetic part of EffectKeepsInvariant: the pull only exchanges two owned cells. */
  lemma MagneticKeepsInvariant(cfg: Config, s: State<DiscType>, row: int, col: int)
    requires WellFormed(cfg, s) && 0 <= row < cfg.rows && 0 <= col < cfg.cols
    requires Settled(s.board) && KindsCleared(s.board, s.kinds, Ordinary) && s.board[row][col] != 0
    ensures var e := MagneticOutcome(cfg, s, row, col);
            Settled(e.after.board) && KindsCleared(e.after.board, e.after.kinds, Ordinary)
  {
    var owner := s.board[row][col];
    if row > 0 && s.board[row - 1][col] != owner {
      var i := MagnetTarget(s.board, s.kinds, col, owner, Ordinary, row - 2);
      if i != -1 {
        OwnedBelow(s.board, cfg.rows, cfg.cols, row, col, i + 1);
        SwapKeepsSettled(s.board, cfg.rows, cfg.cols, i, col);
      }
    }
  }

  /**
   * The probe: playing kind `t` in `col` is possible (playable column, kind in stock) and
   * after the drop and its effect the mover has a winning changed cell and the opponent none.
   */
  predicate WinsNow(cfg: Config, s: State<DiscType>, col: int, t: DiscType)
    requires WellFormed(cfg, s)
  {
    && ColumnPlayable(cfg, s, col)
    && Has(CurrentStock(s), SlotOf(t))
    && match Drop(cfg, s, col, t, SlotOf(t))
       case Rejected => false
       case Dropped(row, placed) =>
         var e := Effect(cfg, placed, row, col);
         AnyWinFor(e.after.board, cfg.winLen, e.changed, placed.current)
           && !AnyWinFor(e.after.board, cfg.winLen, e.changed, Other(placed.current))
  }

  /** A winning probe needs a playable column and a held kind. */
  lemma WinsNowNeedsLegalMove(cfg: Config, s: State<DiscType>, col: int, t: DiscType)
    requires WellFormed(cfg, s) && WinsNow(cfg, s, col, t)
    ensures 0 <= col < cfg.cols && s.board[cfg.rows - 1][col] == 0 && Has(CurrentStock(s), SlotOf(t))
  {
  }

  /** When none of the first k held kinds wins, no kind before the k-th one wins. */
  lemma EarlierKindsLose(cfg: Config, s: State<DiscType>, j: int, kinds: seq<DiscType>, k: int)
    requires WellFormed(cfg, s) && kinds == HeldKinds(CurrentStock(s)) && 0 <= k < |kinds|
    requires forall i :: 0 <= i < k ==> !WinsNow(cfg, s, j, kinds[i])
    ensures forall u :: KindBefore(u, kinds[k]) ==> !WinsNow(cfg, s, j, u)
  {
    forall u | KindBefore(u, kinds[k])
      ensures !WinsNow(cfg, s, j, u)
    {
      if u in kinds {
        var i :| 0 <= i < |kinds| && kinds[i] == u;
        assert i < k;
      }
    }
  }

  /** When none of the held kinds wins in column j, no kind does. */
  lemma HeldKindsLose(cfg: Config, s: State<DiscType>, j: int, kinds: seq<DiscType>)
    requires WellFormed(cfg, s) && kinds == HeldKinds(CurrentStock(s))
    requires forall i :: 0 <= i < |kinds| ==> !WinsNow(cfg, s, j, kinds[i])
    ensures forall t :: !WinsNow(cfg, s, j, t)
  {
    forall t
      ensures !WinsNow(cfg, s, j, t)
    {
      if t in kinds {
        var i :| 0 <= i < |kinds| && kinds[i] == t;
      }
    }
  }

  /** No move in the columns before j wins, nor in column j: so none before j + 1 does. */
  lemma EarlierColumnsLose(cfg: Config, s: State<DiscType>, j: int)
    requires WellFormed(cfg, s)
    requires forall j', t :: j' < j ==> !WinsNow(cfg, s, j', t)
    requires forall t :: !WinsNow(cfg, s, j, t)
    ensures forall j', t :: j' < j + 1 ==> !WinsNow(cfg, s, j', t)
  {
  }

  /** The order of the search: by column, then by kind. */
  predicate MoveBefore(j: int, t: DiscType, col: int, u: DiscType) {
    j < col || (j == col && KindBefore(t, u))
  }
}
